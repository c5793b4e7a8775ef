/**
 * Bounded circular stack: a fixed array of `int` slots and a pointer that wraps around
 * instead of failing. `push` wraps when the advanced pointer reaches `stackSize - 1`, one
 * slot early, so push-driven wrap-around never uses the last slot.
 */
module CircularStack {
  import opened JavaInt

  /** The abstract value of a stack: its slots and its stack pointer. */
  datatype Ring = Ring(slots: seq<int32>, pointer: int) {

    ghost predicate Valid()
    {
      |slots| >= 1 && 0 <= pointer < |slots|
    }

    /**
     * `push(v)`: writes `v` at the pointer, then advances the pointer, resetting it to 0 once
     * it reaches `|slots| - 1`. Only the slot under the old pointer changes.
     */
    function Push(v: int32): (r: Ring)
      requires Valid()
      ensures r.Valid() && |r.slots| == |slots|
      ensures r.slots[pointer] == v
      ensures forall i :: 0 <= i < |slots| && i != pointer ==> r.slots[i] == slots[i]
    {
      var p := pointer + 1;
      Ring(slots[pointer := v], if p >= |slots| - 1 then 0 else p)
    }

    /**
     * `pop()`: moves the pointer back by one, wrapping from 0 to the last slot, and returns
     * the slot under the new pointer. The slots do not change.
     */
    function Pop(): (r: (Ring, int32))
      requires Valid()
      ensures r.0.Valid() && r.0.slots == slots
      ensures r.1 == slots[r.0.pointer]
    {
      var p := pointer - 1;
      var q := if p < 0 then |slots| - 1 else p;
      (Ring(slots, q), slots[q])
    }
  }

  /**
   * Push moves the pointer forward modulo `|slots| - 1`, the wrap threshold; from the last
   * slot, which only a pop can reach, it goes to 0. Push never leaves the pointer on the last
   * slot unless there is only one.
   */
  lemma PushPointer(r: Ring, v: int32)
    requires r.Valid()
    ensures |r.slots| >= 2 && r.pointer < |r.slots| - 1 ==>
      r.Push(v).pointer == (r.pointer + 1) % (|r.slots| - 1)
    ensures r.pointer == |r.slots| - 1 ==> r.Push(v).pointer == 0
    ensures r.Push(v).pointer < |r.slots| - 1 || |r.slots| == 1
  {
  }

  /** Pop moves the pointer back by one modulo the number of slots. */
  lemma PopPointer(r: Ring)
    requires r.Valid()
    ensures r.Pop().0.pointer == (r.pointer - 1) % |r.slots|
  {
  }

  /** The stack a constructor builds: every slot 0 and the pointer at 0. */
  function Fresh(size: int): (r: Ring)
    requires size >= 1
    ensures r.Valid() && |r.slots| == size && r.pointer == 0
    ensures forall i :: 0 <= i < size ==> r.slots[i] == 0
  {
    Ring(seq(size, _ => 0), 0)
  }

  /**
   * A push followed by a pop returns the pushed value and restores the pointer, except when
   * the pointer stood at `|slots| - 2`: that push wraps to 0, and the pop then reads the last
   * slot, which the push did not write.
   */
  lemma PushThenPop(r: Ring, v: int32)
    requires r.Valid()
    ensures var (after, x) := r.Push(v).Pop();
      after.slots == r.Push(v).slots &&
      if r.pointer == |r.slots| - 2 then
        after.pointer == |r.slots| - 1 && x == r.slots[|r.slots| - 1]
      else
        after.pointer == r.pointer && x == v
  {
  }

  /** One stack operation, as the interpreter issues them. */
  datatype StackOp = PushOp(v: int32) | PopOp

  /** The stack after a sequence of operations; it never fails and its pointer stays in range. */
  function Apply(r: Ring, ops: seq<StackOp>): (s: Ring)
    requires r.Valid()
    ensures s.Valid() && |s.slots| == |r.slots|
    decreases |ops|
  {
    if ops == [] then r
    else
      var next := match ops[0]
        case PushOp(v) => r.Push(v)
        case PopOp => r.Pop().0;
      Apply(next, ops[1..])
  }

  /** The stack after pushing each of `vs` in turn. */
  function PushAll(r: Ring, vs: seq<int32>): (s: Ring)
    requires r.Valid()
    ensures s.Valid() && |s.slots| == |r.slots|
    decreases |vs|
  {
    if vs == [] then r else PushAll(r.Push(vs[0]), vs[1..])
  }

  /** Pushing is the push-only case of `Apply`. */
  lemma {:induction false} PushAllIsApply(r: Ring, vs: seq<int32>)
    requires r.Valid()
    ensures PushAll(r, vs) == Apply(r, seq(|vs|, i requires 0 <= i < |vs| => PushOp(vs[i])))
    decreases |vs|
  {
    var ops := seq(|vs|, i requires 0 <= i < |vs| => PushOp(vs[i]));
    if vs != [] {
      PushAllIsApply(r.Push(vs[0]), vs[1..]);
      assert ops[1..] == seq(|vs[1..]|, i requires 0 <= i < |vs[1..]| => PushOp(vs[1..][i]));
    }
  }

  /**
   * From a fresh stack, fewer than `size - 1` pushes fill the slots from 0 upwards and leave
   * the pointer just past the last one written.
   */
  lemma {:induction false} PushesFillFromZero(size: int, vs: seq<int32>)
    requires size >= 2 && |vs| < size - 1
    ensures PushAll(Fresh(size), vs).pointer == |vs|
    ensures forall i :: 0 <= i < |vs| ==> PushAll(Fresh(size), vs).slots[i] == vs[i]
    ensures forall i :: |vs| <= i < size ==> PushAll(Fresh(size), vs).slots[i] == 0
    decreases |vs|
  {
    if vs != [] {
      var init, last := vs[..|vs| - 1], vs[|vs| - 1];
      assert vs == init + [last];
      PushesFillFromZero(size, init);
      PushAllSnoc(Fresh(size), init, last);
    }
  }

  /** Pushing one more value is one more `Push` at the end. */
  lemma {:induction false} PushAllSnoc(r: Ring, vs: seq<int32>, x: int32)
    requires r.Valid()
    ensures PushAll(r, vs + [x]) == PushAll(r, vs).Push(x)
    decreases |vs|
  {
    if vs != [] {
      assert (vs + [x])[1..] == vs[1..] + [x];
      PushAllSnoc(r.Push(vs[0]), vs[1..], x);
    } else {
      assert (vs + [x])[1..] == [];
    }
  }

  /**
   * From a fresh stack of at least two slots, `size - 1` pushes bring the pointer back to 0:
   * the values sit in slots `0 .. size - 2`, the last slot is still 0, and the next push
   * overwrites slot 0.
   */
  lemma WrapAfterSizeMinusOnePushes(size: int, vs: seq<int32>, next: int32)
    requires size >= 2 && |vs| == size - 1
    ensures PushAll(Fresh(size), vs).pointer == 0
    ensures forall i :: 0 <= i < size - 1 ==> PushAll(Fresh(size), vs).slots[i] == vs[i]
    ensures PushAll(Fresh(size), vs).slots[size - 1] == 0
    ensures PushAll(Fresh(size), vs).Push(next).slots[0] == next
  {
    var init, last := vs[..size - 2], vs[size - 2];
    assert vs == init + [last];
    PushesFillFromZero(size, init);
    PushAllSnoc(Fresh(size), init, last);
  }

  class Stack {
    const internalStack: array<int32>
    const stackSize: int32
    var stackPointer: int32

    ghost predicate Valid()
      reads this
    {
      internalStack.Length == stackSize as int && 1 <= stackSize && 0 <= stackPointer < stackSize
    }

    /** The stack's abstract value. */
    ghost function Abstract(): (r: Ring)
      reads this, internalStack
      requires Valid()
      ensures r.Valid()
    {
      Ring(internalStack[..], stackPointer as int)
    }

    /** A stack of `stackSize` zero slots with the pointer at 0. */
    constructor (stackSize: int32)
      requires stackSize >= 1
      ensures Valid() && this.stackSize == stackSize && fresh(internalStack)
      ensures Abstract() == Fresh(stackSize as int)
    {
      this.stackSize := stackSize;
      internalStack := new int32[stackSize](_ => 0);
      stackPointer := 0;
    }

    method Push(number: int32)
      requires Valid()
      modifies this, internalStack
      ensures Valid() && Abstract() == old(Abstract()).Push(number)
    {
      internalStack[stackPointer] := number;
      stackPointer := stackPointer + 1;
      if stackPointer >= stackSize - 1 {
        stackPointer := 0;
      }
    }

    method Pop() returns (v: int32)
      requires Valid()
      modifies this
      ensures Valid() && (Abstract(), v) == old(Abstract()).Pop()
    {
      stackPointer := stackPointer - 1;
      if stackPointer < 0 {
        stackPointer := stackSize - 1;
      }
      return internalStack[stackPointer];
    }
  }
}
