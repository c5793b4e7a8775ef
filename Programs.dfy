/** Whole programs run on the step semantics: the built-in test program and short idioms. */
module Programs {
  import opened JavaInt
  import opened Faults
  import opened CircularStack
  import opened Semantics
  import opened EngineProperties

  /** `p` holds the test program, element by element. */
  ghost predicate IsTestProgram(p: seq<int32>)
  {
    |p| == 25 &&
    p[0] == LDI && p[1] == 0 && p[2] == 0x123 &&
    p[3] == MOV && p[4] == 0 && p[5] == 1 &&
    p[6] == OUT && p[7] == 1 &&
    p[8] == STV && p[9] == 1 && p[10] == 0 &&
    p[11] == LDM && p[12] == 2 && p[13] == 0 &&
    p[14] == OUT && p[15] == 2 &&
    p[16] == LDI && p[17] == 3 && p[18] == 1 &&
    p[19] == PSH && p[20] == 3 &&
    p[21] == POP && p[22] == 4 &&
    p[23] == OUT && p[24] == 4
  }

  /** The program counter of the test program after `k` instructions. */
  function TestPc(k: nat): int
  {
    if k <= 2 then 3 * k
    else if k <= 5 then 3 * k - 1
    else if k <= 6 then 16
    else if k <= 7 then 19
    else 21 + 2 * (k - 8)
  }

  /** What the test program has emitted after `k` instructions. */
  function TestOutput(k: nat): seq<int32>
  {
    if k < 3 then [] else if k < 6 then [0x123] else if k < 10 then [0x123, 0x123] else [0x123, 0x123, 1]
  }

  /** The state the test program reaches after `k` instructions, as far as the rest of the run needs it. */
  ghost predicate TestState(m: Machine, k: nat)
  {
    k <= 10 && m.Valid() && |m.memory| == MEM_SIZE as int &&
    m.pc == TestPc(k) && m.output == TestOutput(k) &&
    (k >= 1 ==> m.registers[0] == 0x123) &&
    (k >= 2 ==> m.registers[1] == 0x123) &&
    (k >= 4 ==> m.memory[0] == 0x123) &&
    (k >= 5 ==> m.registers[2] == 0x123) &&
    (k >= 7 ==> m.registers[3] == 1) &&
    (k == 8 ==> m.stack == Fresh(STACK_SIZE as int).Push(1)) &&
    (k < 8 ==> m.stack == Fresh(STACK_SIZE as int)) &&
    (k >= 9 ==> m.registers[4] == 1)
  }

  /** Each of the ten instructions of the test program runs without fault. */
  lemma TestProgramStep(p: seq<int32>, m: Machine, k: nat)
    requires IsTestProgram(p) && k < 10 && TestState(m, k)
    ensures m.pc < |p| && Step(p, m).status == Running
    ensures TestState(Step(p, m).machine, k + 1)
  {
    if k == 0 { LdiEffect(p, m); }
    else if k == 1 { MovEffect(p, m); }
    else if k == 2 { OutEffect(p, m); }
    else if k == 3 { StvEffect(p, m); }
    else if k == 4 { LdmEffect(p, m); }
    else if k == 5 { OutEffect(p, m); }
    else if k == 6 { LdiEffect(p, m); }
    else if k == 7 { PshEffect(p, m); }
    else if k == 8 { PopEffect(p, m); }
    else { OutEffect(p, m); }
  }

  /** From the state after `k` instructions, the rest of the test program runs to the end. */
  lemma {:induction false} TestProgramRest(p: seq<int32>, m: Machine, k: nat, fuel: nat)
    requires IsTestProgram(p) && k <= 10 && TestState(m, k) && fuel >= 10 - k
    ensures var o := Run(p, m, fuel);
      o.status == Finished && o.machine.pc == 25 && o.machine.output == [0x123, 0x123, 1]
    decreases 10 - k
  {
    if k < 10 {
      TestProgramStep(p, m, k);
      RunStep(p, m, fuel);
      TestProgramRest(p, Step(p, m).machine, k + 1, fuel - 1);
    }
  }

  /**
   * The constructor's test program runs from the initial state to pc 25 without a fault,
   * emitting 0x123 from register 1, 0x123 from register 2 and 1 from register 4.
   */
  lemma TestProgramRuns(fuel: nat)
    requires fuel >= 10
    ensures var o := Run(TEST_PROGRAM, Initial(), fuel);
      o.status == Finished && o.machine.pc == 25 && o.machine.output == [0x123, 0x123, 1]
  {
    assert IsTestProgram(TEST_PROGRAM);
    TestProgramRest(TEST_PROGRAM, Initial(), 0, fuel);
  }

  /** `LDI r, v; OUT r` emits exactly `v`, for every register of the bank and every value. */
  lemma LdiThenOut(m: Machine, r: int32, v: int32)
    requires m.Valid() && m.pc == 0 && 0 <= r < MAX_REGISTERS
    ensures var o := Run([LDI, r, v, OUT, r], m, 2);
      o.status == Finished && o.machine.output == m.output + [v] && o.machine.registers[r] == v
  {
    var p := [LDI, r, v, OUT, r];
    RunStep(p, m, 2);
    RunStep(p, Step(p, m).machine, 1);
  }

  /** `LDI r1, v; MOV r1, r2` leaves `v` in both registers. */
  lemma MovIsCopy(m: Machine, r1: int32, r2: int32, v: int32)
    requires m.Valid() && m.pc == 0 && 0 <= r1 < MAX_REGISTERS && 0 <= r2 < MAX_REGISTERS
    ensures var o := Run([LDI, r1, v, MOV, r1, r2], m, 2);
      o.status == Finished && o.machine.registers[r1] == v && o.machine.registers[r2] == v
  {
    var p := [LDI, r1, v, MOV, r1, r2];
    RunStep(p, m, 2);
    RunStep(p, Step(p, m).machine, 1);
  }

  /** `LDI r, v; STV r, a; LDM r2, a` leaves `v` in `r2` for every address inside memory. */
  lemma StoreThenLoad(m: Machine, r: int32, r2: int32, v: int32, a: int32)
    requires m.Valid() && m.pc == 0 && 0 <= r < MAX_REGISTERS && 0 <= r2 < MAX_REGISTERS
    requires 0 <= a as int < |m.memory|
    ensures var o := Run([LDI, r, v, STV, r, a, LDM, r2, a], m, 3);
      o.status == Finished && o.machine.registers[r2] == v && o.machine.memory[a] == v
  {
    var p := [LDI, r, v, STV, r, a, LDM, r2, a];
    var m1 := Step(p, m).machine;
    var m2 := Step(p, m1).machine;
    RunStep(p, m, 3);
    RunStep(p, m1, 2);
    RunStep(p, m2, 1);
  }

  /** `LDM r, a` with `a` equal to the memory size raises IllegalAddress and changes nothing. */
  lemma LoadAtMemorySize(m: Machine, r: int32)
    requires m.Valid() && m.pc == 0 && 0 <= r < MAX_REGISTERS && |m.memory| == MEM_SIZE as int
    ensures Run([LDM, r, MEM_SIZE], m, 1) == Outcome(Faulted(IllegalAddress(65536, 65536)), m)
  {
  }

  /**
   * `LDI r, v; PSH r; POP r2` leaves `v` in `r2` unless the stack pointer stood at
   * `|slots| - 2`; then the push wraps to slot 0 and the pop reads the last slot.
   */
  lemma PushThenPopProgram(m: Machine, r: int32, r2: int32, v: int32)
    requires m.Valid() && m.pc == 0 && 0 <= r < MAX_REGISTERS && 0 <= r2 < MAX_REGISTERS
    ensures var o, s := Run([LDI, r, v, PSH, r, POP, r2], m, 3), m.stack;
      o.status == Finished &&
      o.machine.registers[r2] == if s.pointer == |s.slots| - 2 then s.slots[|s.slots| - 1] else v
  {
    var p := [LDI, r, v, PSH, r, POP, r2];
    var m1 := Step(p, m).machine;
    var m2 := Step(p, m1).machine;
    RunStep(p, m, 3);
    RunStep(p, m1, 2);
    RunStep(p, m2, 1);
    PushThenPop(m.stack, v);
  }
}
