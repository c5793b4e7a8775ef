/**
 * The execution engine as a value-level specification: the machine state, one iteration of
 * the fetch-decode-execute loop (`Step`) and the loop itself (`Run`). The imperative
 * `Interpreter` class is proved against these functions.
 */
module Semantics {
  import opened JavaInt
  import opened Faults
  import LinearMemory
  import opened CircularStack

  const STACK_SIZE: int32 := 128
  const CALL_STACK_SIZE: int32 := 64
  const MEM_SIZE: int32 := 65536
  /** The bound the register check compares against; the register bank has this many cells. */
  const MAX_REGISTERS: int32 := 8
  const FLAG_COUNT := 4
  const ZERO_FLAG := 0
  const CARRY_FLAG := 1
  const SIGN_FLAG := 2

  /** Instruction ids. */
  const OUT: int32 := 0
  const HLT: int32 := 1
  const MOV: int32 := 2
  const LDM: int32 := 3
  const LDI: int32 := 4
  const STV: int32 := 5
  const POP: int32 := 6
  const PSH: int32 := 7

  /** The engine state: program counter, register bank, flag bank, memory, both stacks, and the values OUT has emitted. */
  datatype Machine = Machine(
    pc: int,
    registers: seq<int32>,
    flags: seq<int32>,
    memory: seq<int32>,
    stack: Ring,
    callStack: Ring,
    output: seq<int32>)
  {
    ghost predicate Valid()
    {
      pc >= 0 && |registers| == MAX_REGISTERS as int && |flags| == FLAG_COUNT &&
      stack.Valid() && callStack.Valid()
    }
  }

  /** How a loop iteration, or the whole loop, ended. */
  datatype Status = Running | Halted | Faulted(fault: Fault) | Finished | OutOfFuel

  datatype Outcome = Outcome(status: Status, machine: Machine)

  /** The state the constructor builds, before the loop starts. */
  function Initial(): (m: Machine)
    ensures m.Valid() && m.pc == 0 && m.output == []
    ensures forall i :: 0 <= i < |m.registers| ==> m.registers[i] == 0
    ensures forall i :: 0 <= i < |m.flags| ==> m.flags[i] == 0
    ensures |m.memory| == MEM_SIZE as int && forall a :: 0 <= a < |m.memory| ==> m.memory[a] == 0
    ensures m.stack == Fresh(STACK_SIZE as int) && |m.stack.slots| == 128
    ensures m.callStack == Fresh(CALL_STACK_SIZE as int) && |m.callStack.slots| == 64
  {
    Machine(0, seq(MAX_REGISTERS as int, _ => 0), seq(FLAG_COUNT, _ => 0),
            seq(MEM_SIZE as int, _ => 0), Fresh(STACK_SIZE as int), Fresh(CALL_STACK_SIZE as int), [])
  }

  /** The test program the constructor loads into program memory. */
  const TEST_PROGRAM: seq<int32> := [
    LDI, 0x0, 0x123,
    MOV, 0x0, 0x1,
    OUT, 0x1,
    STV, 0x1, 0x0,
    LDM, 0x2, 0x0,
    OUT, 0x2,
    LDI, 0x3, 0x1,
    PSH, 0x3,
    POP, 0x4,
    OUT, 0x4
  ]

  /** The instruction set: the ids 0 to 7. */
  predicate IsOpcode(op: int32)
  {
    OUT <= op <= PSH
  }

  /** Operand count of each instruction, as the encoding defines it. */
  function OperandCount(op: int32): nat
    requires IsOpcode(op)
  {
    if op == HLT then 0
    else if op == OUT || op == POP || op == PSH then 1
    else 2
  }

  /** The number of program elements an instruction checks are present before decoding it. */
  function CheckedLength(op: int32): nat
    requires IsOpcode(op) && op != HLT
  {
    if op == LDI then 2 else 1 + OperandCount(op)
  }

  /** The register check: `register < 0 || register > MAX_REGISTERS`. */
  predicate FailsRegisterCheck(r: int32)
  {
    r < 0 || r > MAX_REGISTERS
  }

  /** `updateFlags`: the zero flag and the sign flag follow the value; the others keep theirs. */
  function UpdateFlags(flags: seq<int32>, last: int32): (f: seq<int32>)
    requires |flags| == FLAG_COUNT
    ensures |f| == FLAG_COUNT
    ensures f[ZERO_FLAG] == 1 <==> last == 0
    ensures f[ZERO_FLAG] == 0 <==> last != 0
    ensures f[SIGN_FLAG] == 1 <==> last < 0
    ensures f[SIGN_FLAG] == 0 <==> last >= 0
    ensures f[CARRY_FLAG] == flags[CARRY_FLAG] && f[3] == flags[3]
  {
    flags[ZERO_FLAG := if last == 0 then 1 else 0][SIGN_FLAG := if last < 0 then 1 else 0]
  }

  /** Java's array access `registers[r]`, which throws for an index outside the bank. */
  function Bank(m: Machine, r: int32): (res: Result<int32>)
    requires m.Valid()
    ensures res.Ok? <==> 0 <= r as int < MAX_REGISTERS as int
    ensures res.Ok? ==> res.value == m.registers[r]
  {
    if 0 <= r as int < |m.registers| then Ok(m.registers[r]) else Err(IndexOutOfBounds(r as int, |m.registers|))
  }

  /** What an executed instruction leaves behind: the new state and the last operation value. */
  datatype Executed = Executed(machine: Machine, last: int32)

  /**
   * The body of one switch case of the loop, without the flag update. Checks run in the
   * source's order: remaining length, operand fetch, register check, the Java array access
   * `registers[r]` (which faults for r == 8), then the memory or stack access.
   */
  function Execute(prog: seq<int32>, m: Machine): (res: Result<Executed>)
    requires m.Valid() && m.pc < |prog| && prog[m.pc] != HLT
    ensures res.Ok? ==> res.value.machine.Valid()
    // A case that matches nothing changes nothing and leaves the last operation value at 0.
    ensures !IsOpcode(prog[m.pc]) ==> res == Ok(Executed(m, 0))
  {
    var op := prog[m.pc];
    if op == OUT then ExecuteOut(prog, m)
    else if op == MOV then ExecuteMov(prog, m)
    else if op == LDM then ExecuteLdm(prog, m)
    else if op == LDI then ExecuteLdi(prog, m)
    else if op == STV then ExecuteStv(prog, m)
    else if op == POP then ExecutePop(prog, m)
    else if op == PSH then ExecutePsh(prog, m)
    else
      // No case matches: nothing happens and the last operation value stays 0.
      Ok(Executed(m, 0))
  }

  /** `case OUT`: prints a register; its value is the last operation value. */
  function ExecuteOut(prog: seq<int32>, m: Machine): (res: Result<Executed>)
    requires m.Valid() && m.pc < |prog|
    ensures res.Ok? ==> res.value.machine.Valid()
  {
    var pc := m.pc;
    if |prog| - pc < 2 then Err(UnfinishedInstruction(pc))
    else
      var r := prog[pc + 1];
      if FailsRegisterCheck(r) then Err(InvalidRegister(r as int))
      else if Bank(m, r).Err? then Err(Bank(m, r).fault)
      else
        var v := m.registers[r];
        Ok(Executed(m.(pc := pc + 2, output := m.output + [v]), v))
  }

  /** `case MOV`: copies the first register into the second; the second is indexed first. */
  function ExecuteMov(prog: seq<int32>, m: Machine): (res: Result<Executed>)
    requires m.Valid() && m.pc < |prog|
    ensures res.Ok? ==> res.value.machine.Valid()
  {
    var pc := m.pc;
    if |prog| - pc < 3 then Err(UnfinishedInstruction(pc))
    else
      var r1, r2 := prog[pc + 1], prog[pc + 2];
      if FailsRegisterCheck(r1) then Err(InvalidRegister(r1 as int))
      else if FailsRegisterCheck(r2) then Err(InvalidRegister(r2 as int))
      else if Bank(m, r2).Err? then Err(Bank(m, r2).fault)
      else if Bank(m, r1).Err? then Err(Bank(m, r1).fault)
      else
        var v := m.registers[r1];
        Ok(Executed(m.(pc := pc + 3, registers := m.registers[r2 := v]), v))
  }

  /** `case LDM`: loads a memory cell into a register; the bank is indexed before memory is read. */
  function ExecuteLdm(prog: seq<int32>, m: Machine): (res: Result<Executed>)
    requires m.Valid() && m.pc < |prog|
    ensures res.Ok? ==> res.value.machine.Valid()
  {
    var pc := m.pc;
    if |prog| - pc < 3 then Err(UnfinishedInstruction(pc))
    else
      var r, address := prog[pc + 1], prog[pc + 2];
      if FailsRegisterCheck(r) then Err(InvalidRegister(r as int))
      else if Bank(m, r).Err? then Err(Bank(m, r).fault)
      else
        var loaded := LinearMemory.Load(m.memory, address as int);
        if loaded.Err? then Err(loaded.fault)
        else Ok(Executed(m.(pc := pc + 3, registers := m.registers[r := loaded.value]), loaded.value))
  }

  /**
   * `case LDI`: loads a literal into a register. Only two remaining elements are checked for,
   * so a literal past the end of the program faults as a Java array access.
   */
  function ExecuteLdi(prog: seq<int32>, m: Machine): (res: Result<Executed>)
    requires m.Valid() && m.pc < |prog|
    ensures res.Ok? ==> res.value.machine.Valid()
  {
    var pc := m.pc;
    if |prog| - pc < 2 then Err(UnfinishedInstruction(pc))
    else
      var r := prog[pc + 1];
      if pc + 2 >= |prog| then Err(IndexOutOfBounds(pc + 2, |prog|))
      else
        var value := prog[pc + 2];
        if FailsRegisterCheck(r) then Err(InvalidRegister(r as int))
        else if Bank(m, r).Err? then Err(Bank(m, r).fault)
        else Ok(Executed(m.(pc := pc + 3, registers := m.registers[r := value]), value))
  }

  /** `case STV`: stores a register into a memory cell; the last operation value stays 0. */
  function ExecuteStv(prog: seq<int32>, m: Machine): (res: Result<Executed>)
    requires m.Valid() && m.pc < |prog|
    ensures res.Ok? ==> res.value.machine.Valid()
  {
    var pc := m.pc;
    if |prog| - pc < 3 then Err(UnfinishedInstruction(pc))
    else
      var r, address := prog[pc + 1], prog[pc + 2];
      if FailsRegisterCheck(r) then Err(InvalidRegister(r as int))
      else if Bank(m, r).Err? then Err(Bank(m, r).fault)
      else
        var stored := LinearMemory.Store(m.memory, address as int, m.registers[r]);
        if stored.Err? then Err(stored.fault)
        else Ok(Executed(m.(pc := pc + 3, memory := stored.value), 0))
  }

  /** `case POP`: pops the data stack into a register; the bank is indexed before the pop. */
  function ExecutePop(prog: seq<int32>, m: Machine): (res: Result<Executed>)
    requires m.Valid() && m.pc < |prog|
    ensures res.Ok? ==> res.value.machine.Valid()
  {
    var pc := m.pc;
    if |prog| - pc < 2 then Err(UnfinishedInstruction(pc))
    else
      var r := prog[pc + 1];
      if FailsRegisterCheck(r) then Err(InvalidRegister(r as int))
      else if Bank(m, r).Err? then Err(Bank(m, r).fault)
      else
        var (stack, v) := m.stack.Pop();
        Ok(Executed(m.(pc := pc + 2, registers := m.registers[r := v], stack := stack), v))
  }

  /** `case PSH`: pushes a register onto the data stack; its value is the last operation value. */
  function ExecutePsh(prog: seq<int32>, m: Machine): (res: Result<Executed>)
    requires m.Valid() && m.pc < |prog|
    ensures res.Ok? ==> res.value.machine.Valid()
  {
    var pc := m.pc;
    if |prog| - pc < 2 then Err(UnfinishedInstruction(pc))
    else
      var r := prog[pc + 1];
      if FailsRegisterCheck(r) then Err(InvalidRegister(r as int))
      else if Bank(m, r).Err? then Err(Bank(m, r).fault)
      else
        var v := m.registers[r];
        Ok(Executed(m.(pc := pc + 2, stack := m.stack.Push(v)), v))
  }

  /**
   * One iteration of the loop at a program counter inside the program. HLT returns at once;
   * a fault propagates; otherwise the instruction's effect is followed by the flag update.
   */
  function Step(prog: seq<int32>, m: Machine): (o: Outcome)
    requires m.Valid() && m.pc < |prog|
    ensures o.machine.Valid()
    ensures o.status.Running? || o.status.Halted? || o.status.Faulted?
    ensures o.status.Halted? <==> prog[m.pc] == HLT
    // Validation happens before mutation: neither HLT nor a faulting instruction changes anything.
    ensures !o.status.Running? ==> o.machine == m
    ensures o.status.Running? ==>
      o.machine.pc == m.pc + (if IsOpcode(prog[m.pc]) then 1 + OperandCount(prog[m.pc]) else 0)
  {
    if prog[m.pc] == HLT then Outcome(Halted, m)
    else
      var res := Execute(prog, m);
      if res.Err? then Outcome(Faulted(res.fault), m)
      else
        var e := res.value.machine;
        Outcome(Running, e.(flags := UpdateFlags(e.flags, res.value.last)))
  }

  /**
   * The loop from `m` on, for at most `fuel` iterations: it finishes when the program counter
   * leaves the program, returns on HLT, or stops at the first fault.
   */
  function Run(prog: seq<int32>, m: Machine, fuel: nat): (o: Outcome)
    requires m.Valid()
    ensures o.machine.Valid()
    ensures o.status.Finished? || o.status.Halted? || o.status.Faulted? || o.status.OutOfFuel?
    ensures o.status.Finished? <==> o.machine.pc >= |prog|
    ensures o.status.Halted? ==> prog[o.machine.pc] == HLT
    ensures o.status.Faulted? ==> o.machine.pc < |prog|
    ensures o.machine.pc >= m.pc
    ensures m.output <= o.machine.output
    ensures |o.machine.memory| == |m.memory|
    decreases fuel
  {
    if m.pc >= |prog| then Outcome(Finished, m)
    else if fuel == 0 then Outcome(OutOfFuel, m)
    else
      var o := Step(prog, m);
      if o.status.Running? then Run(prog, o.machine, fuel - 1) else o
  }
}
