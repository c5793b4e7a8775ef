/** What the execution engine guarantees, stated and proved on the step semantics. */
module EngineProperties {
  import opened JavaInt
  import opened Faults
  import LinearMemory
  import opened CircularStack
  import opened Semantics

  /** The last operation value of an instruction that executed without fault. */
  function LastValue(prog: seq<int32>, m: Machine): int32
    requires m.Valid() && m.pc < |prog| && prog[m.pc] != HLT && Execute(prog, m).Ok?
  {
    Execute(prog, m).value.last
  }

  /** One iteration of a loop that keeps running. */
  lemma RunStep(prog: seq<int32>, m: Machine, fuel: nat)
    requires m.Valid() && m.pc < |prog| && fuel > 0 && Step(prog, m).status.Running?
    ensures Run(prog, m, fuel) == Run(prog, Step(prog, m).machine, fuel - 1)
  {
  }

  // ---------------------------------------------------------------- flags

  /**
   * After every iteration that does not halt or fault, the zero flag is 1 exactly when the
   * last operation value is 0, the sign flag is 1 exactly when it is negative, and the carry
   * flag and the fourth flag keep their values.
   */
  lemma FlagsFollowLastValue(prog: seq<int32>, m: Machine)
    requires m.Valid() && m.pc < |prog| && Step(prog, m).status.Running?
    ensures prog[m.pc] != HLT && Execute(prog, m).Ok?
    ensures var f, v := Step(prog, m).machine.flags, LastValue(prog, m);
      f[ZERO_FLAG] == (if v == 0 then 1 else 0) &&
      f[SIGN_FLAG] == (if v < 0 then 1 else 0) &&
      f[CARRY_FLAG] == m.flags[CARRY_FLAG] && f[3] == m.flags[3]
  {
  }

  // ---------------------------------------------------------------- termination

  /** HLT returns at once: nothing after it runs, and pc and flags stay as they were. */
  lemma HaltStopsRun(prog: seq<int32>, m: Machine, fuel: nat)
    requires m.Valid() && m.pc < |prog| && prog[m.pc] == HLT && fuel > 0
    ensures Run(prog, m, fuel) == Outcome(Halted, m)
  {
  }

  /**
   * An id outside the instruction set matches no case: it leaves the program counter where it
   * is and recomputes the flags from 0, so the loop never makes progress and only runs out of
   * fuel, stuck at the same program counter.
   */
  lemma {:induction false} UnknownOpcodeSpins(prog: seq<int32>, m: Machine, fuel: nat)
    requires m.Valid() && m.pc < |prog| && !IsOpcode(prog[m.pc])
    ensures Run(prog, m, fuel).status == OutOfFuel
    ensures Run(prog, m, fuel).machine.pc == m.pc
    ensures Run(prog, m, fuel).machine.registers == m.registers
    ensures Run(prog, m, fuel).machine.memory == m.memory
    decreases fuel
  {
    if fuel > 0 {
      var next := Step(prog, m).machine;
      assert next == m.(flags := UpdateFlags(m.flags, 0));
      UnknownOpcodeSpins(prog, next, fuel - 1);
    }
  }

  // ---------------------------------------------------------------- operand checks

  /**
   * UnfinishedInstruction(pc) is raised exactly when an instruction other than HLT finds fewer
   * program elements left than it checks for: 2 for OUT, POP, PSH and LDI, 3 for MOV, LDM, STV.
   */
  lemma UnfinishedExactly(prog: seq<int32>, m: Machine)
    requires m.Valid() && m.pc < |prog|
    ensures Step(prog, m).status == Faulted(UnfinishedInstruction(m.pc)) <==>
      IsOpcode(prog[m.pc]) && prog[m.pc] != HLT && |prog| - m.pc < CheckedLength(prog[m.pc])
  {
  }

  /** LDI checks for two elements but reads a third: with exactly two left it faults on the array. */
  lemma LdiReadsPastEnd(prog: seq<int32>, m: Machine)
    requires m.Valid() && m.pc < |prog| && prog[m.pc] == LDI && |prog| - m.pc == 2
    ensures Step(prog, m) == Outcome(Faulted(IndexOutOfBounds(m.pc + 2, |prog|)), m)
  {
  }

  /** Instructions with a single register operand, which comes right after the opcode. */
  predicate OneRegister(op: int32)
  {
    op == OUT || op == LDM || op == LDI || op == STV || op == POP || op == PSH
  }

  /** A register operand failing the check raises InvalidRegister(id) and changes nothing. */
  lemma InvalidRegisterFirst(prog: seq<int32>, m: Machine)
    requires m.Valid() && m.pc < |prog| && OneRegister(prog[m.pc])
    requires |prog| - m.pc >= 1 + OperandCount(prog[m.pc])
    requires FailsRegisterCheck(prog[m.pc + 1])
    ensures Step(prog, m) == Outcome(Faulted(InvalidRegister(prog[m.pc + 1] as int)), m)
  {
  }

  /** MOV checks its source register before its destination register. */
  lemma MovChecksSourceFirst(prog: seq<int32>, m: Machine)
    requires m.Valid() && m.pc < |prog| && prog[m.pc] == MOV && |prog| - m.pc >= 3
    requires FailsRegisterCheck(prog[m.pc + 1]) || FailsRegisterCheck(prog[m.pc + 2])
    ensures Step(prog, m) == Outcome(Faulted(InvalidRegister(
      (if FailsRegisterCheck(prog[m.pc + 1]) then prog[m.pc + 1] else prog[m.pc + 2]) as int)), m)
  {
  }

  /**
   * The register check admits 8, one past the eight-cell bank: any instruction naming
   * register 8 passes it and then faults on the array access, changing nothing.
   */
  lemma RegisterEightFaults(prog: seq<int32>, m: Machine)
    requires m.Valid() && m.pc < |prog| && OneRegister(prog[m.pc])
    requires |prog| - m.pc >= 1 + OperandCount(prog[m.pc])
    requires prog[m.pc + 1] == MAX_REGISTERS
    ensures !FailsRegisterCheck(MAX_REGISTERS)
    ensures Step(prog, m) == Outcome(Faulted(IndexOutOfBounds(8, 8)), m)
  {
  }

  /**
   * MOV's two register checks admit 8 as well: when either operand is 8 the array access
   * faults, changing nothing. The destination is indexed first, so it is the one reported
   * when both are 8, and the payload is 8 either way.
   */
  lemma MovRegisterEightFaults(prog: seq<int32>, m: Machine)
    requires m.Valid() && m.pc < |prog| && prog[m.pc] == MOV && |prog| - m.pc >= 3
    requires !FailsRegisterCheck(prog[m.pc + 1]) && !FailsRegisterCheck(prog[m.pc + 2])
    requires prog[m.pc + 1] == MAX_REGISTERS || prog[m.pc + 2] == MAX_REGISTERS
    ensures Step(prog, m) == Outcome(Faulted(IndexOutOfBounds(8, 8)), m)
  {
  }

  // ---------------------------------------------------------------- instruction effects

  /** The operands of an instruction at `m.pc` are present and name registers of the bank. */
  predicate WellFormedAt(prog: seq<int32>, m: Machine)
    requires m.Valid() && m.pc < |prog|
  {
    var op := prog[m.pc];
    IsOpcode(op) && op != HLT && |prog| - m.pc >= 1 + OperandCount(op) &&
    (OneRegister(op) ==> 0 <= prog[m.pc + 1] < MAX_REGISTERS) &&
    (op == MOV ==> 0 <= prog[m.pc + 1] < MAX_REGISTERS && 0 <= prog[m.pc + 2] < MAX_REGISTERS)
  }

  /** OUT emits the register's value and changes no register, memory or stack. */
  lemma OutEffect(prog: seq<int32>, m: Machine)
    requires m.Valid() && m.pc < |prog| && prog[m.pc] == OUT && WellFormedAt(prog, m)
    ensures var n, r := Step(prog, m).machine, prog[m.pc + 1];
      Step(prog, m).status == Running && LastValue(prog, m) == m.registers[r] &&
      n.output == m.output + [m.registers[r]] && n.pc == m.pc + 2 &&
      n.registers == m.registers && n.memory == m.memory && n.stack == m.stack
  {
  }

  /** MOV copies the source register into the destination and changes nothing else. */
  lemma MovEffect(prog: seq<int32>, m: Machine)
    requires m.Valid() && m.pc < |prog| && prog[m.pc] == MOV && WellFormedAt(prog, m)
    ensures var n, src, dst := Step(prog, m).machine, prog[m.pc + 1], prog[m.pc + 2];
      Step(prog, m).status == Running && LastValue(prog, m) == n.registers[dst] &&
      n.registers[dst] == m.registers[src] && n.pc == m.pc + 3 &&
      (forall i :: 0 <= i < |m.registers| && i != dst as int ==> n.registers[i] == m.registers[i]) &&
      n.memory == m.memory && n.stack == m.stack && n.output == m.output
  {
  }

  /** LDM loads a memory cell into the register, or raises IllegalAddress and changes nothing. */
  lemma LdmEffect(prog: seq<int32>, m: Machine)
    requires m.Valid() && m.pc < |prog| && prog[m.pc] == LDM && WellFormedAt(prog, m)
    ensures var o, r, a := Step(prog, m), prog[m.pc + 1], prog[m.pc + 2] as int;
      if 0 <= a < |m.memory| then
        o.status == Running && LastValue(prog, m) == o.machine.registers[r] &&
        o.machine.registers[r] == m.memory[a] && o.machine.pc == m.pc + 3 &&
        (forall i :: 0 <= i < |m.registers| && i != r as int ==> o.machine.registers[i] == m.registers[i]) &&
        o.machine.memory == m.memory && o.machine.stack == m.stack && o.machine.output == m.output
      else
        o == Outcome(Faulted(IllegalAddress(a, |m.memory|)), m)
  {
  }

  /** LDI loads the literal into the register and changes nothing else. */
  lemma LdiEffect(prog: seq<int32>, m: Machine)
    requires m.Valid() && m.pc < |prog| && prog[m.pc] == LDI && WellFormedAt(prog, m)
    ensures var n, r := Step(prog, m).machine, prog[m.pc + 1];
      Step(prog, m).status == Running && LastValue(prog, m) == n.registers[r] &&
      n.registers[r] == prog[m.pc + 2] && n.pc == m.pc + 3 &&
      (forall i :: 0 <= i < |m.registers| && i != r as int ==> n.registers[i] == m.registers[i]) &&
      n.memory == m.memory && n.stack == m.stack && n.output == m.output
  {
  }

  /**
   * STV stores the register into one memory cell, with last operation value 0, or raises
   * IllegalAddress and changes nothing.
   */
  lemma StvEffect(prog: seq<int32>, m: Machine)
    requires m.Valid() && m.pc < |prog| && prog[m.pc] == STV && WellFormedAt(prog, m)
    ensures var o, r, a := Step(prog, m), prog[m.pc + 1], prog[m.pc + 2] as int;
      if 0 <= a < |m.memory| then
        o.status == Running && LastValue(prog, m) == 0 &&
        |o.machine.memory| == |m.memory| && o.machine.memory[a] == m.registers[r] &&
        (forall b :: 0 <= b < |m.memory| && b != a ==> o.machine.memory[b] == m.memory[b]) &&
        o.machine.pc == m.pc + 3 &&
        o.machine.registers == m.registers && o.machine.stack == m.stack && o.machine.output == m.output
      else
        o == Outcome(Faulted(IllegalAddress(a, |m.memory|)), m)
  {
  }

  /** POP moves the popped value into the register; only that register and the stack change. */
  lemma PopEffect(prog: seq<int32>, m: Machine)
    requires m.Valid() && m.pc < |prog| && prog[m.pc] == POP && WellFormedAt(prog, m)
    ensures var n, r := Step(prog, m).machine, prog[m.pc + 1];
      Step(prog, m).status == Running && LastValue(prog, m) == n.registers[r] &&
      (n.stack, n.registers[r]) == m.stack.Pop() && n.pc == m.pc + 2 &&
      (forall i :: 0 <= i < |m.registers| && i != r as int ==> n.registers[i] == m.registers[i]) &&
      n.memory == m.memory && n.output == m.output
  {
  }

  /** PSH pushes the register's value; only the stack changes. */
  lemma PshEffect(prog: seq<int32>, m: Machine)
    requires m.Valid() && m.pc < |prog| && prog[m.pc] == PSH && WellFormedAt(prog, m)
    ensures var n, r := Step(prog, m).machine, prog[m.pc + 1];
      Step(prog, m).status == Running && LastValue(prog, m) == m.registers[r] &&
      n.stack == m.stack.Push(m.registers[r]) && n.pc == m.pc + 2 &&
      n.registers == m.registers && n.memory == m.memory && n.output == m.output
  {
  }

  /** The call stack is storage only: no iteration ever changes it. */
  lemma {:induction false} CallStackUntouched(prog: seq<int32>, m: Machine, fuel: nat)
    requires m.Valid()
    ensures Run(prog, m, fuel).machine.callStack == m.callStack
    decreases fuel
  {
    if m.pc < |prog| && fuel > 0 && Step(prog, m).status.Running? {
      CallStackUntouched(prog, Step(prog, m).machine, fuel - 1);
    }
  }
}
