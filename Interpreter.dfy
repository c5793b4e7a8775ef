/**
 * The execution engine as the source builds it: an object owning a bank of eight register
 * cells, four flag cells, a memory, a data stack, a call stack and the program, whose loop
 * advances a program counter field. Each method is proved against the step semantics.
 */
module Engine {
  import opened JavaInt
  import opened Faults
  import opened RegisterCell
  import LinearMemory
  import opened CircularStack
  import opened Semantics
  import EngineProperties
  import Programs

  /** The values held by a bank of cells, in order. */
  ghost function Values(cells: seq<Register>): (s: seq<int32>)
    reads cells
    ensures |s| == |cells| && forall i :: 0 <= i < |cells| ==> s[i] == cells[i].value
  {
    seq(|cells|, i requires 0 <= i < |cells| reads cells => cells[i].value)
  }

  /** No cell of a bank appears twice. */
  ghost predicate Distinct(cells: seq<Register>)
  {
    forall i, j :: 0 <= i < j < |cells| ==> cells[i] != cells[j]
  }

  /** No cell belongs to both banks. */
  ghost predicate Disjoint(a: seq<Register>, b: seq<Register>)
  {
    forall i, j :: 0 <= i < |a| && 0 <= j < |b| ==> a[i] != b[j]
  }

  class Interpreter {
    /** Never negative: it starts at 0 and only grows. */
    var programCounter: nat
    const stack: Stack
    const callStack: Stack
    const memory: LinearMemory.Memory
    /**
     * The two banks. The source's arrays are final and their elements are filled once by the
     * constructor, so each bank is a fixed sequence of cells.
     */
    const registers: seq<Register>
    const flags: seq<Register>
    const progMem: array<int32>
    /** The values OUT has printed, in order. */
    var output: seq<int32>

    /** How the engine's parts are laid out: sizes, and no two parts sharing an object. */
    ghost predicate Layout()
    {
      |registers| == MAX_REGISTERS as int && |flags| == FLAG_COUNT &&
      Distinct(registers) && Distinct(flags) && Disjoint(registers, flags) &&
      stack != callStack && stack.internalStack != callStack.internalStack &&
      memory.internalMemory != stack.internalStack && memory.internalMemory != callStack.internalStack &&
      progMem != memory.internalMemory && progMem != stack.internalStack
    }

    ghost predicate Valid()
      reads stack, callStack
    {
      Layout() && stack.Valid() && callStack.Valid() && memory.Valid()
    }

    /** The engine's state as a value of the step semantics. */
    ghost function State(): (m: Machine)
      reads this, registers, flags, memory.internalMemory
      reads stack, stack.internalStack, callStack, callStack.internalStack
      requires Valid()
      ensures m.Valid()
    {
      Machine(programCounter, Values(registers), Values(flags), memory.internalMemory[..],
              stack.Abstract(), callStack.Abstract(), output)
    }

    /**
     * Builds the stacks and the memory, fills both banks with fresh zero cells, and loads the
     * test program.
     */
    constructor ()
      ensures Valid()
      ensures progMem[..] == TEST_PROGRAM
      ensures State() == Initial()
      ensures fresh(stack) && fresh(stack.internalStack) && fresh(memory.internalMemory)
      ensures forall i :: 0 <= i < |registers| ==> fresh(registers[i])
      ensures forall i :: 0 <= i < |flags| ==> fresh(flags[i])
    {
      stack := new Stack(STACK_SIZE);
      callStack := new Stack(CALL_STACK_SIZE);
      memory := new LinearMemory.Memory(MEM_SIZE);
      var regs := NewCells(MAX_REGISTERS as int);
      var fl := NewCells(FLAG_COUNT);
      registers, flags := regs, fl;
      var prog := NewProgram(TEST_PROGRAM);
      progMem := prog;
      programCounter, output := 0, [];
      new;
      ZeroValues(registers);
      ZeroValues(flags);
    }

    /** The program-side view of what an opcode method did: its effect and last value, or its fault. */
    ghost function AsExecuted(r: Result<int32>): Result<Semantics.Executed>
      reads this, registers, flags, memory.internalMemory
      reads stack, stack.internalStack, callStack, callStack.internalStack
      requires Valid()
    {
      if r.Ok? then Ok(Semantics.Executed(State(), r.value)) else Err(r.fault)
    }

    /** `case OUT`: prints a register and reports its value. */
    method Out() returns (r: Result<int32>)
      requires Valid() && programCounter < progMem.Length && progMem[programCounter] == OUT
      modifies this
      ensures Valid() && AsExecuted(r) == ExecuteOut(progMem[..], old(State()))
      ensures r.Err? ==> State() == old(State())
    {
      if progMem.Length - programCounter < 2 {
        return Err(UnfinishedInstruction(programCounter));
      }
      var register := progMem[programCounter + 1];
      if register < 0 || register > MAX_REGISTERS {
        return Err(InvalidRegister(register as int));
      }
      if !(0 <= register as int < |registers|) {
        return Err(IndexOutOfBounds(register as int, |registers|));
      }
      var printed := registers[register as int].Read();
      output := output + [printed];
      var lastOperationVal := registers[register as int].Read();
      programCounter := programCounter + 2;
      return Ok(lastOperationVal);
    }

    /** `case MOV`: copies the first register into the second. */
    method Mov() returns (r: Result<int32>)
      requires Valid() && programCounter < progMem.Length && progMem[programCounter] == MOV
      modifies this, registers
      ensures Valid() && AsExecuted(r) == ExecuteMov(progMem[..], old(State()))
      ensures r.Err? ==> State() == old(State())
    {
      if progMem.Length - programCounter < 3 {
        return Err(UnfinishedInstruction(programCounter));
      }
      var register1 := progMem[programCounter + 1];
      var register2 := progMem[programCounter + 2];
      if register1 < 0 || register1 > MAX_REGISTERS {
        return Err(InvalidRegister(register1 as int));
      }
      if register2 < 0 || register2 > MAX_REGISTERS {
        return Err(InvalidRegister(register2 as int));
      }
      // `registers[register2].write(registers[register1].read())` indexes register2 first.
      if !(0 <= register2 as int < |registers|) {
        return Err(IndexOutOfBounds(register2 as int, |registers|));
      }
      if !(0 <= register1 as int < |registers|) {
        return Err(IndexOutOfBounds(register1 as int, |registers|));
      }
      var v := registers[register1 as int].Read();
      WriteCell(registers, register2 as int, v);
      var lastOperationVal := registers[register2 as int].Read();
      programCounter := programCounter + 3;
      return Ok(lastOperationVal);
    }

    /** `case LDM`: loads a memory cell into a register. */
    method Ldm() returns (r: Result<int32>)
      requires Valid() && programCounter < progMem.Length && progMem[programCounter] == LDM
      modifies this, registers
      ensures Valid() && AsExecuted(r) == ExecuteLdm(progMem[..], old(State()))
      ensures r.Err? ==> State() == old(State())
    {
      ghost var m := State();
      if progMem.Length - programCounter < 3 {
        return Err(UnfinishedInstruction(programCounter));
      }
      var register := progMem[programCounter + 1];
      var address := progMem[programCounter + 2];
      if register < 0 || register > MAX_REGISTERS {
        return Err(InvalidRegister(register as int));
      }
      // `registers[register].write(memory.read(address))` indexes the bank before reading memory.
      if !(0 <= register as int < |registers|) {
        return Err(IndexOutOfBounds(register as int, |registers|));
      }
      var loaded := memory.Read(address);
      if loaded.Err? {
        return Err(loaded.fault);
      }
      WriteCell(registers, register as int, loaded.value);
      var lastOperationVal := registers[register as int].Read();
      programCounter := programCounter + 3;
      return Ok(lastOperationVal);
    }

    /** `case LDI`: loads a literal into a register. */
    method Ldi() returns (r: Result<int32>)
      requires Valid() && programCounter < progMem.Length && progMem[programCounter] == LDI
      modifies this, registers
      ensures Valid() && AsExecuted(r) == ExecuteLdi(progMem[..], old(State()))
      ensures r.Err? ==> State() == old(State())
    {
      if progMem.Length - programCounter < 2 {
        return Err(UnfinishedInstruction(programCounter));
      }
      var register := progMem[programCounter + 1];
      // Only two elements were checked for; the literal may lie past the end of the program.
      if programCounter + 2 >= progMem.Length {
        return Err(IndexOutOfBounds(programCounter + 2, progMem.Length));
      }
      var value := progMem[programCounter + 2];
      if register < 0 || register > MAX_REGISTERS {
        return Err(InvalidRegister(register as int));
      }
      if !(0 <= register as int < |registers|) {
        return Err(IndexOutOfBounds(register as int, |registers|));
      }
      WriteCell(registers, register as int, value);
      var lastOperationVal := registers[register as int].Read();
      programCounter := programCounter + 3;
      return Ok(lastOperationVal);
    }

    /** `case STV`: stores a register into a memory cell; the last value stays 0. */
    method Stv() returns (r: Result<int32>)
      requires Valid() && programCounter < progMem.Length && progMem[programCounter] == STV
      modifies this, memory.internalMemory
      ensures Valid() && AsExecuted(r) == ExecuteStv(progMem[..], old(State()))
      ensures r.Err? ==> State() == old(State())
    {
      if progMem.Length - programCounter < 3 {
        return Err(UnfinishedInstruction(programCounter));
      }
      var register := progMem[programCounter + 1];
      var address := progMem[programCounter + 2];
      if register < 0 || register > MAX_REGISTERS {
        return Err(InvalidRegister(register as int));
      }
      // The trace line reads `registers[register]` before memory is written.
      if !(0 <= register as int < |registers|) {
        return Err(IndexOutOfBounds(register as int, |registers|));
      }
      var v := registers[register as int].Read();
      var written := memory.Write(address, v);
      if written.Abrupt? {
        return Err(written.fault);
      }
      programCounter := programCounter + 3;
      return Ok(0);
    }

    /** `case POP`: pops the data stack into a register. */
    method Pop() returns (r: Result<int32>)
      requires Valid() && programCounter < progMem.Length && progMem[programCounter] == POP
      modifies this, stack, registers
      ensures Valid() && AsExecuted(r) == ExecutePop(progMem[..], old(State()))
      ensures r.Err? ==> State() == old(State())
    {
      ghost var m := State();
      if progMem.Length - programCounter < 2 {
        return Err(UnfinishedInstruction(programCounter));
      }
      var register := progMem[programCounter + 1];
      if register < 0 || register > MAX_REGISTERS {
        return Err(InvalidRegister(register as int));
      }
      // `registers[register].write(stack.pop())` indexes the bank before popping.
      if !(0 <= register as int < |registers|) {
        return Err(IndexOutOfBounds(register as int, |registers|));
      }
      var v := stack.Pop();
      WriteCell(registers, register as int, v);
      var lastOperationVal := registers[register as int].Read();
      programCounter := programCounter + 2;
      return Ok(lastOperationVal);
    }

    /** `case PSH`: pushes a register onto the data stack and reports its value. */
    method Psh() returns (r: Result<int32>)
      requires Valid() && programCounter < progMem.Length && progMem[programCounter] == PSH
      modifies this, stack, stack.internalStack
      ensures Valid() && AsExecuted(r) == ExecutePsh(progMem[..], old(State()))
      ensures r.Err? ==> State() == old(State())
    {
      ghost var m := State();
      if progMem.Length - programCounter < 2 {
        return Err(UnfinishedInstruction(programCounter));
      }
      var register := progMem[programCounter + 1];
      if register < 0 || register > MAX_REGISTERS {
        return Err(InvalidRegister(register as int));
      }
      // The trace line reads `registers[register]` before the push.
      if !(0 <= register as int < |registers|) {
        return Err(IndexOutOfBounds(register as int, |registers|));
      }
      var v := registers[register as int].Read();
      stack.Push(v);
      var lastOperationVal := registers[register as int].Read();
      programCounter := programCounter + 2;
      return Ok(lastOperationVal);
    }

    /** `updateFlags`: the zero flag and the sign flag follow the last value; nothing else changes. */
    method UpdateFlags(lastReturn: int32)
      requires Valid()
      modifies flags
      ensures Valid()
      ensures State() == old(State()).(flags := Semantics.UpdateFlags(old(State()).flags, lastReturn))
    {
      if lastReturn == 0 {
        WriteCell(flags, ZERO_FLAG, 1);
      } else {
        WriteCell(flags, ZERO_FLAG, 0);
      }
      if lastReturn < 0 {
        WriteCell(flags, SIGN_FLAG, 1);
      } else {
        WriteCell(flags, SIGN_FLAG, 0);
      }
    }

    /**
     * One iteration of the loop of `beginInterpreter`: the switch on the opcode at the program
     * counter, then the flag update. HLT returns; an exception propagates as a fault.
     */
    method Step() returns (status: Status)
      requires Valid() && programCounter < progMem.Length
      modifies this, registers, flags, stack, stack.internalStack, memory.internalMemory
      ensures Valid()
      ensures Outcome(status, State()) == Semantics.Step(progMem[..], old(State()))
    {
      var op := progMem[programCounter];
      if op == HLT {
        return Halted;
      }
      var r: Result<int32>;
      if op == OUT {
        r := Out();
      } else if op == MOV {
        r := Mov();
      } else if op == LDM {
        r := Ldm();
      } else if op == LDI {
        r := Ldi();
      } else if op == STV {
        r := Stv();
      } else if op == POP {
        r := Pop();
      } else if op == PSH {
        r := Psh();
      } else {
        // No case matches: the program counter stays put and the last value is 0.
        r := Ok(0);
      }
      if r.Err? {
        return Faulted(r.fault);
      }
      UpdateFlags(r.value);
      return Running;
    }

    /**
     * `beginInterpreter`: the loop from program counter 0 until it leaves the program, a HLT
     * returns or an instruction throws. The loop is given at most `fuel` iterations, since an
     * unknown opcode makes it spin.
     */
    method BeginInterpreter(fuel: nat) returns (status: Status)
      requires Valid()
      modifies this, registers, flags, stack, stack.internalStack, memory.internalMemory
      ensures Valid()
      ensures Outcome(status, State()) == Run(progMem[..], old(State()).(pc := 0), fuel)
    {
      programCounter := 0;
      ghost var prog := progMem[..];
      // Stated once here so the solver need not rediscover it for the invariant; it keeps this
      // method well inside the resource limit.
      assert State() == old(State()).(pc := 0);
      ghost var goal := Run(prog, State(), fuel);
      var budget := fuel;
      while programCounter < progMem.Length
        invariant Valid() && progMem[..] == prog
        invariant Run(prog, State(), budget) == goal
        decreases budget
      {
        if budget == 0 {
          return OutOfFuel;
        }
        ghost var before := State();
        status := Step();
        if !status.Running? {
          return status;
        }
        EngineProperties.RunStep(prog, before, budget);
        budget := budget - 1;
      }
      return Finished;
    }
  }

  /**
   * `main`: builds an engine and runs its loop. Given at least ten iterations, the test
   * program leaves the loop normally having printed 0x123 twice and then 1.
   */
  method RunTestProgram(fuel: nat) returns (status: Status, printed: seq<int32>)
    requires fuel >= 10
    ensures status == Finished && printed == [0x123, 0x123, 1]
  {
    var engine := new Interpreter();
    Programs.TestProgramRuns(fuel);
    status := engine.BeginInterpreter(fuel);
    printed := engine.output;
  }

  /** Program memory holding the elements of `p`. */
  method NewProgram(p: seq<int32>) returns (a: array<int32>)
    ensures fresh(a) && a[..] == p
  {
    a := new int32[|p|](i requires 0 <= i < |p| => p[i]);
  }

  lemma ZeroValues(cells: seq<Register>)
    requires forall i :: 0 <= i < |cells| ==> cells[i].value == 0
    ensures Values(cells) == seq(|cells|, _ => 0)
  {
  }

  /** `cells[i].write(v)`: only that cell changes. */
  method WriteCell(cells: seq<Register>, i: int, v: int32)
    requires 0 <= i < |cells| && Distinct(cells)
    modifies cells[i]
    ensures Values(cells) == old(Values(cells))[i := v]
  {
    cells[i].Write(v);
  }

  /** `n` fresh, distinct cells, each holding 0. */
  method NewCells(n: nat) returns (cells: seq<Register>)
    ensures |cells| == n && Distinct(cells)
    ensures forall i :: 0 <= i < n ==> fresh(cells[i]) && cells[i].value == 0
  {
    cells := [];
    while |cells| < n
      invariant |cells| <= n && Distinct(cells)
      invariant forall i :: 0 <= i < |cells| ==> fresh(cells[i]) && cells[i].value == 0
    {
      var cell := new Register(0);
      cells := cells + [cell];
    }
  }
}
