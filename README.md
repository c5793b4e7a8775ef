# asm-interpreter in Dafny

A model of a small register virtual machine written in Java. The machine runs a flat program of
`int` elements, one opcode followed by its operands. Its parts:

- eight general registers and four flag cells, each a `Register` object holding a Java `int`;
- a bounds-checked linear memory of 65536 cells;
- a data stack of 128 slots whose pointer wraps around instead of failing;
- a call stack of 64 slots, which no instruction uses.

The loop in `beginInterpreter` fetches the opcode at the program counter and runs one of the
switch cases: OUT, HLT, MOV, LDM, LDI, STV, POP or PSH. Each case checks how many program elements
remain, reads its operands, checks register ids, then changes state and advances the program
counter by its own width. After each iteration the zero flag and the sign flag are recomputed
from the "last operation value".

The project has two layers.

- **Values.** `Semantics` describes the machine as a value. `Step` is one iteration of the loop
  and `Run` is the loop, with a fuel bound. `EngineProperties` and `Programs` prove what the
  engine guarantees about that model.
- **Objects.** Each Java class is a Dafny class with the same fields: `Register`, `Memory`,
  `Stack` and `Interpreter`. `Interpreter` has one more field, `output`, the trace of values
  that OUT prints. Each method is proved against the value layer. For example,
  `Stack.Push` changes the stack exactly as `Ring.Push` does. `Interpreter.Step` produces
  exactly the outcome of `Semantics.Step`, and `Interpreter.BeginInterpreter` the outcome of
  `Semantics.Run`.

The model follows the Java code as written.

- **Exceptions.** The three exceptions of the source are `IllegalAddress(address, memSize)`,
  `InvalidRegister(id)` and `UnfinishedInstruction(pc)`. Two Java runtime faults that the code
  lets through are modelled as well.
  - The register check rejects only ids `< 0` or `> 8`. Register 8 passes it and then fails on
    the eight-element bank as `IndexOutOfBounds(8, 8)`.
  - LDI checks for two remaining elements but reads three. With exactly two left it fails as
    `IndexOutOfBounds(pc + 2, length)`.
- **Java evaluation order.** In `registers[r].write(memory.read(a))` and
  `registers[r].write(stack.pop())` the bank is indexed before memory is read or the stack is
  popped. MOV indexes its destination register before its source.
- **Unknown opcodes.** An id outside the instruction set matches no case. The program counter
  stays where it is, so the loop spins forever, and `Run`'s fuel is what bounds it.
- **Opcodes 0 to 7 only.** The instruction ids are OUT = 0 to PSH = 7, and the switch has one
  case for each of them and no other; there is no opcode 8.

Modules: `JavaInt` (Java `int` arithmetic), `Faults`, `RegisterCell`, `LinearMemory`,
`CircularStack`, `Semantics`, `EngineProperties`, `Programs` and `Engine`.

## Model

| member | source | states |
|---|---|---|
| JavaInt.Wrap | src/Interpreter/Register.java:18-26 | the result is congruent to its argument modulo 2^32, and equals it when it fits in an `int` |
| JavaInt.Add | src/Interpreter/Register.java:18-20 | `a + b` as Java computes it: congruent to the mathematical sum modulo 2^32 |
| JavaInt.Sub | src/Interpreter/Register.java:21-23 | `a - b` as Java computes it: congruent to the mathematical difference modulo 2^32 |
| JavaInt.Mul | src/Interpreter/Register.java:24-26 | `a * b` as Java computes it: congruent to the mathematical product modulo 2^32 |
| JavaInt.AddOverflow | src/Interpreter/Register.java:18-23 | `MAX_VALUE + 1` wraps to `MIN_VALUE` and `MIN_VALUE - 1` wraps to `MAX_VALUE` |
| JavaInt.SubUndoesAdd | src/Interpreter/Register.java:18-23 | subtracting what was added restores the value for all `a`, `b`, overflow included |
| JavaInt.TruncDiv | src/Interpreter/Register.java:27-29 | the magnitude of the quotient is `|a| / |b|`, and it is positive only when the signs agree and negative only when they differ: division truncates toward zero |
| JavaInt.TruncDivRemainder | src/Interpreter/Register.java:27-29 | the remainder `a - q * b` left by the truncating quotient is smaller in magnitude than `b` and is 0 or has the sign of `a`, which determines `q` independently of how it is computed |
| JavaInt.TruncDivNegative | src/Interpreter/Register.java:27-29 | `-7 / 2` is `-3` in Java where the Euclidean quotient is `-4`; `7 / -2` is `-3` and `-7 / -2` is `3` |
| JavaInt.Div | src/Interpreter/Register.java:27-29 | for a nonzero divisor, the Java quotient is the truncating quotient whenever the operands are not `MIN_VALUE` and `-1` |
| JavaInt.DivOverflow | src/Interpreter/Register.java:27-29 | `MIN_VALUE / -1` wraps to `MIN_VALUE` |
| RegisterCell.Register.constructor | src/Interpreter/Register.java:6-8 | the cell holds its initial value |
| RegisterCell.Register.Write | src/Interpreter/Register.java:10-12 | the cell holds the written value |
| RegisterCell.Register.Read | src/Interpreter/Register.java:14-16 | returns the held value and changes nothing |
| RegisterCell.Register.Add | src/Interpreter/Register.java:18-20 | the new value is the old one plus the argument, wrapping |
| RegisterCell.Register.Sub | src/Interpreter/Register.java:21-23 | the new value is the old one minus the argument, wrapping |
| RegisterCell.Register.Mul | src/Interpreter/Register.java:24-26 | the new value is the old one times the argument, wrapping |
| RegisterCell.Register.Div | src/Interpreter/Register.java:27-29 | a zero divisor raises DivideByZero and leaves the value; otherwise the value becomes the Java quotient |
| RegisterCell.NewThenRead | src/Interpreter/Register.java:6-16 | `new Register(v).read()` returns `v` |
| RegisterCell.WriteThenRead | src/Interpreter/Register.java:10-16 | `write(v)` then `read()` returns `v`, and the cell holds `v` |
| LinearMemory.Load | src/Interpreter/Memory.java:14-20 | fails exactly when the address is outside `[0, memSize)`, with IllegalAddress(address, memSize); otherwise returns that cell |
| LinearMemory.Store | src/Interpreter/Memory.java:22-28 | fails under the same condition with the same fault; otherwise the size is kept and every other cell is unchanged |
| LinearMemory.ReadAfterWrite | src/Interpreter/Memory.java:14-28 | after a successful write of `v` at `a`, a read at `a` returns `v` |
| LinearMemory.ReadOtherAfterWrite | src/Interpreter/Memory.java:14-28 | a write at `a` does not change what a read at any other address returns |
| LinearMemory.WritesCommute | src/Interpreter/Memory.java:22-28 | successful writes at two different addresses give the same memory in either order |
| LinearMemory.WriteSameValue | src/Interpreter/Memory.java:22-28 | writing back a cell's own value leaves memory as it was |
| LinearMemory.Memory.constructor | src/Interpreter/Memory.java:9-12 | a new memory has `memSize` cells, all 0 |
| LinearMemory.Memory.Read | src/Interpreter/Memory.java:14-20 | returns exactly `Load` of the contents, fault included, and changes nothing |
| LinearMemory.Memory.Write | src/Interpreter/Memory.java:22-28 | the new contents are `Store` of the old ones; on a fault the contents are unchanged |
| CircularStack.Ring.Push | src/Interpreter/Stack.java:14-22 | writes `v` into the slot at the old pointer and no other slot; the pointer stays in range and the size is kept |
| CircularStack.Ring.Pop | src/Interpreter/Stack.java:25-33 | leaves every slot unchanged, keeps the pointer in range, and returns the slot at the new pointer |
| CircularStack.PushPointer | src/Interpreter/Stack.java:17-22 | a push moves the pointer to `(old + 1) mod (size - 1)`; from the last slot, which only a pop reaches, it goes to 0; after a push the pointer is below `size - 1` unless the stack has one slot |
| CircularStack.PopPointer | src/Interpreter/Stack.java:26-31 | after a pop the pointer is `old - 1`, wrapping from 0 to `size - 1` |
| CircularStack.Fresh | src/Interpreter/Stack.java:8-12 | a new stack of size `>= 1` has pointer 0 and every slot 0 |
| CircularStack.PushThenPop | src/Interpreter/Stack.java:14-33 | a push then a pop returns the pushed value and restores the pointer, except when the pointer stood at `size - 2`: then the pop reads slot `size - 1` and leaves the pointer there |
| CircularStack.Apply | src/Interpreter/Stack.java:14-34 | any sequence of pushes and pops succeeds and keeps the pointer within `[0, size)` |
| CircularStack.PushAllIsApply | src/Interpreter/Stack.java:14-22 | pushing a list of values one at a time is the same as applying that sequence of push operations |
| CircularStack.PushesFillFromZero | src/Interpreter/Stack.java:14-22 | from a fresh stack, fewer than `size - 1` pushes fill slots `0..k-1` in order, leave the rest 0 and end with the pointer at `k` |
| CircularStack.WrapAfterSizeMinusOnePushes | src/Interpreter/Stack.java:17-22 | from a fresh stack, `size - 1` pushes bring the pointer back to 0, never touch the last slot, and the next push overwrites slot 0 |
| CircularStack.Stack.constructor | src/Interpreter/Stack.java:8-12 | the new stack is `Fresh(stackSize)` |
| CircularStack.Stack.Push | src/Interpreter/Stack.java:14-22 | the stack changes exactly as `Ring.Push` says |
| CircularStack.Stack.Pop | src/Interpreter/Stack.java:25-33 | the stack and the returned value are exactly `Ring.Pop` of the old stack |
| Semantics.Initial | src/Interpreter/Interpreter.java:41-56 | program counter 0, eight registers and four flags all 0, 65536 zero memory cells, a fresh 128-slot data stack, a fresh 64-slot call stack, nothing printed |
| Semantics.UpdateFlags | src/Interpreter/Interpreter.java:241-258 | zero flag is 1 exactly when the value is 0 (else 0); sign flag is 1 exactly when it is negative (else 0); the carry flag and the fourth flag are unchanged |
| Semantics.Bank | src/Interpreter/Interpreter.java:23-24 | `registers[r]` succeeds exactly for `0 <= r < 8` and yields that register |
| Semantics.Execute | src/Interpreter/Interpreter.java:83-231 | the switch without the flag update: an id that matches no case changes nothing and leaves the last operation value at 0; a successful case leaves a well-formed machine |
| Semantics.ExecuteOut | src/Interpreter/Interpreter.java:89-104 | a successful OUT leaves a well-formed machine; its effect is stated by `OutEffect` |
| Semantics.ExecuteMov | src/Interpreter/Interpreter.java:114-137 | a successful MOV leaves a well-formed machine; its effect is stated by `MovEffect` |
| Semantics.ExecuteLdm | src/Interpreter/Interpreter.java:139-157 | a successful LDM leaves a well-formed machine; its effect is stated by `LdmEffect` |
| Semantics.ExecuteLdi | src/Interpreter/Interpreter.java:158-176 | a successful LDI leaves a well-formed machine; its effect is stated by `LdiEffect` |
| Semantics.ExecuteStv | src/Interpreter/Interpreter.java:177-194 | a successful STV leaves a well-formed machine; its effect is stated by `StvEffect` |
| Semantics.ExecutePop | src/Interpreter/Interpreter.java:195-212 | a successful POP leaves a well-formed machine; its effect is stated by `PopEffect` |
| Semantics.ExecutePsh | src/Interpreter/Interpreter.java:213-230 | a successful PSH leaves a well-formed machine; its effect is stated by `PshEffect` |
| Semantics.Step | src/Interpreter/Interpreter.java:80-233 | one iteration halts exactly on HLT. HLT and faults leave the machine unchanged. A running iteration advances the program counter by the instruction's width (2 for OUT, POP, PSH; 3 for MOV, LDM, LDI, STV; 0 for an unknown id) |
| Semantics.Run | src/Interpreter/Interpreter.java:80-239 | the loop ends normally exactly when the program counter reaches the end. It returns early only at a HLT and faults only inside the program. The program counter never decreases, output is only appended to, and memory keeps its size |
| EngineProperties.RunStep | src/Interpreter/Interpreter.java:80-83 | a running iteration is followed by the rest of the loop from the new state |
| EngineProperties.FlagsFollowLastValue | src/Interpreter/Interpreter.java:81-233 | after every iteration that neither halts nor faults, `flags[0]` is 1 exactly when the last operation value is 0, `flags[2]` is 1 exactly when it is negative, and `flags[1]` and `flags[3]` keep their values |
| EngineProperties.HaltStopsRun | src/Interpreter/Interpreter.java:106-112 | at a HLT the loop returns at once and the machine, program counter and flags included, is unchanged |
| EngineProperties.UnknownOpcodeSpins | src/Interpreter/Interpreter.java:81-83 | an unknown opcode makes the loop run out of any fuel with the same program counter, registers and memory |
| EngineProperties.UnfinishedExactly | src/Interpreter/Interpreter.java:90-92 | UnfinishedInstruction(pc) is raised exactly when a non-HLT opcode finds fewer elements left than it checks for (2 for OUT, POP, PSH, LDI; 3 for MOV, LDM, STV) |
| EngineProperties.LdiReadsPastEnd | src/Interpreter/Interpreter.java:159-164 | LDI with exactly two elements left fails on the array access at `pc + 2` and changes nothing |
| EngineProperties.InvalidRegisterFirst | src/Interpreter/Interpreter.java:96-98 | a register id `< 0` or `> 8` after OUT, LDM, LDI, STV, POP or PSH raises InvalidRegister(id) and changes nothing |
| EngineProperties.MovChecksSourceFirst | src/Interpreter/Interpreter.java:122-128 | MOV with a bad register raises InvalidRegister for the source id if that one is bad, else for the destination, and changes nothing |
| EngineProperties.RegisterEightFaults | src/Interpreter/Interpreter.java:23-24 | for the six one-register opcodes (OUT, LDM, LDI, STV, POP, PSH), id 8 passes the register check but fails on the bank as IndexOutOfBounds(8, 8), before any memory or stack access, changing nothing |
| EngineProperties.MovRegisterEightFaults | src/Interpreter/Interpreter.java:122-132 | MOV's two checks admit 8 as well: when either operand is 8, the bank access faults as IndexOutOfBounds(8, 8) and nothing changes |
| EngineProperties.OutEffect | src/Interpreter/Interpreter.java:89-104 | OUT appends the register's value to the output, reports it as the last value, moves pc by 2 and changes no register, memory or stack |
| EngineProperties.MovEffect | src/Interpreter/Interpreter.java:114-137 | MOV sets the destination to the source's value and changes only that register; pc moves by 3 |
| EngineProperties.LdmEffect | src/Interpreter/Interpreter.java:139-157 | LDM sets the register to the memory cell and changes only it; an address outside memory raises IllegalAddress(address, memory size) and changes nothing |
| EngineProperties.LdiEffect | src/Interpreter/Interpreter.java:158-176 | LDI sets the register to the literal and changes only it; pc moves by 3 |
| EngineProperties.StvEffect | src/Interpreter/Interpreter.java:177-194 | STV sets only the memory cell to the register's value, with last value 0; a bad address raises IllegalAddress and changes nothing |
| EngineProperties.PopEffect | src/Interpreter/Interpreter.java:195-212 | POP puts the stack's popped value into the register and reports it as the last value; only that register and the stack change, and pc moves by 2 |
| EngineProperties.PshEffect | src/Interpreter/Interpreter.java:213-230 | PSH pushes the register's value and reports it as the last value; only the stack changes, and pc moves by 2 |
| EngineProperties.CallStackUntouched | src/Interpreter/Interpreter.java:45 | no run of the loop changes the call stack |
| Programs.TestProgramRuns | src/Interpreter/Interpreter.java:62-73 | the built-in 25-element program, given at least ten iterations, leaves the loop normally at pc 25 having printed 0x123, 0x123 and 1 |
| Programs.LdiThenOut | src/Interpreter/Interpreter.java:89-104 | `LDI r, v; OUT r` prints exactly `v` and leaves `v` in `r`, for every register and value |
| Programs.MovIsCopy | src/Interpreter/Interpreter.java:114-137 | `LDI r1, v; MOV r1, r2` leaves `v` in both registers |
| Programs.StoreThenLoad | src/Interpreter/Interpreter.java:139-194 | `LDI r, v; STV r, a; LDM r2, a` leaves `v` in `r2` and at `a` for every address inside memory |
| Programs.LoadAtMemorySize | src/Interpreter/Memory.java:14-20 | `LDM r, 65536` faults with IllegalAddress(65536, 65536) and changes nothing |
| Programs.PushThenPopProgram | src/Interpreter/Interpreter.java:213-230 | `LDI r, v; PSH r; POP r2` leaves `v` in `r2` unless the stack pointer stood at `size - 2`, in which case `r2` receives the last slot |
| Engine.Interpreter.constructor | src/Interpreter/Interpreter.java:41-74 | the new engine's state is `Initial()` and its program is the test program |
| Engine.Interpreter.Out | src/Interpreter/Interpreter.java:89-104 | the OUT case changes the engine exactly as `ExecuteOut` says and returns its last value or fault; a fault changes nothing |
| Engine.Interpreter.Mov | src/Interpreter/Interpreter.java:114-137 | the MOV case changes the engine exactly as `ExecuteMov` says; a fault changes nothing |
| Engine.Interpreter.Ldm | src/Interpreter/Interpreter.java:139-157 | the LDM case changes the engine exactly as `ExecuteLdm` says; a fault changes nothing |
| Engine.Interpreter.Ldi | src/Interpreter/Interpreter.java:158-176 | the LDI case changes the engine exactly as `ExecuteLdi` says; a fault changes nothing |
| Engine.Interpreter.Stv | src/Interpreter/Interpreter.java:177-194 | the STV case changes the engine exactly as `ExecuteStv` says; a fault changes nothing |
| Engine.Interpreter.Pop | src/Interpreter/Interpreter.java:195-212 | the POP case changes the engine exactly as `ExecutePop` says; a fault changes nothing |
| Engine.Interpreter.Psh | src/Interpreter/Interpreter.java:213-230 | the PSH case changes the engine exactly as `ExecutePsh` says; a fault changes nothing |
| Engine.Interpreter.UpdateFlags | src/Interpreter/Interpreter.java:241-258 | the flag cells change exactly as `Semantics.UpdateFlags` says and nothing else changes |
| Engine.Interpreter.Step | src/Interpreter/Interpreter.java:81-233 | one iteration of the loop body yields exactly the status and the state of `Semantics.Step` |
| Engine.Interpreter.BeginInterpreter | src/Interpreter/Interpreter.java:76-239 | the loop from program counter 0 yields exactly the status and the state of `Semantics.Run` from the engine's state with pc 0 |
| Engine.RunTestProgram | src/Interpreter/Main.java:8-12 | constructing an engine and running its loop for at least ten iterations finishes normally having printed 0x123, 0x123 and 1 |

## Left out

- Timing and messages: `System.currentTimeMillis` and every `println` string. The only output
  kept is the trace of values OUT prints.
- Main.java: only `new Interpreter().beginInterpreter()` is modelled, as `RunTestProgram`. The
  handlers that print each exception to stderr are I/O.
- Exception message texts: each exception is a fault variant with its payload.
- Pair.java is not part of this model; nothing in the repository uses it.
- The call stack is storage only: it is built with 64 slots and proved never to change, since no
  instruction touches it.
- The carry flag is never written. The source leaves it as a TODO, and the model keeps it as a
  cell that no iteration changes.
- `Register.add`, `sub`, `mul` and `div` are modelled for the cell alone. The engine never calls
  them.
- CircularStack.Stack.constructor: requires `stackSize >= 1`. With size 0 the Java stack
  faults on its first push; the engine only builds stacks of 128 and 64.
- LinearMemory.Memory.constructor: requires `memSize >= 0`. A negative size makes Java's array
  allocation throw; the engine only builds a memory of 65536.
- Engine.Interpreter.BeginInterpreter: runs for at most `fuel` iterations and then reports
  OutOfFuel, because an unknown opcode makes the Java loop spin forever.
- Engine.Interpreter.constructor: always loads the built-in test program, as the Java
  constructor does. Other programs are studied on the value layer, in `Semantics.Run` and the
  `Programs` lemmas.
- The program counter is an unbounded natural number. Java's `int` could overflow only for a
  program of about 2^31 elements.
- The banks are fixed sequences of `Register` objects. The Java arrays are `final`, and their
  elements are assigned only by the constructor. The cells themselves are written in place.
