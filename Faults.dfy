/**
 * The ways an operation of the virtual machine can complete abruptly: the three exception
 * classes of the interpreter, each reduced to its payload, and the two Java runtime faults
 * that the interpreter's own checks let through.
 */
module Faults {

  datatype Fault =
      /** `IllegalAddressException(address, memSize)`: a memory access outside `[0, memSize)`. */
    | IllegalAddress(address: int, memSize: int)
      /** `InvalidRegisterException(id)`: a register operand that fails the register check. */
    | InvalidRegister(id: int)
      /** `UnfinishedInstructionException(pc)`: too few program elements left for the operands. */
    | UnfinishedInstruction(pc: int)
      /** Java's `ArrayIndexOutOfBoundsException`: an index the source never checked. */
    | IndexOutOfBounds(index: int, length: int)
      /** Java's `ArithmeticException` for an `int` division by zero. */
    | DivideByZero

  /** The value of an operation that returns a value or throws. */
  datatype Result<+T> = Ok(value: T) | Err(fault: Fault)

  /** The completion of a `void` operation that may throw. */
  datatype Completion = Normal | Abrupt(fault: Fault)
}
