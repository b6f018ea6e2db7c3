/**
  The JVM opcodes the scanner dispatches on, with the numbers the Java
  Virtual Machine Specification (chapter 6, "The Java Virtual Machine
  Instruction Set") assigns to them.
*/
module Opcodes {

  const GETSTATIC: int := 178
  const PUTSTATIC: int := 179
  const GETFIELD: int := 180
  const PUTFIELD: int := 181
  const INVOKEVIRTUAL: int := 182
  const INVOKESPECIAL: int := 183
  const INVOKESTATIC: int := 184
  const INVOKEINTERFACE: int := 185

  /** The four method invocation opcodes (invokedynamic is not among them). */
  predicate IsInvoke(opcode: int)
    ensures IsInvoke(opcode) ==> INVOKEVIRTUAL <= opcode <= INVOKEINTERFACE
  {
    opcode == INVOKEVIRTUAL || opcode == INVOKESPECIAL ||
    opcode == INVOKESTATIC || opcode == INVOKEINTERFACE
  }

  /** The four field get/put opcodes. */
  predicate IsFieldAccess(opcode: int)
    ensures IsFieldAccess(opcode) ==> GETSTATIC <= opcode <= PUTFIELD && !IsInvoke(opcode)
  {
    opcode == GETSTATIC || opcode == PUTSTATIC ||
    opcode == GETFIELD || opcode == PUTFIELD
  }
}
