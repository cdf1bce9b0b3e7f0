/** The tree-shaped intermediate representation consumed by the WebAssembly
    and C backends, the lexer's tokens and the execution state. */
module Types {
  import opened Ints

  /** One primitive symbol of the source language. */
  datatype ParseToken = IncrAddr | DecrAddr | IncrValue | DecrValue | LoopStart | LoopEnd | Print

  /** A byte operation at some address; the value payloads are i8. */
  datatype MemoryOp = ChangeValue(value: i8) | SetValue(value: i8) | Print

  /** A tree IR node: move the pointer, operate on the byte at
      `pointer + addrOffset`, or repeat a body while the current byte is non-zero. */
  datatype ProgramToken =
    | ChangeAddr(delta: isize)
    | Offset(addrOffset: isize, op: MemoryOp)
    | Loop(body: seq<ProgramToken>)

  /** `ProgramToken::offs_change_value`: add `value` to the byte at `offset`. */
  function MakeOffsChangeValue(offset: isize, value: i8): (t: ProgramToken)
    ensures t.Offset? && t.addrOffset == offset && t.op.ChangeValue? && t.op.value == value
  {
    Offset(offset, ChangeValue(value))
  }

  /** `ProgramToken::change_value`: the offset form at the pointer itself. */
  function MakeChangeValue(value: i8): (t: ProgramToken)
    ensures t == MakeOffsChangeValue(0, value)
  {
    Offset(0, ChangeValue(value))
  }

  /** `ProgramToken::offs_set_value`: overwrite the byte at `offset`. */
  function MakeOffsSetValue(offset: isize, value: i8): (t: ProgramToken)
    ensures t.Offset? && t.addrOffset == offset && t.op.SetValue? && t.op.value == value
  {
    Offset(offset, SetValue(value))
  }

  /** `ProgramToken::set_value`: the offset form at the pointer itself. */
  function MakeSetValue(value: i8): (t: ProgramToken)
    ensures t == MakeOffsSetValue(0, value)
  {
    Offset(0, SetValue(value))
  }

  const TAPE_SIZE: nat := 65536

  /** The tape: a pointer (usize) and the byte memory. */
  datatype State = State(pointer: nat, memory: seq<u8>)

  /** `State::new`: pointer 0 and 65536 zero bytes. */
  function NewState(): (s: State)
    ensures s.pointer == 0
    ensures |s.memory| == TAPE_SIZE
    ensures forall i :: 0 <= i < |s.memory| ==> s.memory[i] == 0
  {
    State(0, seq(TAPE_SIZE, _ => 0))
  }
}
