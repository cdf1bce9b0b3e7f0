/** The flat intermediate representation of the first compiler generation:
    pointer and value steps with i32 amounts, and the brackets and print as
    tokens of their own. The optimizer and the interpreter work on it. */
module FlatIr {
  import opened Ints
  import opened Wrappers
  import Types

  datatype ProgramToken =
    | ChangeValue(delta: i32)
    | ChangeAddr(delta: i32)
    | LoopStart
    | LoopEnd
    | Print

  /** The one-to-one translation of a lexer token: the four step symbols
      become steps of +1 or -1, the others keep their name. */
  function Lower(t: Types.ParseToken): ProgramToken
  {
    match t
    case IncrAddr => ChangeAddr(1)
    case DecrAddr => ChangeAddr(-1)
    case IncrValue => ChangeValue(1)
    case DecrValue => ChangeValue(-1)
    case LoopStart => LoopStart
    case LoopEnd => LoopEnd
    case _ => Print
  }

  /** The lexer token a flat token stands for, if it is a single step. */
  function Raise(t: ProgramToken): Option<Types.ParseToken>
  {
    match t
    case ChangeAddr(d) => if d == 1 then Some(Types.IncrAddr) else if d == -1 then Some(Types.DecrAddr) else None
    case ChangeValue(d) => if d == 1 then Some(Types.IncrValue) else if d == -1 then Some(Types.DecrValue) else None
    case LoopStart => Some(Types.LoopStart)
    case LoopEnd => Some(Types.LoopEnd)
    case Print => Some(Types.ParseToken.Print)
  }

  /** The translation loses nothing: each lexer token is recovered from its
      flat token, so distinct lexer tokens map to distinct flat tokens. */
  lemma LowerRaise(t: Types.ParseToken)
    ensures Raise(Lower(t)) == Some(t)
  {
  }

  /** A whole token sequence translated, token by token. */
  function LowerAll(tokens: seq<Types.ParseToken>): (r: seq<ProgramToken>)
    ensures |r| == |tokens|
    ensures forall i :: 0 <= i < |tokens| ==> r[i] == Lower(tokens[i])
  {
    if tokens == [] then [] else LowerAll(tokens[..|tokens| - 1]) + [Lower(tokens[|tokens| - 1])]
  }

  /** `optimize` of the first generation: a loop that pushes the
      translation of every token, and nothing else. */
  method MapTokens(tokens: seq<Types.ParseToken>) returns (program: seq<ProgramToken>)
    ensures |program| == |tokens|
    ensures forall i :: 0 <= i < |tokens| ==> program[i] == Lower(tokens[i])
  {
    program := [];
    for i := 0 to |tokens|
      invariant |program| == i
      invariant forall k :: 0 <= k < i ==> program[k] == Lower(tokens[k])
    {
      program := program + [Lower(tokens[i])];
    }
  }
}
