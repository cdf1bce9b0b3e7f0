/** The instructions `emit_token` emits for each tree token, and what they
    are shown to respect: one pointer local, the print import and balanced
    blocks. */
module WasmCodegen {
  import opened Ints
  import opened Wrappers
  import opened WasmInstructions
  import Types

  /** The instructions for one token, with `pointer` the local holding the
      data pointer. Offsets are cast as the source casts them: `as i32` for a
      pushed constant, `as u32` for a load/store immediate. A positive offset
      is folded into the load/store immediate; a negative one is added to the
      pointer first, because immediates are unsigned. */
  function TokenCode(pointer: LocalHandle, token: Types.ProgramToken): seq<Instruction>
    decreases token, 1
  {
    var p := pointer;
    match token
    case ChangeAddr(delta) =>
      [GetLocal(p)] + [PushI32(WrapI32(delta))] + [AddI32] + [SetLocal(p)]
    case Offset(offset, ChangeValue(v)) => ChangeValueCode(p, offset, v)
    case Offset(offset, Print) => PrintCode(p, offset)
    case Offset(offset, SetValue(v)) => SetValueCode(p, offset, v)
    case Loop(body) =>
      LoopHead(p) + TokensCode(p, body) + LoopTail(p)
  }

  /** Adds `v` to the byte at `pointer + offset`. */
  function ChangeValueCode(p: LocalHandle, offset: isize, v: i8): seq<Instruction>
  {
    if offset == 0 then
      [GetLocal(p)] + [GetLocal(p)] + [Load8Unsigned(0)] + [PushI32(v)] + [AddI32] + [Store8(0)]
    else if offset > 0 then
      [GetLocal(p)] + [GetLocal(p)] + [Load8Unsigned(AsU32(offset))] + [PushI32(v)] + [AddI32]
      + [Store8(AsU32(offset))]
    else
      [GetLocal(p)] + [PushI32(WrapI32(offset))] + [AddI32]
      + [GetLocal(p)] + [PushI32(WrapI32(offset))] + [AddI32]
      + [Load8Unsigned(0)] + [PushI32(v)] + [AddI32]
      + [Store8(0)]
  }

  /** Passes the byte at `pointer + offset` to the print import. */
  function PrintCode(p: LocalHandle, offset: isize): seq<Instruction>
  {
    if offset == 0 then
      [GetLocal(p)] + [Load8Unsigned(0)] + [Call(0)]
    else if offset > 0 then
      [GetLocal(p)] + [Load8Unsigned(AsU32(offset))] + [Call(0)]
    else
      [GetLocal(p)] + [PushI32(WrapI32(offset))] + [AddI32] + [Load8Unsigned(0)] + [Call(0)]
  }

  /** Stores `v` into the byte at `pointer + offset`. */
  function SetValueCode(p: LocalHandle, offset: isize, v: i8): seq<Instruction>
  {
    if offset == 0 then
      [GetLocal(p)] + [PushI32(v)] + [Store8(0)]
    else if offset > 0 then
      [GetLocal(p)] + [PushI32(v)] + [Store8(AsU32(offset))]
    else
      [GetLocal(p)] + [PushI32(WrapI32(offset))] + [AddI32] + [PushI32(v)] + [Store8(0)]
  }

  /** A loop opens a block and, unless the current byte is zero (in which
      case it branches out of that block), a loop inside it. */
  function LoopHead(p: LocalHandle): seq<Instruction>
  {
    [Block] + EntryTest(p) + [Loop]
  }

  /** Branch (out of the enclosing block) when the current byte is zero. */
  function EntryTest(p: LocalHandle): seq<Instruction>
  {
    [GetLocal(p)] + [Load8Unsigned(0)] + [EqualsZeroI32] + [BranchIf(0)]
  }

  /** After the body: branch back to the loop start while the current byte
      is non-zero, then close the loop and the block. */
  function LoopTail(p: LocalHandle): seq<Instruction>
  {
    ExitTest(p) + [End] + [End]
  }

  /** Branch (to the start of the enclosing loop) when the current byte is
      non-zero. */
  function ExitTest(p: LocalHandle): seq<Instruction>
  {
    [GetLocal(p)] + [Load8Unsigned(0)] + [BranchIf(0)]
  }

  /** The instructions for a token sequence, emitted in order. */
  function TokensCode(p: LocalHandle, tokens: seq<Types.ProgramToken>): seq<Instruction>
    decreases tokens, 0
  {
    if tokens == [] then [] else TokenCode(p, tokens[0]) + TokensCode(p, tokens[1..])
  }

  lemma {:induction false} TokensCodeAppend(p: LocalHandle, a: seq<Types.ProgramToken>, b: seq<Types.ProgramToken>)
    ensures TokensCode(p, a + b) == TokensCode(p, a) + TokensCode(p, b)
  {
    if a == [] {
      assert a + b == b;
    } else {
      assert (a + b)[0] == a[0];
      assert (a + b)[1..] == a[1..] + b;
      TokensCodeAppend(p, a[1..], b);
    }
  }

  /** The body of `main` in the code section: the tokens, then the pointer
      returned as the function's result, then the closing `end`. */
  function FunctionCode(tokens: seq<Types.ProgramToken>): seq<Instruction>
  {
    TokensCode(LocalHandle(0), tokens) + [GetLocal(LocalHandle(0)), Return, End]
  }

  // Block structure: the nesting depth an instruction sequence goes
  // through, failing when an `end` closes a block that was never opened.

  function Nest(code: seq<Instruction>, depth: nat): Option<nat>
  {
    if code == [] then Some(depth)
    else if code[0].Block? || code[0].Loop? then Nest(code[1..], depth + 1)
    else if code[0].End? then (if depth == 0 then None else Nest(code[1..], depth - 1))
    else Nest(code[1..], depth)
  }

  /** Code without block instructions. */
  predicate Straight(code: seq<Instruction>)
  {
    forall i :: 0 <= i < |code| ==> !code[i].Block? && !code[i].Loop? && !code[i].End?
  }

  lemma {:induction false} StraightNest(code: seq<Instruction>, depth: nat)
    requires Straight(code)
    ensures Nest(code, depth) == Some(depth)
  {
    if code != [] {
      assert Straight(code[1..]) by {
        forall i | 0 <= i < |code[1..]|
          ensures !code[1..][i].Block? && !code[1..][i].Loop? && !code[1..][i].End?
        {
          assert code[1..][i] == code[i + 1];
        }
      }
      StraightNest(code[1..], depth);
    }
  }

  lemma {:induction false} NestAppend(a: seq<Instruction>, b: seq<Instruction>, depth: nat)
    ensures Nest(a + b, depth) == (match Nest(a, depth) case None => None case Some(d) => Nest(b, d))
  {
    if a == [] {
      assert a + b == b;
    } else {
      assert (a + b)[0] == a[0];
      assert (a + b)[1..] == a[1..] + b;
      if a[0].Block? || a[0].Loop? {
        NestAppend(a[1..], b, depth + 1);
      } else if a[0].End? {
        if depth > 0 {
          NestAppend(a[1..], b, depth - 1);
        }
      } else {
        NestAppend(a[1..], b, depth);
      }
    }
  }

  /** The code of every token closes every block it opens and closes no
      block it did not open: its `Block`/`Loop` openers and `End`s balance. */
  lemma {:induction false} TokenCodeBalanced(p: LocalHandle, token: Types.ProgramToken, depth: nat)
    ensures Nest(TokenCode(p, token), depth) == Some(depth)
    decreases token, 1
  {
    if token.Loop? {
      TokensCodeBalanced(p, token.body, depth + 2);
      LoopBalanced(p, token.body, depth);
    } else {
      LeafStraight(p, token);
      StraightNest(TokenCode(p, token), depth);
    }
  }

  /** The code of a memory or pointer token holds no block instruction. */
  lemma LeafStraight(p: LocalHandle, token: Types.ProgramToken)
    requires !token.Loop?
    ensures Straight(TokenCode(p, token))
  {
    if token.Offset? && token.op.ChangeValue? && token.addrOffset < 0 {
      var code := TokenCode(p, token);
      forall i | 0 <= i < |code|
        ensures !code[i].Block? && !code[i].Loop? && !code[i].End?
      {
      }
    }
  }

  /** A loop's head opens two blocks and its tail closes them. */
  lemma LoopBalanced(p: LocalHandle, body: seq<Types.ProgramToken>, depth: nat)
    requires Nest(TokensCode(p, body), depth + 2) == Some(depth + 2)
    ensures Nest(LoopHead(p) + TokensCode(p, body) + LoopTail(p), depth) == Some(depth)
  {
    StraightNest(EntryTest(p), depth + 1);
    NestAppend([Block], EntryTest(p), depth);
    NestAppend([Block] + EntryTest(p), [Loop], depth);
    NestAppend(LoopHead(p), TokensCode(p, body), depth);
    StraightNest(ExitTest(p), depth + 2);
    NestAppend(ExitTest(p), [End], depth + 2);
    NestAppend(ExitTest(p) + [End], [End], depth + 2);
    NestAppend(LoopHead(p) + TokensCode(p, body), LoopTail(p), depth);
  }

  lemma {:induction false} TokensCodeBalanced(p: LocalHandle, tokens: seq<Types.ProgramToken>, depth: nat)
    ensures Nest(TokensCode(p, tokens), depth) == Some(depth)
    decreases tokens, 0
  {
    if tokens != [] {
      TokenCodeBalanced(p, tokens[0], depth);
      TokensCodeBalanced(p, tokens[1..], depth);
      NestAppend(TokenCode(p, tokens[0]), TokensCode(p, tokens[1..]), depth);
    }
  }

  /** The body of `main` is balanced inside the function's own block, and
      its final `end` closes exactly that block. */
  lemma FunctionCodeBalanced(tokens: seq<Types.ProgramToken>)
    ensures Nest(FunctionCode(tokens), 1) == Some(0)
  {
    var tail := [GetLocal(LocalHandle(0)), Return, End];
    TokensCodeBalanced(LocalHandle(0), tokens, 1);
    NestAppend(TokensCode(LocalHandle(0), tokens), tail, 1);
    assert tail[1..] == [Return, End];
    assert tail[1..][1..] == [End];
    assert [End][1..] == [];
  }

  /** What the code may touch: the pointer local only, the print import
      only, branches to the innermost block only, unsigned byte loads only. */
  predicate Confined(code: seq<Instruction>, p: LocalHandle)
  {
    forall i :: 0 <= i < |code| ==>
      (code[i].GetLocal? ==> code[i].handle == p) &&
      (code[i].SetLocal? ==> code[i].handle == p) &&
      (code[i].Call? ==> code[i].funcIndex == 0) &&
      (code[i].BranchIf? ==> code[i].depth == 0) &&
      !code[i].Load8Signed? && !code[i].Return? && !code[i].Drop?
  }

  lemma ConfinedAppend(a: seq<Instruction>, b: seq<Instruction>, p: LocalHandle)
    requires Confined(a, p) && Confined(b, p)
    ensures Confined(a + b, p)
  {
    forall i | 0 <= i < |a + b|
      ensures (a + b)[i] == if i < |a| then a[i] else b[i - |a|]
    {
    }
  }

  lemma {:induction false} TokenCodeConfined(p: LocalHandle, token: Types.ProgramToken)
    ensures Confined(TokenCode(p, token), p)
    decreases token, 1
  {
    if token.Loop? {
      TokensCodeConfined(p, token.body);
      LoopConfined(p, token.body);
    } else {
      LeafConfined(p, token);
    }
  }

  lemma LeafConfined(p: LocalHandle, token: Types.ProgramToken)
    requires !token.Loop?
    ensures Confined(TokenCode(p, token), p)
  {
    if token.Offset? && token.op.ChangeValue? && token.addrOffset < 0 {
      var code := TokenCode(p, token);
      forall i | 0 <= i < |code|
        ensures code[i].GetLocal? ==> code[i].handle == p
      {
      }
    }
  }

  lemma LoopConfined(p: LocalHandle, body: seq<Types.ProgramToken>)
    requires Confined(TokensCode(p, body), p)
    ensures Confined(LoopHead(p) + TokensCode(p, body) + LoopTail(p), p)
  {
    ConfinedAppend([Block], EntryTest(p), p);
    ConfinedAppend([Block] + EntryTest(p), [Loop], p);
    ConfinedAppend(ExitTest(p), [End], p);
    ConfinedAppend(ExitTest(p) + [End], [End], p);
    ConfinedAppend(LoopHead(p), TokensCode(p, body), p);
    ConfinedAppend(LoopHead(p) + TokensCode(p, body), LoopTail(p), p);
  }

  lemma {:induction false} TokensCodeConfined(p: LocalHandle, tokens: seq<Types.ProgramToken>)
    ensures Confined(TokensCode(p, tokens), p)
    decreases tokens, 0
  {
    if tokens != [] {
      TokenCodeConfined(p, tokens[0]);
      TokensCodeConfined(p, tokens[1..]);
      ConfinedAppend(TokenCode(p, tokens[0]), TokensCode(p, tokens[1..]), p);
    }
  }

  /** Address folding for a memory token whose offset fits both casts: a
      positive offset becomes the immediate of every load and store and no
      address arithmetic is emitted; otherwise every immediate is 0 and, for
      a negative offset, the offset itself is pushed and added to the
      pointer before the access. */
  lemma OffsetAddressing(p: LocalHandle, offset: isize, op: Types.MemoryOp)
    requires -0x8000_0000 <= offset < 0x8000_0000
    ensures var code := TokenCode(p, Types.Offset(offset, op));
      && (forall i :: 0 <= i < |code| && (code[i].Load8Unsigned? || code[i].Store8?) ==>
            code[i].offset == if offset > 0 then offset else 0)
      && (!op.ChangeValue? ==> (AddI32 in code <==> offset < 0))
      && (offset < 0 ==> code[1] == PushI32(offset) && code[2] == AddI32)
      && (offset > 0 && op.ChangeValue? ==> code[2] == Load8Unsigned(offset) && code[5] == Store8(offset))
  {
  }
}
