/** The WebAssembly instructions the backend emits and their binary encoding:
    an opcode byte then LEB128 operands (sections 5.2.2 and 5.4 of the
    WebAssembly Core Specification 1.0). */
module WasmInstructions {
  import opened Ints
  import opened Wrappers
  import opened Leb128
  import opened Seqs

  /** The only value type the backend declares locals of. */
  datatype WasmType = I32

  /** An index into the function's locals. */
  datatype LocalHandle = LocalHandle(index: u32)

  datatype Instruction =
    | GetLocal(handle: LocalHandle)
    | SetLocal(handle: LocalHandle)
    | Load8Signed(offset: u32)
    | Load8Unsigned(offset: u32)
    | Store8(offset: u32)
    | PushI32(value: i32)
    | AddI32
    | Call(funcIndex: u32)
    | BranchIf(depth: u32)
    | EqualsZeroI32
    | Loop
    | Block
    | End
    | Drop
    | Return

  // The `CodeStreamExt` writers, as the bytes each appends to its sink.

  /** `write_leb_u32` */
  function WriteLebU32(x: u32): seq<u8>
  {
    EncodeUnsigned(x)
  }

  /** `write_leb_i32` */
  function WriteLebI32(x: i32): seq<u8>
  {
    EncodeSigned(x)
  }

  /** `write_local`: the handle's index as an unsigned LEB128. */
  function WriteLocal(handle: LocalHandle): seq<u8>
  {
    WriteLebU32(handle.index)
  }

  /** `write_str`: the byte length as an unsigned LEB128, then the bytes
      (`s` is the string's UTF-8 encoding). */
  function WriteStr(s: seq<u8>): seq<u8>
  {
    WriteLebU32(AsU32(|s|)) + s
  }

  /** The opcode byte of each instruction (section 5.4 of the WebAssembly
      Core Specification 1.0). */
  function Opcode(op: Instruction): u8
  {
    match op
    case GetLocal(_) => 0x20
    case SetLocal(_) => 0x21
    case PushI32(_) => 0x41
    case Load8Signed(_) => 0x2C
    case Load8Unsigned(_) => 0x2D
    case Store8(_) => 0x3A
    case AddI32 => 0x6A
    case Call(_) => 0x10
    case BranchIf(_) => 0x0D
    case EqualsZeroI32 => 0x45
    case Loop => 0x03
    case Block => 0x02
    case End => 0x0B
    case Drop => 0x1A
    case Return => 0x0F
  }

  /** The bytes following the opcode: a local index, a LEB128 constant, a
      memory argument (alignment 0, then the offset), a function index, a
      branch depth, or the empty block type 0x40. */
  function Immediates(op: Instruction): seq<u8>
  {
    match op
    case GetLocal(h) => WriteLocal(h)
    case SetLocal(h) => WriteLocal(h)
    case PushI32(v) => WriteLebI32(v)
    case Load8Signed(o) => WriteLebU32(0) + WriteLebU32(o)
    case Load8Unsigned(o) => WriteLebU32(0) + WriteLebU32(o)
    case Store8(o) => WriteLebU32(0) + WriteLebU32(o)
    case Call(f) => WriteLebU32(f)
    case BranchIf(d) => WriteLebU32(d)
    case Loop => [0x40]
    case Block => [0x40]
    case _ => []
  }

  /** The bytes `emit` appends for one instruction. */
  function Encode(op: Instruction): seq<u8>
  {
    [Opcode(op)] + Immediates(op)
  }

  /** The bytes of an instruction sequence emitted in order: each
      instruction's opcode followed by its immediates. */
  function EncodeAll(ops: seq<Instruction>): seq<u8>
  {
    if ops == [] then [] else Encode(ops[0]) + EncodeAll(ops[1..])
  }

  lemma {:induction false} EncodeAllAppend(a: seq<Instruction>, b: seq<Instruction>)
    ensures EncodeAll(a + b) == EncodeAll(a) + EncodeAll(b)
  {
    if a == [] {
      assert a + b == b;
    } else {
      assert (a + b)[0] == a[0];
      assert (a + b)[1..] == a[1..] + b;
      EncodeAllAppend(a[1..], b);

    }
  }

  /** Instruction sizes: the block openers take two bytes, the operand-free
      instructions one, and every other instruction an opcode plus at most
      two five-byte operands. */
  lemma EncodedSize(op: Instruction)
    ensures op.Loop? ==> Encode(op) == [0x03, 0x40]
    ensures op.Block? ==> Encode(op) == [0x02, 0x40]
    ensures op.End? || op.AddI32? || op.EqualsZeroI32? || op.Drop? || op.Return? ==> |Encode(op)| == 1
    ensures 1 <= |Encode(op)| <= 11
  {
    match op
    case GetLocal(h) => U32Width(h.index);
    case SetLocal(h) => U32Width(h.index);
    case PushI32(v) => SignedWidth(v);
    case Load8Signed(o) => U32Width(o);
    case Load8Unsigned(o) => U32Width(o);
    case Store8(o) => U32Width(o);
    case Call(f) => U32Width(f);
    case BranchIf(d) => U32Width(d);
    case _ =>
  }

  lemma {:induction false} SignedWidthBelow(x: int, k: nat)
    requires 1 <= k && -0x40 * Pow128(k - 1) <= x < 0x40 * Pow128(k - 1)
    ensures |EncodeSigned(x)| <= k
    decreases k
  {
    if !SignedDone(x) {
      ShiftShrinks(x);
      if k == 1 {
        assert false;
      }
      assert Pow128(k - 1) == 0x80 * Pow128(k - 2);
      SignedWidthBelow(x / 0x80, k - 1);
    }
  }

  /** An i32 takes at most five bytes. */
  lemma SignedWidth(v: i32)
    ensures |EncodeSigned(v)| <= 5
  {
    assert Pow128(4) == 0x1000_0000;
    SignedWidthBelow(v, 5);
  }

  /** Appending one instruction's bytes to a stream that encodes `emitted`
      gives a stream that encodes `emitted + [op]`. */
  lemma EmitStep(start: seq<u8>, emitted: seq<Instruction>, op: Instruction)
    ensures start + EncodeAll(emitted + [op]) == start + EncodeAll(emitted) + [Opcode(op)] + Immediates(op)
  {
    EncodeAllAppend(emitted, [op]);
    SingleEncoding(op);
    Assoc(start, EncodeAll(emitted), Encode(op));
  }

  lemma PrintStringStream(start: seq<u8>, a: seq<Instruction>, b: seq<Instruction>)
    ensures start + EncodeAll(a + b) == start + EncodeAll(a) + EncodeAll(b)
  {
    EncodeAllAppend(a, b);
  }

  lemma PrintStringCodeStep(s: seq<u8>, i: nat)
    requires i < |s|
    ensures PrintStringCode(s[..i + 1]) == PrintStringCode(s[..i]) + [PushI32(s[i])] + [Call(0)]
  {
    assert s[..i + 1][..i] == s[..i];
  }

  lemma SingleEncoding(a: Instruction)
    ensures EncodeAll([a]) == Encode(a)
  {
    assert [a][1..] == [];
  }

  lemma PairEncoding(a: Instruction, b: Instruction)
    ensures EncodeAll([a, b]) == Encode(a) + Encode(b)
  {
    calc {
      EncodeAll([a, b]);
      Encode(a) + EncodeAll([a, b][1..]);
      { assert [a, b][1..] == [b]; }
      Encode(a) + EncodeAll([b]);
      { assert [b][1..] == []; }
      Encode(a) + Encode(b) + EncodeAll([]);
    }
  }

  /** `emit_print_string`: for each byte in order, push it and call import 0. */
  function PrintStringCode(s: seq<u8>): seq<Instruction>
  {
    if s == [] then [] else PrintStringCode(s[..|s| - 1]) + [PushI32(s[|s| - 1])] + [Call(0)]
  }

  /** The code for a string is two instructions per byte: the byte pushed as
      an i32 constant, then a call of the print import (function 0). */
  lemma {:induction false} PrintStringCodeShape(s: seq<u8>)
    ensures |PrintStringCode(s)| == 2 * |s|
    ensures forall k :: 0 <= k < |s| ==>
      PrintStringCode(s)[2 * k] == PushI32(s[k]) && PrintStringCode(s)[2 * k + 1] == Call(0)
  {
    if s != [] {
      var init := s[..|s| - 1];
      PrintStringCodeShape(init);
      assert forall k :: 0 <= k < |init| ==> s[k] == init[k];
    }
  }
}

/** The instruction writer over a byte stream, with the local-slot allocator. */
module CodeStream {
  import opened Ints
  import opened Seqs
  import opened WasmInstructions

  /** `CodeStreamWriter`: appends encoded instructions to its stream and
      hands out local slots. The ghost fields record the bytes the stream held
      before the writer was made and the instructions emitted since. */
  class CodeStreamWriter {
    var stream: seq<u8>
    var locals: seq<WasmType>
    ghost var start: seq<u8>
    ghost var emitted: seq<Instruction>

    ghost predicate Valid()
      reads this
    {
      stream == start + EncodeAll(emitted)
    }

    /** `CodeStreamWriter::new` over a stream that already holds `stream`. */
    constructor (stream: seq<u8>)
      ensures Valid()
      ensures this.stream == stream && start == stream && emitted == [] && locals == []
    {
      this.stream := stream;
      locals := [];
      start := stream;
      emitted := [];
    }

    /** `declare_local`: the handle is the number of locals declared before
        (cast to u32), and the local is recorded. */
    method DeclareLocal(localType: WasmType) returns (handle: LocalHandle)
      requires Valid()
      modifies this
      ensures Valid()
      ensures handle.index == AsU32(|old(locals)|)
      ensures locals == old(locals) + [localType]
      ensures stream == old(stream) && start == old(start) && emitted == old(emitted)
    {
      handle := LocalHandle(AsU32(|locals|));
      locals := locals + [localType];
    }

    /** `emit`: appends the opcode and operands of one instruction. */
    method Emit(op: Instruction)
      requires Valid()
      modifies this
      ensures Valid()
      ensures stream == old(stream) + [Opcode(op)] + Immediates(op)
      ensures emitted == old(emitted) + [op]
      ensures locals == old(locals) && start == old(start)
    {
      EmitStep(start, emitted, op);
      stream := stream + [Opcode(op)] + Immediates(op);
      emitted := emitted + [op];
    }

    /** `emit_print_string`: emits code that prints the bytes of `s` one by
        one through import 0. */
    method EmitPrintString(s: seq<u8>)
      requires Valid()
      modifies this
      ensures Valid()
      ensures emitted == old(emitted) + PrintStringCode(s)
      ensures stream == old(stream) + EncodeAll(PrintStringCode(s))
      ensures locals == old(locals) && start == old(start)
    {
      var i := 0;
      while i < |s|
        invariant 0 <= i <= |s|
        invariant Valid()
        invariant emitted == old(emitted) + PrintStringCode(s[..i])
        invariant locals == old(locals) && start == old(start)
      {
        Emit(PushI32(s[i]));
        Emit(Call(0));
        PrintStringCodeStep(s, i);
        Assoc(old(emitted), PrintStringCode(s[..i]) + [PushI32(s[i])], [Call(0)]);
        Assoc(old(emitted), PrintStringCode(s[..i]), [PushI32(s[i])]);
        i := i + 1;
      }
      assert s[..i] == s;
      PrintStringStream(start, old(emitted), PrintStringCode(s));
    }
  }
}
