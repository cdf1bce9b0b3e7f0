/** Reference decoders for the byte formats the WebAssembly writer produces
    (sections 5.2.2 and 5.4 of the WebAssembly Core Specification 1.0): reading
    the bytes back gives the written values and instructions back. */
module WasmDecode {
  import opened Ints
  import opened Wrappers
  import opened Leb128
  import opened WasmInstructions
  import opened WasmSections

  /** Reads an unsigned LEB128 u32 starting at `at`; gives the value and the
      position after it. */
  function ReadU32(s: seq<u8>, at: nat): (r: Option<(u32, nat)>)
    ensures r.Some? ==> at < r.value.1 <= |s|
  {
    if at > |s| then None
    else
      match DecodeUnsigned(s[at..])
      case None => None
      case Some((v, n)) => if v < U32_LIMIT then Some((v, at + n)) else None
  }

  /** Reads a signed LEB128 i32 starting at `at`. */
  function ReadI32(s: seq<u8>, at: nat): (r: Option<(i32, nat)>)
    ensures r.Some? ==> at < r.value.1 <= |s|
  {
    if at > |s| then None
    else
      match DecodeSigned(s[at..])
      case None => None
      case Some((v, n)) => if -0x8000_0000 <= v < 0x8000_0000 then Some((v, at + n)) else None
  }

  /** Reads a length-prefixed string starting at `at`. */
  function ReadStr(s: seq<u8>, at: nat): (r: Option<(seq<u8>, nat)>)
    ensures r.Some? ==> at < r.value.1 <= |s|
  {
    match ReadU32(s, at)
    case None => None
    case Some((len, p)) => if p + len <= |s| then Some((s[p..p + len], p + len)) else None
  }

  lemma ReadU32Written(p: seq<u8>, x: u32, rest: seq<u8>)
    ensures ReadU32(p + WriteLebU32(x) + rest, |p|) == Some((x, |p| + |WriteLebU32(x)|))
  {
    assert (p + WriteLebU32(x) + rest)[|p|..] == WriteLebU32(x) + rest;
    UnsignedRoundTrip(x, rest);
  }

  lemma ReadI32Written(p: seq<u8>, x: i32, rest: seq<u8>)
    ensures ReadI32(p + WriteLebI32(x) + rest, |p|) == Some((x, |p| + |WriteLebI32(x)|))
  {
    assert (p + WriteLebI32(x) + rest)[|p|..] == WriteLebI32(x) + rest;
    SignedRoundTrip(x, rest);
  }

  /** `write_str` is undone by reading a length-prefixed string: the length
      prefix is exactly the byte count and the bytes follow unchanged. */
  lemma WriteStrRoundTrip(p: seq<u8>, s: seq<u8>, rest: seq<u8>)
    requires |s| < U32_LIMIT
    ensures ReadStr(p + WriteStr(s) + rest, |p|) == Some((s, |p| + |WriteStr(s)|))
  {
    var all := p + WriteStr(s) + rest;
    assert all == p + WriteLebU32(|s|) + (s + rest);
    ReadU32Written(p, |s|, s + rest);
    var q := |p| + |WriteLebU32(|s|)|;
    assert all[q..q + |s|] == s;
  }

  /** Reads the alignment (which must be 0) and offset immediates of a byte
      load or store whose opcode is at `at - 1`. */
  function ReadMemArg(s: seq<u8>, at: nat): (r: Option<(u32, nat)>)
    ensures r.Some? ==> at < r.value.1 <= |s|
  {
    match ReadU32(s, at)
    case None => None
    case Some((align, p)) => if align != 0 then None else ReadU32(s, p)
  }

  /** Decodes the instruction at the front of `s`; gives it with its length. */
  function DecodeInstruction(s: seq<u8>): (r: Option<(Instruction, nat)>)
    ensures r.Some? ==> 1 <= r.value.1 <= |s|
  {
    if |s| == 0 then None
    else
      var opcode := s[0];
      if opcode == 0x20 || opcode == 0x21 then
        match ReadU32(s, 1)
        case None => None
        case Some((h, n)) =>
          Some((if opcode == 0x20 then GetLocal(LocalHandle(h)) else SetLocal(LocalHandle(h)), n))
      else if opcode == 0x41 then
        match ReadI32(s, 1)
        case None => None
        case Some((v, n)) => Some((PushI32(v), n))
      else if opcode == 0x2C || opcode == 0x2D || opcode == 0x3A then
        match ReadMemArg(s, 1)
        case None => None
        case Some((o, n)) =>
          Some((if opcode == 0x2C then Load8Signed(o) else if opcode == 0x2D then Load8Unsigned(o) else Store8(o), n))
      else if opcode == 0x10 || opcode == 0x0D then
        match ReadU32(s, 1)
        case None => None
        case Some((x, n)) => Some((if opcode == 0x10 then Call(x) else BranchIf(x), n))
      else if opcode == 0x03 || opcode == 0x02 then
        if |s| >= 2 && s[1] == 0x40 then Some((if opcode == 0x03 then Loop else Block, 2)) else None
      else if opcode == 0x6A then Some((AddI32, 1))
      else if opcode == 0x45 then Some((EqualsZeroI32, 1))
      else if opcode == 0x0B then Some((End, 1))
      else if opcode == 0x1A then Some((Drop, 1))
      else if opcode == 0x0F then Some((Return, 1))
      else None
  }

  /** Every encoding decodes back to its instruction, consuming exactly its
      own bytes: the opcodes are distinct and the operands self-delimiting. */
  lemma EncodeDecode(op: Instruction, rest: seq<u8>)
    ensures DecodeInstruction(Encode(op) + rest) == Some((op, |Encode(op)|))
  {
    match op
    case GetLocal(_) => LocalDecodes(op, rest);
    case SetLocal(_) => LocalDecodes(op, rest);
    case PushI32(v) => ReadI32Written([0x41], v, rest);
    case Load8Signed(_) => MemoryDecodes(op, rest);
    case Load8Unsigned(_) => MemoryDecodes(op, rest);
    case Store8(_) => MemoryDecodes(op, rest);
    case Call(_) => IndexDecodes(op, rest);
    case BranchIf(_) => IndexDecodes(op, rest);
    case Loop => BlockDecodes(op, rest);
    case Block => BlockDecodes(op, rest);
    case _ => SimpleDecodes(op, rest);
  }

  lemma LocalDecodes(op: Instruction, rest: seq<u8>)
    requires op.GetLocal? || op.SetLocal?
    ensures DecodeInstruction(Encode(op) + rest) == Some((op, |Encode(op)|))
  {
    ReadU32Written([if op.GetLocal? then 0x20 else 0x21], op.handle.index, rest);
  }

  lemma IndexDecodes(op: Instruction, rest: seq<u8>)
    requires op.Call? || op.BranchIf?
    ensures DecodeInstruction(Encode(op) + rest) == Some((op, |Encode(op)|))
  {
    if op.Call? {
      ReadU32Written([0x10], op.funcIndex, rest);
    } else {
      ReadU32Written([0x0D], op.depth, rest);
    }
  }

  lemma MemoryDecodes(op: Instruction, rest: seq<u8>)
    requires op.Load8Signed? || op.Load8Unsigned? || op.Store8?
    ensures DecodeInstruction(Encode(op) + rest) == Some((op, |Encode(op)|))
  {
    var opcode := Opcode(op);
    var s := Encode(op) + rest;
    assert s == [opcode] + WriteLebU32(0) + WriteLebU32(op.offset) + rest;
    MemArgWritten(opcode, op.offset, rest);
    assert s[0] == opcode;
    assert ReadMemArg(s, 1) == Some((op.offset, |Encode(op)|));
  }

  lemma BlockDecodes(op: Instruction, rest: seq<u8>)
    requires op.Loop? || op.Block?
    ensures DecodeInstruction(Encode(op) + rest) == Some((op, |Encode(op)|))
  {
  }

  lemma SimpleDecodes(op: Instruction, rest: seq<u8>)
    requires op.AddI32? || op.EqualsZeroI32? || op.End? || op.Drop? || op.Return?
    ensures DecodeInstruction(Encode(op) + rest) == Some((op, |Encode(op)|))
  {
  }

  lemma MemArgWritten(opcode: u8, o: u32, rest: seq<u8>)
    ensures ReadMemArg([opcode] + WriteLebU32(0) + WriteLebU32(o) + rest, 1)
         == Some((o, 1 + |WriteLebU32(0)| + |WriteLebU32(o)|))
  {
    var s := [opcode] + WriteLebU32(0) + WriteLebU32(o) + rest;
    assert s == [opcode] + WriteLebU32(0) + (WriteLebU32(o) + rest);
    ReadU32Written([opcode], 0, WriteLebU32(o) + rest);
    ReadU32Written([opcode] + WriteLebU32(0), o, rest);
  }

  /** Decodes a whole instruction stream; None if any part is malformed. */
  function DecodeAll(s: seq<u8>): Option<seq<Instruction>>
    decreases |s|
  {
    if s == [] then Some([])
    else
      match DecodeInstruction(s)
      case None => None
      case Some((op, n)) =>
        match DecodeAll(s[n..])
        case None => None
        case Some(ops) => Some([op] + ops)
  }

  /** An emitted instruction stream decodes to exactly the instructions
      emitted, in order. */
  lemma {:induction false} EncodeAllDecodes(ops: seq<Instruction>)
    ensures DecodeAll(EncodeAll(ops)) == Some(ops)
  {
    if ops != [] {
      var e := Encode(ops[0]);
      var tail := EncodeAll(ops[1..]);
      EncodeDecode(ops[0], tail);
      assert (e + tail)[|e|..] == tail;
      EncodeAllDecodes(ops[1..]);
      assert [ops[0]] + ops[1..] == ops;
    }
  }

  /** Splits a byte string into sections: an id byte, an unsigned LEB128
      payload length, then that many payload bytes, until the input ends. */
  function ParseSections(s: seq<u8>): Option<seq<Section>>
    decreases |s|
  {
    if s == [] then Some([])
    else
      match ReadU32(s, 1)
      case None => None
      case Some((len, p)) =>
        if p + len > |s| then None
        else
          match ParseSections(s[p + len..])
          case None => None
          case Some(rest) => Some([Section(s[0], s[p..p + len])] + rest)
  }

  /** Reads a whole module: the preamble, then its sections. */
  function ParseModule(s: seq<u8>): Option<seq<Section>>
  {
    if |s| >= 8 && s[..8] == Header() then ParseSections(s[8..]) else None
  }

  /** Written sections are read back as the same sections in the same order. */
  lemma {:induction false} SectionsRoundTrip(sections: seq<Section>)
    requires Representable(sections)
    ensures ParseSections(Serialize(sections)) == Some(sections)
  {
    if sections != [] {
      var sec := sections[0];
      var tail := Serialize(sections[1..]);
      var all := Serialize(sections);
      assert all == [sec.id] + WriteLebU32(|sec.data|) + (sec.data + tail);
      ReadU32Written([sec.id], |sec.data|, sec.data + tail);
      var p := 1 + |WriteLebU32(|sec.data|)|;
      assert all[p..p + |sec.data|] == sec.data;
      assert all[p + |sec.data|..] == tail;
      SectionsRoundTrip(sections[1..]);
      assert [sec] + sections[1..] == sections;
    }
  }

  /** A written module is read back as the same sections. */
  lemma ModuleRoundTrip(sections: seq<Section>)
    requires Representable(sections)
    ensures ParseModule(Header() + Serialize(sections)) == Some(sections)
  {
    var all := Header() + Serialize(sections);
    assert all[..8] == Header();
    assert all[8..] == Serialize(sections);
    SectionsRoundTrip(sections);
  }
}

/** Reading back the code entry of a function (section 5.5.13 of the
    WebAssembly Core Specification 1.0). */
module WasmCodeDecode {
  import opened Ints
  import opened Wrappers
  import opened WasmInstructions
  import opened WasmDecode

  /** Reads `n` local declarations, each a count and a value type byte. */
  function ReadLocals(s: seq<u8>, at: nat, n: nat): (r: Option<(seq<(u32, u8)>, nat)>)
    ensures r.Some? ==> |r.value.0| == n && at <= r.value.1 <= |s|
    decreases n
  {
    if n == 0 then (if at <= |s| then Some(([], at)) else None)
    else
      match ReadU32(s, at)
      case None => None
      case Some((count, p)) =>
        if p >= |s| then None
        else
          match ReadLocals(s, p + 1, n - 1)
          case None => None
          case Some((rest, q)) => Some(([(count, s[p])] + rest, q))
  }

  /** A code entry: its size, which must cover exactly the rest of the
      input, then the function body. */
  function ParseCodeEntry(s: seq<u8>): Option<(seq<(u32, u8)>, seq<Instruction>)>
  {
    match ReadU32(s, 0)
    case None => None
    case Some((size, p)) => if p + size != |s| then None else ParseFunctionBody(s[p..])
  }

  /** A function body: the vector of local declarations, then the
      instructions. */
  function ParseFunctionBody(b: seq<u8>): Option<(seq<(u32, u8)>, seq<Instruction>)>
  {
    match ReadU32(b, 0)
    case None => None
    case Some((groups, q)) =>
      match ReadLocals(b, q, groups)
      case None => None
      case Some((locals, k)) =>
        match DecodeAll(b[k..])
        case None => None
        case Some(code) => Some((locals, code))
  }
}
