/** The module builder: sections are collected, ordered by id and written
    after the preamble; `emit_token` translates the tree IR into
    instructions; the fixed sections of the generated module and the
    module writer. */
module WasmBuilder {
  import opened Ints
  import opened Wrappers
  import opened Seqs
  import opened WasmInstructions
  import opened CodeStream
  import opened WasmSections
  import opened WasmCodegen
  import opened WasmDecode
  import opened WasmCodeDecode
  import Leb128
  import Types

  /** `ModuleBuilder`: the sections added so far, in the order added. */
  class ModuleBuilder {
    var sections: seq<Section>

    /** `ModuleBuilder::new` */
    constructor ()
      ensures sections == []
    {
      sections := [];
    }

    /** `add_section`: one new section with the given id whose payload is
        the entry count followed by the bytes every entry writes; the
        sections added before are unchanged. */
    method AddSection(id: u8, entries: seq<seq<u8>>)
      modifies this
      ensures sections == old(sections) + [Section(id, SectionData(entries))]
    {
      var data := WriteLebU32(AsU32(|entries|));
      for i := 0 to |entries|
        invariant data == WriteLebU32(AsU32(|entries|)) + Concat(entries[..i])
      {
        assert entries[..i + 1][..i] == entries[..i];
        data := data + entries[i];
      }
      assert entries[..|entries|] == entries;
      sections := sections + [Section(id, data)];
    }

    /** `write_to_stream`: orders the sections by id in place, then appends
        the preamble and every section to the stream. */
    method WriteToStream(stream: seq<u8>) returns (out: seq<u8>)
      modifies this
      ensures sections == SortById(old(sections))
      ensures out == stream + Header() + Serialize(sections)
    {
      var sorted := SortById(sections);
      sections := sorted;
      out := stream + U32LE(MAGIC);
      out := out + U32LE(VERSION);
      Assoc(stream, U32LE(MAGIC), U32LE(VERSION));
      for i := 0 to |sorted|
        invariant out == stream + Header() + Serialize(sorted[..i])
        invariant sections == sorted
      {
        var section := sorted[i];
        ghost var before := out;
        out := out + [section.id];
        out := out + WriteLebU32(AsU32(|section.data|));
        out := out + section.data;
        SerializeStep(sorted, i);
        Assoc(before, [section.id] + WriteLebU32(AsU32(|section.data|)), section.data);
        Assoc(before, [section.id], WriteLebU32(AsU32(|section.data|)));
        Assoc(stream + Header(), Serialize(sorted[..i]), SectionBytes(section));
      }
      assert sorted[..|sorted|] == sorted;
    }
  }

  lemma SerializeStep(sections: seq<Section>, i: nat)
    requires i < |sections|
    ensures Serialize(sections[..i + 1]) == Serialize(sections[..i]) + SectionBytes(sections[i])
  {
    assert sections[..i + 1] == sections[..i] + [sections[i]];
    SerializeAppend(sections[..i], [sections[i]]);
    assert [sections[i]][1..] == [];
  }

  /** `emit_token`: appends the instructions for one token. */
  method EmitToken(writer: CodeStreamWriter, pointer: LocalHandle, token: Types.ProgramToken)
    requires writer.Valid()
    modifies writer
    ensures writer.Valid()
    ensures writer.emitted == old(writer.emitted) + TokenCode(pointer, token)
    ensures writer.locals == old(writer.locals) && writer.start == old(writer.start)
    decreases token, 1
  {
    var p := pointer;
    match token {
      case ChangeAddr(delta) =>
        EmitChangeAddr(writer, p, delta);
      case Offset(offset, ChangeValue(v)) =>
        if offset == 0 {
          EmitChangeValueHere(writer, p, offset, v);
        } else if offset > 0 {
          EmitChangeValueIndexed(writer, p, offset, v);
        } else {
          EmitChangeValueShifted(writer, p, offset, v);
        }
      case Offset(offset, Print) =>
        if offset == 0 {
          EmitPrintHere(writer, p, offset);
        } else if offset > 0 {
          EmitPrintIndexed(writer, p, offset);
        } else {
          EmitPrintShifted(writer, p, offset);
        }
      case Offset(offset, SetValue(v)) =>
        if offset == 0 {
          EmitSetValueHere(writer, p, offset, v);
        } else if offset > 0 {
          EmitSetValueIndexed(writer, p, offset, v);
        } else {
          EmitSetValueShifted(writer, p, offset, v);
        }
      case Loop(body) =>
        EmitLoop(writer, p, body);
    }
  }

  /** `for token in body { emit_token(..) }`: the tokens' code in order. */
  method EmitTokens(writer: CodeStreamWriter, p: LocalHandle, body: seq<Types.ProgramToken>)
    requires writer.Valid()
    modifies writer
    ensures writer.Valid()
    ensures writer.emitted == old(writer.emitted) + TokensCode(p, body)
    ensures writer.locals == old(writer.locals) && writer.start == old(writer.start)
    decreases body, 0
  {
    for i := 0 to |body|
      invariant writer.Valid()
      invariant writer.emitted == old(writer.emitted) + TokensCode(p, body[..i])
      invariant writer.locals == old(writer.locals) && writer.start == old(writer.start)
    {
      EmitToken(writer, p, body[i]);
      TokensCodeStep(p, body, i);
      Assoc(old(writer.emitted), TokensCode(p, body[..i]), TokenCode(p, body[i]));
    }
    assert body[..|body|] == body;
  }

  /** `ChangeAddr(by)`: adds the step (cast to i32) to the pointer local. */
  method EmitChangeAddr(writer: CodeStreamWriter, p: LocalHandle, delta: isize)
    requires writer.Valid()
    modifies writer
    ensures writer.Valid()
    ensures writer.emitted == old(writer.emitted) + TokenCode(p, Types.ChangeAddr(delta))
    ensures writer.locals == old(writer.locals) && writer.start == old(writer.start)
  {
    writer.Emit(GetLocal(p));
    writer.Emit(PushI32(WrapI32(delta)));
    writer.Emit(AddI32);
    writer.Emit(SetLocal(p));
    Flat4(old(writer.emitted), GetLocal(p), PushI32(WrapI32(delta)), AddI32, SetLocal(p));
  }

  /** `Loop(body)`: the entry test inside a block, the body inside a loop,
      the exit test, and the two `end`s. */
  method EmitLoop(writer: CodeStreamWriter, p: LocalHandle, body: seq<Types.ProgramToken>)
    requires writer.Valid()
    modifies writer
    ensures writer.Valid()
    ensures writer.emitted == old(writer.emitted) + TokenCode(p, Types.Loop(body))
    ensures writer.locals == old(writer.locals) && writer.start == old(writer.start)
    decreases body, 1
  {
    writer.Emit(Block);
    writer.Emit(GetLocal(p));
    writer.Emit(Load8Unsigned(0));
    writer.Emit(EqualsZeroI32);
    writer.Emit(BranchIf(0));
    writer.Emit(Loop);
    EmitTokens(writer, p, body);
    writer.Emit(GetLocal(p));
    writer.Emit(Load8Unsigned(0));
    writer.Emit(BranchIf(0));
    writer.Emit(End);
    writer.Emit(End);
    LoopFlat(old(writer.emitted), p, TokensCode(p, body));
  }

  /** `Offset(0, ChangeValue(value))`: load, add and store at the pointer. */
  method EmitChangeValueHere(writer: CodeStreamWriter, p: LocalHandle, offset: isize, v: i8)
    requires writer.Valid() && offset == 0
    modifies writer
    ensures writer.Valid()
    ensures writer.emitted == old(writer.emitted) + ChangeValueCode(p, offset, v)
    ensures writer.locals == old(writer.locals) && writer.start == old(writer.start)
  {
    writer.Emit(GetLocal(p));
    writer.Emit(GetLocal(p));
    writer.Emit(Load8Unsigned(0));
    writer.Emit(PushI32(v));
    writer.Emit(AddI32);
    writer.Emit(Store8(0));
    Flat6(old(writer.emitted), GetLocal(p), GetLocal(p), Load8Unsigned(0), PushI32(v), AddI32, Store8(0));
  }

  /** `Offset(o, ChangeValue(value))` with `o > 0`: the offset is the immediate of the load and the store. */
  method EmitChangeValueIndexed(writer: CodeStreamWriter, p: LocalHandle, offset: isize, v: i8)
    requires writer.Valid() && offset > 0
    modifies writer
    ensures writer.Valid()
    ensures writer.emitted == old(writer.emitted) + ChangeValueCode(p, offset, v)
    ensures writer.locals == old(writer.locals) && writer.start == old(writer.start)
  {
    writer.Emit(GetLocal(p));
    writer.Emit(GetLocal(p));
    writer.Emit(Load8Unsigned(AsU32(offset)));
    writer.Emit(PushI32(v));
    writer.Emit(AddI32);
    writer.Emit(Store8(AsU32(offset)));
    Flat6(old(writer.emitted), GetLocal(p), GetLocal(p), Load8Unsigned(AsU32(offset)), PushI32(v), AddI32, Store8(AsU32(offset)));
  }

  /** `Offset(o, ChangeValue(value))` with `o < 0`: the address is computed twice, once for the store and once for the load. */
  method EmitChangeValueShifted(writer: CodeStreamWriter, p: LocalHandle, offset: isize, v: i8)
    requires writer.Valid() && offset < 0
    modifies writer
    ensures writer.Valid()
    ensures writer.emitted == old(writer.emitted) + ChangeValueCode(p, offset, v)
    ensures writer.locals == old(writer.locals) && writer.start == old(writer.start)
  {
    writer.Emit(GetLocal(p));
    writer.Emit(PushI32(WrapI32(offset)));
    writer.Emit(AddI32);
    writer.Emit(GetLocal(p));
    writer.Emit(PushI32(WrapI32(offset)));
    writer.Emit(AddI32);
    writer.Emit(Load8Unsigned(0));
    writer.Emit(PushI32(v));
    writer.Emit(AddI32);
    writer.Emit(Store8(0));
    Flat10(old(writer.emitted), GetLocal(p), PushI32(WrapI32(offset)), AddI32, GetLocal(p), PushI32(WrapI32(offset)), AddI32, Load8Unsigned(0), PushI32(v), AddI32, Store8(0));
  }

  /** `Offset(0, Print)`: the byte at the pointer goes to import 0. */
  method EmitPrintHere(writer: CodeStreamWriter, p: LocalHandle, offset: isize)
    requires writer.Valid() && offset == 0
    modifies writer
    ensures writer.Valid()
    ensures writer.emitted == old(writer.emitted) + PrintCode(p, offset)
    ensures writer.locals == old(writer.locals) && writer.start == old(writer.start)
  {
    writer.Emit(GetLocal(p));
    writer.Emit(Load8Unsigned(0));
    writer.Emit(Call(0));
    Flat3(old(writer.emitted), GetLocal(p), Load8Unsigned(0), Call(0));
  }

  /** `Offset(o, Print)` with `o > 0`. */
  method EmitPrintIndexed(writer: CodeStreamWriter, p: LocalHandle, offset: isize)
    requires writer.Valid() && offset > 0
    modifies writer
    ensures writer.Valid()
    ensures writer.emitted == old(writer.emitted) + PrintCode(p, offset)
    ensures writer.locals == old(writer.locals) && writer.start == old(writer.start)
  {
    writer.Emit(GetLocal(p));
    writer.Emit(Load8Unsigned(AsU32(offset)));
    writer.Emit(Call(0));
    Flat3(old(writer.emitted), GetLocal(p), Load8Unsigned(AsU32(offset)), Call(0));
  }

  /** `Offset(o, Print)` with `o < 0`. */
  method EmitPrintShifted(writer: CodeStreamWriter, p: LocalHandle, offset: isize)
    requires writer.Valid() && offset < 0
    modifies writer
    ensures writer.Valid()
    ensures writer.emitted == old(writer.emitted) + PrintCode(p, offset)
    ensures writer.locals == old(writer.locals) && writer.start == old(writer.start)
  {
    writer.Emit(GetLocal(p));
    writer.Emit(PushI32(WrapI32(offset)));
    writer.Emit(AddI32);
    writer.Emit(Load8Unsigned(0));
    writer.Emit(Call(0));
    Flat5(old(writer.emitted), GetLocal(p), PushI32(WrapI32(offset)), AddI32, Load8Unsigned(0), Call(0));
  }

  /** `Offset(0, SetValue(value))`. */
  method EmitSetValueHere(writer: CodeStreamWriter, p: LocalHandle, offset: isize, v: i8)
    requires writer.Valid() && offset == 0
    modifies writer
    ensures writer.Valid()
    ensures writer.emitted == old(writer.emitted) + SetValueCode(p, offset, v)
    ensures writer.locals == old(writer.locals) && writer.start == old(writer.start)
  {
    writer.Emit(GetLocal(p));
    writer.Emit(PushI32(v));
    writer.Emit(Store8(0));
    Flat3(old(writer.emitted), GetLocal(p), PushI32(v), Store8(0));
  }

  /** `Offset(o, SetValue(value))` with `o > 0`. */
  method EmitSetValueIndexed(writer: CodeStreamWriter, p: LocalHandle, offset: isize, v: i8)
    requires writer.Valid() && offset > 0
    modifies writer
    ensures writer.Valid()
    ensures writer.emitted == old(writer.emitted) + SetValueCode(p, offset, v)
    ensures writer.locals == old(writer.locals) && writer.start == old(writer.start)
  {
    writer.Emit(GetLocal(p));
    writer.Emit(PushI32(v));
    writer.Emit(Store8(AsU32(offset)));
    Flat3(old(writer.emitted), GetLocal(p), PushI32(v), Store8(AsU32(offset)));
  }

  /** `Offset(o, SetValue(value))` with `o < 0`. */
  method EmitSetValueShifted(writer: CodeStreamWriter, p: LocalHandle, offset: isize, v: i8)
    requires writer.Valid() && offset < 0
    modifies writer
    ensures writer.Valid()
    ensures writer.emitted == old(writer.emitted) + SetValueCode(p, offset, v)
    ensures writer.locals == old(writer.locals) && writer.start == old(writer.start)
  {
    writer.Emit(GetLocal(p));
    writer.Emit(PushI32(WrapI32(offset)));
    writer.Emit(AddI32);
    writer.Emit(PushI32(v));
    writer.Emit(Store8(0));
    Flat5(old(writer.emitted), GetLocal(p), PushI32(WrapI32(offset)), AddI32, PushI32(v), Store8(0));
  }

  lemma TokensCodeStep(p: LocalHandle, tokens: seq<Types.ProgramToken>, i: nat)
    requires i < |tokens|
    ensures TokensCode(p, tokens[..i + 1]) == TokensCode(p, tokens[..i]) + TokenCode(p, tokens[i])
  {
    assert tokens[..i + 1] == tokens[..i] + [tokens[i]];
    TokensCodeAppend(p, tokens[..i], [tokens[i]]);
    assert [tokens[i]][1..] == [];
  }

  // The sections of the generated module.

  /** The UTF-8 bytes of the names the module imports and exports. */
  const BFCRS: seq<u8> := [0x62, 0x66, 0x63, 0x72, 0x73]     // "bfcrs"
  const PRINT: seq<u8> := [0x70, 0x72, 0x69, 0x6E, 0x74]     // "print"
  const READ: seq<u8> := [0x72, 0x65, 0x61, 0x64]            // "read"
  const MAIN: seq<u8> := [0x6D, 0x61, 0x69, 0x6E]            // "main"
  const MEMORY: seq<u8> := [0x6D, 0x65, 0x6D, 0x6F, 0x72, 0x79]  // "memory"

  /** Section ids (section 5.5.2 of the WebAssembly Core Specification 1.0). */
  const TYPE_ID: u8 := 1
  const IMPORT_ID: u8 := 2
  const FUNCTION_ID: u8 := 3
  const MEMORY_ID: u8 := 5
  const EXPORT_ID: u8 := 7
  const CODE_ID: u8 := 10

  /** The value type i32 and the function type marker. */
  const I32_TYPE: u8 := 0x7F
  const FUNC_TYPE: u8 := 0x60

  /** Three function types: print `(i32) -> ()`, read `() -> i32` and main
      `() -> i32`. */
  function TypeEntries(): seq<seq<u8>>
  {
    [[FUNC_TYPE] + WriteLebU32(1) + [I32_TYPE] + WriteLebU32(0),
     [FUNC_TYPE] + WriteLebU32(0) + WriteLebU32(1) + [I32_TYPE],
     [FUNC_TYPE] + WriteLebU32(0) + WriteLebU32(1) + [I32_TYPE]]
  }

  /** Two function imports from module "bfcrs": "print" of type 0 and "read"
      of type 1 (import kind 0 is a function). */
  function ImportEntries(): seq<seq<u8>>
  {
    [WriteStr(BFCRS) + WriteStr(PRINT) + [0] + WriteLebU32(0),
     WriteStr(BFCRS) + WriteStr(READ) + [0] + WriteLebU32(1)]
  }

  /** One defined function, of type 2. */
  function FunctionEntries(): seq<seq<u8>>
  {
    [[2]]
  }

  /** One memory without a maximum (flags 0) and `pageCount` initial pages. */
  function MemoryEntries(pageCount: u32): seq<seq<u8>>
  {
    [[0] + WriteLebU32(pageCount)]
  }

  /** "main" exports function 2 (kind 0), "memory" exports memory 0
      (kind 2). */
  function ExportEntries(): seq<seq<u8>>
  {
    [WriteStr(MAIN) + [0] + [2],
     WriteStr(MEMORY) + [2] + [0]]
  }

  /** The body of `main`: one group of locals holding one i32 (the pointer,
      local 0), then the instructions. */
  function CodeBody(tokens: seq<Types.ProgramToken>): seq<u8>
  {
    WriteLebU32(1) + WriteLebU32(1) + [I32_TYPE] + EncodeAll(FunctionCode(tokens))
  }

  /** The code entry: the body's size (cast to u32), then the body. */
  function CodeEntry(tokens: seq<Types.ProgramToken>): seq<u8>
  {
    WriteLebU32(AsU32(|CodeBody(tokens)|)) + CodeBody(tokens)
  }

  /** The sections `WasmModule::write_to_stream` adds, in the order it adds
      them, with one memory page. */
  function ModuleSections(tokens: seq<Types.ProgramToken>): seq<Section>
  {
    [Section(TYPE_ID, SectionData(TypeEntries())),
     Section(IMPORT_ID, SectionData(ImportEntries())),
     Section(FUNCTION_ID, SectionData(FunctionEntries())),
     Section(MEMORY_ID, SectionData(MemoryEntries(1))),
     Section(EXPORT_ID, SectionData(ExportEntries())),
     Section(CODE_ID, SectionData([CodeEntry(tokens)]))]
  }

  /** `add_type_section` */
  method AddTypeSection(builder: ModuleBuilder)
    modifies builder
    ensures builder.sections == old(builder.sections) + [Section(TYPE_ID, SectionData(TypeEntries()))]
  {
    builder.AddSection(TYPE_ID, TypeEntries());
  }

  /** `add_import_section` */
  method AddImportSection(builder: ModuleBuilder)
    modifies builder
    ensures builder.sections == old(builder.sections) + [Section(IMPORT_ID, SectionData(ImportEntries()))]
  {
    builder.AddSection(IMPORT_ID, ImportEntries());
  }

  /** `add_function_section` */
  method AddFunctionSection(builder: ModuleBuilder)
    modifies builder
    ensures builder.sections == old(builder.sections) + [Section(FUNCTION_ID, SectionData(FunctionEntries()))]
  {
    builder.AddSection(FUNCTION_ID, FunctionEntries());
  }

  /** `add_memory_section` */
  method AddMemorySection(builder: ModuleBuilder, pageCount: u32)
    modifies builder
    ensures builder.sections == old(builder.sections) + [Section(MEMORY_ID, SectionData(MemoryEntries(pageCount)))]
  {
    builder.AddSection(MEMORY_ID, MemoryEntries(pageCount));
  }

  /** `add_export_section` */
  method AddExportSection(builder: ModuleBuilder)
    modifies builder
    ensures builder.sections == old(builder.sections) + [Section(EXPORT_ID, SectionData(ExportEntries()))]
  {
    builder.AddSection(EXPORT_ID, ExportEntries());
  }

  /** `add_code_section`: the tokens are emitted into a fresh stream through
      a writer whose only local is the pointer, followed by the pointer as
      the result and the closing `end`; the stream becomes the body of the
      single code entry. */
  method AddCodeSection(builder: ModuleBuilder, tokens: seq<Types.ProgramToken>)
    modifies builder
    ensures builder.sections == old(builder.sections) + [Section(CODE_ID, SectionData([CodeEntry(tokens)]))]
  {
    var writer := new CodeStreamWriter([]);
    var pointer := writer.DeclareLocal(I32);
    assert pointer == LocalHandle(0);
    EmitTokens(writer, pointer, tokens);
    writer.Emit(GetLocal(pointer));
    writer.Emit(Return);
    writer.Emit(End);
    Flat3(TokensCode(pointer, tokens), GetLocal(pointer), Return, End);
    assert writer.emitted == FunctionCode(tokens);
    var code := writer.stream;
    assert code == EncodeAll(FunctionCode(tokens));
    var codeBody := WriteLebU32(1);
    codeBody := codeBody + WriteLebU32(1);
    codeBody := codeBody + [I32_TYPE];
    codeBody := codeBody + code;
    var codeEntry := WriteLebU32(AsU32(|codeBody|));
    codeEntry := codeEntry + codeBody;
    builder.AddSection(CODE_ID, [codeEntry]);
  }

  /** `WasmModule::write_to_stream`: builds the six sections and writes the
      module after what `stream` already holds. Because the sections are
      added in ascending id order the sort leaves them as added. */
  method WriteModule(stream: seq<u8>, tokens: seq<Types.ProgramToken>) returns (out: seq<u8>)
    ensures out == stream + Header() + Serialize(ModuleSections(tokens))
  {
    var builder := new ModuleBuilder();
    AddTypeSection(builder);
    AddImportSection(builder);
    AddFunctionSection(builder);
    AddMemorySection(builder, 1);
    AddExportSection(builder);
    AddCodeSection(builder, tokens);
    assert builder.sections == ModuleSections(tokens);
    SectionIdsAscend(tokens);
    SortByIdKeepsSorted(ModuleSections(tokens));
    out := builder.WriteToStream(stream);
  }

  /** The module's section ids are 1, 2, 3, 5, 7 and 10: strictly ascending,
      as section 5.5.15 of the WebAssembly Core Specification 1.0 requires of
      non-custom sections, so each section appears once and in order. */
  lemma SectionIdsAscend(tokens: seq<Types.ProgramToken>)
    ensures StrictlySortedById(ModuleSections(tokens))
    ensures SortedById(ModuleSections(tokens))
    ensures SortById(ModuleSections(tokens)) == ModuleSections(tokens)
  {
    var m := ModuleSections(tokens);
    assert |m| == 6;
    assert m[0].id == 1 && m[1].id == 2 && m[2].id == 3 && m[3].id == 5 && m[4].id == 7 && m[5].id == 10;
    assert forall i, j :: 0 <= i < j < 6 ==> m[i].id < m[j].id;
    SortByIdKeepsSorted(m);
  }

  /** The code entry reads back as one local declaration of one i32 and
      exactly the instructions of `main`, provided its body fits the u32
      size field. */
  lemma CodeEntryReadsBack(tokens: seq<Types.ProgramToken>)
    requires |CodeBody(tokens)| < U32_LIMIT
    ensures ParseCodeEntry(CodeEntry(tokens)) == Some(([(1, I32_TYPE)], FunctionCode(tokens)))
  {
    var code := EncodeAll(FunctionCode(tokens));
    var body := CodeBody(tokens);
    assert WriteLebU32(1) == [1];
    assert body == [1] + [1] + [I32_TYPE] + code;
    var size := WriteLebU32(|body|);
    var s := CodeEntry(tokens);
    assert s == size + body;
    EntryLayout(size, |body|, code, s);
    EncodeAllDecodes(FunctionCode(tokens));
  }

  lemma EntryLayout(size: seq<u8>, n: nat, code: seq<u8>, s: seq<u8>)
    requires n < U32_LIMIT && size == WriteLebU32(n) && n == 3 + |code|
    requires s == size + ([1] + [1] + [I32_TYPE] + code)
    ensures ParseCodeEntry(s) == (match DecodeAll(code) case None => None case Some(c) => Some(([(1, I32_TYPE)], c)))
  {
    var body := [1] + [1] + [I32_TYPE] + code;
    assert s == [] + WriteLebU32(n) + body;
    ReadU32Written([], n, body);
    assert s[|size|..] == body;
    BodyLayout(code);
  }

  lemma BodyLayout(code: seq<u8>)
    ensures ParseFunctionBody([1] + [1] + [I32_TYPE] + code)
         == (match DecodeAll(code) case None => None case Some(c) => Some(([(1, I32_TYPE)], c)))
  {
    var b := [1] + [1] + [I32_TYPE] + code;
    assert WriteLebU32(1) == [1];
    assert b == [] + WriteLebU32(1) + ([1] + [I32_TYPE] + code);
    ReadU32Written([], 1, [1] + [I32_TYPE] + code);
    assert b == [1] + WriteLebU32(1) + ([I32_TYPE] + code);
    ReadU32Written([1], 1, [I32_TYPE] + code);
    assert ReadU32(b, 1) == Some((1, 2));
    assert b[2] == I32_TYPE;
    assert ReadLocals(b, 3, 0) == Some(([], 3));
    assert [(1 as u32, b[2])] + [] == [(1, I32_TYPE)];
    assert b[3..] == code;
  }

  /** A module whose code fits the u32 size fields reads back as the six
      sections that were added, in order. */
  lemma ModuleReadsBack(tokens: seq<Types.ProgramToken>)
    requires |CodeBody(tokens)| + 6 < U32_LIMIT
    ensures ParseModule(Header() + Serialize(ModuleSections(tokens))) == Some(ModuleSections(tokens))
  {
    var m := ModuleSections(tokens);
    FixedSectionsSmall();
    Leb128.U32Width(AsU32(|CodeBody(tokens)|));
    assert Concat([CodeEntry(tokens)]) == Concat([]) + CodeEntry(tokens);
    assert |m[5].data| <= 1 + 5 + |CodeBody(tokens)|;
    ModuleRoundTrip(m);
  }

  /** The fixed sections have short payloads. */
  lemma FixedSectionsSmall()
    ensures |SectionData(TypeEntries())| < 64 && |SectionData(ImportEntries())| < 64
    ensures |SectionData(FunctionEntries())| < 64 && |SectionData(MemoryEntries(1))| < 64
    ensures |SectionData(ExportEntries())| < 64
  {
    ConcatBound(TypeEntries(), 16);
    ConcatBound(ImportEntries(), 16);
    ConcatBound(FunctionEntries(), 16);
    ConcatBound(MemoryEntries(1), 16);
    ConcatBound(ExportEntries(), 16);
  }

  /** The type section's payload: three function types (0x60), print
      `(i32) -> ()`, read `() -> i32` and main `() -> i32`, with i32 written
      0x7F, as section 5.3.3 of the WebAssembly Core Specification 1.0
      encodes them. */
  lemma TypePayload()
    ensures SectionData(TypeEntries())
         == [0x03, 0x60, 0x01, 0x7F, 0x00, 0x60, 0x00, 0x01, 0x7F, 0x60, 0x00, 0x01, 0x7F]
  {
    var e := TypeEntries();
    assert WriteLebU32(0) == [0] && WriteLebU32(1) == [1] && WriteLebU32(AsU32(3)) == [3];
    assert e[..1][..0] == e[..0] && e[..2][..1] == e[..1] && e[..3][..2] == e[..2] && e[..3] == e;
    assert Concat(e[..1]) == e[0];
  }

  /** The import section reads back as a count of two, then the import of
      "print" from module "bfcrs" as a function (kind 0) of type 0, then the
      import of "read" from "bfcrs" as a function of type 1. */
  lemma ImportPayload()
    ensures var d := SectionData(ImportEntries());
      |d| == 28 && ReadU32(d, 0) == Some((2, 1))
      && ReadStr(d, 1) == Some((BFCRS, 7)) && ReadStr(d, 7) == Some((PRINT, 13))
      && d[13] == 0 && ReadU32(d, 14) == Some((0, 15))
      && ReadStr(d, 15) == Some((BFCRS, 21)) && ReadStr(d, 21) == Some((READ, 26))
      && d[26] == 0 && ReadU32(d, 27) == Some((1, 28))
  {
    ImportBytes();
    var d := SectionData(ImportEntries());
    ImportFirst(d);
    ImportSecond(d);
  }

  lemma ImportFirst(d: seq<u8>)
    requires d == [2] + ImportPrint() + ImportRead()
    ensures |d| == 28 && ReadU32(d, 0) == Some((2, 1))
    ensures ReadStr(d, 1) == Some((BFCRS, 7)) && ReadStr(d, 7) == Some((PRINT, 13))
    ensures d[13] == 0 && ReadU32(d, 14) == Some((0, 15))
  {
    U32At(d, 0);
    StrAt(d, 1, BFCRS);
    StrAt(d, 7, PRINT);
    U32At(d, 14);
  }

  lemma ImportSecond(d: seq<u8>)
    requires d == [2] + ImportPrint() + ImportRead()
    ensures ReadStr(d, 15) == Some((BFCRS, 21)) && ReadStr(d, 21) == Some((READ, 26))
    ensures d[26] == 0 && ReadU32(d, 27) == Some((1, 28))
  {
    StrAt(d, 15, BFCRS);
    StrAt(d, 21, READ);
    U32At(d, 27);
  }

  lemma ImportBytes()
    ensures SectionData(ImportEntries()) == [2] + ImportPrint() + ImportRead()
  {
    assert WriteLebU32(0) == [0] && WriteLebU32(1) == [1] && WriteLebU32(AsU32(2)) == [2];
    assert WriteStr(BFCRS) == [5] + BFCRS && WriteStr(PRINT) == [5] + PRINT && WriteStr(READ) == [4] + READ;
    ConcatTwo(ImportEntries()[0], ImportEntries()[1]);
  }

  /** The bytes of the two import entries. */
  function ImportPrint(): seq<u8>
  {
    [5] + BFCRS + [5] + PRINT + [0, 0]
  }

  function ImportRead(): seq<u8>
  {
    [5] + BFCRS + [4] + READ + [0, 1]
  }

  lemma ConcatTwo(a: seq<u8>, b: seq<u8>)
    ensures Concat([a, b]) == a + b
  {
    var none: seq<seq<u8>> := [];
    assert [a][..0] == none;
    assert Concat([a]) == a;
    assert [a, b][..1] == [a];
  }

  /** The export section reads back as a count of two, then "main" as a
      function (kind 0) with index 2, the function after the two imports,
      then "memory" as a memory (kind 2) with index 0. */
  lemma ExportPayload()
    ensures var d := SectionData(ExportEntries());
      |d| == 17 && ReadU32(d, 0) == Some((2, 1))
      && ReadStr(d, 1) == Some((MAIN, 6)) && d[6] == 0 && d[7] == 2
      && ReadStr(d, 8) == Some((MEMORY, 15)) && d[15] == 2 && d[16] == 0
  {
    assert WriteLebU32(AsU32(2)) == [2];
    assert WriteStr(MAIN) == [4] + MAIN && WriteStr(MEMORY) == [6] + MEMORY;
    ConcatTwo(ExportEntries()[0], ExportEntries()[1]);
    ExportFields(SectionData(ExportEntries()));
  }

  lemma ExportFields(d: seq<u8>)
    requires d == [2] + ([4] + MAIN + [0] + [2]) + ([6] + MEMORY + [2] + [0])
    ensures |d| == 17 && ReadU32(d, 0) == Some((2, 1))
    ensures ReadStr(d, 1) == Some((MAIN, 6)) && d[6] == 0 && d[7] == 2
    ensures ReadStr(d, 8) == Some((MEMORY, 15)) && d[15] == 2 && d[16] == 0
  {
    U32At(d, 0);
    StrAt(d, 1, MAIN);
    StrAt(d, 8, MEMORY);
  }

  lemma U32At(d: seq<u8>, a: nat)
    requires a < |d| && d[a] < 0x80
    ensures ReadU32(d, a) == Some((d[a], a + 1))
  {
    assert d == d[..a] + WriteLebU32(d[a]) + d[a + 1..];
    ReadU32Written(d[..a], d[a], d[a + 1..]);
  }

  lemma StrAt(d: seq<u8>, a: nat, x: seq<u8>)
    requires |x| < 0x80 && a + 1 + |x| <= |d| && d[a] == |x| && d[a + 1..a + 1 + |x|] == x
    ensures ReadStr(d, a) == Some((x, a + 1 + |x|))
  {
    assert WriteStr(x) == [|x| as u8] + x;
    assert d == d[..a] + WriteStr(x) + d[a + 1 + |x|..];
    WriteStrRoundTrip(d[..a], x, d[a + 1 + |x|..]);
  }

  lemma {:induction false} ConcatBound(entries: seq<seq<u8>>, k: nat)
    requires forall i :: 0 <= i < |entries| ==> |entries[i]| <= k
    ensures |Concat(entries)| <= k * |entries|
  {
    if entries != [] {
      ConcatBound(entries[..|entries| - 1], k);
    }
  }

  /** The loop's instructions emitted one by one are its head, body and
      tail. */
  lemma LoopFlat(x: seq<Instruction>, p: LocalHandle, body: seq<Instruction>)
    ensures x + [Block] + [GetLocal(p)] + [Load8Unsigned(0)] + [EqualsZeroI32] + [BranchIf(0)] + [Loop]
          + body + [GetLocal(p)] + [Load8Unsigned(0)] + [BranchIf(0)] + [End] + [End]
         == x + (LoopHead(p) + body + LoopTail(p))
  {
    Flat6(x, Block, GetLocal(p), Load8Unsigned(0), EqualsZeroI32, BranchIf(0), Loop);
    Flat5(x + LoopHead(p) + body, GetLocal(p), Load8Unsigned(0), BranchIf(0), End, End);
  }

  // Regrouping a sequence extended one element at a time.

  lemma Flat3<T>(x: seq<T>, a: T, b: T, c: T)
    ensures x + ([a] + [b] + [c]) == x + [a] + [b] + [c]
  {
  }

  lemma Flat4<T>(x: seq<T>, a: T, b: T, c: T, d: T)
    ensures x + ([a] + [b] + [c] + [d]) == x + [a] + [b] + [c] + [d]
  {
  }

  lemma Flat5<T>(x: seq<T>, a: T, b: T, c: T, d: T, e: T)
    ensures x + ([a] + [b] + [c] + [d] + [e]) == x + [a] + [b] + [c] + [d] + [e]
  {
  }

  lemma Flat6<T>(x: seq<T>, a: T, b: T, c: T, d: T, e: T, f: T)
    ensures x + ([a] + [b] + [c] + [d] + [e] + [f]) == x + [a] + [b] + [c] + [d] + [e] + [f]
  {
  }

  lemma Flat10<T>(x: seq<T>, a: T, b: T, c: T, d: T, e: T, f: T, g: T, h: T, i: T, j: T)
    ensures x + ([a] + [b] + [c] + [d] + [e] + [f] + [g] + [h] + [i] + [j]) == x + [a] + [b] + [c] + [d] + [e] + [f] + [g] + [h] + [i] + [j]
  {
  }
}
