# bfcrs in Dafny

bfcrs compiles programs in the eight-command tape language (`>` `<` `+` `-`
`[` `]` `.`, with `,` unused) written in Rust. It has two generations of
pipeline, and this project models both:

- **The flat pipeline.** A lexer turns command characters into
  `ParseToken`s. A peephole optimizer translates them into flat
  `ProgramToken`s (`ChangeAddr(i32)`, `ChangeValue(i32)`, `LoopStart`,
  `LoopEnd`, `Print`) and fuses runs of adjacent steps of the same kind.
  An interpreter then runs the flat program on a byte tape with a 16-bit
  data pointer. It finds brackets by linear search.
- **The tree backends.** They take tree-shaped `ProgramToken`s
  (`ChangeAddr(isize)`, `Offset(isize, MemoryOp)`, `Loop(body)`). One
  emits a WebAssembly module in the binary format of the WebAssembly Core
  Specification 1.0. It does so through a module builder and an
  instruction writer. The other prints the program as the body of a C
  `main`.

The model has one Dafny module per source concern:

| Dafny module | source |
|---|---|
| `Ints` | Rust's fixed-width integers and their casts |
| `Leb128` | LEB128 as section 5.2.2 of the WebAssembly Core Specification 1.0 defines it |
| `Types` | `src/types.rs` |
| `Parser` | `src/parser.rs` |
| `FlatIr` | the flat tokens and the translation loop |
| `IterUtils` | `src/utils/iter_utils.rs` |
| `Optimizer` | `src/optimizer.rs` |
| `VecUtils` | `src/utils/vec_utils.rs` |
| `Interpreter` | `src/interpreter.rs` |
| `WasmInstructions`, `CodeStream` | `src/backend/wasm/code_stream.rs` |
| `WasmSections`, `WasmCodegen`, `WasmBuilder` | `src/backend/wasm/module_builder.rs` |
| `WasmDecode`, `WasmCodeDecode` | reference decoders for the bytes the writer produces |
| `Seqs` | regrouping of concatenation, shared by the writers' proofs |
| `CBackend` | `src/backend/c/mod.rs` |

`src/main.rs` repeats the flat pipeline in one file. Its `parse_program`,
`find_within_indices`, `find_index`, `find_index_backwards` and
`run_program` have the same bodies as those in `parser.rs`, `vec_utils.rs`
and `interpreter.rs`. The `find_*` functions differ only in argument
order. Each is modelled once, and the table below cites both places where
they are the same. `main.rs`'s `optimize` is a plain translation loop with
no fusion. It is modelled separately as `FlatIr.MapTokens`.

How state is modelled:

- The objects that Rust updates in place are classes:
  - `CodeStreamWriter` has the stream and the local list. Two ghost fields
    record the bytes held at creation and the instructions emitted since.
  - `ModuleBuilder` has its list of sections.
- The emitter and writer loops are methods proved against specification
  functions:
  - `TokenCode` gives the instructions of one token;
  - `SectionData` and `Serialize` give the section bytes;
  - `TokensText` and `Program` give the C text;
  - `FuseAll` gives fusion;
  - `Scan` gives bracket search;
  - `Run` gives the interpreter.
- Each specification function has lemmas proved about it. Round trips use
  reference decoders: every instruction, section, code entry and whole
  module reads back as what was written.
- Properties of the generated code are stated as invariants:
  - blocks are balanced;
  - only the pointer local, the print import and the innermost block are
    used.
- Properties of the optimizer are stated as invariants too:
  - no fusable pair is left;
  - brackets and prints are kept in order;
  - the wrapped sums of the steps between two controls are kept.

The interpreter's loop searches for the nearest bracket, not the matching
one. Skipping a loop that contains another loop therefore resumes after
the inner `]`. `Interpreter.SkippedLoopStillPrints` shows that a print
after an inner loop runs even though the outer loop was skipped. The
backends compile loops from the tree, so they do not share this
behaviour.

## Model

| member | source | states |
|---|---|---|
| Ints.AsU32 | src/backend/wasm/code_stream.rs:58 | `len() as u32` keeps the low 32 bits: the result is congruent to the length modulo 2^32, and equal to it when it fits in 32 bits |
| Ints.WrapI32 | src/backend/wasm/module_builder.rs:72 | the two's-complement i32 result is congruent to the exact value modulo 2^32, and equal to it when it is in range |
| Ints.TruncU8 | src/interpreter.rs:17 | `as u8` keeps the value modulo 2^8 |
| Ints.TruncU16 | src/interpreter.rs:15 | `as u16` keeps the value modulo 2^16 |
| Ints.WrapThenTruncate | src/interpreter.rs:15-17 | a `wrapping_add` followed by `as u8` or `as u16` equals the exact sum reduced modulo 2^8 or 2^16 |
| Ints.WrapAddAssoc | src/optimizer.rs:8-13 | wrapped i32 addition is associative, so fusing two steps before adding them gives the same total |
| Leb128.UnsignedRoundTrip | src/backend/wasm/code_stream.rs:45-47 | decoding an unsigned LEB128 encoding returns the value and consumes exactly its bytes, whatever follows |
| Leb128.SignedRoundTrip | src/backend/wasm/code_stream.rs:49-51 | the same for signed LEB128 |
| Leb128.UnsignedShape | src/backend/wasm/code_stream.rs:45-47 | the continuation bit is set on every byte but the last |
| Leb128.SignedShape | src/backend/wasm/code_stream.rs:49-51 | the continuation bit is set on every byte but the last |
| Leb128.U32Width | src/backend/wasm/code_stream.rs:45-47 | a u32 takes at most five bytes |
| WasmInstructions.EncodedSize | src/backend/wasm/code_stream.rs:93-159 | `loop` and `block` take two bytes (0x03 or 0x02, then the empty block type 0x40); the operand-free instructions take one byte; every instruction takes 1 to 11 bytes |
| WasmInstructions.EncodeAllAppend | src/backend/wasm/code_stream.rs:93-159 | the bytes of two instruction runs emitted one after the other are the concatenation of their bytes |
| WasmInstructions.PrintStringCodeShape | src/backend/wasm/code_stream.rs:85-91 | the code for a string is two instructions per byte: the byte pushed as an i32 constant, then a call of import 0 |
| CodeStream.CodeStreamWriter.constructor | src/backend/wasm/code_stream.rs:72-77 | a new writer has no locals and has emitted nothing into the stream it was given |
| CodeStream.CodeStreamWriter.DeclareLocal | src/backend/wasm/code_stream.rs:79-83 | the handle is the number of locals declared before, cast to u32; the type is appended; the stream is unchanged |
| CodeStream.CodeStreamWriter.Emit | src/backend/wasm/code_stream.rs:93-159 | the stream grows by the opcode byte and the immediates of the instruction, and the stream still encodes everything emitted |
| CodeStream.CodeStreamWriter.EmitPrintString | src/backend/wasm/code_stream.rs:85-91 | the stream grows by the encoding of the push/call pairs for the string's bytes, in order |
| WasmDecode.ReadU32Written | src/backend/wasm/code_stream.rs:45-47 | `write_leb_u32` is read back from any position in a stream |
| WasmDecode.ReadI32Written | src/backend/wasm/code_stream.rs:49-51 | `write_leb_i32` is read back from any position in a stream |
| WasmDecode.WriteStrRoundTrip | src/backend/wasm/code_stream.rs:57-60 | `write_str` is read back as the same bytes when the length fits in u32 |
| WasmDecode.EncodeDecode | src/backend/wasm/code_stream.rs:93-159 | every instruction decodes back from its encoding and consumes exactly its bytes |
| WasmDecode.EncodeAllDecodes | src/backend/wasm/code_stream.rs:93-159 | an emitted instruction stream decodes to exactly the instructions emitted |
| WasmSections.Header | src/backend/wasm/module_builder.rs:44-48 | the preamble is the bytes `\0asm` then version 1 as a little-endian u32, as section 5.5.15 of the WebAssembly Core Specification 1.0 requires |
| WasmSections.SerializeAppend | src/backend/wasm/module_builder.rs:50-54 | sections are written one after the other, each independently of the others |
| WasmSections.InsertPermutes | src/backend/wasm/module_builder.rs:42 | inserting a section adds exactly that section |
| WasmSections.InsertSorted | src/backend/wasm/module_builder.rs:42 | inserting into an id-ordered sequence keeps it ordered |
| WasmSections.SortByIdSorts | src/backend/wasm/module_builder.rs:41-42 | sorting gives an id-ordered permutation of the sections |
| WasmSections.SortByIdKeepsSorted | src/backend/wasm/module_builder.rs:41-42 | sections already in id order are left as they are |
| WasmSections.SortKeepsRepresentable | src/backend/wasm/module_builder.rs:41-42 | sorting keeps every payload within the u32 length field |
| WasmSections.SortedDistinctUnique | src/backend/wasm/module_builder.rs:42 | with distinct ids there is only one id-ordered permutation, so an unstable sort gives the same result as this one |
| WasmDecode.SectionsRoundTrip | src/backend/wasm/module_builder.rs:50-54 | written sections read back as the same sections in the same order when every payload fits in u32 |
| WasmDecode.ModuleRoundTrip | src/backend/wasm/module_builder.rs:40-57 | a written module (preamble then sections) reads back as its sections |
| WasmBuilder.ModuleBuilder.constructor | src/backend/wasm/module_builder.rs:23-27 | a new builder holds no sections |
| WasmBuilder.ModuleBuilder.AddSection | src/backend/wasm/module_builder.rs:29-38 | exactly one section is appended; its payload is the entry count cast to u32 as LEB128, then every entry's bytes in order |
| WasmBuilder.ModuleBuilder.WriteToStream | src/backend/wasm/module_builder.rs:40-57 | the sections are sorted by id in place, and the stream grows by the preamble and then every sorted section |
| WasmBuilder.EmitToken | src/backend/wasm/module_builder.rs:62-182 | the writer has emitted exactly `TokenCode` of the token, and its locals are unchanged |
| WasmBuilder.EmitTokens | src/backend/wasm/module_builder.rs:169-171 | a token sequence emits the code of each token in order |
| WasmBuilder.EmitChangeAddr | src/backend/wasm/module_builder.rs:70-75 | a pointer step adds the step, cast to i32, to the pointer local |
| WasmBuilder.EmitChangeValueHere | src/backend/wasm/module_builder.rs:76-83 | offset 0: the byte at the pointer is loaded, increased and stored |
| WasmBuilder.EmitChangeValueIndexed | src/backend/wasm/module_builder.rs:85-97 | positive offset: the offset, cast to u32, is the load and store immediate |
| WasmBuilder.EmitChangeValueShifted | src/backend/wasm/module_builder.rs:98-116 | negative offset: the address is computed twice as pointer plus the offset cast to i32 |
| WasmBuilder.EmitPrintHere | src/backend/wasm/module_builder.rs:117-121 | offset 0: the byte at the pointer is passed to import 0 |
| WasmBuilder.EmitPrintIndexed | src/backend/wasm/module_builder.rs:122-126 | positive offset: the byte is loaded with the offset as immediate |
| WasmBuilder.EmitPrintShifted | src/backend/wasm/module_builder.rs:127-134 | negative offset: the address is computed, then the byte is loaded |
| WasmBuilder.EmitSetValueHere | src/backend/wasm/module_builder.rs:135-139 | offset 0: the value is stored at the pointer |
| WasmBuilder.EmitSetValueIndexed | src/backend/wasm/module_builder.rs:140-144 | positive offset: the value is stored with the offset as immediate |
| WasmBuilder.EmitSetValueShifted | src/backend/wasm/module_builder.rs:145-151 | negative offset: the value is stored at the computed address |
| WasmBuilder.EmitLoop | src/backend/wasm/module_builder.rs:152-179 | a loop emits a block, a branch out when the byte is zero, a loop, the body, a branch back while it is non-zero, and two `end`s |
| WasmCodegen.TokensCodeAppend | src/backend/wasm/module_builder.rs:169-171 | the code of two token runs is the concatenation of their code |
| WasmCodegen.NestAppend | src/backend/wasm/module_builder.rs:152-179 | block depth composes over concatenated code |
| WasmCodegen.StraightNest | src/backend/wasm/module_builder.rs:70-151 | code without block instructions keeps the block depth |
| WasmCodegen.LeafStraight | src/backend/wasm/module_builder.rs:70-151 | the code of a pointer or memory token has no block instructions |
| WasmCodegen.LoopBalanced | src/backend/wasm/module_builder.rs:152-179 | a loop's head opens two blocks and its tail closes them |
| WasmCodegen.TokenCodeBalanced | src/backend/wasm/module_builder.rs:62-182 | every token's code closes every block it opens and closes none it did not open |
| WasmCodegen.TokensCodeBalanced | src/backend/wasm/module_builder.rs:169-171 | the same for a token sequence |
| WasmCodegen.FunctionCodeBalanced | src/backend/wasm/module_builder.rs:288-295 | the body of `main` is balanced inside the function block, and its last `end` closes that block |
| WasmCodegen.ConfinedAppend | src/backend/wasm/module_builder.rs:169-171 | confinement is kept by concatenation |
| WasmCodegen.LeafConfined | src/backend/wasm/module_builder.rs:70-151 | a leaf token's code touches only the pointer local and import 0, and loads only unsigned bytes |
| WasmCodegen.LoopConfined | src/backend/wasm/module_builder.rs:152-179 | a loop's code branches only to the innermost block |
| WasmCodegen.TokenCodeConfined | src/backend/wasm/module_builder.rs:62-182 | every token's code uses only the pointer local, import 0 and depth-0 branches, and no `return`, `drop` or signed load |
| WasmCodegen.TokensCodeConfined | src/backend/wasm/module_builder.rs:169-171 | the same for a token sequence |
| WasmCodegen.OffsetAddressing | src/backend/wasm/module_builder.rs:76-151 | for an offset that fits i32: a positive offset becomes every load/store immediate and no address arithmetic is emitted; otherwise every immediate is 0, and a negative offset is pushed and added to the pointer first |
| WasmBuilder.AddTypeSection | src/backend/wasm/module_builder.rs:184-217 | appends section 1 with the print `(i32) -> ()`, read `() -> i32` and main `() -> i32` types |
| WasmBuilder.AddImportSection | src/backend/wasm/module_builder.rs:219-237 | appends section 2 importing `bfcrs.print` (type 0) and `bfcrs.read` (type 1) |
| WasmBuilder.AddFunctionSection | src/backend/wasm/module_builder.rs:251-258 | appends section 3 declaring one function of type 2 |
| WasmBuilder.AddMemorySection | src/backend/wasm/module_builder.rs:239-249 | appends section 5 with one memory, flags 0 and the given number of initial pages |
| WasmBuilder.AddExportSection | src/backend/wasm/module_builder.rs:260-276 | appends section 7 exporting function 2 as `main` and memory 0 as `memory` |
| WasmBuilder.TypePayload | src/backend/wasm/module_builder.rs:184-217 | the type section's payload is exactly `03 60 01 7F 00 60 00 01 7F 60 00 01 7F`: three function types, `(i32) -> ()`, `() -> i32` and `() -> i32` |
| WasmBuilder.ImportPayload | src/backend/wasm/module_builder.rs:219-237 | the import payload reads back as two entries: `bfcrs`.`print` as a function of type 0, then `bfcrs`.`read` as a function of type 1, and nothing after them |
| WasmBuilder.ExportPayload | src/backend/wasm/module_builder.rs:260-276 | the export payload reads back as two entries: `main` as function 2, then `memory` as memory 0, and nothing after them |
| WasmBuilder.AddCodeSection | src/backend/wasm/module_builder.rs:278-315 | appends section 10 with one entry: the body size, one group of one i32 local, then the tokens' code, the pointer returned, and `end` |
| WasmBuilder.WriteModule | src/backend/wasm/module_builder.rs:317-335 | the stream grows by the preamble and the six sections in the order added |
| WasmBuilder.SectionIdsAscend | src/backend/wasm/module_builder.rs:325-330 | the section ids 1, 2, 3, 5, 7 and 10 strictly ascend, as section 5.5.15 of the WebAssembly Core Specification 1.0 requires, so the sort keeps the order they were added in |
| WasmBuilder.CodeEntryReadsBack | src/backend/wasm/module_builder.rs:278-315 | the code entry reads back as one local group of one i32 and exactly the instructions of `main`, when the body fits the u32 size |
| WasmBuilder.ModuleReadsBack | src/backend/wasm/module_builder.rs:317-335 | the module reads back as exactly the six sections added |
| Types.MakeChangeValue | src/types.rs:27-29 | `change_value` is the offset-0 form of `offs_change_value` |
| Types.MakeOffsChangeValue | src/types.rs:31-33 | `offs_change_value` is an `Offset` token with that offset and a `ChangeValue` of that value |
| Types.MakeSetValue | src/types.rs:35-37 | `set_value` is the offset-0 form of `offs_set_value` |
| Types.MakeOffsSetValue | src/types.rs:39-41 | `offs_set_value` is an `Offset` token with that offset and a `SetValue` of that value |
| Types.NewState | src/types.rs:49-55 | a new state has pointer 0 and 65536 zero bytes |
| Parser.ParseChar | src/parser.rs:6-15 | a character gives a token exactly when it is one of the seven commands, and that token is the one spelled by that character |
| Parser.SpellParses | src/parser.rs:6-15 | every token is read back from its own character |
| Parser.ParseLength | src/parser.rs:3-17 | one token per command character and none for other characters |
| Parser.ParseEmpty | src/main.rs:23-37 | the output is empty exactly when the text has no command character |
| Parser.ParseAppend | src/parser.rs:3-17 | characters are handled one at a time: parsing distributes over concatenation |
| Parser.ParseSpelled | src/parser.rs:3-17 | writing tokens as characters and parsing them gives the same tokens |
| Parser.ParseKeepsCommands | src/parser.rs:3-17 | parsing and writing back keeps exactly the command characters, in order |
| FlatIr.LowerRaise | src/optimizer.rs:23-31 | the one-to-one translation loses nothing: each lexer token is recovered from its flat token |
| FlatIr.LowerAll | src/optimizer.rs:23-31 | the translation maps token by token and keeps the length |
| FlatIr.MapTokens | src/main.rs:63-79 | the loop pushes the translation of each token in order |
| IterUtils.FuseToVec | src/utils/iter_utils.rs:6-22 | the loop's result is `FuseAll`: each item is pushed, or fused into the last element when the fuser allows it |
| IterUtils.FuseLength | src/utils/iter_utils.rs:6-22 | the output is never longer than the input, and it is empty exactly when the input is |
| IterUtils.FuseNeverIdentity | src/utils/iter_utils.rs:12-17 | a fuser that never fuses leaves the items as they are |
| IterUtils.FuseStepKeepsFront | src/utils/iter_utils.rs:9-18 | one iteration keeps all but the last element, and either pushes the item or replaces the last element by the fuser's result |
| IterUtils.FuseSettled | src/utils/iter_utils.rs:8-19 | once the pass moves on, every element but the last is final: it is a prefix of the end result |
| IterUtils.FuseLast | src/utils/iter_utils.rs:12-17 | the last output element is the last item, or the fuser's result for the previous last element and the last item |
| Optimizer.TryFuse | src/optimizer.rs:6-16 | fuses exactly two pointer steps or two value steps; the result has their kind, and its amount is congruent to the sum modulo 2^32 and equals it when it is in range |
| Optimizer.RemoveDuplicates | src/optimizer.rs:18-20 | the result is `FuseAll` of the tokens with `try_fuse` |
| Optimizer.Optimize | src/optimizer.rs:22-35 | the result is the fusion of the token-by-token translation |
| Optimizer.StepKeepsNoFusablePair | src/utils/iter_utils.rs:9-18 | one iteration keeps the invariant that no two adjacent tokens can be fused |
| Optimizer.FusedHasNoFusablePair | src/optimizer.rs:18-20 | after fusion no two adjacent tokens are both pointer steps or both value steps |
| Optimizer.StepHasNoControls | src/optimizer.rs:6-16 | a step token contributes no bracket or print |
| Optimizer.FusionKeepsControls | src/optimizer.rs:18-20 | fusion keeps the sequence of brackets and prints exactly |
| Optimizer.ProfileAddFused | src/optimizer.rs:6-16 | adding two steps one at a time gives the same wrapped totals as adding their fusion |
| Optimizer.FusionKeepsProfile | src/optimizer.rs:18-20 | between each two controls, fusion keeps the wrapped sum of the pointer steps and of the value steps |
| Optimizer.SingleOpsAreMaintained | src/optimizer.rs:37-49 | alternating pointer and value steps are left as they are |
| Optimizer.SameOpsAreMerged | src/optimizer.rs:51-64 | three pointer steps of 1 and two value steps of 1 become `ChangeAddr(3), ChangeValue(2)` |
| VecUtils.Scan | src/utils/vec_utils.rs:12-30 | a found index lies within the haystack and holds the needle |
| VecUtils.ScanFindsListedIndex | src/utils/vec_utils.rs:17-23 | a found index is one of the indices searched |
| VecUtils.Range | src/utils/vec_utils.rs:33 | `start..end` is the ascending indices from `start`, empty when `start >= end` |
| VecUtils.RevRange | src/utils/vec_utils.rs:37 | `(0..start).rev()` is the descending indices from `start - 1` to 0 |
| VecUtils.FindWithinIndices | src/utils/vec_utils.rs:12-30 | the loop returns what `Scan` specifies |
| VecUtils.ScanStopsAt | src/utils/vec_utils.rs:17-27 | the search stops at the first index that is out of range (none) or holds the needle (that index) |
| VecUtils.ScanForward | src/utils/vec_utils.rs:32-34 | the forward search finds the nearest match at or after the start, or none when there is none |
| VecUtils.ScanBackward | src/utils/vec_utils.rs:36-38 | the backward search finds the nearest match before the start; none means there is none; a start past the end gives none at once |
| VecUtils.FindIndex | src/main.rs:55-57 | `find_index` gives the nearest needle at or after the start, or none when there is none |
| VecUtils.FindIndexBackwards | src/main.rs:59-61 | `find_index_backwards` gives the nearest needle before the start; none means there is none, or the start was past the end |
| Interpreter.Initial | src/interpreter.rs:7-9 | the tape is zeroed and the pointer, instruction pointer and output are empty |
| Interpreter.MovePointer | src/interpreter.rs:15 | the pointer moves by the step modulo 2^16 |
| Interpreter.AddToCell | src/interpreter.rs:16-18 | the cell changes by the step modulo 2^8 |
| Interpreter.StepBounds | src/interpreter.rs:13-44 | a step keeps the tape length and keeps the instruction pointer within the program or just past it; the output grows by at most the current cell |
| Interpreter.StepChangeAddr | src/interpreter.rs:15 | a pointer step moves the pointer and changes nothing else |
| Interpreter.StepChangeValue | src/interpreter.rs:16-18 | a value step changes only the current cell, modulo 2^8 |
| Interpreter.StepLoopStart | src/interpreter.rs:19-28 | `[` on a non-zero cell goes on; on a zero cell it resumes one past the nearest `]` at or after it, or panics "Unmatched '['" when there is none |
| Interpreter.StepLoopEnd | src/interpreter.rs:29-38 | `]` on a zero cell goes on; on a non-zero cell it resumes one past the nearest `[` before it, or panics "Unmatched ']'" when there is none |
| Interpreter.StepPrint | src/interpreter.rs:39-41 | `.` appends the current cell to the output and changes nothing else |
| Interpreter.RunInvariant | src/interpreter.rs:13-44 | a run halts exactly when the instruction pointer reaches the end; the tape keeps its length and the output only grows |
| Interpreter.CoveringTapeNeverOutOfBounds | src/interpreter.rs:13-44 | on a tape covering every u16 pointer value, the only panics are the unmatched brackets |
| Interpreter.AsWrittenOutOfBounds | src/interpreter.rs:7 | on the `u16::MAX`-byte tape, `<.` panics with an index out of bounds |
| Interpreter.CoveringTapePrints | src/interpreter.rs:7-8 | on a 65536-byte tape, `<.` prints the last cell |
| Interpreter.SkipResumesAtNearestBracket | src/interpreter.rs:19-28 | skipping `[` resumes after the nearest `]`, not the matching one |
| Interpreter.SkippedLoopStillPrints | src/interpreter.rs:19-28 | on a zero tape, `[[].]` prints one byte |
| Interpreter.RunProgram | src/interpreter.rs:6-45 | the loop over an array tape ends as `Run` from the initial machine does, with the same panic, halt or fuel outcome |
| CBackend.ShowNat | src/backend/c/mod.rs:29 | a natural number's numeral is non-empty, has digits only and no leading zero |
| CBackend.Show | src/backend/c/mod.rs:29-50 | an integer's numeral has digits only, with a minus sign at most in front |
| CBackend.ShowNatRoundTrip | src/backend/c/mod.rs:29 | a natural number's numeral reads back as the number |
| CBackend.ShowRoundTrip | src/backend/c/mod.rs:29-50 | `{}` formatting of an offset or value reads back as the same integer |
| CBackend.CompileTokens | src/backend/c/mod.rs:25-59 | the output grows by the text of the tokens at the given indentation, a loop's body two spaces deeper |
| CBackend.CompileToStream | src/backend/c/mod.rs:14-68 | the stream grows by the whole program: it keeps its old contents, then the prelude, and it ends with the epilogue |
| CBackend.StatementFree | src/backend/c/mod.rs:28-51 | a leaf statement contains no newline and no brace |
| CBackend.TokenTextLayout | src/backend/c/mod.rs:25-59 | a leaf token prints one line; a loop prints two more lines than its body and one more `{` and `}` |
| CBackend.TokensTextLayout | src/backend/c/mod.rs:25-59 | a token sequence prints one line per leaf and its braces match the loop count |
| CBackend.PreludeLayout | src/backend/c/mod.rs:19-23 | the prelude is five lines that open one brace |
| CBackend.EpilogueLayout | src/backend/c/mod.rs:63-65 | the epilogue is three lines that close one brace |
| CBackend.ProgramLayout | src/backend/c/mod.rs:14-68 | the program has 8 lines plus the token lines, and as many `}` as `{` |

## Left out

- Write errors are not modelled. The `?` returns, the `unwrap`s on
  writers, and a partial `stream.write` in `src/backend/c/mod.rs:67` are
  all left out. Every write appends all its bytes.
- Streams are modelled as values. `&mut dyn Write` streams are byte or
  character sequences that a method extends and returns. The writer's
  borrowed stream is a field. Aliasing of the borrowed stream is not
  modelled.
- Interpreter.RunProgram: runs on the 65536-byte tape that `State::new`
  allocates, not on the 65535-byte tape of `src/interpreter.rs:7`. See
  Findings; `Interpreter.AsWrittenOutOfBounds` runs `Run` on the tape as
  written.
- Interpreter.RunProgram: takes a fuel bound. A program that does not
  terminate ends with `OutOfFuel` instead of running forever.
- Interpreter.RunProgram: output is not encoded as UTF-8. `print!` writes
  each cell as a `char`, which is two bytes of UTF-8 for cells of 0x80 and
  above. The model records the cell bytes.
- Optimizer.TryFuse: a debug build panics on i32 overflow. The model uses
  the wrap-around of a release build.
- WasmBuilder.ModuleBuilder.WriteToStream: `sort_unstable_by_key` is
  modelled by a stable insertion sort. Both give the same result when the
  ids are distinct (`WasmSections.SortedDistinctUnique`), which is the
  case for every module the builder writes. The order among sections with
  equal ids is not captured.
- `add_section` takes boxed closures that each write one entry
  (`src/backend/wasm/module_builder.rs:29-38`). The model passes the
  bytes each closure writes instead. Every closure in the source only
  appends bytes computed from the values it captures, and never reads the
  writer it is given, so the payload is the same.
- The `leb128` crate is not part of this model. Its encoding is modelled
  from section 5.2.2 of the WebAssembly Core Specification 1.0.
- `write_leb_u8` and `write_leb_i8` (`src/backend/wasm/code_stream.rs:37-43`)
  are never called and are not modelled.
- `&str` arguments are their UTF-8 bytes.
- The execution semantics of the generated WebAssembly and C code are not
  modelled. The model proves structural properties instead: balanced
  blocks and confinement to the pointer local and the print import. A
  proof that each token leaves the operand stack as it found it is not
  attempted.
- The C program's runtime behaviour is not modelled: `malloc` without
  zeroing, `char` arithmetic, and no bounds on the 30000-byte buffer.
- `CBackend::extension` is a constant and is not modelled.
- `src/backend/wasm/mod.rs` (a `compile` that returns the text
  `(module)`), `src/backend/mod.rs`, `src/lib.rs`,
  `src/pseudo_c_formatter.rs` and the `main` function with its built-in
  sample program are not part of this model.
- The 65536-byte `State` of `src/types.rs:44-56` is used by no modelled
  operation. Its size is the tape size the interpreter model uses.

## Findings

| source | as written | input that shows it | evidently intended | confidence | as-written member | corrected member |
|---|---|---|---|---|---|---|
| src/interpreter.rs:7 (also src/main.rs:82) | the tape has `u16::MAX` = 65535 bytes, but the `u16` pointer can reach 65535, one past the last cell | `<.` (pointer 0 wraps to 65535, then `memory[65535]` is read) panics with index out of bounds | a tape of 65536 bytes, one per pointer value, as `State::new` allocates | high; not executed | Interpreter.AsWrittenOutOfBounds | Interpreter.CoveringTapeNeverOutOfBounds, Interpreter.RunProgram |
