/** The C backend: the tree IR printed as the body of a C `main` that works
    on a heap buffer through an `int` pointer, nested loops indented by two
    more spaces per level. */
module CBackend {
  import opened Ints
  import opened Wrappers
  import opened Seqs
  import Types

  // ---------------------------------------------------------------------
  // Decimal numerals (Rust's `Display` for integers).

  function Digit(d: nat): (c: char)
    requires d < 10
    ensures '0' <= c <= '9'
  {
    (48 + d) as char
  }

  function DigitValue(c: char): Option<nat>
  {
    if '0' <= c <= '9' then Some(c as int - 48) else None
  }

  /** The decimal numeral of a natural number: digits only, most significant
      first, and no leading zero. */
  function ShowNat(n: nat): (r: string)
    ensures |r| > 0
    ensures forall i :: 0 <= i < |r| ==> '0' <= r[i] <= '9'
    ensures r[0] == '0' ==> n == 0
  {
    if n < 10 then [Digit(n)] else ShowNat(n / 10) + [Digit(n % 10)]
  }

  /** The numeral of an integer: a minus sign before the numeral of its
      magnitude when it is negative. */
  function Show(x: int): (r: string)
    ensures |r| > 0
    ensures forall i :: 0 <= i < |r| ==> ('0' <= r[i] <= '9' || (i == 0 && r[i] == '-'))
  {
    if x < 0 then "-" + ShowNat(-x) else ShowNat(x)
  }

  /** Reads a numeral made of digits only. */
  function ReadNat(s: string): Option<nat>
  {
    if s == [] then None
    else if |s| == 1 then DigitValue(s[0])
    else
      match (ReadNat(s[..|s| - 1]), DigitValue(s[|s| - 1]))
      case (Some(high), Some(low)) => Some(10 * high + low)
      case _ => None
  }

  /** Reads an optionally negative numeral. */
  function ReadInt(s: string): Option<int>
  {
    if |s| > 0 && s[0] == '-' then
      match ReadNat(s[1..])
      case Some(n) => Some(0 - n)
      case None => None
    else
      match ReadNat(s)
      case Some(n) => Some(n)
      case None => None
  }

  lemma {:induction false} ShowNatRoundTrip(n: nat)
    ensures ReadNat(ShowNat(n)) == Some(n)
  {
    if n >= 10 {
      var s := ShowNat(n);
      ShowNatRoundTrip(n / 10);
      assert s[..|s| - 1] == ShowNat(n / 10);
    }
  }

  /** Every integer is read back from its numeral. */
  lemma ShowRoundTrip(x: int)
    ensures ReadInt(Show(x)) == Some(x)
  {
    if x < 0 {
      ShowNatRoundTrip(-x);
      assert Show(x)[1..] == ShowNat(-x);
    } else {
      ShowNatRoundTrip(x);
    }
  }

  // ---------------------------------------------------------------------
  // The text of the program.

  /** One line of output: indentation, statement, newline. */
  function Line(indent: string, statement: string): string
  {
    indent + statement + "\n"
  }

  /** The includes, the head of `main`, a 30000-byte buffer and the pointer. */
  const PRELUDE: string :=
    Line("", "#include <stdlib.h>") +
    Line("", "#include <stdio.h>") +
    Line("", "int main() {") +
    Line("  ", "char* buffer = malloc(30000);") +
    Line("  ", "int pointer = 0;")

  /** Frees the buffer and closes `main`. */
  const EPILOGUE: string :=
    Line("  ", "free(buffer);") +
    Line("  ", "return 0;") +
    Line("", "}")

  /** The statement printed for each kind of leaf token. */
  function Statement(t: Types.ProgramToken): string
    requires !t.Loop?
  {
    match t
    case ChangeAddr(offset) => "pointer += " + Show(offset) + ";"
    case Offset(offset, ChangeValue(v)) => "buffer[pointer + " + Show(offset) + "] += " + Show(v) + ";"
    case Offset(offset, SetValue(v)) => "buffer[pointer + " + Show(offset) + "] = " + Show(v) + ";"
    case Offset(offset, Print) => "putchar(buffer[pointer + " + Show(offset) + "]);"
  }

  /** The text of one token: a leaf is one line; a loop is a `while` header,
      its body indented two more spaces, and a closing brace. */
  function TokenText(t: Types.ProgramToken, indent: string): string
    decreases t, 1
  {
    match t
    case Loop(inner) =>
      Line(indent, "while (buffer[pointer]) {") + TokensText(inner, indent + "  ") + Line(indent, "}")
    case _ => Line(indent, Statement(t))
  }

  /** The text of a token sequence, in order. */
  function TokensText(tokens: seq<Types.ProgramToken>, indent: string): string
    decreases tokens, 0
  {
    if tokens == [] then []
    else TokensText(tokens[..|tokens| - 1], indent) + TokenText(tokens[|tokens| - 1], indent)
  }

  /** The whole C program. */
  function Program(tokens: seq<Types.ProgramToken>): string
  {
    PRELUDE + TokensText(tokens, "  ") + EPILOGUE
  }

  // ---------------------------------------------------------------------
  // The printing code.

  /** `compile_tokens`: appends the text of `tokens` to `output`. */
  method CompileTokens(output: string, tokens: seq<Types.ProgramToken>, indent: string) returns (result: string)
    ensures result == output + TokensText(tokens, indent)
    decreases tokens
  {
    result := output;
    for i := 0 to |tokens|
      invariant result == output + TokensText(tokens[..i], indent)
    {
      var token := tokens[i];
      TokensTextStep(tokens, i, indent);
      ghost var before := result;
      if token.Loop? {
        var header, footer := Line(indent, "while (buffer[pointer]) {"), Line(indent, "}");
        result := result + header;
        result := CompileTokens(result, token.body, indent + "  ");
        result := result + footer;
        Assoc(before, header + TokensText(token.body, indent + "  "), footer);
        Assoc(before, header, TokensText(token.body, indent + "  "));
      } else {
        result := result + Line(indent, Statement(token));
      }
      Assoc(output, TokensText(tokens[..i], indent), TokenText(token, indent));
    }
    assert tokens[..|tokens|] == tokens;
  }

  lemma TokensTextStep(tokens: seq<Types.ProgramToken>, i: nat, indent: string)
    requires i < |tokens|
    ensures TokensText(tokens[..i + 1], indent) == TokensText(tokens[..i], indent) + TokenText(tokens[i], indent)
  {
    assert tokens[..i + 1][..i] == tokens[..i];
  }

  /** `compile_to_stream`: the prelude, the tokens at indentation two, the
      epilogue, written to the end of `stream`. */
  method CompileToStream(stream: string, tokens: seq<Types.ProgramToken>) returns (out: string)
    ensures out == stream + Program(tokens)
    ensures out[..|stream|] == stream
    ensures out[|stream|..][..|PRELUDE|] == PRELUDE
    ensures out[|out| - |EPILOGUE|..] == EPILOGUE
  {
    var output := PRELUDE;
    output := CompileTokens(output, tokens, "  ");
    output := output + EPILOGUE;
    out := stream + output;
    assert out == stream + PRELUDE + TokensText(tokens, "  ") + EPILOGUE;
  }

  // ---------------------------------------------------------------------
  // Lines and braces.

  /** How often `c` occurs in `s`. */
  function Count(c: char, s: string): nat
  {
    if s == [] then 0 else Count(c, s[..|s| - 1]) + (if s[|s| - 1] == c then 1 else 0)
  }

  lemma {:induction false} CountAppend(c: char, a: string, b: string)
    ensures Count(c, a + b) == Count(c, a) + Count(c, b)
    decreases |b|
  {
    if b == [] {
      assert a + b == a;
    } else {
      assert (a + b)[..|a + b| - 1] == a + b[..|b| - 1];
      CountAppend(c, a, b[..|b| - 1]);
    }
  }

  lemma {:induction false} CountAbsent(c: char, s: string)
    requires forall i :: 0 <= i < |s| ==> s[i] != c
    ensures Count(c, s) == 0
  {
    if s != [] {
      CountAbsent(c, s[..|s| - 1]);
    }
  }

  /** The number of lines a token sequence prints. */
  function LineCount(tokens: seq<Types.ProgramToken>): nat
    decreases tokens
  {
    if tokens == [] then 0
    else
      var t := tokens[|tokens| - 1];
      LineCount(tokens[..|tokens| - 1]) + (if t.Loop? then 2 + LineCount(t.body) else 1)
  }

  /** The number of loops in a token sequence, nested ones included. */
  function LoopCount(tokens: seq<Types.ProgramToken>): nat
    decreases tokens
  {
    if tokens == [] then 0
    else
      var t := tokens[|tokens| - 1];
      LoopCount(tokens[..|tokens| - 1]) + (if t.Loop? then 1 + LoopCount(t.body) else 0)
  }

  /** Text made of lines, counted: its newlines, its `{` and its `}`. */
  predicate Layout(s: string, lines: nat, opens: nat, closes: nat)
  {
    Count('\n', s) == lines && Count('{', s) == opens && Count('}', s) == closes
  }

  lemma LayoutAppend(a: string, b: string, la: nat, oa: nat, ca: nat, lb: nat, ob: nat, cb: nat)
    requires Layout(a, la, oa, ca) && Layout(b, lb, ob, cb)
    ensures Layout(a + b, la + lb, oa + ob, ca + cb)
  {
    CountAppend('\n', a, b);
    CountAppend('{', a, b);
    CountAppend('}', a, b);
  }

  lemma LineLayout(indent: string, statement: string, opens: nat, closes: nat)
    requires Layout(indent, 0, 0, 0) && Layout(statement, 0, opens, closes)
    ensures Layout(Line(indent, statement), 1, opens, closes)
  {
    LayoutAppend(indent, statement, 0, 0, 0, 0, opens, closes);
    CharLayout('\n');
    LayoutAppend(indent + statement, "\n", 0, opens, closes, 1, 0, 0);
  }

  /** No newline and no brace in `s`. */
  predicate Free(s: string)
  {
    forall i :: 0 <= i < |s| ==> s[i] != '\n' && s[i] != '{' && s[i] != '}'
  }

  lemma FreeAppend(a: string, b: string)
    requires Free(a) && Free(b)
    ensures Free(a + b)
  {
    assert forall i :: 0 <= i < |a + b| ==> (a + b)[i] == if i < |a| then a[i] else b[i - |a|];
  }

  /** Numerals hold no newline and no brace. */
  lemma ShowFree(x: int)
    ensures Free(Show(x))
  {
  }

  /** A leaf statement holds no newline and no brace. */
  lemma StatementFree(t: Types.ProgramToken)
    requires !t.Loop?
    ensures Free(Statement(t))
  {
    ShowFree(if t.ChangeAddr? then t.delta else t.addrOffset);
    match t
    case ChangeAddr(offset) =>
      FreeAppend("pointer += ", Show(offset));
      FreeAppend("pointer += " + Show(offset), ";");
    case Offset(offset, op) =>
      if op.ChangeValue? || op.SetValue? {
        ShowFree(op.value);
        var middle := if op.ChangeValue? then "] += " else "] = ";
        FreeAppend("buffer[pointer + ", Show(offset));
        FreeAppend("buffer[pointer + " + Show(offset), middle);
        FreeAppend("buffer[pointer + " + Show(offset) + middle, Show(op.value));
        FreeAppend("buffer[pointer + " + Show(offset) + middle + Show(op.value), ";");
      } else {
        FreeAppend("putchar(buffer[pointer + ", Show(offset));
        FreeAppend("putchar(buffer[pointer + " + Show(offset), "]);");
      }
  }

  lemma FreeLayout(s: string)
    requires Free(s)
    ensures Layout(s, 0, 0, 0)
  {
    CountAbsent('\n', s);
    CountAbsent('{', s);
    CountAbsent('}', s);
  }

  lemma CharLayout(x: char)
    ensures Layout([x], if x == '\n' then 1 else 0, if x == '{' then 1 else 0, if x == '}' then 1 else 0)
  {
    assert [x][..0] == [];
  }

  /** A statement that ends in a brace. */
  lemma BraceLayout(s: string, brace: char)
    requires Free(s) && (brace == '{' || brace == '}')
    ensures Layout(s + [brace], 0, if brace == '{' then 1 else 0, if brace == '}' then 1 else 0)
  {
    FreeLayout(s);
    CharLayout(brace);
    LayoutAppend(s, [brace], 0, 0, 0, 0, if brace == '{' then 1 else 0, if brace == '}' then 1 else 0);
  }

  /** Every token prints exactly one line, a loop two more than its body,
      and every `{` printed is closed by a `}`: there are as many of each as
      there are loops. */
  lemma {:induction false} TokenTextLayout(t: Types.ProgramToken, indent: string)
    requires Layout(indent, 0, 0, 0)
    ensures t.Loop? ==> Layout(TokenText(t, indent), 2 + LineCount(t.body), 1 + LoopCount(t.body), 1 + LoopCount(t.body))
    ensures !t.Loop? ==> Layout(TokenText(t, indent), 1, 0, 0)
    decreases t, 1
  {
    match t
    case Loop(inner) =>
      var indent2 := indent + "  ";
      FreeLayout("  ");
      LayoutAppend(indent, "  ", 0, 0, 0, 0, 0, 0);
      TokensTextLayout(inner, indent2);
      var n := LineCount(inner);
      var k := LoopCount(inner);
      assert "while (buffer[pointer]) {" == "while (buffer[pointer]) " + ['{'];
      BraceLayout("while (buffer[pointer]) ", '{');
      LineLayout(indent, "while (buffer[pointer]) {", 1, 0);
      assert "}" == [] + ['}'];
      BraceLayout([], '}');
      LineLayout(indent, "}", 0, 1);
      LayoutAppend(Line(indent, "while (buffer[pointer]) {"), TokensText(inner, indent2), 1, 1, 0, n, k, k);
      LayoutAppend(Line(indent, "while (buffer[pointer]) {") + TokensText(inner, indent2), Line(indent, "}"),
                   1 + n, 1 + k, k, 1, 0, 1);
    case _ =>
      StatementFree(t);
      FreeLayout(Statement(t));
      LineLayout(indent, Statement(t), 0, 0);
  }

  lemma {:induction false} TokensTextLayout(tokens: seq<Types.ProgramToken>, indent: string)
    requires Layout(indent, 0, 0, 0)
    ensures Layout(TokensText(tokens, indent), LineCount(tokens), LoopCount(tokens), LoopCount(tokens))
    decreases tokens, 0
  {
    if tokens != [] {
      var init := tokens[..|tokens| - 1];
      var t := tokens[|tokens| - 1];
      TokensTextLayout(init, indent);
      TokenTextLayout(t, indent);
      var l := if t.Loop? then 2 + LineCount(t.body) else 1;
      var k := if t.Loop? then 1 + LoopCount(t.body) else 0;
      LayoutAppend(TokensText(init, indent), TokenText(t, indent), LineCount(init), LoopCount(init), LoopCount(init), l, k, k);
    }
  }

  /** The whole program has the five prelude lines, the token lines and the
      three epilogue lines, and its braces balance: one pair for `main` and
      one per loop. */
  lemma ProgramLayout(tokens: seq<Types.ProgramToken>)
    ensures Layout(Program(tokens), 8 + LineCount(tokens), 1 + LoopCount(tokens), 1 + LoopCount(tokens))
  {
    FreeLayout("  ");
    TokensTextLayout(tokens, "  ");
    PreludeLayout();
    EpilogueLayout();
    var n, k := LineCount(tokens), LoopCount(tokens);
    LayoutAppend(PRELUDE, TokensText(tokens, "  "), 5, 1, 0, n, k, k);
    LayoutAppend(PRELUDE + TokensText(tokens, "  "), EPILOGUE, 5 + n, 1 + k, k, 3, 0, 1);
  }

  lemma PreludeLayout()
    ensures Layout(PRELUDE, 5, 1, 0)
  {
    var a := Line("", "#include <stdlib.h>");
    var b := Line("", "#include <stdio.h>");
    var c := Line("", "int main() {");
    var d := Line("  ", "char* buffer = malloc(30000);");
    var e := Line("  ", "int pointer = 0;");
    IncludeLines();
    MainLines();
    LayoutAppend(a, b, 1, 0, 0, 1, 0, 0);
    LayoutAppend(a + b, c, 2, 0, 0, 1, 1, 0);
    LayoutAppend(a + b + c, d, 3, 1, 0, 1, 0, 0);
    LayoutAppend(a + b + c + d, e, 4, 1, 0, 1, 0, 0);
  }

  lemma IncludeLines()
    ensures Layout(Line("", "#include <stdlib.h>"), 1, 0, 0)
    ensures Layout(Line("", "#include <stdio.h>"), 1, 0, 0)
  {
    FreeLayout("");
    FreeLayout("#include <stdlib.h>");
    FreeLayout("#include <stdio.h>");
    LineLayout("", "#include <stdlib.h>", 0, 0);
    LineLayout("", "#include <stdio.h>", 0, 0);
  }

  lemma MainLines()
    ensures Layout(Line("", "int main() {"), 1, 1, 0)
    ensures Layout(Line("  ", "char* buffer = malloc(30000);"), 1, 0, 0)
    ensures Layout(Line("  ", "int pointer = 0;"), 1, 0, 0)
  {
    FreeLayout("");
    FreeLayout("  ");
    assert "int main() {" == "int main() " + ['{'];
    BraceLayout("int main() ", '{');
    FreeLayout("char* buffer = malloc(30000);");
    FreeLayout("int pointer = 0;");
    LineLayout("", "int main() {", 1, 0);
    LineLayout("  ", "char* buffer = malloc(30000);", 0, 0);
    LineLayout("  ", "int pointer = 0;", 0, 0);
  }

  lemma EpilogueLayout()
    ensures Layout(EPILOGUE, 3, 0, 1)
  {
    FreeLayout("");
    FreeLayout("  ");
    FreeLayout("free(buffer);");
    FreeLayout("return 0;");
    assert "}" == [] + ['}'];
    BraceLayout([], '}');
    var a := Line("  ", "free(buffer);");
    var b := Line("  ", "return 0;");
    var c := Line("", "}");
    LineLayout("  ", "free(buffer);", 0, 0);
    LineLayout("  ", "return 0;", 0, 0);
    LineLayout("", "}", 0, 1);
    LayoutAppend(a, b, 1, 0, 0, 1, 0, 0);
    LayoutAppend(a + b, c, 2, 0, 0, 1, 0, 1);
  }
}
