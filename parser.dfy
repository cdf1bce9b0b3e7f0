/** The lexer: every command character becomes one `ParseToken`, every
    other character is dropped. */
module Parser {
  import opened Wrappers
  import opened Types

  /** The seven command characters. */
  predicate IsCommand(c: char)
  {
    c == '>' || c == '<' || c == '+' || c == '-' || c == '[' || c == ']' || c == '.'
  }

  /** The `filter_map` closure of `parse_program`. */
  function ParseChar(c: char): (r: Option<ParseToken>)
    ensures r.Some? <==> IsCommand(c)
    ensures r.Some? ==> Spell(r.value) == c
  {
    match c
    case '>' => Some(IncrAddr)
    case '<' => Some(DecrAddr)
    case '+' => Some(IncrValue)
    case '-' => Some(DecrValue)
    case '[' => Some(LoopStart)
    case ']' => Some(LoopEnd)
    case '.' => Some(ParseToken.Print)
    case _ => None
  }

  /** The character each token is written as. */
  function Spell(t: ParseToken): char
  {
    match t
    case IncrAddr => '>'
    case DecrAddr => '<'
    case IncrValue => '+'
    case DecrValue => '-'
    case LoopStart => '['
    case LoopEnd => ']'
    case _ => '.'  // Print
  }

  /** Every token is read back from the character it is written as. */
  lemma SpellParses(t: ParseToken)
    ensures ParseChar(Spell(t)) == Some(t)
  {
  }

  /** `parse_program`: the tokens of the command characters, in order. */
  function ParseProgram(program: string): seq<ParseToken>
  {
    if program == [] then []
    else
      var init := ParseProgram(program[..|program| - 1]);
      match ParseChar(program[|program| - 1])
      case Some(t) => init + [t]
      case None => init
  }

  /** The number of command characters. */
  function CountCommands(s: string): nat
  {
    if s == [] then 0 else CountCommands(s[..|s| - 1]) + (if IsCommand(s[|s| - 1]) then 1 else 0)
  }

  /** A token sequence written out as characters. */
  function SpellAll(tokens: seq<ParseToken>): (r: string)
    ensures |r| == |tokens|
  {
    if tokens == [] then [] else SpellAll(tokens[..|tokens| - 1]) + [Spell(tokens[|tokens| - 1])]
  }

  /** One token per command character, none for the rest: the output has
      exactly as many tokens as the input has command characters, so never
      more than it has characters. */
  lemma {:induction false} ParseLength(s: string)
    ensures |ParseProgram(s)| == CountCommands(s) <= |s|
  {
    if s != [] {
      ParseLength(s[..|s| - 1]);
    }
  }

  /** The output is empty exactly when the input holds no command character. */
  lemma {:induction false} ParseEmpty(s: string)
    ensures ParseProgram(s) == [] <==> forall i :: 0 <= i < |s| ==> !IsCommand(s[i])
  {
    if s != [] {
      var init := s[..|s| - 1];
      ParseEmpty(init);
      assert forall i :: 0 <= i < |init| ==> init[i] == s[i];
    }
  }

  /** Parsing distributes over concatenation: characters are handled one at
      a time, independently of their neighbours, and the order is kept. */
  lemma {:induction false} ParseAppend(a: string, b: string)
    ensures ParseProgram(a + b) == ParseProgram(a) + ParseProgram(b)
    decreases |b|
  {
    if b == [] {
      assert a + b == a;
    } else {
      var init := b[..|b| - 1];
      assert (a + b)[..|a + b| - 1] == a + init;
      assert (a + b)[|a + b| - 1] == b[|b| - 1];
      ParseAppend(a, init);
    }
  }

  /** Writing tokens out and parsing them gives the same tokens back. */
  lemma {:induction false} ParseSpelled(tokens: seq<ParseToken>)
    ensures ParseProgram(SpellAll(tokens)) == tokens
  {
    if tokens != [] {
      var init := tokens[..|tokens| - 1];
      var s := SpellAll(tokens);
      ParseSpelled(init);
      SpellParses(tokens[|tokens| - 1]);
      assert s[..|s| - 1] == SpellAll(init);
      assert init + [tokens[|tokens| - 1]] == tokens;
    }
  }

  /** Parsing and writing back keeps exactly the command characters: any
      text reads as the same tokens as its commands alone. */
  lemma {:induction false} ParseKeepsCommands(s: string)
    ensures SpellAll(ParseProgram(s)) == Commands(s)
  {
    if s != [] {
      var init := s[..|s| - 1];
      ParseKeepsCommands(init);
      var p := ParseProgram(init);
      if IsCommand(s[|s| - 1]) {
        var t := ParseChar(s[|s| - 1]).value;
        assert (p + [t])[..|p + [t]| - 1] == p;
      }
    }
  }

  /** The command characters of a text, in order. */
  function Commands(s: string): string
  {
    if s == [] then []
    else Commands(s[..|s| - 1]) + (if IsCommand(s[|s| - 1]) then [s[|s| - 1]] else [])
  }
}
