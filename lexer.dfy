/**
 * The tokens of the textual formula syntax, the scanner over the input's
 * characters and the lexer that cuts the input into tokens.
 */
module Lexing {
  import opened Wrappers

  datatype Token =
    | LiteralToken(value: bool)
    | PropositionToken(name: string)
    | Conjunction
    | Disjunction
    | Negation
    | LParen
    | RParen
    | EOF

  predicate IsUnary(t: Token) {
    t == Negation
  }

  predicate IsBinary(t: Token) {
    t == Conjunction || t == Disjunction
  }

  /** Conjunction binds tighter than disjunction. */
  function Precedence(t: Token): (p: nat)
    requires IsBinary(t)
    ensures p == 2 || p == 3
    ensures (p == 3) == (t == Conjunction)
  {
    if t == Conjunction then 3 else 2
  }

  /** `BooleanError`. */
  datatype ParseError = EndOfInput | Unexpected | Expect(expected: Token)

  /**
   * White space and line breaks: U+0009 to U+000D, U+0085 and the Unicode
   * space, line and paragraph separators.
   */
  predicate IsWhitespace(c: char) {
    ('\U{0009}' <= c <= '\U{000D}') || c == '\U{0020}' || c == '\U{0085}' || c == '\U{00A0}' ||
    c == '\U{1680}' || ('\U{2000}' <= c <= '\U{200A}') || c == '\U{2028}' || c == '\U{2029}' ||
    c == '\U{202F}' || c == '\U{205F}' || c == '\U{3000}'
  }

  /** The characters an identifier continues with. */
  predicate IsIdentifierChar(c: char) {
    ('a' <= c <= 'z') || ('A' <= c <= 'Z') || ('0' <= c <= '9') || c == '_'
  }

  // ---------------------------------------------------------------------
  // The scanner's positions, as functions of the input

  /** The first position at or after `i` that is not white space. */
  function SkipWhitespace(s: string, i: nat): (r: nat)
    requires i <= |s|
    ensures i <= r <= |s|
    ensures r < |s| ==> !IsWhitespace(s[r])
    ensures forall k :: i <= k < r ==> IsWhitespace(s[k])
    decreases |s| - i
  {
    if i < |s| && IsWhitespace(s[i]) then SkipWhitespace(s, i + 1) else i
  }

  /** The end of the run of identifier characters starting at `i`. */
  function IdentifierEnd(s: string, i: nat): (r: nat)
    requires i <= |s|
    ensures i <= r <= |s|
    ensures r < |s| ==> !IsIdentifierChar(s[r])
    ensures forall k :: i <= k < r ==> IsIdentifierChar(s[k])
    decreases |s| - i
  {
    if i < |s| && IsIdentifierChar(s[i]) then IdentifierEnd(s, i + 1) else i
  }

  predicate StartsWith(s: string, i: nat, pattern: string) {
    i + |pattern| <= |s| && s[i..i + |pattern|] == pattern
  }

  /** The first of `patterns` found at `i`, as the position after it and the white space behind it. */
  function MatchAny(s: string, i: nat, patterns: seq<string>): (r: Option<nat>)
    requires i <= |s|
    ensures r.Some? <==> exists k :: 0 <= k < |patterns| && StartsWith(s, i, patterns[k])
    ensures r.Some? ==> i < r.value <= |s| || (r.value == SkipWhitespace(s, i) && exists k :: 0 <= k < |patterns| && patterns[k] == "")
  {
    if |patterns| == 0 then None
    else if StartsWith(s, i, patterns[0]) then Some(SkipWhitespace(s, i + |patterns[0]|))
    else
      var r := MatchAny(s, i, patterns[1..]);
      assert forall k :: 1 <= k < |patterns| ==> patterns[k] == patterns[1..][k - 1];
      r
  }

  const NegationPatterns: seq<string> := ["~", "!"]
  const DisjunctionPatterns: seq<string> := ["||", "|", "\\/", "+"]
  const ConjunctionPatterns: seq<string> := ["&&", "&", "/\\", "*"]

  /** A token and the position the scanner stands at after it. */
  datatype Lexeme = Lexeme(token: Token, next: nat)

  /** `BooleanLexer.next()`: the cases are tried in the order of its `switch`. */
  function Lex(s: string, i: nat): (r: Result<Lexeme, ParseError>)
    requires i <= |s|
    ensures r.Ok? ==> i <= r.value.next <= |s|
    ensures r.Ok? ==> (r.value.token == EOF <==> i == |s|)
    ensures r.Ok? && r.value.token != EOF ==> i < r.value.next
    ensures r.Err? ==> r.error == Unexpected
  {
    if i == |s| then Ok(Lexeme(EOF, i))
    else if StartsWith(s, i, "(") then Ok(Lexeme(LParen, SkipWhitespace(s, i + 1)))
    else if StartsWith(s, i, ")") then Ok(Lexeme(RParen, SkipWhitespace(s, i + 1)))
    else if MatchAny(s, i, NegationPatterns).Some? then Ok(Lexeme(Negation, MatchAny(s, i, NegationPatterns).value))
    else if MatchAny(s, i, DisjunctionPatterns).Some? then Ok(Lexeme(Disjunction, MatchAny(s, i, DisjunctionPatterns).value))
    else if MatchAny(s, i, ConjunctionPatterns).Some? then Ok(Lexeme(Conjunction, MatchAny(s, i, ConjunctionPatterns).value))
    else if StartsWith(s, i, "0") then Ok(Lexeme(LiteralToken(false), SkipWhitespace(s, i + 1)))
    else if StartsWith(s, i, "1") then Ok(Lexeme(LiteralToken(true), SkipWhitespace(s, i + 1)))
    else if 'a' <= s[i] <= 'z' then
      var e := IdentifierEnd(s, i);
      Ok(Lexeme(PropositionToken(s[i..e]), SkipWhitespace(s, e)))
    else Err(Unexpected)
  }

  // ---------------------------------------------------------------------
  // Facts about single tokens

  lemma StartsWithFirst(s: string, i: nat, pattern: string)
    requires i < |s| && |pattern| > 0
    ensures StartsWith(s, i, pattern) ==> s[i] == pattern[0]
  {
    if StartsWith(s, i, pattern) {
      assert s[i..i + |pattern|][0] == s[i];
    }
  }

  /** None of `patterns` is found where the first character differs from each one's first. */
  lemma {:induction false} MatchAnyNone(s: string, i: nat, patterns: seq<string>)
    requires i < |s|
    requires forall k :: 0 <= k < |patterns| ==> |patterns[k]| > 0 && patterns[k][0] != s[i]
    ensures MatchAny(s, i, patterns) == None
  {
    if |patterns| > 0 {
      StartsWithFirst(s, i, patterns[0]);
      MatchAnyNone(s, i, patterns[1..]);
    }
  }

  /** A character other than the operator characters starts no operator or parenthesis. */
  lemma NoPatternAt(s: string, i: nat)
    requires i < |s| && s[i] !in "()~!|\\+&/*01"
    ensures !StartsWith(s, i, "(") && !StartsWith(s, i, ")")
    ensures !StartsWith(s, i, "0") && !StartsWith(s, i, "1")
    ensures MatchAny(s, i, NegationPatterns) == None
    ensures MatchAny(s, i, DisjunctionPatterns) == None
    ensures MatchAny(s, i, ConjunctionPatterns) == None
  {
    StartsWithFirst(s, i, "(");
    StartsWithFirst(s, i, ")");
    StartsWithFirst(s, i, "0");
    StartsWithFirst(s, i, "1");
    MatchAnyNone(s, i, NegationPatterns);
    MatchAnyNone(s, i, DisjunctionPatterns);
    MatchAnyNone(s, i, ConjunctionPatterns);
  }

  /** A character that starts no token makes the lexer fail. */
  lemma LexUnexpected(s: string, i: nat)
    requires i < |s|
    requires s[i] !in "()~!|\\+&/*01" && !('a' <= s[i] <= 'z')
    ensures Lex(s, i) == Err(Unexpected)
  {
    NoPatternAt(s, i);
  }

  /** An identifier is the longest run of identifier characters from a lower-case letter. */
  lemma LexIdentifier(s: string, i: nat)
    requires i < |s| && 'a' <= s[i] <= 'z'
    ensures Lex(s, i) == Ok(Lexeme(PropositionToken(s[i..IdentifierEnd(s, i)]), SkipWhitespace(s, IdentifierEnd(s, i))))
    ensures |s[i..IdentifierEnd(s, i)]| >= 1
  {
    NoPatternAt(s, i);
  }

  /** A name the lexer reads as one proposition token. */
  predicate IsIdentifier(p: string) {
    |p| > 0 && 'a' <= p[0] <= 'z' && forall k :: 0 <= k < |p| ==> IsIdentifierChar(p[k])
  }

  lemma {:induction false} IdentifierEndAt(s: string, i: nat, j: nat)
    requires i <= j <= |s|
    requires forall k :: i <= k < j ==> IsIdentifierChar(s[k])
    requires j == |s| || !IsIdentifierChar(s[j])
    ensures IdentifierEnd(s, i) == j
    decreases j - i
  {
    if i < j {
      IdentifierEndAt(s, i + 1, j);
    }
  }

  /**
   * An identifier followed by a character that ends it is read as one
   * proposition token; the scanner then stands after the white space behind it.
   */
  lemma LexName(s: string, i: nat, p: string)
    requires IsIdentifier(p) && i + |p| <= |s| && s[i..i + |p|] == p
    requires i + |p| == |s| || !IsIdentifierChar(s[i + |p|])
    ensures Lex(s, i) == Ok(Lexeme(PropositionToken(p), SkipWhitespace(s, i + |p|)))
    ensures (i + |p| == |s| || !IsWhitespace(s[i + |p|])) ==> Lex(s, i) == Ok(Lexeme(PropositionToken(p), i + |p|))
  {
    assert s[i] == p[0];
    forall k | i <= k < i + |p| ensures IsIdentifierChar(s[k]) {
      assert s[k] == p[k - i];
    }
    IdentifierEndAt(s, i, i + |p|);
    LexIdentifier(s, i);
  }

  /** The second pattern is consumed when only it is found. */
  lemma MatchSecond(s: string, i: nat, patterns: seq<string>)
    requires i <= |s| && |patterns| >= 2
    requires !StartsWith(s, i, patterns[0]) && StartsWith(s, i, patterns[1])
    ensures MatchAny(s, i, patterns) == Some(SkipWhitespace(s, i + |patterns[1]|))
  {
    assert patterns[1..][0] == patterns[1];
  }

  /** The token a one-character operator, parenthesis or digit stands for. */
  function SymbolToken(c: char): Token
    requires c in "()~&|01"
  {
    if c == '(' then LParen
    else if c == ')' then RParen
    else if c == '~' then Negation
    else if c == '&' then Conjunction
    else if c == '|' then Disjunction
    else LiteralToken(c == '1')
  }

  /**
   * A one-character token, `&` resp. `|` not doubled, is read on its own;
   * the scanner then stands after the white space behind it.
   */
  lemma LexSymbol(s: string, i: nat)
    requires i < |s| && s[i] in "()~&|01"
    requires s[i] == '&' ==> i + 1 == |s| || s[i + 1] != '&'
    requires s[i] == '|' ==> i + 1 == |s| || s[i + 1] != '|'
    ensures Lex(s, i) == Ok(Lexeme(SymbolToken(s[i]), SkipWhitespace(s, i + 1)))
    ensures (i + 1 == |s| || !IsWhitespace(s[i + 1])) ==> Lex(s, i) == Ok(Lexeme(SymbolToken(s[i]), i + 1))
  {
    var c := s[i];
    StartsWithFirst(s, i, "(");
    StartsWithFirst(s, i, ")");
    StartsWithFirst(s, i, "0");
    StartsWithFirst(s, i, "1");
    if c == '(' || c == ')' {
    } else if c == '~' {
      assert StartsWith(s, i, NegationPatterns[0]);
    } else if c == '|' {
      MatchAnyNone(s, i, NegationPatterns);
      MatchSecond(s, i, DisjunctionPatterns);
    } else if c == '&' {
      MatchAnyNone(s, i, NegationPatterns);
      MatchAnyNone(s, i, DisjunctionPatterns);
      MatchSecond(s, i, ConjunctionPatterns);
    } else {
      MatchAnyNone(s, i, NegationPatterns);
      MatchAnyNone(s, i, DisjunctionPatterns);
      MatchAnyNone(s, i, ConjunctionPatterns);
    }
  }

  /** White space before a token is not skipped: a leading blank is an unexpected character. */
  lemma LeadingSpaceRejected(s: string)
    requires |s| > 0 && s[0] == ' '
    ensures Lex(s, 0) == Err(Unexpected)
  {
    LexUnexpected(s, 0);
  }

  // ---------------------------------------------------------------------
  // The scanner and the lexer as objects

  /** `ScalarScanner`: the input and a moving index into it. */
  class Scanner {
    const scalars: string
    var index: nat

    ghost predicate Valid()
      reads this
    {
      index <= |scalars|
    }

    constructor(input: string)
      ensures scalars == input && index == 0
      ensures Valid()
    {
      scalars := input;
      index := 0;
    }

    /** Moves `offset` characters on, then over any white space. */
    method Advance(offset: nat)
      requires index + offset <= |scalars|
      modifies this
      ensures index == SkipWhitespace(scalars, old(index) + offset)
      ensures Valid()
    {
      index := index + offset;
      while index < |scalars| && IsWhitespace(scalars[index])
        invariant old(index) + offset <= index <= |scalars|
        invariant SkipWhitespace(scalars, index) == SkipWhitespace(scalars, old(index) + offset)
        decreases |scalars| - index
      {
        index := index + 1;
      }
    }

    method MatchAndProceed(pattern: string) returns (matched: bool)
      requires Valid()
      modifies this
      ensures matched == StartsWith(scalars, old(index), pattern)
      ensures index == if matched then SkipWhitespace(scalars, old(index) + |pattern|) else old(index)
      ensures Valid()
    {
      if index + |pattern| <= |scalars| && scalars[index..index + |pattern|] == pattern {
        Advance(|pattern|);
        matched := true;
      } else {
        matched := false;
      }
    }

    /** `~=` on an array of patterns: the first that matches is consumed. */
    method MatchAnyAndProceed(patterns: seq<string>) returns (matched: bool)
      requires Valid()
      modifies this
      ensures matched == MatchAny(scalars, old(index), patterns).Some?
      ensures index == if matched then MatchAny(scalars, old(index), patterns).value else old(index)
      ensures Valid()
    {
      var k := 0;
      matched := false;
      while k < |patterns|
        invariant 0 <= k <= |patterns| && index == old(index)
        invariant MatchAny(scalars, index, patterns) == MatchAny(scalars, index, patterns[k..])
      {
        assert patterns[k..][1..] == patterns[k + 1..];
        matched := MatchAndProceed(patterns[k]);
        if matched {
          return;
        }
        k := k + 1;
      }
    }

    method FirstScalarContained(lo: char, hi: char) returns (contained: bool)
      requires index < |scalars|
      ensures contained == (lo <= scalars[index] <= hi)
    {
      contained := lo <= scalars[index] <= hi;
    }

    method IsAtEnd() returns (atEnd: bool)
      ensures atEnd == (index >= |scalars|)
    {
      atEnd := index >= |scalars|;
    }

    method GetIdentifier() returns (identifier: string)
      requires Valid()
      modifies this
      ensures identifier == scalars[old(index)..IdentifierEnd(scalars, old(index))]
      ensures index == SkipWhitespace(scalars, IdentifierEnd(scalars, old(index)))
      ensures Valid()
    {
      var end := index;
      while end < |scalars| && IsIdentifierChar(scalars[end])
        invariant index <= end <= |scalars|
        invariant IdentifierEnd(scalars, end) == IdentifierEnd(scalars, index)
        decreases |scalars| - end
      {
        end := end + 1;
      }
      identifier := scalars[index..end];
      index := end;
      Advance(0);
    }
  }

  /** `BooleanLexer`. */
  class Lexer {
    const scanner: Scanner

    constructor(scanner: Scanner)
      ensures this.scanner == scanner
    {
      this.scanner := scanner;
    }

    method Next() returns (r: Result<Token, ParseError>)
      requires scanner.Valid()
      modifies scanner
      ensures scanner.Valid()
      ensures var spec := Lex(scanner.scalars, old(scanner.index));
        (r.Ok? <==> spec.Ok?) &&
        (r.Ok? ==> r.value == spec.value.token && scanner.index == spec.value.next) &&
        (r.Err? ==> r.error == spec.error)
    {
      var atEnd := scanner.IsAtEnd();
      if atEnd {
        return Ok(EOF);
      }
      var m := scanner.MatchAndProceed("(");
      if m { return Ok(LParen); }
      m := scanner.MatchAndProceed(")");
      if m { return Ok(RParen); }
      m := scanner.MatchAnyAndProceed(NegationPatterns);
      if m { return Ok(Negation); }
      m := scanner.MatchAnyAndProceed(DisjunctionPatterns);
      if m { return Ok(Disjunction); }
      m := scanner.MatchAnyAndProceed(ConjunctionPatterns);
      if m { return Ok(Conjunction); }
      m := scanner.MatchAndProceed("0");
      if m { return Ok(LiteralToken(false)); }
      m := scanner.MatchAndProceed("1");
      if m { return Ok(LiteralToken(true)); }
      m := scanner.FirstScalarContained('a', 'z');
      if m {
        var name := scanner.GetIdentifier();
        return Ok(PropositionToken(name));
      }
      return Err(Unexpected);
    }
  }
}
