/**
 * Formulas written out as text, and what `BooleanUtils.parse` makes of
 * that text. A token is spelled with its first pattern (`&`, `|`, `~`),
 * and a formula is printed fully parenthesized with no white space. The
 * laws here carry the token-level parser laws down to strings: the
 * printed text parses back, precedence and associativity hold, trailing
 * input is ignored, and the error cases fail the way the parser says.
 */
module Printing {
  import opened Wrappers
  import opened Formulas
  import opened FormulaLaws
  import opened Lexing
  import opened Parsing
  import opened ParserLaws

  // ---------------------------------------------------------------------
  // Spelling tokens

  /** The text of one token. */
  function Spelling(t: Token): string {
    match t
    case LiteralToken(b) => if b then "1" else "0"
    case PropositionToken(p) => p
    case Conjunction => "&"
    case Disjunction => "|"
    case Negation => "~"
    case LParen => "("
    case RParen => ")"
    case EOF => ""
  }

  function Spell(ts: seq<Token>): string {
    if |ts| == 0 then "" else Spelling(ts[0]) + Spell(ts[1..])
  }

  /** `f` as text: fully parenthesized, connectives spelled `&` and `|`, negation `~`. */
  function Print(f: Formula): string
    requires Printable(f)
  {
    Spell(Toks(f))
  }

  /** A token with a non-empty spelling that lexes back to it. */
  predicate Spellable(t: Token) {
    t != EOF && (t.PropositionToken? ==> IsIdentifier(t.name))
  }

  /** Two adjacent tokens whose spellings do not run together into one token. */
  predicate NoMerge(a: Token, b: Token) {
    !(a.PropositionToken? && (b.PropositionToken? || b.LiteralToken?)) &&
    !(a == Conjunction && b == Conjunction) &&
    !(a == Disjunction && b == Disjunction)
  }

  predicate Separable(ts: seq<Token>) {
    |ts| == 0 || (Spellable(ts[0]) && (|ts| == 1 || NoMerge(ts[0], ts[1])) && Separable(ts[1..]))
  }

  /** The tokens an operand may start with. */
  predicate OperandStart(t: Token) {
    t.LiteralToken? || t.PropositionToken? || t == Negation || t == LParen
  }

  /** The tokens an operand may end with. */
  predicate OperandEnd(t: Token) {
    t.LiteralToken? || t.PropositionToken? || t == RParen
  }

  lemma {:induction false} SpellAppend(a: seq<Token>, b: seq<Token>)
    ensures Spell(a + b) == Spell(a) + Spell(b)
    decreases |a|
  {
    if |a| == 0 {
      assert a + b == b;
    } else {
      assert (a + b)[1..] == a[1..] + b;
      SpellAppend(a[1..], b);
    }
  }

  lemma {:induction false} SeparableAppend(a: seq<Token>, b: seq<Token>)
    requires Separable(a) && Separable(b)
    requires |a| > 0 && |b| > 0 ==> NoMerge(a[|a| - 1], b[0])
    ensures Separable(a + b)
    decreases |a|
  {
    if |a| == 0 {
      assert a + b == b;
    } else {
      var ab := a + b;
      assert ab[0] == a[0] && ab[1..] == a[1..] + b;
      SeparableAppend(a[1..], b);
      if |a| == 1 {
        assert |ab| == 1 || ab[1] == b[0];
      } else {
        assert ab[1] == a[1];
      }
    }
  }

  /** Every operator token between two operands is spelled apart from them. */
  lemma {:induction false} ToksShape(f: Formula)
    requires Printable(f)
    ensures Separable(Toks(f))
    ensures OperandStart(Toks(f)[0]) && OperandEnd(Toks(f)[|Toks(f)| - 1])
    decreases f, 1
  {
    match f
    case Literal(_) =>
    case Proposition(_) =>
    case Not(g) =>
      ToksShape(g);
      SeparableAppend([Negation], Toks(g));
    case NAry(c, ops) =>
      ToksShape(ops[0]);
      ToksRestShape(f, 1);
      var inner := Toks(ops[0]) + ToksRest(f, 1);
      SeparableAppend(Toks(ops[0]), ToksRest(f, 1));
      SeparableAppend([LParen], inner);
      SeparableAppend([LParen] + inner, [RParen]);
  }

  lemma {:induction false} ToksRestShape(f: Formula, k: nat)
    requires Printable(f) && f.NAry?
    ensures Separable(ToksRest(f, k))
    ensures |ToksRest(f, k)| > 0 ==>
      ToksRest(f, k)[0] == OperatorToken(f.connective) && OperandEnd(ToksRest(f, k)[|ToksRest(f, k)| - 1])
    decreases f, 0, |f.operands| - k
  {
    if k < |f.operands| {
      var o := OperatorToken(f.connective);
      ToksShape(f.operands[k]);
      ToksRestShape(f, k + 1);
      SeparableAppend([o], Toks(f.operands[k]));
      SeparableAppend([o] + Toks(f.operands[k]), ToksRest(f, k + 1));
    }
  }

  // ---------------------------------------------------------------------
  // Lexing spelled tokens back

  /** A character that does not run into the spelling of `t` before it. */
  predicate Apart(t: Token, c: char) {
    (t.PropositionToken? ==> !IsIdentifierChar(c)) &&
    (t == Conjunction ==> c != '&') &&
    (t == Disjunction ==> c != '|')
  }

  /** A character that may follow the spelling of `t` without moving where the next token starts. */
  predicate NextOk(t: Token, c: char) {
    !IsWhitespace(c) && Apart(t, c)
  }

  lemma NoMergeNextOk(a: Token, b: Token)
    requires Spellable(b) && NoMerge(a, b)
    ensures |Spelling(b)| > 0 && NextOk(a, Spelling(b)[0])
  {
  }

  /** White space skipping stays put before a character that is not white space. */
  lemma NoSkip(s: string, k: nat)
    requires k <= |s| && (k == |s| || !IsWhitespace(s[k]))
    ensures SkipWhitespace(s, k) == k
  {
  }

  lemma LexOne(s: string, i: nat, t: Token)
    requires Spellable(t)
    requires i + |Spelling(t)| <= |s| && s[i..i + |Spelling(t)|] == Spelling(t)
    requires i + |Spelling(t)| == |s| || Apart(t, s[i + |Spelling(t)|])
    ensures Lex(s, i) == Ok(Lexeme(t, SkipWhitespace(s, i + |Spelling(t)|)))
    ensures (i + |Spelling(t)| == |s| || NextOk(t, s[i + |Spelling(t)|])) ==> Lex(s, i) == Ok(Lexeme(t, i + |Spelling(t)|))
  {
    var e := i + |Spelling(t)|;
    if t.PropositionToken? {
      LexNameToken(s, i, t);
    } else {
      LexSymbolToken(s, i, t);
    }
    if e == |s| || NextOk(t, s[e]) {
      NoSkip(s, e);
    }
  }

  lemma LexNameToken(s: string, i: nat, t: Token)
    requires Spellable(t) && t.PropositionToken?
    requires i + |Spelling(t)| <= |s| && s[i..i + |Spelling(t)|] == Spelling(t)
    requires i + |Spelling(t)| == |s| || Apart(t, s[i + |Spelling(t)|])
    ensures Lex(s, i) == Ok(Lexeme(t, SkipWhitespace(s, i + |Spelling(t)|)))
  {
    assert Spelling(t) == t.name;
    LexName(s, i, t.name);
  }

  lemma LexSymbolToken(s: string, i: nat, t: Token)
    requires Spellable(t) && !t.PropositionToken?
    requires i + |Spelling(t)| <= |s| && s[i..i + |Spelling(t)|] == Spelling(t)
    requires i + |Spelling(t)| == |s| || Apart(t, s[i + |Spelling(t)|])
    ensures Lex(s, i) == Ok(Lexeme(t, SkipWhitespace(s, i + |Spelling(t)|)))
  {
    SymbolSpelling(t);
    assert s[i] == s[i..i + 1][0];
    LexSymbol(s, i);
  }

  /** A symbol token is spelled with the one character the scanner maps back to it. */
  lemma SymbolSpelling(t: Token)
    requires Spellable(t) && !t.PropositionToken?
    ensures |Spelling(t)| == 1 && Spelling(t)[0] in "()~&|01" && SymbolToken(Spelling(t)[0]) == t
  {
  }

  lemma TokensProgressive(s: string)
    ensures Progressive(Tokens(s))
  {
  }

  /** The spelling of tokens starts with the spelling of the first one. */
  lemma SpellHead(ts: seq<Token>)
    requires |ts| > 0 && Spellable(ts[0])
    ensures Spell(ts) == Spelling(ts[0]) + Spell(ts[1..])
    ensures |Spelling(ts[0])| > 0 && Spell(ts)[0] == Spelling(ts[0])[0]
  {
  }

  /** A slice made of two parts, cut where the second begins. */
  lemma SliceSplit(s: string, i: nat, j: nat, a: string, b: string)
    requires i <= j <= |s| && s[i..j] == a + b
    ensures i + |a| <= j && s[i..i + |a|] == a && s[i + |a|..j] == b
    ensures |b| > 0 ==> s[i + |a|] == b[0]
  {
    assert s[i..i + |a|] == s[i..j][..|a|];
    assert s[i + |a|..j] == s[i..j][|a|..];
  }

  /**
   * Where the spelling of the first of several tokens ends: the rest are
   * spelled after it, and the first of them does not run into it.
   */
  lemma SpellFront(ts: seq<Token>, s: string, i: nat, j: nat)
    requires Separable(ts) && |ts| > 1 && i <= j <= |s| && s[i..j] == Spell(ts)
    ensures Spellable(ts[0]) && Separable(ts[1..]) && ts[1..][|ts| - 2] == ts[|ts| - 1]
    ensures i + |Spelling(ts[0])| < j && s[i..i + |Spelling(ts[0])|] == Spelling(ts[0])
    ensures s[i + |Spelling(ts[0])|..j] == Spell(ts[1..])
    ensures NextOk(ts[0], s[i + |Spelling(ts[0])|])
  {
    SpellHead(ts);
    SpellHead(ts[1..]);
    SliceSplit(s, i, j, Spelling(ts[0]), Spell(ts[1..]));
    NoMergeNextOk(ts[0], ts[1]);
  }

  /** Reading a token sequence that starts with the next token. */
  lemma ReadStep(src: Source, i: nat, ts: seq<Token>, l: Lexeme)
    requires Progressive(src) && i <= src.length && |ts| > 0
    requires src.next(i) == Ok(l) && l.token == ts[0]
    ensures l.next <= src.length
    ensures Read(src, i, ts) == Read(src, l.next, ts[1..])
  {
  }

  /** Reading one token that is the next one. */
  lemma ReadOne(src: Source, i: nat, ts: seq<Token>, l: Lexeme)
    requires Progressive(src) && i <= src.length && |ts| == 1
    requires src.next(i) == Ok(l) && l.token == ts[0]
    ensures l.next <= src.length && Read(src, i, ts) == Some(l.next)
  {
    assert ts[1..] == [];
  }

  /** `t` is spelled at `p` in `s`, and the character after it, if any, does not run into it. */
  predicate SpelledAt(s: string, p: nat, t: Token) {
    Spellable(t) && p + |Spelling(t)| <= |s| && s[p..p + |Spelling(t)|] == Spelling(t) &&
    (p + |Spelling(t)| == |s| || Apart(t, s[p + |Spelling(t)|]))
  }

  /** `src` scans `s`, and wherever a token is spelled, `src` reads it and the white space after it. */
  ghost predicate LexesSpelled(src: Source, s: string) {
    src.length == |s| && Progressive(src) &&
    forall p: nat, t: Token :: SpelledAt(s, p, t) ==>
      src.next(p) == Ok(Lexeme(t, SkipWhitespace(s, p + |Spelling(t)|)))
  }

  /** The lexer over `s` reads back every spelled token of `s`. */
  lemma TokensLexSpelled(s: string)
    ensures LexesSpelled(Tokens(s), s)
  {
    TokensProgressive(s);
    forall p: nat, t: Token | SpelledAt(s, p, t)
      ensures Tokens(s).next(p) == Ok(Lexeme(t, SkipWhitespace(s, p + |Spelling(t)|)))
    {
      LexOne(s, p, t);
    }
  }

  /**
   * A source that reads back spelled tokens reads the tokens whose
   * spellings make up `s` from `i` up to `j`, when the text after them
   * does not run into the last one; it then stands after the white space
   * that text starts with.
   */
  lemma {:induction false} SpacedRead(ts: seq<Token>, src: Source, s: string, i: nat, j: nat, rest: string)
    requires LexesSpelled(src, s)
    requires Separable(ts) && |ts| > 0 && i <= j <= |s| && s[i..j] == Spell(ts) && s[j..] == rest
    requires rest == [] || Apart(ts[|ts| - 1], rest[0])
    ensures Read(src, i, ts) == Some(SkipWhitespace(s, j))
    decreases |ts|
  {
    if |ts| == 1 {
      ReadLast(ts, src, s, i, j, rest);
    } else {
      ReadFront(ts, src, s, i, j);
      SpacedRead(ts[1..], src, s, i + |Spelling(ts[0])|, j, rest);
    }
  }

  /** The last token is read, with the white space after it. */
  lemma ReadLast(ts: seq<Token>, src: Source, s: string, i: nat, j: nat, rest: string)
    requires LexesSpelled(src, s)
    requires Separable(ts) && |ts| == 1 && i <= j <= |s| && s[i..j] == Spell(ts) && s[j..] == rest
    requires rest == [] || Apart(ts[0], rest[0])
    ensures Read(src, i, ts) == Some(SkipWhitespace(s, j))
  {
    SpellHead(ts);
    if j < |s| {
      assert s[j] == rest[0];
    }
    assert SpelledAt(s, i, ts[0]);
    ReadOne(src, i, ts, Lexeme(ts[0], SkipWhitespace(s, j)));
  }

  /** Of several tokens, the first is read up to where the spelling of the others starts. */
  lemma ReadFront(ts: seq<Token>, src: Source, s: string, i: nat, j: nat)
    requires LexesSpelled(src, s)
    requires Separable(ts) && |ts| > 1 && i <= j <= |s| && s[i..j] == Spell(ts)
    ensures Separable(ts[1..]) && ts[1..][|ts| - 2] == ts[|ts| - 1]
    ensures i + |Spelling(ts[0])| <= j && s[i + |Spelling(ts[0])|..j] == Spell(ts[1..])
    ensures Read(src, i, ts) == Read(src, i + |Spelling(ts[0])|, ts[1..])
  {
    var k := i + |Spelling(ts[0])|;
    SpellFront(ts, s, i, j);
    assert SpelledAt(s, i, ts[0]);
    NoSkip(s, k);
    ReadStep(src, i, ts, Lexeme(ts[0], k));
  }

  /** Text spelled from separable tokens is read back whole, up to the end of input. */
  lemma SpellText(ts: seq<Token>, s: string)
    requires Separable(ts) && |ts| > 0 && Spell(ts) == s
    ensures Progressive(Tokens(s))
    ensures Read(Tokens(s), 0, ts) == Some(|s|)
    ensures Tokens(s).next(0).Ok? && Tokens(s).next(|s|) == Ok(Lexeme(EOF, |s|))
  {
    assert s[0..|s|] == Spell(ts) && s[|s|..] == "";
    TokensLexSpelled(s);
    SpacedRead(ts, Tokens(s), s, 0, |s|, "");
    ReadFirst(Tokens(s), 0, ts);
  }

  /** After the last character, the lexer reports end of input. */
  lemma LexEnd(s: string)
    ensures Tokens(s).next(|s|) == Ok(Lexeme(EOF, |s|))
  {
  }

  /** A `)` always lexes. */
  lemma LexClose(s: string, i: nat)
    requires i < |s| && s[i] == ')'
    ensures Lex(s, i).Ok? && Lex(s, i).value.token == RParen
  {
    assert s[i..i + 1] == ")";
  }

  /** `parse()`: the first token, then an expression; nothing checks what follows it. */
  lemma ParseFromFirst(src: Source)
    requires Progressive(src) && src.next(0).Ok?
    ensures ParseFrom(src, 0) ==
      match ParseExpr(src, At(src, 0), 0)
      case Ok(p) => Ok(p.formula)
      case Err(e) => Err(e)
  {
    StepAt(src, ParserState(EOF, 0));
  }

  // ---------------------------------------------------------------------
  // What the parser makes of printed formulas

  /**
   * Text after a printed formula that the parser leaves unread: it does not
   * run into the formula's last token, and the first token after the white
   * space it starts with lexes and is no binary operator.
   */
  predicate Ignorable(f: Formula, rest: string)
    requires Printable(f)
  {
    var s := Print(f) + rest;
    var e := SkipWhitespace(s, |Print(f)|);
    (rest == [] || Apart(Toks(f)[|Toks(f)| - 1], rest[0])) && Lex(s, e).Ok? && !IsBinary(Lex(s, e).value.token)
  }

  /**
   * A printed formula, followed by text the parser leaves unread, parses
   * to the formula evaluated under the empty assignment, i.e. rebuilt with
   * the smart constructors.
   */
  lemma PrintPrefixParse(f: Formula, rest: string)
    requires Printable(f) && Ignorable(f, rest)
    ensures Evaluable(f, map[])
    ensures ParseText(Print(f) + rest) == Some(Eval(f, map[]))
  {
    var s := Print(f) + rest;
    var src := Tokens(s);
    ToksShape(f);
    assert s[0..|Print(f)|] == Print(f) && s[|Print(f)|..] == rest;
    TokensLexSpelled(s);
    SpacedRead(Toks(f), src, s, 0, |Print(f)|, rest);
    var e := SkipWhitespace(s, |Print(f)|);
    ReadFirst(src, 0, Toks(f));
    UnitParse(f, src, 0);
    OperatorsDone(src, Eval(f, map[]), At(src, e), 0);
    ParseFromFirst(src);
  }

  /** The printed text of a formula parses back to it, normalized by the smart constructors. */
  lemma PrintParse(f: Formula)
    requires Printable(f)
    ensures Evaluable(f, map[])
    ensures ParseText(Print(f)) == Some(Eval(f, map[]))
  {
    assert Print(f) + "" == Print(f);
    LexEnd(Print(f));
    PrintPrefixParse(f, "");
  }

  /** Parsing the printed text keeps the formula's truth value under every valuation. */
  lemma PrintParseMeaning(f: Formula, v: Valuation)
    requires Printable(f)
    ensures Classical(f) && ParseText(Print(f)).Some? && Classical(ParseText(Print(f)).value)
    ensures Holds(ParseText(Print(f)).value, v) == Holds(f, v)
  {
    PrintableIsEvaluable(f);
    PrintParse(f);
    EvalMeaning(f, map[], v);
    Coincidence(f, Override(map[], v), v);
  }

  /** Text the parser produced prints and parses back to the same formula. */
  lemma ReparseIsIdentity(f: Formula)
    requires Printable(f) && Simplified(f)
    ensures ParseText(Print(f)) == Some(f)
  {
    PrintParse(f);
    SimplifiedIsFixpoint(f);
  }

  /**
   * Trailing input after a complete expression is ignored unless it starts
   * with a binary operator or fails to lex: `parse()` never checks for the end.
   */
  lemma TrailingIgnored(f: Formula, rest: string)
    requires Printable(f) && Ignorable(f, rest)
    ensures ParseText(Print(f) + rest) == ParseText(Print(f))
  {
    PrintParse(f);
    PrintPrefixParse(f, rest);
  }

  /** In particular, anything after a closing parenthesis too many is ignored. */
  lemma ClosingIgnored(f: Formula, rest: string)
    requires Printable(f)
    ensures ParseText(Print(f) + ")" + rest) == ParseText(Print(f))
  {
    var s := Print(f) + (")" + rest);
    assert Print(f) + ")" + rest == s && s[|Print(f)|] == ')';
    NoSkip(s, |Print(f)|);
    LexClose(s, |Print(f)|);
    TrailingIgnored(f, ")" + rest);
  }

  /** A second name after a space is ignored: `a b` parses as `a`. */
  lemma SpacedNameIgnored()
    ensures ParseText("a b") == Some(Proposition("a"))
  {
    var f := Proposition("a");
    PrintName("a");
    assert Print(f) + " b" == "a b";
    LexIdentifier("a b", 2);
    IdentifierEndAt("a b", 2, 3);
    TrailingIgnored(f, " b");
    PrintParse(f);
  }

  /** Printing a double negation puts `~~` in front. */
  lemma PrintDoubleNot(f: Formula)
    requires Printable(f)
    ensures Printable(Not(Not(f))) && Print(Not(Not(f))) == "~~" + Print(f)
  {
    assert Toks(Not(Not(f))) == [Negation] + ([Negation] + Toks(f));
    SpellAppend([Negation], [Negation] + Toks(f));
    SpellAppend([Negation], Toks(f));
  }

  /** `~` may repeat before a primary; two of them cancel. */
  lemma DoubleNegation(f: Formula)
    requires Printable(f)
    ensures ParseText("~~" + Print(f)) == ParseText(Print(f))
  {
    PrintDoubleNot(f);
    PrintParse(Not(Not(f)));
    PrintParse(f);
    NotLaws(Eval(f, map[]), true);
  }

  function Symbol(c: Connective): string {
    if c == And then "&" else "|"
  }

  function ChainToks(c1: Connective, c2: Connective, x: Formula, y: Formula, z: Formula): seq<Token>
    requires Printable(x) && Printable(y) && Printable(z)
  {
    Toks(x) + ([OperatorToken(c1)] + (Toks(y) + ([OperatorToken(c2)] + Toks(z))))
  }

  lemma SpellOne(t: Token)
    ensures Spell([t]) == Spelling(t)
  {
    assert Spell([t]) == Spelling(t) + Spell([]);
  }

  /** An operand's tokens stay separable when an operator, or nothing, follows them. */
  lemma OperandThen(y: Formula, rest: seq<Token>)
    requires Printable(y) && Separable(rest)
    requires |rest| > 0 ==> rest[0] == Conjunction || rest[0] == Disjunction
    ensures Separable(Toks(y) + rest) && OperandStart((Toks(y) + rest)[0])
  {
    ToksShape(y);
    SeparableAppend(Toks(y), rest);
  }

  /** An operator stays separable in front of an operand. */
  lemma OperatorThen(o: Token, rest: seq<Token>)
    requires o == Conjunction || o == Disjunction
    requires Separable(rest) && |rest| > 0 && OperandStart(rest[0])
    ensures Separable([o] + rest) && ([o] + rest)[0] == o
  {
    assert ([o] + rest)[1..] == rest;
  }

  /** The tokens of `x o1 y o2 z` are separable. */
  lemma ChainSeparable(c1: Connective, c2: Connective, x: Formula, y: Formula, z: Formula)
    requires Printable(x) && Printable(y) && Printable(z)
    ensures Separable(ChainToks(c1, c2, x, y, z))
  {
    var o1, o2 := OperatorToken(c1), OperatorToken(c2);
    ToksShape(z);
    OperatorThen(o2, Toks(z));
    OperandThen(y, [o2] + Toks(z));
    OperatorThen(o1, Toks(y) + ([o2] + Toks(z)));
    OperandThen(x, [o1] + (Toks(y) + ([o2] + Toks(z))));
  }

  lemma Regroup(a: string, b: string, c: string, d: string, e: string)
    ensures a + (b + (c + (d + e))) == a + b + c + d + e
  {
  }

  /** The tokens of `x o1 y o2 z` spell its text. */
  lemma ChainSpelling(c1: Connective, c2: Connective, x: Formula, y: Formula, z: Formula)
    requires c1 in {And, Or} && c2 in {And, Or}
    requires Printable(x) && Printable(y) && Printable(z)
    ensures Spell(ChainToks(c1, c2, x, y, z)) == Print(x) + Symbol(c1) + Print(y) + Symbol(c2) + Print(z)
  {
    var o1, o2 := OperatorToken(c1), OperatorToken(c2);
    var tz := [o2] + Toks(z);
    var ty := Toks(y) + tz;
    var tx := [o1] + ty;
    var px, s1, py, s2, pz := Print(x), Symbol(c1), Print(y), Symbol(c2), Print(z);
    assert Spell(tz) == s2 + pz by {
      SpellOne(o2);
      SpellAppend([o2], Toks(z));
    }
    assert Spell(ty) == py + (s2 + pz) by {
      SpellAppend(Toks(y), tz);
    }
    assert Spell(tx) == s1 + (py + (s2 + pz)) by {
      SpellOne(o1);
      SpellAppend([o1], ty);
    }
    SpellAppend(Toks(x), tx);
    Regroup(px, s1, py, s2, pz);
  }

  /**
   * `x o1 y o2 z` parses with conjunction binding tighter than
   * disjunction and equal connectives grouping to the left.
   */
  lemma ChainText(c1: Connective, c2: Connective, x: Formula, y: Formula, z: Formula)
    requires c1 in {And, Or} && c2 in {And, Or}
    requires Printable(x) && Printable(y) && Printable(z)
    ensures Evaluable(x, map[]) && Evaluable(y, map[]) && Evaluable(z, map[])
    ensures ParseText(Print(x) + Symbol(c1) + Print(y) + Symbol(c2) + Print(z)) ==
      Some(Grouped(c1, c2, Eval(x, map[]), Eval(y, map[]), Eval(z, map[])))
  {
    var s := Print(x) + Symbol(c1) + Print(y) + Symbol(c2) + Print(z);
    var ts := ChainToks(c1, c2, x, y, z);
    ChainSeparable(c1, c2, x, y, z);
    ChainSpelling(c1, c2, x, y, z);
    SpellText(ts, s);
    ChainParse(c1, c2, x, y, z, Tokens(s), 0);
    ParseFromFirst(Tokens(s));
  }

  /** A proposition prints as its name. */
  lemma PrintName(a: string)
    requires IsIdentifier(a)
    ensures Printable(Proposition(a)) && Print(Proposition(a)) == a
  {
    assert Spell([PropositionToken(a)]) == a + Spell([]);
  }

  /** `a | b & c` groups as `a | (b & c)`. */
  lemma ConjunctionBindsTighter(a: string, b: string, c: string)
    requires IsIdentifier(a) && IsIdentifier(b) && IsIdentifier(c)
    ensures ParseText(a + "|" + b + "&" + c) ==
      Some(NAry(Or, [Proposition(a), NAry(And, [Proposition(b), Proposition(c)])]))
  {
    PrintName(a);
    PrintName(b);
    PrintName(c);
    ChainText(Or, And, Proposition(a), Proposition(b), Proposition(c));
  }

  /** `a & b | c` groups as `(a & b) | c`. */
  lemma DisjunctionBindsLooser(a: string, b: string, c: string)
    requires IsIdentifier(a) && IsIdentifier(b) && IsIdentifier(c)
    ensures ParseText(a + "&" + b + "|" + c) ==
      Some(NAry(Or, [NAry(And, [Proposition(a), Proposition(b)]), Proposition(c)]))
  {
    PrintName(a);
    PrintName(b);
    PrintName(c);
    ChainText(And, Or, Proposition(a), Proposition(b), Proposition(c));
  }

  /** `a & b & c` groups to the left, and the left flattening makes it one conjunction. */
  lemma ConjunctionLeftAssociative(a: string, b: string, c: string)
    requires IsIdentifier(a) && IsIdentifier(b) && IsIdentifier(c)
    ensures ParseText(a + "&" + b + "&" + c) ==
      Some(NAry(And, [Proposition(a), Proposition(b), Proposition(c)]))
  {
    PrintName(a);
    PrintName(b);
    PrintName(c);
    ChainText(And, And, Proposition(a), Proposition(b), Proposition(c));
    assert [Proposition(a), Proposition(b)] + [Proposition(c)] == [Proposition(a), Proposition(b), Proposition(c)];
  }

  /** `a | b | c` likewise. */
  lemma DisjunctionLeftAssociative(a: string, b: string, c: string)
    requires IsIdentifier(a) && IsIdentifier(b) && IsIdentifier(c)
    ensures ParseText(a + "|" + b + "|" + c) ==
      Some(NAry(Or, [Proposition(a), Proposition(b), Proposition(c)]))
  {
    PrintName(a);
    PrintName(b);
    PrintName(c);
    ChainText(Or, Or, Proposition(a), Proposition(b), Proposition(c));
    assert [Proposition(a), Proposition(b)] + [Proposition(c)] == [Proposition(a), Proposition(b), Proposition(c)];
  }

  // ---------------------------------------------------------------------
  // Failures

  /** An opening parenthesis never closed throws `Expect(RParen)`, so `parse` gives nil. */
  lemma UnclosedParen(f: Formula)
    requires Printable(f)
    ensures ParseFrom(Tokens("(" + Print(f)), 0) == Err(Expect(RParen))
    ensures ParseText("(" + Print(f)) == None
  {
    var ts := [LParen] + Toks(f);
    var s := "(" + Print(f);
    ToksShape(f);
    SeparableAppend([LParen], Toks(f));
    SpellAppend([LParen], Toks(f));
    assert Spell([LParen]) == "(";
    SpellText(ts, s);
    var src := Tokens(s);
    MissingParen(f, src, 0);
    ParseFromFirst(src);
  }

  /** A first character that starts no token throws `Unexpected`. */
  lemma UnknownCharacter(s: string)
    requires |s| > 0 && s[0] !in "()~!|\\+&/*01" && !('a' <= s[0] <= 'z')
    ensures ParseFrom(Tokens(s), 0) == Err(Unexpected)
    ensures ParseText(s) == None
  {
    LexUnexpected(s, 0);
  }

  /** White space is skipped only after a token, so leading white space is rejected. */
  lemma LeadingSpace(s: string)
    ensures ParseFrom(Tokens(" " + s), 0) == Err(Unexpected)
    ensures ParseText(" " + s) == None
  {
    LeadingSpaceRejected(" " + s);
  }

  /** Empty input: the first token is `EOF`, which starts no expression, so `Unexpected` is thrown. */
  lemma EmptyInput()
    ensures ParseFrom(Tokens(""), 0) == Err(Unexpected)
    ensures ParseText("") == None
  {
    var src := Tokens("");
    LexEnd("");
    assert At(src, 0) == ParserState(EOF, 0);
    ParseFromFirst(src);
  }
}
