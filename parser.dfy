/**
 * The recursive descent parser of the textual formula syntax: precedence
 * climbing over binary operators, prefix negation and parentheses.
 */
module Parsing {
  import opened Wrappers
  import opened Formulas
  import opened Lexing

  /**
   * Where the parser takes its tokens from: the lexeme found at each index of
   * an input of `length` characters.
   */
  datatype Source = Source(next: nat -> Result<Lexeme, ParseError>, length: nat)

  /** A token read at `i` lies within the input, and only the end of the input gives `EOF`. */
  predicate Advances(i: nat, l: Lexeme, length: nat) {
    i <= l.next <= length && (l.token == EOF <==> i == length) && (l.token != EOF ==> i < l.next)
  }

  /** The lexer's guarantee the parser's termination rests on: every token read makes progress. */
  predicate Progressive(src: Source) {
    forall i :: 0 <= i <= src.length && src.next(i).Ok? ==> Advances(i, src.next(i).value, src.length)
  }

  /** The lexer over `s`, as a token source. */
  function Tokens(s: string): Source {
    Source((i: nat) => if i <= |s| then Lex(s, i) else Err(Unexpected), |s|)
  }

  /** The parser's `current` token and the scanner's index behind it. */
  datatype ParserState = ParserState(current: Token, index: nat)

  /** A parsed formula and the state the parser is left in. */
  datatype Parsed = Parsed(formula: Formula, state: ParserState)

  /** What is left to read: the characters, and one more while a token is pending. */
  function Measure(src: Source, st: ParserState): nat
    requires st.index <= src.length
  {
    (src.length - st.index) + (if st.current == EOF then 0 else 1)
  }

  /** `current = try lexer.next()`. */
  function Step(src: Source, st: ParserState): (r: Result<ParserState, ParseError>)
    requires Progressive(src) && st.index <= src.length
    ensures r.Ok? ==> r.value.index <= src.length
    ensures r.Ok? && st.current != EOF ==> Measure(src, r.value) < Measure(src, st)
  {
    match src.next(st.index)
    case Err(e) => Err(e)
    case Ok(l) => Ok(ParserState(l.token, l.next))
  }

  /** `parseExpression(minPrecedence:)`: a unary expression, then the binary operators binding at least as tight. */
  function ParseExpr(src: Source, st: ParserState, minPrecedence: nat): (r: Result<Parsed, ParseError>)
    requires Progressive(src) && st.index <= src.length
    ensures r.Ok? ==> r.value.state.index <= src.length && Measure(src, r.value.state) <= Measure(src, st)
    decreases Measure(src, st), 3
  {
    match ParseUnary(src, st)
    case Err(e) => Err(e)
    case Ok(p) => ParseOperators(src, p.formula, p.state, minPrecedence)
  }

  /** The `while` loop of `parseExpression`: folds operators into `lhs` from the left. */
  function ParseOperators(src: Source, lhs: Formula, st: ParserState, minPrecedence: nat): (r: Result<Parsed, ParseError>)
    requires Progressive(src) && st.index <= src.length
    ensures r.Ok? ==> r.value.state.index <= src.length && Measure(src, r.value.state) <= Measure(src, st)
    ensures r.Ok? ==> !(IsBinary(r.value.state.current) && Precedence(r.value.state.current) >= minPrecedence)
    decreases Measure(src, st), 0
  {
    if IsBinary(st.current) && Precedence(st.current) >= minPrecedence then
      var op := st.current;
      match Step(src, st)
      case Err(e) => Err(e)
      case Ok(next) =>
        match ParseExpr(src, next, Precedence(op) + 1)
        case Err(e) => Err(e)
        case Ok(rhs) =>
          var combined := if op == Disjunction then MkOr(lhs, rhs.formula) else MkAnd(lhs, rhs.formula);
          ParseOperators(src, combined, rhs.state, minPrecedence)
    else
      Ok(Parsed(lhs, st))
  }

  /** One turn of the operator loop, when the right operand parses. */
  lemma OperatorsStep(src: Source, lhs: Formula, st: ParserState, minPrecedence: nat, next: ParserState, rhs: Parsed)
    requires Progressive(src) && st.index <= src.length
    requires IsBinary(st.current) && Precedence(st.current) >= minPrecedence
    requires Step(src, st) == Ok(next)
    requires ParseExpr(src, next, Precedence(st.current) + 1) == Ok(rhs)
    ensures rhs.state.index <= src.length && Measure(src, rhs.state) < Measure(src, st)
    ensures ParseOperators(src, lhs, st, minPrecedence) ==
      ParseOperators(src, if st.current == Disjunction then MkOr(lhs, rhs.formula) else MkAnd(lhs, rhs.formula), rhs.state, minPrecedence)
  {
  }

  /** The operator loop stops at a token that is no operator binding tightly enough. */
  lemma OperatorsDone(src: Source, lhs: Formula, st: ParserState, minPrecedence: nat)
    requires Progressive(src) && st.index <= src.length
    requires !(IsBinary(st.current) && Precedence(st.current) >= minPrecedence)
    ensures ParseOperators(src, lhs, st, minPrecedence) == Ok(Parsed(lhs, st))
  {
  }

  /** One turn of the operator loop, when the token after the operator fails to lex. */
  lemma OperatorsLexFailure(src: Source, lhs: Formula, st: ParserState, minPrecedence: nat, e: ParseError)
    requires Progressive(src) && st.index <= src.length
    requires IsBinary(st.current) && Precedence(st.current) >= minPrecedence
    requires Step(src, st) == Err(e)
    ensures ParseOperators(src, lhs, st, minPrecedence) == Err(e)
  {
  }

  /** One turn of the operator loop, when the right operand fails. */
  lemma OperatorsFailure(src: Source, lhs: Formula, st: ParserState, minPrecedence: nat, next: ParserState, e: ParseError)
    requires Progressive(src) && st.index <= src.length
    requires IsBinary(st.current) && Precedence(st.current) >= minPrecedence
    requires Step(src, st) == Ok(next)
    requires ParseExpr(src, next, Precedence(st.current) + 1) == Err(e)
    ensures ParseOperators(src, lhs, st, minPrecedence) == Err(e)
  {
  }

  /** `parseUnaryExpression`: any number of negations before a primary expression. */
  function ParseUnary(src: Source, st: ParserState): (r: Result<Parsed, ParseError>)
    requires Progressive(src) && st.index <= src.length
    ensures r.Ok? ==> r.value.state.index <= src.length && Measure(src, r.value.state) < Measure(src, st)
    decreases Measure(src, st), 2
  {
    if IsUnary(st.current) then
      match Step(src, st)
      case Err(e) => Err(e)
      case Ok(next) =>
        match ParseUnary(src, next)
        case Err(e) => Err(e)
        case Ok(operand) => Ok(Parsed(MkNot(operand.formula), operand.state))
    else
      ParsePrimary(src, st)
  }

  /** `parsePrimaryExpression`: a literal, a proposition or a parenthesized expression. */
  function ParsePrimary(src: Source, st: ParserState): (r: Result<Parsed, ParseError>)
    requires Progressive(src) && st.index <= src.length
    ensures r.Ok? ==> r.value.state.index <= src.length && Measure(src, r.value.state) < Measure(src, st)
    ensures r.Err? && !st.current.LiteralToken? && !st.current.PropositionToken? && st.current != LParen ==>
      r.error == Unexpected
    decreases Measure(src, st), 1
  {
    match st.current
    case LiteralToken(b) =>
      (match Step(src, st)
       case Err(e) => Err(e)
       case Ok(next) => Ok(Parsed(Literal(b), next)))
    case PropositionToken(name) =>
      (match Step(src, st)
       case Err(e) => Err(e)
       case Ok(next) => Ok(Parsed(Proposition(name), next)))
    case LParen =>
      (match Step(src, st)
       case Err(e) => Err(e)
       case Ok(next) =>
         match ParseExpr(src, next, 0)
         case Err(e) => Err(e)
         case Ok(inner) =>
           if inner.state.current != RParen then Err(Expect(RParen))
           else
             match Step(src, inner.state)
             case Err(e) => Err(e)
             case Ok(after) => Ok(Parsed(inner.formula, after)))
    case _ => Err(Unexpected)
  }

  /** `parse()`: read the first token, then one expression; what follows it is not read. */
  function ParseFrom(src: Source, i: nat): Result<Formula, ParseError>
    requires Progressive(src) && i <= src.length
  {
    var first :- Step(src, ParserState(EOF, i));
    var p :- ParseExpr(src, first, 0);
    Ok(p.formula)
  }

  /** `BooleanUtils.parse(string:)`: the parser over the lexer of `s`; a thrown error becomes `nil`. */
  function ParseText(s: string): Option<Formula> {
    match ParseFrom(Tokens(s), 0)
    case Ok(f) => Some(f)
    case Err(_) => None
  }

  /** A parse result paired with the state it leaves, for comparing a method with its specification. */
  function Outcome(r: Result<Formula, ParseError>, st: ParserState): Result<Parsed, ParseError> {
    match r
    case Ok(f) => Ok(Parsed(f, st))
    case Err(e) => Err(e)
  }

  /** `BooleanParser`: the lexer and the pending token. */
  class Parser {
    const lexer: Lexer
    /** The tokens `lexer` will produce, position by position. */
    ghost const source: Source
    var current: Token

    ghost function Text(): string {
      lexer.scanner.scalars
    }

    ghost function State(): ParserState
      reads this, lexer.scanner
    {
      ParserState(current, lexer.scanner.index)
    }

    ghost predicate Valid()
      reads lexer.scanner
    {
      lexer.scanner.Valid() && source.length == |lexer.scanner.scalars| && Progressive(source) &&
      forall i {:trigger Lex(lexer.scanner.scalars, i)} :: 0 <= i <= |lexer.scanner.scalars| ==>
        source.next(i) == Lex(lexer.scanner.scalars, i)
    }

    constructor(lexer: Lexer)
      requires lexer.scanner.Valid()
      ensures this.lexer == lexer && current == EOF
      ensures source == Tokens(lexer.scanner.scalars)
      ensures Valid()
    {
      this.lexer := lexer;
      source := Tokens(lexer.scanner.scalars);
      current := EOF;
    }

    /** `current = try lexer.next()`, as a step of the parser. */
    method Advance() returns (r: Result<Token, ParseError>)
      requires Valid()
      modifies this, lexer.scanner
      ensures Valid()
      ensures r.Ok? ==> r.value == current && Step(source, old(State())) == Ok(State())
      ensures r.Err? ==> Step(source, old(State())) == Err(r.error)
    {
      r := lexer.Next();
      if r.Ok? {
        current := r.value;
      }
    }

    method Parse() returns (r: Result<Formula, ParseError>)
      requires Valid()
      modifies this, lexer.scanner
      ensures Valid()
      ensures r == ParseFrom(source, old(lexer.scanner.index))
    {
      var t := Advance();
      if t.Err? {
        return Err(t.error);
      }
      r := ParseExpression(0);
    }

    method ParseExpression(minPrecedence: nat) returns (r: Result<Formula, ParseError>)
      requires Valid()
      modifies this, lexer.scanner
      ensures Valid()
      ensures Outcome(r, State()) == ParseExpr(source, old(State()), minPrecedence)
      decreases Measure(source, State()), 3
    {
      var u := ParseUnaryExpression();
      if u.Err? {
        return u;
      }
      var lhs := u.value;
      ghost var target := ParseExpr(source, old(State()), minPrecedence);
      assert ParseOperators(source, lhs, State(), minPrecedence) == target;
      while IsBinary(current) && Precedence(current) >= minPrecedence
        invariant Valid()
        invariant Measure(source, State()) <= Measure(source, old(State()))
        invariant ParseOperators(source, lhs, State(), minPrecedence) == target
        decreases Measure(source, State())
      {
        ghost var before := State();
        var op := current;
        var t := Advance();
        if t.Err? {
          OperatorsLexFailure(source, lhs, before, minPrecedence, t.error);
          return Err(t.error);
        }
        ghost var next := State();
        var rhs := ParseExpression(Precedence(op) + 1);
        if rhs.Err? {
          OperatorsFailure(source, lhs, before, minPrecedence, next, rhs.error);
          return rhs;
        }
        OperatorsStep(source, lhs, before, minPrecedence, next, Parsed(rhs.value, State()));
        lhs := if op == Disjunction then MkOr(lhs, rhs.value) else MkAnd(lhs, rhs.value);
      }
      OperatorsDone(source, lhs, State(), minPrecedence);
      return Ok(lhs);
    }

    method ParseUnaryExpression() returns (r: Result<Formula, ParseError>)
      requires Valid()
      modifies this, lexer.scanner
      ensures Valid()
      ensures Outcome(r, State()) == ParseUnary(source, old(State()))
      decreases Measure(source, State()), 2
    {
      if IsUnary(current) {
        var t := Advance();
        if t.Err? {
          return Err(t.error);
        }
        var operand := ParseUnaryExpression();
        if operand.Err? {
          return operand;
        }
        return Ok(MkNot(operand.value));
      } else {
        r := ParsePrimaryExpression();
      }
    }

    method ParsePrimaryExpression() returns (r: Result<Formula, ParseError>)
      requires Valid()
      modifies this, lexer.scanner
      ensures Valid()
      ensures Outcome(r, State()) == ParsePrimary(source, old(State()))
      decreases Measure(source, State()), 1
    {
      match current
      case LiteralToken(b) =>
        var t := Advance();
        if t.Err? {
          return Err(t.error);
        }
        return Ok(Literal(b));
      case PropositionToken(name) =>
        var t := Advance();
        if t.Err? {
          return Err(t.error);
        }
        return Ok(Proposition(name));
      case LParen =>
        var t := Advance();
        if t.Err? {
          return Err(t.error);
        }
        var inner := ParseExpression(0);
        if inner.Err? {
          return inner;
        }
        if current == RParen {
          t := Advance();
          if t.Err? {
            return Err(t.error);
          }
          return inner;
        }
        return Err(Expect(RParen));
      case _ =>
        return Err(Unexpected);
    }
  }

  /** `BooleanUtils.parse(string:)`, building the scanner, lexer and parser objects. */
  method ParseString(s: string) returns (r: Option<Formula>)
    ensures r == ParseText(s)
  {
    var scanner := new Scanner(s);
    var lexer := new Lexer(scanner);
    var parser := new Parser(lexer);
    var result := parser.Parse();
    r := if result.Ok? then Some(result.value) else None;
  }
}
