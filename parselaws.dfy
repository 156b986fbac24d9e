/**
 * What the parser produces: formulas in the smart constructors' normal form,
 * the inverse of a fully parenthesized printer, conjunction binding tighter
 * than disjunction, and its error cases.
 */
module ParserLaws {
  import opened Wrappers
  import opened Formulas
  import opened FormulaLaws
  import opened Lexing
  import opened Parsing

  // ---------------------------------------------------------------------
  // The parser only builds normal forms

  predicate Normal(f: Formula) {
    Classical(f) && Simplified(f)
  }

  lemma {:induction false} ExprNormal(src: Source, st: ParserState, minPrecedence: nat)
    requires Progressive(src) && st.index <= src.length
    ensures ParseExpr(src, st, minPrecedence).Ok? ==> Normal(ParseExpr(src, st, minPrecedence).value.formula)
    decreases Measure(src, st), 3
  {
    UnaryNormal(src, st);
    match ParseUnary(src, st)
    case Err(_) =>
    case Ok(p) => OperatorsNormal(src, p.formula, p.state, minPrecedence);
  }

  lemma {:induction false} OperatorsNormal(src: Source, lhs: Formula, st: ParserState, minPrecedence: nat)
    requires Progressive(src) && st.index <= src.length
    requires Normal(lhs)
    ensures ParseOperators(src, lhs, st, minPrecedence).Ok? ==>
      Normal(ParseOperators(src, lhs, st, minPrecedence).value.formula)
    decreases Measure(src, st), 0
  {
    if IsBinary(st.current) && Precedence(st.current) >= minPrecedence {
      var op := st.current;
      match Step(src, st)
      case Err(_) =>
      case Ok(next) =>
        ExprNormal(src, next, Precedence(op) + 1);
        match ParseExpr(src, next, Precedence(op) + 1)
        case Err(_) =>
        case Ok(rhs) =>
          var combined := if op == Disjunction then MkOr(lhs, rhs.formula) else MkAnd(lhs, rhs.formula);
          OperatorsNormal(src, combined, rhs.state, minPrecedence);
    }
  }

  lemma {:induction false} UnaryNormal(src: Source, st: ParserState)
    requires Progressive(src) && st.index <= src.length
    ensures ParseUnary(src, st).Ok? ==> Normal(ParseUnary(src, st).value.formula)
    decreases Measure(src, st), 2
  {
    if IsUnary(st.current) {
      match Step(src, st)
      case Err(_) =>
      case Ok(next) => UnaryNormal(src, next);
    } else {
      PrimaryNormal(src, st);
    }
  }

  lemma {:induction false} PrimaryNormal(src: Source, st: ParserState)
    requires Progressive(src) && st.index <= src.length
    ensures ParsePrimary(src, st).Ok? ==> Normal(ParsePrimary(src, st).value.formula)
    decreases Measure(src, st), 1
  {
    if st.current == LParen {
      match Step(src, st)
      case Err(_) =>
      case Ok(next) => ExprNormal(src, next, 0);
    }
  }

  /** A parsed formula is propositional and already simplified, so evaluating it under no assignment returns it. */
  lemma ParsedIsNormal(s: string)
    ensures ParseText(s).Some? ==> Classical(ParseText(s).value) && Simplified(ParseText(s).value)
    ensures ParseText(s).Some? ==>
      Evaluable(ParseText(s).value, map[]) && Eval(ParseText(s).value, map[]) == ParseText(s).value
  {
    var src := Tokens(s);
    match Step(src, ParserState(EOF, 0))
    case Err(_) =>
    case Ok(first) =>
      ExprNormal(src, first, 0);
      if ParseText(s).Some? {
        SimplifiedIsFixpoint(ParseText(s).value);
      }
  }

  // ---------------------------------------------------------------------
  // ---------------------------------------------------------------------
  // Parsing a known stream of tokens

  /** The parser's state once the token at `i` has been read. */
  function At(src: Source, i: nat): ParserState
    requires i <= src.length
  {
    match src.next(i)
    case Ok(l) => ParserState(l.token, l.next)
    case Err(_) => ParserState(EOF, i)
  }

  lemma StepAt(src: Source, st: ParserState)
    requires Progressive(src) && st.index <= src.length && src.next(st.index).Ok?
    ensures Step(src, st) == Ok(At(src, st.index))
  {
  }

  /** Reads `ts` from position `i` on: the position after the last of them, if the source yields exactly them. */
  function Read(src: Source, i: nat, ts: seq<Token>): (r: Option<nat>)
    requires Progressive(src) && i <= src.length
    ensures r.Some? ==> i <= r.value <= src.length
    decreases |ts|
  {
    if |ts| == 0 then Some(i)
    else
      match src.next(i)
      case Err(_) => None
      case Ok(l) => if l.token == ts[0] then Read(src, l.next, ts[1..]) else None
  }

  /** Reading a concatenation reads its parts one after the other. */
  lemma {:induction false} ReadAppend(src: Source, i: nat, a: seq<Token>, b: seq<Token>)
    requires Progressive(src) && i <= src.length
    ensures Read(src, i, a + b) == match Read(src, i, a) case None => None case Some(m) => Read(src, m, b)
    decreases |a|
  {
    if |a| > 0 {
      assert (a + b)[0] == a[0] && (a + b)[1..] == a[1..] + b;
      match src.next(i)
      case Err(_) =>
      case Ok(l) => if l.token == a[0] { ReadAppend(src, l.next, a[1..], b); }
    } else {
      assert a + b == b;
    }
  }

  /** The first token read, and the state it leaves the parser in. */
  lemma ReadFirst(src: Source, i: nat, ts: seq<Token>)
    requires Progressive(src) && i <= src.length && |ts| > 0 && Read(src, i, ts).Some?
    ensures src.next(i).Ok? && At(src, i).current == ts[0]
    ensures At(src, i).index <= src.length
    ensures Read(src, At(src, i).index, ts[1..]) == Read(src, i, ts)
  {
  }

  /** The token of a variadic connective. */
  function OperatorToken(c: Connective): Token {
    if c == And then Conjunction else Disjunction
  }

  /** The formulas the concrete syntax spells: literals, identifiers, negations, and non-empty `&`/`|` lists. */
  predicate Printable(f: Formula) {
    match f
    case Literal(_) => true
    case Proposition(p) => IsIdentifier(p)
    case Not(g) => Printable(g)
    case NAry(c, ops) => (c == And || c == Or) && |ops| >= 1 && forall k :: 0 <= k < |ops| ==> Printable(ops[k])
    case _ => false
  }

  /** The tokens of `f` written fully parenthesized. */
  function Toks(f: Formula): (r: seq<Token>)
    requires Printable(f)
    ensures |r| > 0
    decreases f, 1
  {
    match f
    case Literal(b) => [LiteralToken(b)]
    case Proposition(p) => [PropositionToken(p)]
    case Not(g) => [Negation] + Toks(g)
    case NAry(c, ops) => [LParen] + (Toks(ops[0]) + ToksRest(f, 1)) + [RParen]
  }

  /** The operands of `f` from the `k`-th on, each behind the connective's token. */
  function ToksRest(f: Formula, k: nat): seq<Token>
    requires Printable(f) && f.NAry?
    decreases f, 0, |f.operands| - k
  {
    if k >= |f.operands| then []
    else [OperatorToken(f.connective)] + Toks(f.operands[k]) + ToksRest(f, k + 1)
  }

  lemma {:induction false} PrintableIsEvaluable(f: Formula)
    requires Printable(f)
    ensures Classical(f) && Evaluable(f, map[])
  {
    match f
    case Not(g) => PrintableIsEvaluable(g);
    case NAry(c, ops) =>
      forall k | 0 <= k < |ops| ensures Classical(ops[k]) && Evaluable(ops[k], map[]) {
        PrintableIsEvaluable(ops[k]);
      }
    case _ =>
  }

  /**
   * The tokens of an operand, read from `i`, are parsed by
   * `parseUnaryExpression` to the operand's simplification.
   */
  lemma {:induction false} UnitParse(f: Formula, src: Source, i: nat)
    requires Progressive(src) && i <= src.length && Printable(f)
    requires Read(src, i, Toks(f)).Some? && src.next(Read(src, i, Toks(f)).value).Ok?
    ensures Evaluable(f, map[])
    ensures ParseUnary(src, At(src, i)) == Ok(Parsed(Eval(f, map[]), At(src, Read(src, i, Toks(f)).value)))
    decreases f, 3
  {
    PrintableIsEvaluable(f);
    var ts := Toks(f);
    ReadFirst(src, i, ts);
    var m := At(src, i).index;
    match f
    case Literal(b) =>
      StepAt(src, At(src, i));
    case Proposition(p) =>
      StepAt(src, At(src, i));
    case Not(g) =>
      assert ts[1..] == Toks(g);
      ReadFirst(src, m, Toks(g));
      StepAt(src, At(src, i));
      UnitParse(g, src, m);
    case NAry(_, _) =>
      ParenParse(f, src, i);
  }

  /** A parenthesized list of operands, read from `i`, is parsed by `parseUnaryExpression` to its simplification. */
  lemma ParenParse(f: Formula, src: Source, i: nat)
    requires Progressive(src) && i <= src.length && Printable(f) && f.NAry?
    requires Read(src, i, Toks(f)).Some? && src.next(Read(src, i, Toks(f)).value).Ok?
    ensures Evaluable(f, map[])
    ensures ParseUnary(src, At(src, i)) == Ok(Parsed(Eval(f, map[]), At(src, Read(src, i, Toks(f)).value)))
    decreases f, 2
  {
    PrintableIsEvaluable(f);
    ParenRead(f, src, i);
    var m := At(src, i).index;
    var e := Read(src, m, Toks(f.operands[0]) + ToksRest(f, 1)).value;
    StepAt(src, At(src, i));
    ListParse(f, src, m);
    StepAt(src, At(src, e));
    UnaryParen(src, At(src, i), Parsed(Eval(f, map[]), At(src, e)));
  }

  /** `parseUnaryExpression` at `(`: the inner expression, then `)`. */
  lemma UnaryParen(src: Source, st: ParserState, inner: Parsed)
    requires Progressive(src) && st.index <= src.length && st.current == LParen
    requires Step(src, st).Ok? && ParseExpr(src, Step(src, st).value, 0) == Ok(inner)
    requires inner.state.current == RParen && Step(src, inner.state).Ok?
    ensures ParseUnary(src, st) == Ok(Parsed(inner.formula, Step(src, inner.state).value))
  {
  }

  /** Reading a parenthesized list: `(`, then the operands, then `)`. */
  lemma ParenRead(f: Formula, src: Source, i: nat)
    requires Progressive(src) && i <= src.length && Printable(f) && f.NAry?
    requires Read(src, i, Toks(f)).Some?
    ensures src.next(i).Ok? && At(src, i).current == LParen && At(src, i).index <= src.length
    ensures var inner := Toks(f.operands[0]) + ToksRest(f, 1);
      Read(src, At(src, i).index, inner).Some? &&
      var e := Read(src, At(src, i).index, inner).value;
      src.next(e).Ok? && At(src, e).current == RParen && At(src, e).index == Read(src, i, Toks(f)).value
  {
    var ts := Toks(f);
    ReadFirst(src, i, ts);
    var m := At(src, i).index;
    var inner := Toks(f.operands[0]) + ToksRest(f, 1);
    assert ts[1..] == inner + [RParen];
    ReadAppend(src, m, inner, [RParen]);
    ReadFirst(src, Read(src, m, inner).value, [RParen]);
  }

  /** The operands inside the parentheses of `f`, read from `i`, parse to the simplified list. */
  lemma {:induction false} ListParse(f: Formula, src: Source, i: nat)
    requires Progressive(src) && i <= src.length && Printable(f) && f.NAry?
    requires Read(src, i, Toks(f.operands[0]) + ToksRest(f, 1)).Some?
    requires var e := Read(src, i, Toks(f.operands[0]) + ToksRest(f, 1)).value;
      src.next(e).Ok? && !IsBinary(src.next(e).value.token)
    ensures Evaluable(f, map[])
    ensures ParseExpr(src, At(src, i), 0) ==
      Ok(Parsed(Eval(f, map[]), At(src, Read(src, i, Toks(f.operands[0]) + ToksRest(f, 1)).value)))
    decreases f, 1
  {
    PrintableIsEvaluable(f);
    var c, ops := f.connective, f.operands;
    ReadAppend(src, i, Toks(ops[0]), ToksRest(f, 1));
    var j := Read(src, i, Toks(ops[0])).value;
    if |ops| > 1 {
      ReadFirst(src, j, ToksRest(f, 1));
    }
    UnitParse(ops[0], src, i);
    var es := EvalAll(ops, map[]);
    RestParse(f, 1, src, j, es[0]);
    if c == And {
      AndLiterals(es[0]);
    } else {
      OrLiterals(es[0]);
    }
    assert Eval(f, map[]) == Reduce(c, es[0], es[1..]);
  }

  /** The loop of `parseExpression` folds the remaining operands into `acc`, from the left. */
  lemma {:induction false} RestParse(f: Formula, k: nat, src: Source, j: nat, acc: Formula)
    requires Progressive(src) && j <= src.length && Printable(f) && f.NAry? && 1 <= k <= |f.operands|
    requires Read(src, j, ToksRest(f, k)).Some?
    requires var e := Read(src, j, ToksRest(f, k)).value;
      src.next(e).Ok? && !IsBinary(src.next(e).value.token)
    ensures Evaluable(f, map[])
    ensures ParseOperators(src, acc, At(src, j), 0) ==
      Ok(Parsed(Reduce(f.connective, acc, EvalAll(f.operands, map[])[k..]), At(src, Read(src, j, ToksRest(f, k)).value)))
    decreases f, 0, |f.operands| - k
  {
    PrintableIsEvaluable(f);
    var c, ops := f.connective, f.operands;
    var es := EvalAll(ops, map[]);
    if k == |ops| {
      OperatorsDone(src, acc, At(src, j), 0);
    } else {
      OperandStep(f, k, src, j, acc);
      var j2 := Read(src, At(src, j).index, Toks(ops[k])).value;
      RestParse(f, k + 1, src, j2, Combine(c, acc, es[k]));
      assert es[k..][0] == es[k] && es[k..][1..] == es[k + 1..];
    }
  }

  /** One turn of that loop: the connective's token and one operand. */
  lemma OperandStep(f: Formula, k: nat, src: Source, j: nat, acc: Formula)
    requires Progressive(src) && j <= src.length && Printable(f) && f.NAry? && 1 <= k < |f.operands|
    requires Read(src, j, ToksRest(f, k)).Some?
    requires var e := Read(src, j, ToksRest(f, k)).value;
      src.next(e).Ok? && !IsBinary(src.next(e).value.token)
    ensures Evaluable(f, map[])
    ensures At(src, j).index <= src.length && Read(src, At(src, j).index, Toks(f.operands[k])).Some?
    ensures var j2 := Read(src, At(src, j).index, Toks(f.operands[k])).value;
      Read(src, j2, ToksRest(f, k + 1)) == Read(src, j, ToksRest(f, k)) &&
      ParseOperators(src, acc, At(src, j), 0) ==
        ParseOperators(src, Combine(f.connective, acc, EvalAll(f.operands, map[])[k]), At(src, j2), 0)
    decreases f, 0, |f.operands| - k, 0
  {
    PrintableIsEvaluable(f);
    var es := EvalAll(f.operands, map[]);
    OperandRead(f, k, src, j);
    var j1 := At(src, j).index;
    var j2 := Read(src, j1, Toks(f.operands[k])).value;
    UnitParse(f.operands[k], src, j1);
    StepAt(src, At(src, j));
    OperatorsDone(src, es[k], At(src, j2), Precedence(OperatorToken(f.connective)) + 1);
    OperatorsStep(src, acc, At(src, j), 0, At(src, j1), Parsed(es[k], At(src, j2)));
  }

  /** The tokens of that turn: the connective's token, the operand, and then the connective again or the end of the list. */
  lemma OperandRead(f: Formula, k: nat, src: Source, j: nat)
    requires Progressive(src) && j <= src.length && Printable(f) && f.NAry? && 1 <= k < |f.operands|
    requires Read(src, j, ToksRest(f, k)).Some?
    requires var e := Read(src, j, ToksRest(f, k)).value;
      src.next(e).Ok? && !IsBinary(src.next(e).value.token)
    ensures src.next(j).Ok? && At(src, j).current == OperatorToken(f.connective) && At(src, j).index <= src.length
    ensures Read(src, At(src, j).index, Toks(f.operands[k])).Some?
    ensures var j2 := Read(src, At(src, j).index, Toks(f.operands[k])).value;
      Read(src, j2, ToksRest(f, k + 1)) == Read(src, j, ToksRest(f, k)) &&
      src.next(j2).Ok? && (At(src, j2).current == OperatorToken(f.connective) || !IsBinary(At(src, j2).current))
  {
    var ops := f.operands;
    var rest := ToksRest(f, k + 1);
    assert ToksRest(f, k) == [OperatorToken(f.connective)] + (Toks(ops[k]) + rest);
    assert ToksRest(f, k)[1..] == Toks(ops[k]) + rest;
    ReadFirst(src, j, ToksRest(f, k));
    var j1 := At(src, j).index;
    ReadAppend(src, j1, Toks(ops[k]), rest);
    var j2 := Read(src, j1, Toks(ops[k])).value;
    if k + 1 < |ops| {
      ReadFirst(src, j2, rest);
    }
  }

  /** An operand followed by a token that binds no tighter than `minPrecedence` is parsed on its own. */
  lemma OperandAlone(x: Formula, src: Source, i: nat, minPrecedence: nat)
    requires Progressive(src) && i <= src.length && Printable(x)
    requires Read(src, i, Toks(x)).Some?
    requires var j := Read(src, i, Toks(x)).value;
      src.next(j).Ok? && !(IsBinary(src.next(j).value.token) && Precedence(src.next(j).value.token) >= minPrecedence)
    ensures Evaluable(x, map[])
    ensures ParseExpr(src, At(src, i), minPrecedence) ==
      Ok(Parsed(Eval(x, map[]), At(src, Read(src, i, Toks(x)).value)))
  {
    UnitParse(x, src, i);
    OperatorsDone(src, Eval(x, map[]), At(src, Read(src, i, Toks(x)).value), minPrecedence);
  }

  /** The formula the parser builds for `x o1 y o2 z`: `o2` is grouped first exactly when it binds tighter. */
  function Grouped(c1: Connective, c2: Connective, x: Formula, y: Formula, z: Formula): Formula {
    if c1 == Or && c2 == And then MkOr(x, MkAnd(y, z))
    else Combine(if c2 == And then And else Or, Combine(if c1 == And then And else Or, x, y), z)
  }

  /** The parser states of `x o1 y o2 z`, one operand or operator token at a time. */
  lemma ChainSteps(c1: Connective, c2: Connective, ex: Formula, ey: Formula, ez: Formula, src: Source,
                   s0: ParserState, s1: ParserState, s2: ParserState, s3: ParserState, s4: ParserState, s5: ParserState)
    requires c1 in {And, Or} && c2 in {And, Or}
    requires Progressive(src) && s0.index <= src.length && s1.index <= src.length && s3.index <= src.length
    requires s1.current == OperatorToken(c1) && s3.current == OperatorToken(c2)
    requires ParseUnary(src, s0) == Ok(Parsed(ex, s1)) && Step(src, s1) == Ok(s2)
    requires ParseUnary(src, s2) == Ok(Parsed(ey, s3)) && Step(src, s3) == Ok(s4)
    requires ParseExpr(src, s4, Precedence(s3.current) + 1) == Ok(Parsed(ez, s5)) && !IsBinary(s5.current)
    ensures ParseExpr(src, s0, 0) == Ok(Parsed(Grouped(c1, c2, ex, ey, ez), s5))
  {
    var o1, o2 := s1.current, s3.current;
    if c1 == Or && c2 == And {
      OperatorsStep(src, ey, s3, Precedence(o1) + 1, s4, Parsed(ez, s5));
      OperatorsDone(src, MkAnd(ey, ez), s5, Precedence(o1) + 1);
      OperatorsStep(src, ex, s1, 0, s2, Parsed(MkAnd(ey, ez), s5));
      OperatorsDone(src, MkOr(ex, MkAnd(ey, ez)), s5, 0);
    } else {
      var left := Combine(if c1 == And then And else Or, ex, ey);
      OperatorsDone(src, ey, s3, Precedence(o1) + 1);
      OperatorsStep(src, ex, s1, 0, s2, Parsed(ey, s3));
      OperatorsStep(src, left, s3, 0, s4, Parsed(ez, s5));
      OperatorsDone(src, Combine(if c2 == And then And else Or, left, ez), s5, 0);
    }
  }

  /**
   * Three operands joined by two connective tokens: conjunction binds
   * tighter than disjunction, and equal connectives group to the left.
   */
  lemma ChainParse(c1: Connective, c2: Connective, x: Formula, y: Formula, z: Formula, src: Source, i: nat)
    requires c1 in {And, Or} && c2 in {And, Or}
    requires Printable(x) && Printable(y) && Printable(z)
    requires Progressive(src) && i <= src.length
    requires var ts := Toks(x) + ([OperatorToken(c1)] + (Toks(y) + ([OperatorToken(c2)] + Toks(z))));
      Read(src, i, ts).Some? &&
      src.next(Read(src, i, ts).value).Ok? && !IsBinary(src.next(Read(src, i, ts).value).value.token)
    ensures Evaluable(x, map[]) && Evaluable(y, map[]) && Evaluable(z, map[])
    ensures var ts := Toks(x) + ([OperatorToken(c1)] + (Toks(y) + ([OperatorToken(c2)] + Toks(z))));
      ParseExpr(src, At(src, i), 0) ==
        Ok(Parsed(Grouped(c1, c2, Eval(x, map[]), Eval(y, map[]), Eval(z, map[])), At(src, Read(src, i, ts).value)))
  {
    PrintableIsEvaluable(x);
    PrintableIsEvaluable(y);
    PrintableIsEvaluable(z);
    var p1, q1, p2, q2 := ChainRead(c1, c2, x, y, z, src, i);
    UnitParse(x, src, i);
    StepAt(src, At(src, p1));
    StepAt(src, At(src, p2));
    UnitParse(y, src, q1);
    OperandAlone(z, src, q2, Precedence(OperatorToken(c2)) + 1);
    ChainSteps(c1, c2, Eval(x, map[]), Eval(y, map[]), Eval(z, map[]), src,
      At(src, i), At(src, p1), At(src, q1), At(src, p2), At(src, q2), At(src, Read(src, q2, Toks(z)).value));
  }

  /** Where the tokens of `x o1 y o2 z` are read: `x` ends at `p1`, `o1` at `q1`, `y` at `p2`, `o2` at `q2`. */
  lemma ChainRead(c1: Connective, c2: Connective, x: Formula, y: Formula, z: Formula, src: Source, i: nat)
    returns (p1: nat, q1: nat, p2: nat, q2: nat)
    requires Printable(x) && Printable(y) && Printable(z)
    requires Progressive(src) && i <= src.length
    requires Read(src, i, Toks(x) + ([OperatorToken(c1)] + (Toks(y) + ([OperatorToken(c2)] + Toks(z))))).Some?
    ensures p1 <= src.length && q1 <= src.length && p2 <= src.length && q2 <= src.length
    ensures Read(src, i, Toks(x)) == Some(p1)
    ensures src.next(p1).Ok? && At(src, p1).current == OperatorToken(c1) && At(src, p1).index == q1
    ensures Read(src, q1, Toks(y)) == Some(p2)
    ensures src.next(p2).Ok? && At(src, p2).current == OperatorToken(c2) && At(src, p2).index == q2
    ensures Read(src, q2, Toks(z)) ==
      Read(src, i, Toks(x) + ([OperatorToken(c1)] + (Toks(y) + ([OperatorToken(c2)] + Toks(z)))))
  {
    var tz := [OperatorToken(c2)] + Toks(z);
    var ty := Toks(y) + tz;
    var tx := [OperatorToken(c1)] + ty;
    ReadAppend(src, i, Toks(x), tx);
    p1 := Read(src, i, Toks(x)).value;
    ReadFirst(src, p1, tx);
    assert tx[1..] == ty;
    q1 := At(src, p1).index;
    ReadAppend(src, q1, Toks(y), tz);
    p2 := Read(src, q1, Toks(y)).value;
    ReadFirst(src, p2, tz);
    assert tz[1..] == Toks(z);
    q2 := At(src, p2).index;
  }

  /** An opening parenthesis whose expression is followed by no `)` (nor an operator) fails with `Expect(RParen)`. */
  lemma MissingParen(f: Formula, src: Source, i: nat)
    requires Progressive(src) && i <= src.length && Printable(f)
    requires Read(src, i, [LParen] + Toks(f)).Some?
    requires var e := Read(src, i, [LParen] + Toks(f)).value;
      src.next(e).Ok? && !IsBinary(src.next(e).value.token) && src.next(e).value.token != RParen
    ensures ParseUnary(src, At(src, i)) == Err(Expect(RParen))
  {
    var ts := [LParen] + Toks(f);
    ReadFirst(src, i, ts);
    assert ts[1..] == Toks(f);
    var m := At(src, i).index;
    ReadFirst(src, m, Toks(f));
    StepAt(src, At(src, i));
    OperandAlone(f, src, m, 0);
  }
}
