/**
 * Laws of the formula algebra: the literal and flattening behaviour of the
 * smart constructors, their agreement with the classical semantics, and the
 * meaning of evaluation under partial and total assignments.
 */
module FormulaLaws {
  import opened Wrappers
  import opened Formulas

  // ---------------------------------------------------------------------
  // Literal folding, structurally

  lemma AndLiterals(x: Formula)
    ensures MkAnd(Literal(true), x) == x && MkAnd(x, Literal(true)) == x
    ensures MkAnd(Literal(false), x) == Literal(false) && MkAnd(x, Literal(false)) == Literal(false)
  {
  }

  lemma OrLiterals(x: Formula)
    ensures MkOr(Literal(true), x) == Literal(true) && MkOr(x, Literal(true)) == Literal(true)
    ensures MkOr(Literal(false), x) == x && MkOr(x, Literal(false)) == x
  {
  }

  lemma ImpliesLiterals(x: Formula)
    ensures MkImplies(Literal(false), x) == Literal(true)
    ensures MkImplies(Literal(true), x) == x
    ensures MkImplies(x, Literal(true)) == Literal(true)
    ensures MkImplies(x, Literal(false)) == MkNot(x)
  {
  }

  lemma XnorLiterals(x: Formula, b: bool, c: bool)
    ensures MkXnor(Literal(b), Literal(c)) == Literal(b == c)
    ensures MkXnor(Literal(true), x) == x && MkXnor(x, Literal(true)) == x
    ensures MkXnor(Literal(false), x) == MkNot(x) && MkXnor(x, Literal(false)) == MkNot(x)
  {
  }

  /** `!` flips literals, and on the normal form it is an involution. */
  lemma NotLaws(x: Formula, b: bool)
    requires Simplified(x)
    ensures MkNot(Literal(b)) == Literal(!b)
    ensures MkNot(MkNot(x)) == x
  {
  }

  // ---------------------------------------------------------------------
  // Flattening happens on the left operand only

  lemma {:induction false} AndFlattensLeftOnly(x: Formula, y: Formula)
    requires !x.Literal? && !y.Literal?
    ensures x.NAry? && x.connective == And ==> MkAnd(x, y) == NAry(And, x.operands + [y])
    ensures !(x.NAry? && x.connective == And) ==> MkAnd(x, y) == NAry(And, [x, y])
  {
  }

  lemma {:induction false} OrFlattensLeftOnly(x: Formula, y: Formula)
    requires !x.Literal? && !y.Literal?
    ensures x.NAry? && x.connective == Or ==> MkOr(x, y) == NAry(Or, x.operands + [y])
    ensures !(x.NAry? && x.connective == Or) ==> MkOr(x, y) == NAry(Or, [x, y])
  {
  }

  /** `(a & b) & c` is one three-operand And, while `a & (b & c)` stays nested. */
  lemma RightAndStaysNested(a: Formula, b: Formula, c: Formula)
    requires !a.Literal? && !b.Literal? && !c.Literal?
    requires !(a.NAry? && a.connective == And) && !(b.NAry? && b.connective == And)
    ensures MkAnd(MkAnd(a, b), c) == NAry(And, [a, b, c])
    ensures MkAnd(a, MkAnd(b, c)) == NAry(And, [a, NAry(And, [b, c])])
    ensures MkAnd(MkAnd(a, b), c) != MkAnd(a, MkAnd(b, c))
  {
    assert [a, b] + [c] == [a, b, c];
    assert [a, b, c][1] != [a, NAry(And, [b, c])][1];
  }

  // ---------------------------------------------------------------------
  // Shape of the folds

  lemma {:induction false} ReduceExtends(c: Junction, xs: seq<Formula>, ys: seq<Formula>)
    requires forall i :: 0 <= i < |ys| ==> !ys[i].Literal?
    ensures Reduce(c, NAry(c, xs), ys) == NAry(c, xs + ys)
    decreases |ys|
  {
    if |ys| == 0 {
      assert xs + ys == xs;
    } else {
      assert Combine(c, NAry(c, xs), ys[0]) == NAry(c, xs + [ys[0]]);
      ReduceExtends(c, xs + [ys[0]], ys[1..]);
      assert xs + [ys[0]] + ys[1..] == xs + ys;
    }
  }

  /**
   * Folding at least two non-literal operands, the first not of the same
   * kind, from the neutral literal yields one n-ary node over exactly them.
   */
  lemma {:induction false} ReduceShape(c: Junction, fs: seq<Formula>)
    requires forall i :: 0 <= i < |fs| ==> !fs[i].Literal?
    ensures |fs| == 0 ==> Reduce(c, Literal(c == And), fs) == Literal(c == And)
    ensures |fs| == 1 ==> Reduce(c, Literal(c == And), fs) == fs[0]
    ensures |fs| >= 2 && !(fs[0].NAry? && fs[0].connective == c) ==>
      Reduce(c, Literal(c == And), fs) == NAry(c, fs)
  {
    if |fs| == 1 {
      assert Reduce(c, Literal(c == And), fs) == Reduce(c, fs[0], fs[1..]);
    } else if |fs| >= 2 && !(fs[0].NAry? && fs[0].connective == c) {
      ReduceFromNeutral(c, fs);
      ReduceFromFirst(c, fs);
    }
  }

  /** The neutral literal drops out of a fold over a non-literal first operand. */
  lemma ReduceFromNeutral(c: Junction, fs: seq<Formula>)
    requires |fs| >= 1 && !fs[0].Literal?
    ensures Reduce(c, Literal(c == And), fs) == Reduce(c, fs[0], fs[1..])
  {
    assert Combine(c, Literal(c == And), fs[0]) == fs[0];
  }

  /** Two non-literal operands, the first not of the junction's kind, make a two-operand node. */
  lemma CombinePair(c: Junction, x: Formula, y: Formula)
    requires !x.Literal? && !y.Literal? && !(x.NAry? && x.connective == c)
    ensures Combine(c, x, y) == NAry(c, [x, y])
  {
  }

  /** The first two operands, when the first is not of the fold's kind, start one n-ary node. */
  lemma ReduceFromFirst(c: Junction, fs: seq<Formula>)
    requires |fs| >= 2 && forall i :: 0 <= i < |fs| ==> !fs[i].Literal?
    requires !(fs[0].NAry? && fs[0].connective == c)
    ensures Reduce(c, fs[0], fs[1..]) == NAry(c, fs)
  {
    var rest := fs[1..];
    assert rest[0] == fs[1] && rest[1..] == fs[2..];
    CombinePair(c, fs[0], fs[1]);
    assert Reduce(c, fs[0], rest) == Reduce(c, NAry(c, [fs[0], fs[1]]), fs[2..]);
    ReduceExtends(c, [fs[0], fs[1]], fs[2..]);
    assert [fs[0], fs[1]] + fs[2..] == fs;
  }

  // ---------------------------------------------------------------------
  // The smart constructors agree with the classical connectives

  lemma MkNotHolds(x: Formula, v: Valuation)
    requires Classical(x)
    ensures Holds(MkNot(x), v) == !Holds(x, v)
  {
  }

  lemma MkAndHolds(x: Formula, y: Formula, v: Valuation)
    requires Classical(x) && Classical(y)
    ensures Holds(MkAnd(x, y), v) == (Holds(x, v) && Holds(y, v))
  {
    if !x.Literal? && !y.Literal? && x.NAry? && x.connective == And {
      var ops := x.operands;
      assert forall i :: 0 <= i < |ops| ==> (ops + [y])[i] == ops[i];
      assert (ops + [y])[|ops|] == y;
    } else if !x.Literal? && !y.Literal? {
      assert [x, y][0] == x && [x, y][1] == y;
    }
  }

  lemma MkOrHolds(x: Formula, y: Formula, v: Valuation)
    requires Classical(x) && Classical(y)
    ensures Holds(MkOr(x, y), v) == (Holds(x, v) || Holds(y, v))
  {
    if !x.Literal? && !y.Literal? && x.NAry? && x.connective == Or {
      var ops := x.operands;
      var all := ops + [y];
      assert forall i :: 0 <= i < |ops| ==> all[i] == ops[i];
      assert all[|ops|] == y;
      if Holds(MkOr(x, y), v) {
        var i :| 0 <= i < |all| && Holds(all[i], v);
        if i < |ops| { assert Holds(ops[i], v); } else { assert Holds(y, v); }
      }
      if Holds(x, v) {
        var i :| 0 <= i < |ops| && Holds(ops[i], v);
        assert Holds(all[i], v);
      }
      if Holds(y, v) {
        assert Holds(all[|ops|], v);
      }
    } else if !x.Literal? && !y.Literal? {
      var all := [x, y];
      assert all[0] == x && all[1] == y;
      if Holds(x, v) { assert Holds(all[0], v); }
      if Holds(y, v) { assert Holds(all[1], v); }
    }
  }

  lemma MkImpliesHolds(x: Formula, y: Formula, v: Valuation)
    requires Classical(x) && Classical(y)
    ensures Holds(MkImplies(x, y), v) == (Holds(x, v) ==> Holds(y, v))
  {
    if !x.Literal? && y.Literal? && !y.value {
      MkNotHolds(x, v);
    }
  }

  lemma MkXnorHolds(x: Formula, y: Formula, v: Valuation)
    requires Classical(x) && Classical(y)
    ensures Holds(MkXnor(x, y), v) == (Holds(x, v) == Holds(y, v))
  {
    if x.Literal? && !y.Literal? && !x.value {
      MkNotHolds(y, v);
    } else if !x.Literal? && y.Literal? && !y.value {
      MkNotHolds(x, v);
    }
  }

  /** A conjunctive fold holds iff the seed and every operand hold; a disjunctive one iff one of them does. */
  lemma {:induction false} ReduceHolds(c: Junction, acc: Formula, fs: seq<Formula>, v: Valuation)
    requires Classical(acc) && AllClassical(fs)
    ensures c == And ==> (Holds(Reduce(c, acc, fs), v) <==>
      Holds(acc, v) && forall i :: 0 <= i < |fs| ==> Holds(fs[i], v))
    ensures c == Or ==> (Holds(Reduce(c, acc, fs), v) <==>
      Holds(acc, v) || exists i :: 0 <= i < |fs| && Holds(fs[i], v))
    decreases |fs|
  {
    if |fs| > 0 {
      var next := Combine(c, acc, fs[0]);
      if c == And { MkAndHolds(acc, fs[0], v); } else { MkOrHolds(acc, fs[0], v); }
      var rest := fs[1..];
      assert AllClassical(rest) by {
        forall j | 0 <= j < |rest| ensures Classical(rest[j]) { assert rest[j] == fs[j + 1]; }
      }
      ReduceHolds(c, next, rest, v);
      if c == And {
        if Holds(acc, v) && forall i :: 0 <= i < |fs| ==> Holds(fs[i], v) {
          forall j | 0 <= j < |rest| ensures Holds(rest[j], v) { assert rest[j] == fs[j + 1]; }
        }
        if Holds(next, v) && forall j :: 0 <= j < |rest| ==> Holds(rest[j], v) {
          forall i | 0 <= i < |fs| ensures Holds(fs[i], v) {
            if i > 0 { assert fs[i] == rest[i - 1]; }
          }
        }
      } else {
        if exists i :: 0 <= i < |fs| && Holds(fs[i], v) {
          var i :| 0 <= i < |fs| && Holds(fs[i], v);
          if i > 0 { assert Holds(rest[i - 1], v); }
        }
        if exists j :: 0 <= j < |rest| && Holds(rest[j], v) {
          var j :| 0 <= j < |rest| && Holds(rest[j], v);
          assert Holds(fs[j + 1], v);
        }
      }
    }
  }

  lemma ConjoinAllHolds(fs: seq<Formula>, v: Valuation)
    requires AllClassical(fs)
    ensures Holds(ConjoinAll(fs), v) <==> forall i :: 0 <= i < |fs| ==> Holds(fs[i], v)
  {
    ReduceHolds(And, Literal(true), fs, v);
  }

  lemma DisjoinAllHolds(fs: seq<Formula>, v: Valuation)
    requires AllClassical(fs)
    ensures Holds(DisjoinAll(fs), v) <==> exists i :: 0 <= i < |fs| && Holds(fs[i], v)
  {
    ReduceHolds(Or, Literal(false), fs, v);
  }

  // ---------------------------------------------------------------------
  // Evaluation

  lemma {:induction false} ClassicalIsEvaluable(f: Formula, a: Assignment)
    requires Classical(f)
    ensures Evaluable(f, a)
  {
    match f
    case Not(g) => ClassicalIsEvaluable(g, a);
    case NAry(_, ops) =>
      forall i | 0 <= i < |ops| ensures Evaluable(ops[i], a) { ClassicalIsEvaluable(ops[i], a); }
    case _ =>
  }

  /**
   * Partial evaluation is sound: the evaluated formula means, under any
   * valuation, what the original means once the assignment overrides it.
   */
  lemma {:induction false} EvalMeaning(f: Formula, a: Assignment, v: Valuation)
    requires Classical(f)
    ensures Evaluable(f, a)
    ensures Classical(Eval(f, a))
    ensures Holds(Eval(f, a), v) == Holds(f, Override(a, v))
  {
    ClassicalIsEvaluable(f, a);
    match f
    case Literal(_) =>
    case Proposition(_) =>
    case Not(g) =>
      EvalMeaning(g, a, v);
      MkNotHolds(Eval(g, a), v);
    case NAry(c, ops) =>
      var es := EvalAll(ops, a);
      forall i | 0 <= i < |ops|
        ensures Classical(es[i]) && Holds(es[i], v) == Holds(ops[i], Override(a, v))
      {
        EvalMeaning(ops[i], a, v);
      }
      NAryMeaning(c, ops, a, v);
  }

  /** The n-ary case of partial evaluation, given its operands' case. */
  lemma NAryMeaning(c: Connective, ops: seq<Formula>, a: Assignment, v: Valuation)
    requires Classical(NAry(c, ops)) && Evaluable(NAry(c, ops), a)
    requires forall i :: 0 <= i < |ops| ==>
      Classical(EvalAll(ops, a)[i]) && Holds(EvalAll(ops, a)[i], v) == Holds(ops[i], Override(a, v))
    ensures Classical(Eval(NAry(c, ops), a))
    ensures Holds(Eval(NAry(c, ops), a), v) == Holds(NAry(c, ops), Override(a, v))
  {
    var es := EvalAll(ops, a);
    match c
    case And => ConjunctionMeaning(ops, a, v);
    case Or => DisjunctionMeaning(ops, a, v);
    case Implication => MkImpliesHolds(es[0], es[1], v);
    case Xnor => MkXnorHolds(es[0], es[1], v);
  }

  /** Partial evaluation of a conjunction, given its operands'. */
  lemma ConjunctionMeaning(ops: seq<Formula>, a: Assignment, v: Valuation)
    requires Classical(NAry(And, ops)) && Evaluable(NAry(And, ops), a)
    requires forall i :: 0 <= i < |ops| ==>
      Classical(EvalAll(ops, a)[i]) && Holds(EvalAll(ops, a)[i], v) == Holds(ops[i], Override(a, v))
    ensures Classical(Eval(NAry(And, ops), a))
    ensures Holds(Eval(NAry(And, ops), a), v) == Holds(NAry(And, ops), Override(a, v))
  {
    var es := EvalAll(ops, a);
    assert AllClassical(es);
    ReduceHolds(And, Literal(true), es, v);
  }

  /** Partial evaluation of a disjunction, given its operands'. */
  lemma DisjunctionMeaning(ops: seq<Formula>, a: Assignment, v: Valuation)
    requires Classical(NAry(Or, ops)) && Evaluable(NAry(Or, ops), a)
    requires forall i :: 0 <= i < |ops| ==>
      Classical(EvalAll(ops, a)[i]) && Holds(EvalAll(ops, a)[i], v) == Holds(ops[i], Override(a, v))
    ensures Classical(Eval(NAry(Or, ops), a))
    ensures Holds(Eval(NAry(Or, ops), a), v) == Holds(NAry(Or, ops), Override(a, v))
  {
    var es := EvalAll(ops, a);
    assert AllClassical(es);
    ReduceHolds(Or, Literal(false), es, v);
    if Holds(NAry(Or, ops), Override(a, v)) {
      var i :| 0 <= i < |ops| && Holds(ops[i], Override(a, v));
      assert Holds(es[i], v);
    }
  }

  /** Holds reads the valuation only at the formula's propositions. */
  lemma {:induction false} Coincidence(f: Formula, v: Valuation, w: Valuation)
    requires Classical(f)
    requires forall p :: p in Props(f) ==> v(p) == w(p)
    ensures Holds(f, v) == Holds(f, w)
  {
    match f
    case Literal(_) =>
    case Proposition(_) =>
    case Not(g) => Coincidence(g, v, w);
    case NAry(c, ops) =>
      forall i | 0 <= i < |ops| ensures Holds(ops[i], v) == Holds(ops[i], w) {
        PropsInElement(ops, i);
        Coincidence(ops[i], v, w);
      }
      if c == Or && Holds(f, v) {
        var i :| 0 <= i < |ops| && Holds(ops[i], v);
        assert Holds(ops[i], w);
      }
      if c == Or && Holds(f, w) {
        var i :| 0 <= i < |ops| && Holds(ops[i], w);
        assert Holds(ops[i], v);
      }
  }

  /** A reduced classical formula without propositions is a literal. */
  lemma {:induction false} ClosedIsLiteral(f: Formula)
    requires Classical(f) && Simplified(f) && Props(f) == {}
    ensures f.Literal?
  {
    match f
    case Literal(_) =>
    case Proposition(_) =>
      assert false;
    case Not(g) =>
      ClosedIsLiteral(g);
    case NAry(_, ops) =>
      PropsInElement(ops, 0);
      ClosedIsLiteral(ops[0]);
  }

  /**
   * Under an assignment covering all of a classical formula's propositions,
   * eval yields the literal of its classical truth value.
   */
  lemma EvalTotal(f: Formula, a: Assignment)
    requires Classical(f) && Props(f) <= a.Keys
    ensures Evaluable(f, a)
    ensures Eval(f, a) == Literal(Holds(f, Lookup(a)))
  {
    EvalMeaning(f, a, Lookup(a));
    var g := Eval(f, a);
    ClosedIsLiteral(g);
    Coincidence(f, Override(a, Lookup(a)), Lookup(a));
  }

  lemma {:induction false} SimplifiedIsEvaluable(f: Formula)
    requires Simplified(f)
    ensures Evaluable(f, map[])
  {
    match f
    case Not(g) => SimplifiedIsEvaluable(g);
    case NAry(_, ops) =>
      forall i | 0 <= i < |ops| ensures Evaluable(ops[i], map[]) { SimplifiedIsEvaluable(ops[i]); }
    case Quantifier(_, _, scope, _) => SimplifiedIsEvaluable(scope);
    case _ =>
  }

  /** Re-simplifying a reduced formula (evaluating it under no assignment) changes nothing. */
  lemma {:induction false} SimplifiedIsFixpoint(f: Formula)
    requires Simplified(f)
    ensures Evaluable(f, map[])
    ensures Eval(f, map[]) == f
  {
    SimplifiedIsEvaluable(f);
    match f
    case Literal(_) =>
    case Proposition(_) =>
    case Not(g) => SimplifiedIsFixpoint(g);
    case NAry(c, ops) =>
      forall i | 0 <= i < |ops| ensures Eval(ops[i], map[]) == ops[i] { SimplifiedIsFixpoint(ops[i]); }
      var es := EvalAll(ops, map[]);
      assert es == ops;
      if c == And {
        ReduceShape(And, ops);
      } else if c == Or {
        ReduceShape(Or, ops);
      } else {
        assert ops == [ops[0], ops[1]];
      }
    case Quantifier(q, vars, scope, arity) =>
      SimplifiedIsFixpoint(scope);
      UnassignedEmpty(vars);
    case Comparator(_, _, _) =>
    case Application(_, _) =>
  }

  lemma {:induction false} UnassignedEmpty(vars: seq<string>)
    ensures Unassigned(vars, map[]) == vars
  {
    if |vars| > 0 {
      UnassignedEmpty(vars[1..]);
      assert [vars[0]] + vars[1..] == vars;
    }
  }

  /** Simplification is idempotent. */
  lemma SimplifyIdempotent(f: Formula, a: Assignment)
    requires Evaluable(f, a)
    ensures Evaluable(Eval(f, a), map[])
    ensures Eval(Eval(f, a), map[]) == Eval(f, a)
  {
    SimplifiedIsFixpoint(Eval(f, a));
  }

  /**
   * Evaluating a quantifier evaluates its scope, keeps exactly the unassigned
   * variables, keeps kind and arity, and collapses to the scope when none remain.
   */
  lemma EvalQuantifier(q: QuantifierKind, vars: seq<string>, scope: Formula, arity: Option<nat>, a: Assignment)
    requires Evaluable(scope, a)
    ensures (forall x :: x in vars ==> x in a) ==>
      Eval(Quantifier(q, vars, scope, arity), a) == Eval(scope, a)
    ensures (exists x :: x in vars && x !in a) ==>
      var r := Eval(Quantifier(q, vars, scope, arity), a);
      r.Quantifier? && r.quantifier == q && r.arity == arity && r.scope == Eval(scope, a) &&
      forall x :: x in r.variables <==> x in vars && x !in a
  {
    var remaining := Unassigned(vars, a);
    if |remaining| > 0 {
      assert remaining[0] in remaining;
    }
  }

  /** A proposition evaluates to its literal when assigned and to itself otherwise. */
  lemma EvalProposition(p: string, a: Assignment)
    ensures p in a ==> Eval(Proposition(p), a) == Literal(a[p])
    ensures p !in a ==> Eval(Proposition(p), a) == Proposition(p)
  {
  }
}
