/**
 * The boundedness assertion `getEncoding` makes about the quantified
 * formula: every proposition and every Skolem application in the body is
 * bound by one of the four quantifier layers, provided the automaton's
 * initial states and transition targets are among its states and its
 * guards and safety conditions speak only of inputs and outputs.
 */
module EncodingScope {
  import opened Wrappers
  import opened Formulas
  import opened BitVectors
  import opened Visitors
  import opened Naming
  import opened StateSymbolic
  import opened EncodingLaws

  // ---------------------------------------------------------------------
  // Closed formulas

  predicate QuantifierFree(f: Formula) {
    match f
    case Not(g) => QuantifierFree(g)
    case NAry(_, ops) => forall i :: 0 <= i < |ops| ==> QuantifierFree(ops[i])
    case Quantifier(_, _, _, _) => false
    case _ => true
  }

  /** No quantifier, and every proposition and application over names in `bound`. */
  predicate Closed(bound: set<string>, f: Formula) {
    InScope(bound, f) && QuantifierFree(f)
  }

  lemma {:induction false} QuantifierFreeNoRebinding(bound: set<string>, f: Formula)
    requires QuantifierFree(f)
    ensures NoRebinding(bound, f)
  {
    match f
    case Not(g) => QuantifierFreeNoRebinding(bound, g);
    case NAry(_, ops) =>
      forall i | 0 <= i < |ops| ensures NoRebinding(bound, ops[i]) {
        QuantifierFreeNoRebinding(bound, ops[i]);
      }
    case _ =>
  }

  /** The boundedness check passes on a closed formula and leaves its set unchanged. */
  lemma ClosedWalk(bound: set<string>, f: Formula)
    requires Closed(bound, f)
    ensures Walk(bound, f) == Some(bound)
  {
    QuantifierFreeNoRebinding(bound, f);
    VisitExact(bound, f);
  }

  lemma MkAndClosed(bound: set<string>, x: Formula, y: Formula)
    requires Closed(bound, x) && Closed(bound, y)
    ensures Closed(bound, MkAnd(x, y))
  {
    if !x.Literal? && !y.Literal? && x.NAry? && x.connective == And {
      var ops := x.operands + [y];
      forall i | 0 <= i < |ops| ensures Closed(bound, ops[i]) {
        if i < |x.operands| {
          assert ops[i] == x.operands[i];
        }
      }
    }
  }

  lemma MkNotClosed(bound: set<string>, x: Formula)
    requires Closed(bound, x)
    ensures Closed(bound, MkNot(x))
  {
  }

  lemma ImplicationClosed(bound: set<string>, x: Formula, y: Formula)
    requires Closed(bound, x) && Closed(bound, y)
    ensures Closed(bound, NAry(Implication, [x, y]))
  {
  }

  lemma MkImpliesClosed(bound: set<string>, x: Formula, y: Formula)
    requires Closed(bound, x) && Closed(bound, y)
    ensures Closed(bound, MkImplies(x, y))
  {
  }

  lemma MkXnorClosed(bound: set<string>, x: Formula, y: Formula)
    requires Closed(bound, x) && Closed(bound, y)
    ensures Closed(bound, MkXnor(x, y))
  {
  }

  lemma {:induction false} ReduceClosed(bound: set<string>, acc: Formula, fs: seq<Formula>)
    requires Closed(bound, acc) && forall i :: 0 <= i < |fs| ==> Closed(bound, fs[i])
    ensures Closed(bound, Reduce(And, acc, fs))
    decreases |fs|
  {
    if |fs| > 0 {
      MkAndClosed(bound, acc, fs[0]);
      ReduceClosed(bound, MkAnd(acc, fs[0]), fs[1..]);
    }
  }

  lemma ConjoinAllClosed(bound: set<string>, fs: seq<Formula>)
    requires forall i :: 0 <= i < |fs| ==> Closed(bound, fs[i])
    ensures Closed(bound, ConjoinAll(fs))
  {
    ReduceClosed(bound, Literal(true), fs);
  }

  // ---------------------------------------------------------------------
  // The names the pieces of the body use

  /** `bound` holds the annotations of the states, the state, next-state and tau bits, the inputs and the outputs. */
  predicate Covers(e: Encoder, n: nat, bound: set<string>) {
    (forall q :: q in e.automaton.states ==> LambdaName(q) in bound) &&
    (forall i :: 0 <= i < n ==> Indexed("s", i) in bound) &&
    (forall i :: 0 <= i < n ==> Indexed("sp", i) in bound) &&
    (forall i :: 0 <= i < n ==> Indexed("t_", i) in bound) &&
    Vars(e.inputs) <= bound && Vars(e.outputs) <= bound
  }

  /** Every name of a list lies in `bound`. */
  predicate Within(names: seq<string>, bound: set<string>) {
    forall j :: 0 <= j < |names| ==> names[j] in bound
  }

  lemma StateBitsWithin(e: Encoder, n: nat, bound: set<string>)
    requires Covers(e, n, bound)
    ensures Within(StateBits(n), bound) && Within(NextStateBits(n), bound)
    ensures Within(StateBits(n) + e.inputs, bound)
  {
    var xs := StateBits(n) + e.inputs;
    forall j | 0 <= j < |xs| ensures xs[j] in bound {
      if j >= n {
        assert xs[j] == e.inputs[j - n];
      }
    }
  }

  /** The encoding of a value on `n` bits only uses the bits `base_0 … base_(n-1)` and the parameters. */
  lemma ExplicitClosed(bound: set<string>, coding: BitCoding, base: string, value: nat, n: nat,
                       parameters: Option<seq<string>>)
    requires Lawful(coding)
    requires forall i :: 0 <= i < n ==> Indexed(base, i) in bound
    requires parameters.Some? ==> Within(parameters.value, bound)
    ensures Closed(bound, Explicit(coding, base, value, n, parameters))
  {
    var code := coding.binaryFrom(value, n);
    var fs := BitLiterals(base, code, parameters);
    assert |code| == n;
    forall i | 0 <= i < |fs| ensures Closed(bound, fs[i]) {
      BitLiteralIsLiteral(base, i, code[i], parameters);
    }
  }

  lemma LambdaClosed(e: Encoder, n: nat, bound: set<string>, q: State, states: seq<string>)
    requires Covers(e, n, bound) && q in e.automaton.states && Within(states, bound)
    ensures Closed(bound, Lambda(q, states))
  {
  }

  lemma TauAssertionClosed(e: Encoder, n: nat, bound: set<string>)
    requires Covers(e, n, bound)
    ensures Closed(bound, TauAssertion(NextStateBits(n), TauApplications(n, e.inputs)))
  {
    var sp, taus := NextStateBits(n), TauApplications(n, e.inputs);
    var pairs := XnorPairs(sp, taus);
    StateBitsWithin(e, n, bound);
    forall i | 0 <= i < n ensures Closed(bound, pairs[i]) {
      assert Closed(bound, taus[i]);
      MkXnorClosed(bound, Proposition(sp[i]), taus[i]);
    }
    ConjoinAllClosed(bound, pairs);
  }

  /** The condition of a transition is closed once its tau assertion and its annotation are. */
  lemma RequireTransitionClosed(bound: set<string>, a: Automaton, q: State, qPrime: State, states: seq<string>,
                                nextStates: seq<string>, taus: seq<Formula>)
    requires |nextStates| == |taus|
    requires Closed(bound, TauAssertion(nextStates, taus)) && Closed(bound, Lambda(qPrime, nextStates))
    ensures Closed(bound, RequireTransition(a, q, qPrime, states, nextStates, taus))
  {
    if Ranked(a, q, qPrime) {
      var k := RankComparison(a, qPrime);
      MkAndClosed(bound, Lambda(qPrime, nextStates), Comparator(k, LambdaSharp(qPrime, nextStates), LambdaSharp(q, states)));
    }
  }

  lemma TransitionConditionClosed(e: Encoder, n: nat, bound: set<string>, q: State, qPrime: State)
    requires Covers(e, n, bound) && qPrime in e.automaton.states
    ensures Closed(bound, TransitionCondition(e, n, q, qPrime))
  {
    var sp := NextStateBits(n);
    StateBitsWithin(e, n, bound);
    TauAssertionClosed(e, n, bound);
    LambdaClosed(e, n, bound, qPrime, sp);
    RequireTransitionClosed(bound, e.automaton, q, qPrime, StateBits(n), sp, TauApplications(n, e.inputs));
  }

  /** A classical condition over inputs and outputs is closed once its outputs are replaced by their applications. */
  lemma {:induction false} ReplaceClosed(e: Encoder, n: nat, bound: set<string>, f: Formula)
    requires Covers(e, n, bound)
    requires Classical(f) && Props(f) <= Vars(e.inputs) + Vars(e.outputs)
    ensures Closed(bound, Replace(f, OutputRule(e, n)))
  {
    var rule := OutputRule(e, n);
    match f
    case Literal(_) =>
    case Proposition(p) =>
      if p in e.outputs {
        StateBitsWithin(e, n, bound);
        assert Within(Dependencies(e, n), bound);
      }
    case Not(g) => ReplaceClosed(e, n, bound, g);
    case NAry(c, ops) =>
      var rs := ReplaceAll(ops, rule);
      forall i | 0 <= i < |ops| ensures Closed(bound, rs[i]) {
        PropsInElement(ops, i);
        ReplaceClosed(e, n, bound, ops[i]);
      }
  }

  // ---------------------------------------------------------------------
  // The clauses of the matrix

  /** A guard or safety condition: propositional, over inputs and outputs only. */
  predicate Condition(e: Encoder, f: Formula) {
    Classical(f) && Props(f) <= Vars(e.inputs) + Vars(e.outputs)
  }

  /** A transition leads to a state and is guarded by a condition. */
  predicate Leads(e: Encoder, t: Transition) {
    t.target in e.automaton.states && Condition(e, t.guard)
  }

  /** The automaton closes the encoding: initial states and targets are states, conditions speak of inputs and outputs. */
  predicate Admissible(e: Encoder) {
    var a := e.automaton;
    (forall q :: q in a.initialStates ==> q in a.states) &&
    (forall q :: q in a.transitions ==> forall t :: t in a.transitions[q] ==> Leads(e, t)) &&
    (forall q :: q in a.safetyConditions ==> Condition(e, a.safetyConditions[q]))
  }

  lemma GuardedTransitionClosed(e: Encoder, n: nat, bound: set<string>, q: State, t: Transition)
    requires Covers(e, n, bound) && Leads(e, t)
    ensures Closed(bound, GuardedTransition(e, n, q, t))
  {
    var condition := TransitionCondition(e, n, q, t.target);
    TransitionConditionClosed(e, n, bound, q, t.target);
    if t.guard != Literal(true) {
      var guard := Replace(t.guard, OutputRule(e, n));
      ReplaceClosed(e, n, bound, t.guard);
      ImplicationClosed(bound, guard, condition);
    }
  }

  lemma GuardedTransitionsClosed(e: Encoder, n: nat, bound: set<string>, q: State, ts: seq<Transition>)
    requires Covers(e, n, bound) && forall t :: t in ts ==> Leads(e, t)
    ensures forall c :: c in GuardedTransitions(e, n, q, ts) ==> Closed(bound, c)
  {
    var gs := GuardedTransitions(e, n, q, ts);
    forall c | c in gs ensures Closed(bound, c) {
      var k :| 0 <= k < |gs| && gs[k] == c;
      assert ts[k] in ts;
      GuardedTransitionClosed(e, n, bound, q, ts[k]);
    }
  }

  lemma ConjunctsClosed(e: Encoder, n: nat, bound: set<string>, q: State, ts: seq<Transition>)
    requires Covers(e, n, bound) && forall t :: t in ts ==> Leads(e, t)
    requires q in e.automaton.safetyConditions ==> Condition(e, e.automaton.safetyConditions[q])
    ensures Closed(bound, ConjoinAll(SafetyPart(e, n, q) + GuardedTransitions(e, n, q, ts)))
  {
    var safety := SafetyPart(e, n, q);
    var conjuncts := safety + GuardedTransitions(e, n, q, ts);
    GuardedTransitionsClosed(e, n, bound, q, ts);
    if q in e.automaton.safetyConditions {
      ReplaceClosed(e, n, bound, e.automaton.safetyConditions[q]);
    }
    forall k | 0 <= k < |conjuncts| ensures Closed(bound, conjuncts[k]) {
      assert conjuncts[k] in safety || conjuncts[k] in GuardedTransitions(e, n, q, ts);
    }
    ConjoinAllClosed(bound, conjuncts);
  }

  lemma StateClauseClosed(e: Encoder, n: nat, bound: set<string>, q: State)
    requires Covers(e, n, bound) && Admissible(e) && q in e.automaton.states && q in e.automaton.transitions
    ensures Closed(bound, StateClause(e, n, q).value)
  {
    var ts := e.automaton.transitions[q];
    var conjunction := ConjoinAll(SafetyPart(e, n, q) + GuardedTransitions(e, n, q, ts));
    ConjunctsClosed(e, n, bound, q, ts);
    StateBitsWithin(e, n, bound);
    LambdaClosed(e, n, bound, q, StateBits(n));
    ImplicationClosed(bound, Lambda(q, StateBits(n)), conjunction);
  }

  lemma StateClausesClosed(e: Encoder, n: nat, bound: set<string>)
    requires Covers(e, n, bound) && Admissible(e)
    ensures forall c :: c in StateClauses(e, n, e.automaton.states) ==> Closed(bound, c)
  {
    var qs := e.automaton.states;
    StateClausesExactly(e, n, qs);
    forall c | c in StateClauses(e, n, qs) ensures Closed(bound, c) {
      var k :| 0 <= k < |qs| && qs[k] in e.automaton.transitions && c == StateClause(e, n, qs[k]).value;
      StateClauseClosed(e, n, bound, qs[k]);
    }
  }

  lemma InitialClausesClosed(e: Encoder, bound: nat, names: set<string>)
    requires Lawful(e.coding) && Covers(e, NumBits(e, bound), names) && Admissible(e)
    ensures var n := NumBits(e, bound);
      forall c :: c in InitialClauses(Premise(e, bound), e.automaton.initialStates, StateBits(n)) ==> Closed(names, c)
  {
    var n := NumBits(e, bound);
    var qs := e.automaton.initialStates;
    var cs := InitialClauses(Premise(e, bound), qs, StateBits(n));
    InitialClausesExactly(Premise(e, bound), qs, StateBits(n));
    ExplicitClosed(names, e.coding, "s", 0, n, None);
    StateBitsWithin(e, n, names);
    forall c | c in cs ensures Closed(names, c) {
      var k :| 0 <= k < |cs| && cs[k] == c;
      assert c == MkImplies(Premise(e, bound), Lambda(qs[k], StateBits(n)));
      assert qs[k] in qs;
      LambdaClosed(e, n, names, qs[k], StateBits(n));
      MkImpliesClosed(names, Premise(e, bound), Lambda(qs[k], StateBits(n)));
    }
  }

  lemma UnusedClausesClosed(e: Encoder, n: nat, names: set<string>, lo: nat, hi: nat)
    requires Lawful(e.coding) && Covers(e, n, names) && lo <= hi
    ensures forall c :: c in UnusedClauses(e.coding, n, StateBits(n) + e.inputs, lo, hi) ==> Closed(names, c)
  {
    var cs := UnusedClauses(e.coding, n, StateBits(n) + e.inputs, lo, hi);
    StateBitsWithin(e, n, names);
    forall k | 0 <= k < |cs| ensures Closed(names, cs[k]) {
      var x := Explicit(e.coding, "t_", lo + k, n, Some(StateBits(n) + e.inputs));
      assert cs[k] == MkNot(x);
      ExplicitClosed(names, e.coding, "t_", lo + k, n, Some(StateBits(n) + e.inputs));
      MkNotClosed(names, x);
    }
  }

  lemma PreconditionsClosed(e: Encoder, bound: nat, names: set<string>)
    requires Fits(e, bound) && Lawful(e.coding) && Covers(e, NumBits(e, bound), names)
    ensures Closed(names, ConjoinAll(Preconditions(e, bound)))
  {
    var n := NumBits(e, bound);
    var ps := Preconditions(e, bound);
    forall k | 0 <= k < |ps| ensures Closed(names, ps[k]) {
      var base := if k % 2 == 0 then "s" else "sp";
      ExplicitClosed(names, e.coding, base, bound + k / 2, n, None);
    }
    ConjoinAllClosed(names, ps);
  }

  lemma MatrixClosed(e: Encoder, bound: nat, names: set<string>)
    requires Fits(e, bound) && Lawful(e.coding) && Admissible(e) && Covers(e, NumBits(e, bound), names)
    ensures Closed(names, ConjoinAll(Matrix(e, bound)))
  {
    var n := NumBits(e, bound);
    var us := UnusedClauses(e.coding, n, StateBits(n) + e.inputs, bound, Pow2(n));
    var inits := InitialClauses(Premise(e, bound), e.automaton.initialStates, StateBits(n));
    var ss := StateClauses(e, n, e.automaton.states);
    var m := Matrix(e, bound);
    assert m == us + inits + ss;
    UnusedClausesClosed(e, n, names, bound, Pow2(n));
    InitialClausesClosed(e, bound, names);
    StateClausesClosed(e, n, names);
    forall k | 0 <= k < |m| ensures Closed(names, m[k]) {
      assert m[k] in us || m[k] in inits || m[k] in ss;
    }
    ConjoinAllClosed(names, m);
  }

  // ---------------------------------------------------------------------
  // The quantifier layers

  /** What the boundedness check has bound inside the annotation layer. */
  function AnnotationScope(e: Encoder): set<string> {
    {} + Vars(LambdaNames(e.automaton.states) + LambdaSharpNames(e.automaton.states))
  }

  /** … inside the transition function layer. */
  function TauScope(e: Encoder, bound: nat): set<string> {
    AnnotationScope(e) + Vars(TauNames(NumBits(e, bound)))
  }

  /** … inside the output function layer. */
  function OutputScope(e: Encoder, bound: nat): set<string> {
    TauScope(e, bound) + Vars(e.outputs)
  }

  /** … when it reaches the body: the four layers' variables. */
  function LayerNames(e: Encoder, bound: nat): set<string> {
    var n := NumBits(e, bound);
    OutputScope(e, bound) + Vars(StateBits(n) + NextStateBits(n) + e.inputs)
  }

  lemma LayersCover(e: Encoder, bound: nat)
    ensures Covers(e, NumBits(e, bound), LayerNames(e, bound))
  {
    var n := NumBits(e, bound);
    var qs := e.automaton.states;
    var annotations := LambdaNames(qs) + LambdaSharpNames(qs);
    var universal := StateBits(n) + NextStateBits(n) + e.inputs;
    forall q | q in qs ensures LambdaName(q) in Vars(annotations) {
      var k :| 0 <= k < |qs| && qs[k] == q;
      assert annotations[k] == LambdaName(q);
    }
    forall i | 0 <= i < n
      ensures Indexed("s", i) in Vars(universal) && Indexed("sp", i) in Vars(universal)
      ensures Indexed("t_", i) in Vars(TauNames(n))
    {
      assert universal[i] == Indexed("s", i);
      assert universal[n + i] == Indexed("sp", i);
      assert TauNames(n)[i] == Indexed("t_", i);
    }
    forall x | x in Vars(e.inputs) ensures x in Vars(universal) {
      var j :| 0 <= j < |e.inputs| && e.inputs[j] == x;
      assert universal[2 * n + j] == x;
    }
  }

  /** The body is closed under the names the four layers bind. */
  lemma BodyClosed(e: Encoder, bound: nat)
    requires Fits(e, bound) && Lawful(e.coding) && Admissible(e)
    ensures Closed(LayerNames(e, bound), Body(e, bound))
  {
    var names := LayerNames(e, bound);
    LayersCover(e, bound);
    PreconditionsClosed(e, bound, names);
    MatrixClosed(e, bound, names);
    MkImpliesClosed(names, ConjoinAll(Preconditions(e, bound)), ConjoinAll(Matrix(e, bound)));
  }

  /** A quantifier passes when its scope passes with its variables added. */
  lemma LayerPasses(bound: set<string>, kind: QuantifierKind, vars: seq<string>, scope: Formula, arity: Option<nat>)
    requires Walk(bound + Vars(vars), scope).Some?
    ensures Walk(bound, Quantifier(kind, vars, scope, arity)).Some?
  {
  }

  lemma UniversalPasses(e: Encoder, bound: nat)
    requires Fits(e, bound) && Lawful(e.coding) && Admissible(e)
    ensures Walk(OutputScope(e, bound), Universal(e, bound)).Some?
  {
    var n := NumBits(e, bound);
    BodyClosed(e, bound);
    ClosedWalk(LayerNames(e, bound), Body(e, bound));
    LayerPasses(OutputScope(e, bound), Forall, StateBits(n) + NextStateBits(n) + e.inputs, Body(e, bound), None);
  }

  lemma OutputFunctionsPass(e: Encoder, bound: nat)
    requires Fits(e, bound) && Lawful(e.coding) && Admissible(e)
    ensures Walk(TauScope(e, bound), OutputFunctions(e, bound)).Some?
  {
    UniversalPasses(e, bound);
    LayerPasses(TauScope(e, bound), Exists, e.outputs, Universal(e, bound),
                Some(OutputArity(e, NumBits(e, bound))));
  }

  lemma TransitionFunctionsPass(e: Encoder, bound: nat)
    requires Fits(e, bound) && Lawful(e.coding) && Admissible(e)
    ensures Walk(AnnotationScope(e), TransitionFunctions(e, bound)).Some?
  {
    var n := NumBits(e, bound);
    OutputFunctionsPass(e, bound);
    LayerPasses(AnnotationScope(e), Exists, TauNames(n), OutputFunctions(e, bound), Some(TauArity(e, n)));
  }

  /**
   * The assertion `getEncoding` makes with `BoundednessVisitor`: starting
   * from nothing bound, the check passes on the quantified formula, and
   * leaves nothing bound behind.
   */
  lemma EncodingBounded(e: Encoder, bound: nat)
    requires Fits(e, bound) && Lawful(e.coding) && Admissible(e)
    ensures Walk({}, Quantified(e, bound)) == Some({})
  {
    var qs := e.automaton.states;
    TransitionFunctionsPass(e, bound);
    LayerPasses({}, Exists, LambdaNames(qs) + LambdaSharpNames(qs), TransitionFunctions(e, bound),
                Some(NumBits(e, bound)));
    var f := Quantified(e, bound);
    assert Walk({}, f).Some?;
    VisitLeaves({}, f);
    assert {} - QVars(f) == {};
  }
}
