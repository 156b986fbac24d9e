/**
 * What the pieces of the state-symbolic encoding mean: the bit pattern
 * `explicitToSymbolic` builds, the comparator decision of
 * `requireTransition`, which encodings the preconditions exclude, and which
 * clauses the loops over initial states, transitions and states contribute.
 */
module EncodingLaws {
  import opened Wrappers
  import opened Formulas
  import opened FormulaLaws
  import opened BitVectors
  import opened Visitors
  import opened Naming
  import opened StateSymbolic

  // ---------------------------------------------------------------------
  // explicitToSymbolic

  /** A valuation puts the bits `base_0, base_1, …` to the characters of `code`, `1` being true. */
  predicate Encodes(code: string, base: string, v: Valuation) {
    forall i :: 0 <= i < |code| ==> v(Indexed(base, i)) == (code[i] == '1')
  }

  /** Each bit contributes its atom when the character is `1` and the atom's negation otherwise. */
  lemma BitLiteralIsLiteral(base: string, i: nat, bit: char, parameters: Option<seq<string>>)
    ensures BitLiteral(base, i, bit, parameters) ==
      if bit == '1' then BitAtom(base, i, parameters) else Not(BitAtom(base, i, parameters))
  {
  }

  /**
   * `explicitToSymbolic` is `true` for no bits, the single literal for one
   * bit, and otherwise one conjunction with one literal per character of
   * `binaryFrom(value, bits:)`, in order.
   */
  lemma ExplicitShape(coding: BitCoding, base: string, value: nat, bits: nat, parameters: Option<seq<string>>)
    ensures var code := coding.binaryFrom(value, bits);
      var r := Explicit(coding, base, value, bits, parameters);
      (|code| == 0 ==> r == Literal(true)) &&
      (|code| == 1 ==> r == BitLiteral(base, 0, code[0], parameters)) &&
      (|code| >= 2 ==>
        r.NAry? && r.connective == And && |r.operands| == |code| &&
        forall i :: 0 <= i < |code| ==>
          r.operands[i] == (if code[i] == '1' then BitAtom(base, i, parameters) else Not(BitAtom(base, i, parameters))))
  {
    var code := coding.binaryFrom(value, bits);
    forall i | 0 <= i < |code|
      ensures BitLiterals(base, code, parameters)[i] ==
        if code[i] == '1' then BitAtom(base, i, parameters) else Not(BitAtom(base, i, parameters))
    {
      BitLiteralIsLiteral(base, i, code[i], parameters);
    }
  }

  /** With zero bits the encoding is `true`. */
  lemma ExplicitNoBits(coding: BitCoding, base: string, value: nat, parameters: Option<seq<string>>)
    requires Lawful(coding)
    ensures Explicit(coding, base, value, 0, parameters) == Literal(true)
  {
    assert |coding.binaryFrom(value, 0)| == 0;
  }

  lemma BitLiteralsClassical(base: string, code: string)
    ensures AllClassical(BitLiterals(base, code, None))
  {
  }

  /** Over propositions, the encoding of `value` holds exactly where the bits spell `binaryFrom(value, bits:)`. */
  lemma ExplicitMeaning(coding: BitCoding, base: string, value: nat, bits: nat, v: Valuation)
    ensures Classical(Explicit(coding, base, value, bits, None))
    ensures Holds(Explicit(coding, base, value, bits, None), v) <==> Encodes(coding.binaryFrom(value, bits), base, v)
  {
    var code := coding.binaryFrom(value, bits);
    var fs := BitLiterals(base, code, None);
    BitLiteralsClassical(base, code);
    forall i | 0 <= i < |code|
      ensures Holds(fs[i], v) == (v(Indexed(base, i)) == (code[i] == '1'))
    {
      MkNotHolds(Proposition(Indexed(base, i)), v);
    }
    if |code| == 1 {
      assert Encodes(code, base, v) <==> Holds(fs[0], v);
    }
  }

  // ---------------------------------------------------------------------
  // tauNextStateAssertion

  /** Over function applications, the assertion is one equivalence `state_i <-> tau_i` per pair, in zip order. */
  lemma TauAssertionShape(states: seq<string>, taus: seq<Formula>)
    requires |states| == |taus|
    requires forall i :: 0 <= i < |taus| ==> taus[i].Application?
    ensures var r := TauAssertion(states, taus);
      (|states| == 0 ==> r == Literal(true)) &&
      (|states| == 1 ==> r == NAry(Xnor, [Proposition(states[0]), taus[0]])) &&
      (|states| >= 2 ==>
        r.NAry? && r.connective == And && |r.operands| == |states| &&
        forall i :: 0 <= i < |states| ==> r.operands[i] == NAry(Xnor, [Proposition(states[i]), taus[i]]))
  {
    var pairs := XnorPairs(states, taus);
    forall i | 0 <= i < |states|
      ensures pairs[i] == NAry(Xnor, [Proposition(states[i]), taus[i]])
    {
    }
    ReduceShape(And, pairs);
  }

  // ---------------------------------------------------------------------
  // requireTransition

  /** Whether a comparator occurs in a formula. */
  predicate HasComparator(f: Formula) {
    match f
    case Not(g) => HasComparator(g)
    case NAry(_, ops) => exists i :: 0 <= i < |ops| && HasComparator(ops[i])
    case Quantifier(_, _, scope, _) => HasComparator(scope)
    case Comparator(_, _, _) => true
    case _ => false
  }

  /** The kind of ranking comparison: strict exactly into a rejecting state. */
  function RankComparison(a: Automaton, qPrime: State): Comparison {
    if qPrime in a.rejectingStates then Less else LessOrEqual
  }

  /**
   * `requireTransition` implies, from the tau assertion, that `qPrime` is
   * visited next; its ranking is compared with that of `q` exactly when both
   * lie in one rejecting strongly connected component.
   */
  lemma RequireTransitionShape(a: Automaton, q: State, qPrime: State, states: seq<string>, nextStates: seq<string>,
                               taus: seq<Formula>)
    requires |nextStates| == |taus|
    ensures var r := RequireTransition(a, q, qPrime, states, nextStates, taus);
      r.NAry? && r.connective == Implication && |r.operands| == 2 &&
      r.operands[0] == TauAssertion(nextStates, taus) &&
      (!Ranked(a, q, qPrime) ==> r.operands[1] == Lambda(qPrime, nextStates)) &&
      (Ranked(a, q, qPrime) ==> r.operands[1] == NAry(And, [Lambda(qPrime, nextStates),
        Comparator(RankComparison(a, qPrime), LambdaSharp(qPrime, nextStates), LambdaSharp(q, states))]))
  {
  }

  /** A conjunction of operands without comparators has none. */
  lemma {:induction false} ReduceNoComparator(acc: Formula, fs: seq<Formula>)
    requires !HasComparator(acc) && forall i :: 0 <= i < |fs| ==> !HasComparator(fs[i])
    ensures !HasComparator(Reduce(And, acc, fs))
    decreases |fs|
  {
    if |fs| > 0 {
      var next := MkAnd(acc, fs[0]);
      if !acc.Literal? && !fs[0].Literal? && acc.NAry? && acc.connective == And {
        var ops := acc.operands + [fs[0]];
        forall i | 0 <= i < |ops| ensures !HasComparator(ops[i]) {
          if i < |acc.operands| {
            assert ops[i] == acc.operands[i];
          }
        }
      } else if !acc.Literal? && !fs[0].Literal? {
        assert next == NAry(And, [acc, fs[0]]);
      }
      ReduceNoComparator(next, fs[1..]);
    }
  }

  /** The tau assertion has no comparator when the taus have none. */
  lemma TauAssertionNoComparator(states: seq<string>, taus: seq<Formula>)
    requires |states| == |taus| && forall i :: 0 <= i < |taus| ==> !HasComparator(taus[i])
    ensures !HasComparator(TauAssertion(states, taus))
  {
    var pairs := XnorPairs(states, taus);
    forall i | 0 <= i < |pairs| ensures !HasComparator(pairs[i]) {
      var x, y := Proposition(states[i]), taus[i];
      if !y.Literal? {
        assert MkXnor(x, y) == NAry(Xnor, [x, y]);
      } else if !y.value {
        assert MkXnor(x, y) == Not(x);
      }
    }
    ReduceNoComparator(Literal(true), pairs);
  }

  /** A comparator is emitted exactly for transitions within one rejecting strongly connected component. */
  lemma ComparatorExactlyWhenRanked(a: Automaton, q: State, qPrime: State, states: seq<string>, nextStates: seq<string>,
                                    taus: seq<Formula>)
    requires |nextStates| == |taus| && forall i :: 0 <= i < |taus| ==> !HasComparator(taus[i])
    ensures HasComparator(RequireTransition(a, q, qPrime, states, nextStates, taus)) <==> Ranked(a, q, qPrime)
  {
    var r := RequireTransition(a, q, qPrime, states, nextStates, taus);
    RequireTransitionShape(a, q, qPrime, states, nextStates, taus);
    TauAssertionNoComparator(nextStates, taus);
    if Ranked(a, q, qPrime) {
      assert HasComparator(r.operands[1].operands[1]);
      assert HasComparator(r.operands[1]);
    } else {
      assert !HasComparator(r.operands[1]);
      assert forall i :: 0 <= i < 2 ==> !HasComparator(r.operands[i]);
    }
  }

  // ---------------------------------------------------------------------
  // The unused encodings

  /** The preconditions: one pair per value in `lo..<hi`, so none when the range is empty. */
  lemma UnusedPreconditionsCount(coding: BitCoding, n: nat, lo: nat, hi: nat)
    requires lo <= hi
    ensures |UnusedPreconditions(coding, n, lo, hi)| == 2 * (hi - lo)
    ensures lo == hi ==> UnusedPreconditions(coding, n, lo, hi) == []
  {
  }

  /** The preconditions are classical, being negated encodings over propositions. */
  lemma UnusedPreconditionsClassical(coding: BitCoding, n: nat, lo: nat, hi: nat)
    requires lo <= hi
    ensures AllClassical(UnusedPreconditions(coding, n, lo, hi))
  {
    var ps := UnusedPreconditions(coding, n, lo, hi);
    forall k | 0 <= k < |ps| ensures Classical(ps[k]) {
      var base := if k % 2 == 0 then "s" else "sp";
      BitLiteralsClassical(base, coding.binaryFrom(lo + k / 2, n));
    }
  }

  /** Precondition `k` excludes value `lo + k / 2` from the current (even `k`) or next (odd `k`) state bits. */
  lemma UnusedPreconditionHolds(coding: BitCoding, n: nat, lo: nat, hi: nat, k: nat, v: Valuation)
    requires lo <= hi && k < 2 * (hi - lo)
    ensures Holds(UnusedPreconditions(coding, n, lo, hi)[k], v) <==>
      !Encodes(coding.binaryFrom(lo + k / 2, n), if k % 2 == 0 then "s" else "sp", v)
  {
    var base := if k % 2 == 0 then "s" else "sp";
    assert UnusedPreconditions(coding, n, lo, hi)[k] == MkNot(Explicit(coding, base, lo + k / 2, n, None));
    ExplicitMeaning(coding, base, lo + k / 2, n, v);
    MkNotHolds(Explicit(coding, base, lo + k / 2, n, None), v);
  }

  /** Every value in `lo..<hi` is excluded from both bit vectors when every precondition holds. */
  lemma UnusedValueExcluded(coding: BitCoding, n: nat, lo: nat, hi: nat, i: nat, v: Valuation)
    requires lo <= i < hi
    requires forall k :: 0 <= k < 2 * (hi - lo) ==> Holds(UnusedPreconditions(coding, n, lo, hi)[k], v)
    ensures !Encodes(coding.binaryFrom(i, n), "s", v) && !Encodes(coding.binaryFrom(i, n), "sp", v)
  {
    Halves(i - lo);
    UnusedPreconditionHolds(coding, n, lo, hi, 2 * (i - lo), v);
    UnusedPreconditionHolds(coding, n, lo, hi, 2 * (i - lo) + 1, v);
  }

  /**
   * The conjunction of the preconditions holds exactly when neither the
   * current nor the next state bits spell any value in `lo..<hi`.
   */
  lemma UnusedPreconditionsMeaning(coding: BitCoding, n: nat, lo: nat, hi: nat, v: Valuation)
    requires lo <= hi
    ensures AllClassical(UnusedPreconditions(coding, n, lo, hi))
    ensures Classical(ConjoinAll(UnusedPreconditions(coding, n, lo, hi)))
    ensures Holds(ConjoinAll(UnusedPreconditions(coding, n, lo, hi)), v) <==>
      forall i :: lo <= i < hi ==>
        !Encodes(coding.binaryFrom(i, n), "s", v) && !Encodes(coding.binaryFrom(i, n), "sp", v)
  {
    var ps := UnusedPreconditions(coding, n, lo, hi);
    UnusedPreconditionsClassical(coding, n, lo, hi);
    ReduceHolds(And, Literal(true), ps, v);
    if forall k :: 0 <= k < |ps| ==> Holds(ps[k], v) {
      forall i | lo <= i < hi
        ensures !Encodes(coding.binaryFrom(i, n), "s", v) && !Encodes(coding.binaryFrom(i, n), "sp", v)
      {
        UnusedValueExcluded(coding, n, lo, hi, i, v);
      }
    } else {
      var k :| 0 <= k < |ps| && !Holds(ps[k], v);
      UnusedPreconditionHolds(coding, n, lo, hi, k, v);
      assert lo <= lo + k / 2 < hi;
    }
  }

  /** `getEncoding`'s preconditions exclude exactly the encodings `bound..<2^bits` of both the state and the next state. */
  lemma PreconditionsExcludeUnused(e: Encoder, bound: nat, v: Valuation)
    requires Fits(e, bound)
    ensures |Preconditions(e, bound)| == 2 * (Pow2(NumBits(e, bound)) - bound)
    ensures Classical(ConjoinAll(Preconditions(e, bound)))
    ensures var n := NumBits(e, bound);
      Holds(ConjoinAll(Preconditions(e, bound)), v) <==>
      forall i :: bound <= i < Pow2(n) ==>
        !Encodes(e.coding.binaryFrom(i, n), "s", v) && !Encodes(e.coding.binaryFrom(i, n), "sp", v)
  {
    var n := NumBits(e, bound);
    UnusedPreconditionsCount(e.coding, n, bound, Pow2(n));
    UnusedPreconditionsMeaning(e.coding, n, bound, Pow2(n), v);
  }

  /** The tau clauses: exactly one negated encoding of `t_` over the parameters per value in `lo..<hi`, in order. */
  lemma UnusedClausesExactly(coding: BitCoding, n: nat, parameters: seq<string>, lo: nat, hi: nat)
    requires lo <= hi
    ensures |UnusedClauses(coding, n, parameters, lo, hi)| == hi - lo
    ensures forall i :: lo <= i < hi ==>
      MkNot(Explicit(coding, "t_", i, n, Some(parameters))) in UnusedClauses(coding, n, parameters, lo, hi)
    ensures forall c :: c in UnusedClauses(coding, n, parameters, lo, hi) ==>
      exists i :: lo <= i < hi && c == MkNot(Explicit(coding, "t_", i, n, Some(parameters)))
  {
    var cs := UnusedClauses(coding, n, parameters, lo, hi);
    forall i | lo <= i < hi
      ensures MkNot(Explicit(coding, "t_", i, n, Some(parameters))) in cs
    {
      assert cs[i - lo] == MkNot(Explicit(coding, "t_", i, n, Some(parameters)));
    }
    forall c | c in cs
      ensures exists i :: lo <= i < hi && c == MkNot(Explicit(coding, "t_", i, n, Some(parameters)))
    {
      var k :| 0 <= k < |cs| && cs[k] == c;
      assert lo <= lo + k < hi;
    }
  }

  // ---------------------------------------------------------------------
  // Initial states, transitions and states

  /** One clause per initial state, in order: the premise implies the state's annotation. */
  lemma {:induction false} InitialClausesExactly(premise: Formula, qs: seq<State>, states: seq<string>)
    ensures |InitialClauses(premise, qs, states)| == |qs|
    ensures forall k :: 0 <= k < |qs| ==> InitialClauses(premise, qs, states)[k] == MkImplies(premise, Lambda(qs[k], states))
    decreases |qs|
  {
    if |qs| > 0 {
      var init := qs[..|qs| - 1];
      InitialClausesExactly(premise, init, states);
      assert forall k :: 0 <= k < |init| ==> init[k] == qs[k];
    }
  }

  /**
   * Replacement turns an output `o` into `o` applied to the state bits (and,
   * under Mealy semantics, the inputs) and keeps every other proposition:
   * the propositions left are those of the guard that are no outputs.
   */
  lemma OutputReplacement(e: Encoder, n: nat, f: Formula)
    ensures forall o :: o in e.outputs ==>
      OutputRule(e, n)(o) == Some(Application(o, if e.semantics == Mealy then StateBits(n) + e.inputs else StateBits(n)))
    ensures forall p :: p !in e.outputs ==> OutputRule(e, n)(p) == None
    ensures Props(Replace(f, OutputRule(e, n))) == Props(f) - Vars(e.outputs)
  {
    var rule := OutputRule(e, n);
    assert forall p :: rule(p).Some? ==> Props(rule(p).value) == {};
    assert (set p | p in Props(f) && rule(p).None?) == Props(f) - Vars(e.outputs);
  }

  /** The clauses of the loop over states: exactly those of the states with a transitions entry, in order. */
  lemma StateClausesExactly(e: Encoder, n: nat, qs: seq<State>)
    ensures |StateClauses(e, n, qs)| <= |qs|
    ensures forall k :: 0 <= k < |qs| && qs[k] in e.automaton.transitions ==>
      StateClause(e, n, qs[k]).value in StateClauses(e, n, qs)
    ensures forall c :: c in StateClauses(e, n, qs) ==>
      exists k :: 0 <= k < |qs| && qs[k] in e.automaton.transitions && c == StateClause(e, n, qs[k]).value
  {
    StateClausesInclude(e, n, qs);
    StateClausesOnly(e, n, qs);
  }

  /** Every state with a transitions entry contributes its clause, and no state more than one. */
  lemma {:induction false} StateClausesInclude(e: Encoder, n: nat, qs: seq<State>)
    ensures |StateClauses(e, n, qs)| <= |qs|
    ensures forall k :: 0 <= k < |qs| && qs[k] in e.automaton.transitions ==>
      StateClause(e, n, qs[k]).value in StateClauses(e, n, qs)
    decreases |qs|
  {
    if |qs| > 0 {
      var init, last := qs[..|qs| - 1], qs[|qs| - 1];
      StateClausesInclude(e, n, init);
      var cs := StateClauses(e, n, qs);
      assert cs == StateClauses(e, n, init) + Emitted(StateClause(e, n, last));
      forall k | 0 <= k < |qs| && qs[k] in e.automaton.transitions
        ensures StateClause(e, n, qs[k]).value in cs
      {
        if k < |qs| - 1 {
          assert qs[k] == init[k];
        }
      }
    }
  }

  /** Every clause belongs to a state with a transitions entry. */
  lemma {:induction false} StateClausesOnly(e: Encoder, n: nat, qs: seq<State>)
    ensures forall c :: c in StateClauses(e, n, qs) ==>
      exists k :: 0 <= k < |qs| && qs[k] in e.automaton.transitions && c == StateClause(e, n, qs[k]).value
    decreases |qs|
  {
    if |qs| > 0 {
      var init, last := qs[..|qs| - 1], qs[|qs| - 1];
      StateClausesOnly(e, n, init);
      var cs := StateClauses(e, n, qs);
      assert cs == StateClauses(e, n, init) + Emitted(StateClause(e, n, last));
      forall c | c in cs
        ensures exists k :: 0 <= k < |qs| && qs[k] in e.automaton.transitions && c == StateClause(e, n, qs[k]).value
      {
        if c in StateClauses(e, n, init) {
          var k :| 0 <= k < |init| && init[k] in e.automaton.transitions && c == StateClause(e, n, init[k]).value;
          assert qs[k] == init[k];
        } else {
          assert c == StateClause(e, n, last).value;
        }
      }
    }
  }

  // ---------------------------------------------------------------------
  // The quantifier prefix

  /** Outermost: the annotations `l_q` and their rankings `ls_q`, functions of the state bits. */
  lemma AnnotationLayer(e: Encoder, bound: nat)
    requires Fits(e, bound)
    ensures var qs := e.automaton.states;
      Quantified(e, bound) ==
        Quantifier(Exists, LambdaNames(qs) + LambdaSharpNames(qs), TransitionFunctions(e, bound), Some(NumBits(e, bound)))
  {
  }

  /** Next: the transition function bits `t_i`, functions of the state bits and the inputs. */
  lemma TauLayer(e: Encoder, bound: nat)
    requires Fits(e, bound)
    ensures var n := NumBits(e, bound);
      TransitionFunctions(e, bound) == Quantifier(Exists, TauNames(n), OutputFunctions(e, bound), Some(TauArity(e, n)))
    ensures TauArity(e, NumBits(e, bound)) == NumBits(e, bound) + |e.inputs|
  {
  }

  /** Next: the outputs, functions of the state bits, and of the inputs too under Mealy semantics. */
  lemma OutputLayer(e: Encoder, bound: nat)
    requires Fits(e, bound)
    ensures var n := NumBits(e, bound);
      OutputFunctions(e, bound) == Quantifier(Exists, e.outputs, Universal(e, bound), Some(OutputArity(e, n)))
    ensures var n := NumBits(e, bound);
      OutputArity(e, n) == if e.semantics == Mealy then n + |e.inputs| else n
  {
  }

  /** Innermost: the state, next-state and input bits, universally, around `preconditions --> matrix`. */
  lemma UniversalLayer(e: Encoder, bound: nat)
    requires Fits(e, bound)
    ensures var n := NumBits(e, bound);
      Universal(e, bound) == Quantifier(Forall, StateBits(n) + NextStateBits(n) + e.inputs, Body(e, bound), None)
    ensures Body(e, bound) == MkImplies(ConjoinAll(Preconditions(e, bound)), ConjoinAll(Matrix(e, bound)))
  {
  }
}
