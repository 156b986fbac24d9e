/**
 * `StateSymbolicEncoding`: the bounded-synthesis formula for a universal
 * co-Büchi automaton and a bound on the number of system states. System
 * states are bit vectors (`s…` now, `sp…` next); `l_q` says the automaton
 * state `q` is visited in a system state, `ls_q` is its ranking annotation,
 * `t_…` the transition function and each output a function of the state
 * (and, under Mealy semantics, the inputs).
 */
module StateSymbolic {
  import opened Wrappers
  import opened Formulas
  import opened FormulaLaws
  import opened BitVectors
  import opened Visitors
  import opened Naming

  /** An automaton state, by the name it is interpolated as. */
  type State = string

  /** `TransitionSystemType`. */
  datatype Semantics = Mealy | Moore

  /** An outgoing transition: its target and its guard. */
  datatype Transition = Transition(target: State, guard: Formula)

  /**
   * `CoBüchiAutomaton`, as much of it as the encoding reads. The strongly
   * connected component queries are kept abstract.
   */
  datatype Automaton = Automaton(
    states: seq<State>,
    initialStates: seq<State>,
    rejectingStates: set<State>,
    transitions: map<State, seq<Transition>>,
    safetyConditions: map<State, Formula>,
    inNonRejectingScc: State -> bool,
    sameScc: (State, State) -> bool)

  /** `numBitsNeeded` and `binaryFrom`, which are not part of this model. */
  datatype BitCoding = BitCoding(numBitsNeeded: nat -> nat, binaryFrom: (nat, nat) -> string)

  /** The one thing the encoding relies on: `binaryFrom(value, bits:)` has `bits` characters. */
  ghost predicate Lawful(c: BitCoding) {
    forall value: nat, bits: nat :: |c.binaryFrom(value, bits)| == bits
  }

  /** The fields of `StateSymbolicEncoding`. */
  datatype Encoder = Encoder(
    automaton: Automaton,
    semantics: Semantics,
    inputs: seq<string>,
    outputs: seq<string>,
    coding: BitCoding)

  // ---------------------------------------------------------------------
  // Naming helpers

  function LambdaProposition(q: State): Formula {
    Proposition(LambdaName(q))
  }

  /** `lambda(q, states:)`: `l_q` applied to the given state bits. */
  function Lambda(q: State, states: seq<string>): Formula {
    Application(LambdaName(q), states)
  }

  function LambdaSharpProposition(q: State): Formula {
    Proposition(LambdaSharpName(q))
  }

  /** `lambdaSharp(q, states:)`: `ls_q` applied to the given state bits. */
  function LambdaSharp(q: State, states: seq<string>): Formula {
    Application(LambdaSharpName(q), states)
  }

  function Tau(bit: nat): Formula {
    Proposition(Indexed("t_", bit))
  }

  // ---------------------------------------------------------------------
  // explicitToSymbolic

  /** The atom of bit `i`: `base_i`, applied to the parameters when there are any. */
  function BitAtom(base: string, i: nat, parameters: Option<seq<string>>): Formula {
    if parameters.Some? then Application(Indexed(base, i), parameters.value) else Proposition(Indexed(base, i))
  }

  /** The literal for bit `i`: the bit's atom when the character is `1`, its negation otherwise. */
  function BitLiteral(base: string, i: nat, bit: char, parameters: Option<seq<string>>): Formula {
    var atom := BitAtom(base, i, parameters);
    if bit == '1' then atom else MkNot(atom)
  }

  /** The literals of the bits of `code`, in order. */
  function BitLiterals(base: string, code: string, parameters: Option<seq<string>>): seq<Formula> {
    seq(|code|, i requires 0 <= i < |code| => BitLiteral(base, i, code[i], parameters))
  }

  /**
   * What `reduce(Literal.True, combine: &)` builds from operands that are
   * neither literals nor conjunctions: `true` for none, the operand itself
   * for one, and a single conjunction node over all of them otherwise.
   */
  function Conjunction(fs: seq<Formula>): Formula {
    if |fs| == 0 then Literal(true) else if |fs| == 1 then fs[0] else NAry(And, fs)
  }

  /** The symbolic form of the number `value` on `bits` bits named after `base`. */
  function Explicit(coding: BitCoding, base: string, value: nat, bits: nat, parameters: Option<seq<string>>): Formula {
    Conjunction(BitLiterals(base, coding.binaryFrom(value, bits), parameters))
  }

  /** `explicitToSymbolic(base:value:bits:parameters:)`. */
  method ExplicitToSymbolic(coding: BitCoding, base: string, value: nat, bits: nat, parameters: Option<seq<string>>)
    returns (r: Formula)
    ensures r == Explicit(coding, base, value, bits, parameters)
  {
    var code := coding.binaryFrom(value, bits);
    var and: seq<Formula> := [];
    for i := 0 to |code|
      invariant |and| == i
      invariant forall k :: 0 <= k < i ==> and[k] == BitLiteral(base, k, code[k], parameters)
    {
      var atom: Formula;
      if parameters.Some? {
        atom := Application(Indexed(base, i), parameters.value);
      } else {
        atom := Proposition(Indexed(base, i));
      }
      and := and + [if code[i] == '1' then atom else MkNot(atom)];
    }
    assert and == BitLiterals(base, code, parameters);
    ReduceShape(And, and);
    r := ConjoinAll(and);
  }

  // ---------------------------------------------------------------------
  // tauNextStateAssertion

  /** `state_i <-> tau_i`, in zip order. */
  function XnorPairs(states: seq<string>, taus: seq<Formula>): seq<Formula>
    requires |states| == |taus|
  {
    seq(|states|, i requires 0 <= i < |states| => MkXnor(Proposition(states[i]), taus[i]))
  }

  function TauAssertion(states: seq<string>, taus: seq<Formula>): Formula
    requires |states| == |taus|
  {
    ConjoinAll(XnorPairs(states, taus))
  }

  method TauNextStateAssertion(states: seq<string>, taus: seq<Formula>) returns (r: Formula)
    requires |states| == |taus|
    ensures r == TauAssertion(states, taus)
  {
    var assertion: seq<Formula> := [];
    for i := 0 to |states|
      invariant |assertion| == i
      invariant forall k :: 0 <= k < i ==> assertion[k] == MkXnor(Proposition(states[k]), taus[k])
    {
      assertion := assertion + [MkXnor(Proposition(states[i]), taus[i])];
    }
    assert assertion == XnorPairs(states, taus);
    r := ConjoinAll(assertion);
  }

  // ---------------------------------------------------------------------
  // requireTransition

  /** Both states lie in one rejecting strongly connected component: the ranking must be compared. */
  predicate Ranked(a: Automaton, q: State, qPrime: State) {
    !(a.inNonRejectingScc(q) || a.inNonRejectingScc(qPrime) || !a.sameScc(q, qPrime))
  }

  /** Taking the transition to `qPrime` visits `qPrime` next, with a ranking that does not grow. */
  function RequireTransition(a: Automaton, q: State, qPrime: State, states: seq<string>, nextStates: seq<string>,
                             taus: seq<Formula>): Formula
    requires |nextStates| == |taus|
  {
    var assertion := TauAssertion(nextStates, taus);
    if !Ranked(a, q, qPrime) then
      NAry(Implication, [assertion, Lambda(qPrime, nextStates)])
    else
      var k := if qPrime in a.rejectingStates then Less else LessOrEqual;
      NAry(Implication, [assertion,
        MkAnd(Lambda(qPrime, nextStates), Comparator(k, LambdaSharp(qPrime, nextStates), LambdaSharp(q, states)))])
  }

  // ---------------------------------------------------------------------
  // getEncoding, as functions of the encoder and the bound

  /** `numBits`: how many bits a system state takes. */
  function NumBits(e: Encoder, bound: nat): nat {
    e.coding.numBitsNeeded(bound)
  }

  function StateBits(n: nat): seq<string> {
    IndexedNames("s", n)
  }

  function NextStateBits(n: nat): seq<string> {
    IndexedNames("sp", n)
  }

  function TauNames(n: nat): seq<string> {
    IndexedNames("t_", n)
  }

  /** `t_i` applied to the state bits and the inputs. */
  function TauApplications(n: nat, inputs: seq<string>): seq<Formula> {
    seq(n, i requires 0 <= i < n => Application(Indexed("t_", i), StateBits(n) + inputs))
  }

  /**
   * For each unused encoding `i` in `lo..<hi`, in order: `!enc(s, i)` and
   * `!enc(sp, i)`; entry `k` belongs to encoding `lo + k / 2`.
   */
  function UnusedPreconditions(coding: BitCoding, n: nat, lo: nat, hi: nat): seq<Formula>
    requires lo <= hi
  {
    seq(2 * (hi - lo), k requires 0 <= k => MkNot(Explicit(coding, if k % 2 == 0 then "s" else "sp", lo + k / 2, n, None)))
  }

  /** For each unused encoding `i` in `lo..<hi`, in order: `!enc(t_, i)` over the given parameters. */
  function UnusedClauses(coding: BitCoding, n: nat, parameters: seq<string>, lo: nat, hi: nat): seq<Formula>
    requires lo <= hi
  {
    seq(hi - lo, k requires 0 <= k => MkNot(Explicit(coding, "t_", lo + k, n, Some(parameters))))
  }

  function InitialClauses(premise: Formula, qs: seq<State>, states: seq<string>): seq<Formula>
    decreases |qs|
  {
    if |qs| == 0 then []
    else InitialClauses(premise, qs[..|qs| - 1], states) + [MkImplies(premise, Lambda(qs[|qs| - 1], states))]
  }

  /** What an output depends on: the state, and under Mealy semantics the inputs too. */
  function Dependencies(e: Encoder, n: nat): seq<string> {
    if e.semantics == Mealy then StateBits(n) + e.inputs else StateBits(n)
  }

  /** The replacer's closure: an output becomes its function applied to its dependencies. */
  function OutputRule(e: Encoder, n: nat): string -> Option<Formula> {
    (p: string) => if p in e.outputs then Some(Application(p, Dependencies(e, n))) else None
  }

  function TransitionCondition(e: Encoder, n: nat, q: State, qPrime: State): Formula {
    RequireTransition(e.automaton, q, qPrime, StateBits(n), NextStateBits(n), TauApplications(n, e.inputs))
  }

  /** A transition's conjunct: the condition, guarded unless the guard is literally true. */
  function GuardedTransition(e: Encoder, n: nat, q: State, t: Transition): Formula {
    var condition := TransitionCondition(e, n, q, t.target);
    if t.guard == Literal(true) then condition
    else NAry(Implication, [Replace(t.guard, OutputRule(e, n)), condition])
  }

  /** One conjunct per outgoing transition, in order. */
  function GuardedTransitions(e: Encoder, n: nat, q: State, ts: seq<Transition>): seq<Formula> {
    seq(|ts|, k requires 0 <= k < |ts| => GuardedTransition(e, n, q, ts[k]))
  }

  function SafetyPart(e: Encoder, n: nat, q: State): seq<Formula> {
    if q in e.automaton.safetyConditions then [Replace(e.automaton.safetyConditions[q], OutputRule(e, n))] else []
  }

  /** The clause of state `q`, when the automaton has an entry for its transitions. */
  function StateClause(e: Encoder, n: nat, q: State): Option<Formula> {
    if q in e.automaton.transitions then
      Some(NAry(Implication, [Lambda(q, StateBits(n)),
        ConjoinAll(SafetyPart(e, n, q) + GuardedTransitions(e, n, q, e.automaton.transitions[q]))]))
    else None
  }

  function StateClauses(e: Encoder, n: nat, qs: seq<State>): seq<Formula>
    decreases |qs|
  {
    if |qs| == 0 then []
    else
      StateClauses(e, n, qs[..|qs| - 1]) + Emitted(StateClause(e, n, qs[|qs| - 1]))
  }

  /** What a clause that may be absent contributes to the matrix. */
  function Emitted(c: Option<Formula>): seq<Formula> {
    if c.Some? then [c.value] else []
  }

  /** The bound fits in the state bits: Swift's range `bound..<(1 << numBits)` is well-formed. */
  predicate Fits(e: Encoder, bound: nat) {
    bound <= Pow2(NumBits(e, bound))
  }

  function Preconditions(e: Encoder, bound: nat): seq<Formula>
    requires Fits(e, bound)
  {
    UnusedPreconditions(e.coding, NumBits(e, bound), bound, Pow2(NumBits(e, bound)))
  }

  function Premise(e: Encoder, bound: nat): Formula {
    Explicit(e.coding, "s", 0, NumBits(e, bound), None)
  }

  function Matrix(e: Encoder, bound: nat): seq<Formula>
    requires Fits(e, bound)
  {
    var n := NumBits(e, bound);
    UnusedClauses(e.coding, n, StateBits(n) + e.inputs, bound, Pow2(n)) +
    InitialClauses(Premise(e, bound), e.automaton.initialStates, StateBits(n)) +
    StateClauses(e, n, e.automaton.states)
  }

  function Body(e: Encoder, bound: nat): Formula
    requires Fits(e, bound)
  {
    MkImplies(ConjoinAll(Preconditions(e, bound)), ConjoinAll(Matrix(e, bound)))
  }

  function LambdaNames(qs: seq<State>): seq<string> {
    seq(|qs|, k requires 0 <= k < |qs| => LambdaName(qs[k]))
  }

  function LambdaSharpNames(qs: seq<State>): seq<string> {
    seq(|qs|, k requires 0 <= k < |qs| => LambdaSharpName(qs[k]))
  }

  function OutputArity(e: Encoder, n: nat): nat {
    if e.semantics == Mealy then n + |e.inputs| else n
  }

  /** The body, universally quantified over the current and next state bits and the inputs. */
  function Universal(e: Encoder, bound: nat): Formula
    requires Fits(e, bound)
  {
    var n := NumBits(e, bound);
    Quantifier(Forall, StateBits(n) + NextStateBits(n) + e.inputs, Body(e, bound), None)
  }

  /** The outputs, as functions of their dependencies. */
  function OutputFunctions(e: Encoder, bound: nat): Formula
    requires Fits(e, bound)
  {
    Quantifier(Exists, e.outputs, Universal(e, bound), Some(OutputArity(e, NumBits(e, bound))))
  }

  function TauArity(e: Encoder, n: nat): nat {
    n + |e.inputs|
  }

  /** The transition function bits, as functions of the state bits and the inputs. */
  function TransitionFunctions(e: Encoder, bound: nat): Formula
    requires Fits(e, bound)
  {
    var n := NumBits(e, bound);
    Quantifier(Exists, TauNames(n), OutputFunctions(e, bound), Some(TauArity(e, n)))
  }

  /** The quantified formula, before comparators are removed: the annotations over the state bits outermost. */
  function Quantified(e: Encoder, bound: nat): Formula
    requires Fits(e, bound)
  {
    var qs := e.automaton.states;
    Quantifier(Exists, LambdaNames(qs) + LambdaSharpNames(qs), TransitionFunctions(e, bound), Some(NumBits(e, bound)))
  }

  /** The debug assertion in the loop over states: a state with a safety condition has transitions. */
  predicate SafetyHasTransitions(a: Automaton) {
    forall k :: 0 <= k < |a.states| && a.states[k] in a.safetyConditions ==> a.states[k] in a.transitions
  }

  lemma Halves(m: nat)
    ensures (2 * m) % 2 == 0 && (2 * m) / 2 == m
    ensures (2 * m + 1) % 2 == 1 && (2 * m + 1) / 2 == m
  {
  }

  /** One more unused encoding appends its two preconditions. */
  lemma PreconditionsGrow(coding: BitCoding, n: nat, lo: nat, i: nat)
    requires lo <= i
    ensures UnusedPreconditions(coding, n, lo, i + 1) ==
            UnusedPreconditions(coding, n, lo, i) + [MkNot(Explicit(coding, "s", i, n, None)), MkNot(Explicit(coding, "sp", i, n, None))]
  {
    var longer := UnusedPreconditions(coding, n, lo, i + 1);
    var shorter := UnusedPreconditions(coding, n, lo, i);
    var k := 2 * (i - lo);
    Halves(i - lo);
    assert longer[k] == MkNot(Explicit(coding, "s", i, n, None));
    assert longer[k + 1] == MkNot(Explicit(coding, "sp", i, n, None));
    forall j | 0 <= j < k
      ensures longer[j] == shorter[j]
    {
    }
  }

  /** One more unused encoding appends its clause. */
  lemma ClausesGrow(coding: BitCoding, n: nat, parameters: seq<string>, lo: nat, i: nat)
    requires lo <= i
    ensures UnusedClauses(coding, n, parameters, lo, i + 1) ==
            UnusedClauses(coding, n, parameters, lo, i) + [MkNot(Explicit(coding, "t_", i, n, Some(parameters)))]
  {
    var longer := UnusedClauses(coding, n, parameters, lo, i + 1);
    var shorter := UnusedClauses(coding, n, parameters, lo, i);
    forall j | 0 <= j < i - lo
      ensures longer[j] == shorter[j]
    {
    }
  }

  /** The loop over the unused encodings `bound..<2^n`: the preconditions and the tau clauses it adds. */
  method UnusedEncodings(coding: BitCoding, n: nat, bound: nat, parameters: seq<string>)
      returns (preconditions: seq<Formula>, clauses: seq<Formula>)
    requires bound <= Pow2(n)
    ensures preconditions == UnusedPreconditions(coding, n, bound, Pow2(n))
    ensures clauses == UnusedClauses(coding, n, parameters, bound, Pow2(n))
  {
    preconditions, clauses := [], [];
    for i := bound to Pow2(n)
      invariant preconditions == UnusedPreconditions(coding, n, bound, i)
      invariant clauses == UnusedClauses(coding, n, parameters, bound, i)
    {
      var current := ExplicitToSymbolic(coding, "s", i, n, None);
      preconditions := preconditions + [MkNot(current)];
      var next := ExplicitToSymbolic(coding, "sp", i, n, None);
      preconditions := preconditions + [MkNot(next)];
      var tau := ExplicitToSymbolic(coding, "t_", i, n, Some(parameters));
      clauses := clauses + [MkNot(tau)];
      PreconditionsGrow(coding, n, bound, i);
      ClausesGrow(coding, n, parameters, bound, i);
    }
  }

  /** The loop over the initial states: the premise implies each one's annotation. */
  method InitialConstraints(premise: Formula, initial: seq<State>, s: seq<string>) returns (clauses: seq<Formula>)
    ensures clauses == InitialClauses(premise, initial, s)
  {
    clauses := [];
    for k := 0 to |initial|
      invariant clauses == InitialClauses(premise, initial[..k], s)
    {
      assert initial[..k + 1][..k] == initial[..k];
      clauses := clauses + [MkImplies(premise, Lambda(initial[k], s))];
    }
    assert initial[..|initial|] == initial;
  }

  /** The conjunct of one transition: its condition, guarded unless the guard is literally true. */
  method GuardedCondition(e: Encoder, n: nat, q: State, t: Transition) returns (g: Formula)
    ensures g == GuardedTransition(e, n, q, t)
  {
    var condition := RequireTransition(e.automaton, q, t.target, StateBits(n), NextStateBits(n), TauApplications(n, e.inputs));
    if t.guard == Literal(true) {
      g := condition;
    } else {
      g := NAry(Implication, [Replace(t.guard, OutputRule(e, n)), condition]);
    }
  }

  lemma GuardedTransitionsSnoc(e: Encoder, n: nat, q: State, ts: seq<Transition>, j: nat)
    requires j < |ts|
    ensures GuardedTransitions(e, n, q, ts[..j + 1]) == GuardedTransitions(e, n, q, ts[..j]) + [GuardedTransition(e, n, q, ts[j])]
  {
    var longer, shorter := GuardedTransitions(e, n, q, ts[..j + 1]), GuardedTransitions(e, n, q, ts[..j]);
    forall k | 0 <= k < j ensures longer[k] == shorter[k] {
      assert ts[..j + 1][k] == ts[..j][k];
    }
  }

  /** One iteration of the loop over states: the clause of `q`, or nothing when `q` has no transitions entry. */
  method StateConstraint(e: Encoder, n: nat, q: State) returns (c: Option<Formula>)
    requires q in e.automaton.safetyConditions ==> q in e.automaton.transitions
    ensures c == StateClause(e, n, q)
  {
    var rule := OutputRule(e, n);
    var conjunct: seq<Formula> := [];
    if q in e.automaton.safetyConditions {
      conjunct := conjunct + [Replace(e.automaton.safetyConditions[q], rule)];
    }
    if q !in e.automaton.transitions {
      return None;
    }
    var outgoing := e.automaton.transitions[q];
    for j := 0 to |outgoing|
      invariant conjunct == SafetyPart(e, n, q) + GuardedTransitions(e, n, q, outgoing[..j])
    {
      var guarded := GuardedCondition(e, n, q, outgoing[j]);
      GuardedTransitionsSnoc(e, n, q, outgoing, j);
      conjunct := conjunct + [guarded];
    }
    assert outgoing[..|outgoing|] == outgoing;
    c := Some(NAry(Implication, [Lambda(q, StateBits(n)), ConjoinAll(conjunct)]));
  }

  /** The loop over states: the clauses of those with a transitions entry, in order. */
  method StateConstraints(e: Encoder, n: nat) returns (clauses: seq<Formula>)
    requires SafetyHasTransitions(e.automaton)
    ensures clauses == StateClauses(e, n, e.automaton.states)
  {
    var states := e.automaton.states;
    clauses := [];
    for k := 0 to |states|
      invariant clauses == StateClauses(e, n, states[..k])
    {
      assert states[..k + 1][..k] == states[..k];
      var c := StateConstraint(e, n, states[k]);
      assert StateClauses(e, n, states[..k + 1]) == StateClauses(e, n, states[..k]) + Emitted(c);
      if c.Some? {
        clauses := clauses + [c.value];
      }
    }
    assert states[..|states|] == states;
  }

  /**
   * `getEncoding(forBound:)`. `removeComparable` stands for
   * `RemoveComparableVisitor(bound:)`, which is not part of this model.
   */
  method GetEncoding(e: Encoder, bound: nat, removeComparable: (nat, Formula) -> Formula) returns (r: Option<Formula>)
    requires Fits(e, bound)
    requires forall k :: 0 <= k < |e.inputs| ==> |e.inputs[k]| > 0
    requires forall k :: 0 <= k < |e.outputs| ==> |e.outputs[k]| > 0
    requires SafetyHasTransitions(e.automaton)
    ensures r == Some(removeComparable(bound, Quantified(e, bound)))
  {
    var n := e.coding.numBitsNeeded(bound);
    var s, sp := StateBits(n), NextStateBits(n);
    var preconditions, unused := UnusedEncodings(e.coding, n, bound, s + e.inputs);
    var premise := ExplicitToSymbolic(e.coding, "s", 0, n, None);
    var initial := InitialConstraints(premise, e.automaton.initialStates, s);
    var clauses := StateConstraints(e, n);
    var matrix := unused + initial + clauses;
    assert n == NumBits(e, bound);
    assert preconditions == Preconditions(e, bound);
    assert premise == Premise(e, bound);
    assert matrix == Matrix(e, bound);

    var formula := MkImplies(ConjoinAll(preconditions), ConjoinAll(matrix));
    assert formula == Body(e, bound);
    var universal := Quantifier(Forall, s + sp + e.inputs, formula, None);
    var arity: nat := if e.semantics == Mealy then n + |e.inputs| else n;
    assert arity == OutputArity(e, n);
    var outputQuantification := Quantifier(Exists, e.outputs, universal, Some(arity));
    var tauArity: nat := n + |e.inputs|;
    assert tauArity == TauArity(e, n);
    var tauQuantification := Quantifier(Exists, TauNames(n), outputQuantification, Some(tauArity));
    var states := e.automaton.states;
    var lambdaQuantification := Quantifier(Exists, LambdaNames(states) + LambdaSharpNames(states), tauQuantification, Some(n));
    assert universal == Universal(e, bound);
    assert outputQuantification == OutputFunctions(e, bound);
    assert tauQuantification == TransitionFunctions(e, bound);
    assert lambdaQuantification == Quantified(e, bound);
    r := Some(removeComparable(bound, lambdaQuantification));
  }
}
