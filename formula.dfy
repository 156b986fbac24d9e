/**
 * The boolean formula algebra of BoSy: a closed sum type of formulas, the
 * smart constructors that keep formulas reduced while they are built, and
 * evaluation under a (partial) assignment of truth values to propositions.
 */
module Formulas {
  import opened Wrappers

  datatype Connective = And | Or | Implication | Xnor

  /** The two variadic, associative connectives that the folds combine with. */
  type Junction = c: Connective | c == And || c == Or witness And

  datatype QuantifierKind = Exists | Forall

  datatype Comparison = LessOrEqual | Less

  datatype Formula =
    | Literal(value: bool)
    | Proposition(name: string)
    | Not(operand: Formula)
    | NAry(connective: Connective, operands: seq<Formula>)
      /** `arity` counts the leading parameters of quantified Skolem symbols. */
    | Quantifier(quantifier: QuantifierKind, variables: seq<string>, scope: Formula, arity: Option<nat>)
      /** An order constraint between two multi-bit symbols; never evaluated. */
    | Comparator(comparison: Comparison, lhs: Formula, rhs: Formula)
      /** A Skolem function symbol applied to propositions. */
    | Application(symbol: string, arguments: seq<string>)

  /** The names in a list of propositions. */
  function Vars(names: seq<string>): set<string> {
    set x | x in names
  }

  /** A partial assignment of literals to proposition names. */
  type Assignment = map<string, bool>

  /** A total valuation, the classical semantics' environment. */
  type Valuation = string -> bool

  // ---------------------------------------------------------------------
  // Structural predicates

  /** Implication and Xnor nodes carry exactly two operands (asserted by eval). */
  predicate WellFormed(f: Formula) {
    match f
    case Not(g) => WellFormed(g)
    case NAry(c, ops) =>
      ((c == Implication || c == Xnor) ==> |ops| == 2) &&
      forall i :: 0 <= i < |ops| ==> WellFormed(ops[i])
    case Quantifier(_, _, scope, _) => WellFormed(scope)
    case _ => true
  }

  /** The propositional fragment, on which the classical semantics is defined. */
  predicate Classical(f: Formula) {
    match f
    case Literal(_) => true
    case Proposition(_) => true
    case Not(g) => Classical(g)
    case NAry(c, ops) =>
      ((c == Implication || c == Xnor) ==> |ops| == 2) &&
      forall i :: 0 <= i < |ops| ==> Classical(ops[i])
    case _ => false
  }

  /** Every operand of a sequence is classical. */
  predicate AllClassical(fs: seq<Formula>) {
    forall i :: 0 <= i < |fs| ==> Classical(fs[i])
  }

  /** The names that occur as Proposition leaves (comparator endpoints excluded). */
  function Props(f: Formula): set<string> {
    match f
    case Literal(_) => {}
    case Proposition(p) => {p}
    case Not(g) => Props(g)
    case NAry(_, ops) => PropsIn(ops)
    case Quantifier(_, _, scope, _) => Props(scope)
    case Comparator(_, _, _) => {}
    case Application(_, _) => {}
  }

  function PropsIn(fs: seq<Formula>): set<string> {
    if |fs| == 0 then {} else Props(fs[0]) + PropsIn(fs[1..])
  }

  lemma {:induction false} PropsInAppend(fs: seq<Formula>, g: Formula)
    ensures PropsIn(fs + [g]) == PropsIn(fs) + Props(g)
  {
    if |fs| > 0 {
      assert (fs + [g])[1..] == fs[1..] + [g];
      PropsInAppend(fs[1..], g);
    }
  }

  lemma PropsInPair(f: Formula, g: Formula)
    ensures PropsIn([f, g]) == Props(f) + Props(g)
  {
    assert [f, g][1..] == [g];
    assert [g][1..] == [];
    assert PropsIn([g]) == Props(g) + PropsIn([]);
    assert PropsIn([f, g]) == Props(f) + PropsIn([g]);
  }

  lemma {:induction false} PropsInElement(fs: seq<Formula>, i: nat)
    requires i < |fs|
    ensures Props(fs[i]) <= PropsIn(fs)
  {
    if i > 0 {
      PropsInElement(fs[1..], i - 1);
    }
  }

  /**
   * The normal form the smart constructors maintain: no negation of a literal
   * or of a negation, no literal operand, a left operand of an And (Or) that
   * is not itself an And (Or), and no quantifier without variables.
   */
  predicate Simplified(f: Formula) {
    match f
    case Not(g) => !g.Literal? && !g.Not? && Simplified(g)
    case NAry(c, ops) =>
      (forall i :: 0 <= i < |ops| ==> !ops[i].Literal? && Simplified(ops[i])) &&
      (if c == And || c == Or then |ops| >= 2 && !(ops[0].NAry? && ops[0].connective == c)
       else |ops| == 2)
    case Quantifier(_, vars, scope, _) => |vars| > 0 && Simplified(scope)
    case _ => true
  }

  // ---------------------------------------------------------------------
  // Smart constructors: `&`, `|`, `-->`, `<->` and `!`

  /** `lhs & rhs`: folds literals and flattens a left And. */
  function MkAnd(lhs: Formula, rhs: Formula): (r: Formula)
    ensures WellFormed(lhs) && WellFormed(rhs) ==> WellFormed(r)
    ensures Classical(lhs) && Classical(rhs) ==> Classical(r)
    ensures Simplified(lhs) && Simplified(rhs) ==> Simplified(r)
    ensures Props(r) <= Props(lhs) + Props(rhs)
  {
    if lhs.Literal? then (if lhs.value then rhs else Literal(false))
    else if rhs.Literal? then (if rhs.value then lhs else Literal(false))
    else if lhs.NAry? && lhs.connective == And then
      PropsInAppend(lhs.operands, rhs);
      NAry(And, lhs.operands + [rhs])
    else
      PropsInPair(lhs, rhs);
      NAry(And, [lhs, rhs])
  }

  /** `lhs | rhs`: folds literals and flattens a left Or. */
  function MkOr(lhs: Formula, rhs: Formula): (r: Formula)
    ensures WellFormed(lhs) && WellFormed(rhs) ==> WellFormed(r)
    ensures Classical(lhs) && Classical(rhs) ==> Classical(r)
    ensures Simplified(lhs) && Simplified(rhs) ==> Simplified(r)
    ensures Props(r) <= Props(lhs) + Props(rhs)
  {
    if lhs.Literal? then (if lhs.value then Literal(true) else rhs)
    else if rhs.Literal? then (if rhs.value then Literal(true) else lhs)
    else if lhs.NAry? && lhs.connective == Or then
      PropsInAppend(lhs.operands, rhs);
      NAry(Or, lhs.operands + [rhs])
    else
      PropsInPair(lhs, rhs);
      NAry(Or, [lhs, rhs])
  }

  /** `!op`: flips a literal and removes a double negation. */
  function MkNot(op: Formula): (r: Formula)
    ensures WellFormed(op) ==> WellFormed(r)
    ensures Classical(op) ==> Classical(r)
    ensures Simplified(op) ==> Simplified(r)
    ensures Props(r) == Props(op)
  {
    if op.Not? then op.operand
    else if op.Literal? then Literal(!op.value)
    else Not(op)
  }

  /** `lhs --> rhs`. */
  function MkImplies(lhs: Formula, rhs: Formula): (r: Formula)
    ensures WellFormed(lhs) && WellFormed(rhs) ==> WellFormed(r)
    ensures Classical(lhs) && Classical(rhs) ==> Classical(r)
    ensures Simplified(lhs) && Simplified(rhs) ==> Simplified(r)
    ensures Props(r) <= Props(lhs) + Props(rhs)
  {
    if lhs.Literal? then (if lhs.value then rhs else Literal(true))
    else if rhs.Literal? then (if rhs.value then Literal(true) else MkNot(lhs))
    else
      PropsInPair(lhs, rhs);
      NAry(Implication, [lhs, rhs])
  }

  /** `lhs <-> rhs`. */
  function MkXnor(lhs: Formula, rhs: Formula): (r: Formula)
    ensures WellFormed(lhs) && WellFormed(rhs) ==> WellFormed(r)
    ensures Classical(lhs) && Classical(rhs) ==> Classical(r)
    ensures Simplified(lhs) && Simplified(rhs) ==> Simplified(r)
    ensures Props(r) <= Props(lhs) + Props(rhs)
  {
    if lhs.Literal? && rhs.Literal? then Literal(lhs.value == rhs.value)
    else if lhs.Literal? then (if lhs.value then rhs else MkNot(rhs))
    else if rhs.Literal? then (if rhs.value then lhs else MkNot(lhs))
    else
      PropsInPair(lhs, rhs);
      NAry(Xnor, [lhs, rhs])
  }

  function Combine(c: Junction, lhs: Formula, rhs: Formula): Formula {
    if c == And then MkAnd(lhs, rhs) else MkOr(lhs, rhs)
  }

  /** Swift's `reduce(acc, combine: &)` resp. `combine: |`: a left fold. */
  function Reduce(c: Junction, acc: Formula, fs: seq<Formula>): (r: Formula)
    ensures WellFormed(acc) && (forall i :: 0 <= i < |fs| ==> WellFormed(fs[i])) ==> WellFormed(r)
    ensures Classical(acc) && AllClassical(fs) ==> Classical(r)
    ensures Simplified(acc) && (forall i :: 0 <= i < |fs| ==> Simplified(fs[i])) ==> Simplified(r)
    ensures Props(r) <= Props(acc) + PropsIn(fs)
    decreases |fs|
  {
    if |fs| == 0 then acc else Reduce(c, Combine(c, acc, fs[0]), fs[1..])
  }

  /** `fs.reduce(Literal.True, combine: &)`. */
  function ConjoinAll(fs: seq<Formula>): Formula {
    Reduce(And, Literal(true), fs)
  }

  /** `fs.reduce(Literal.False, combine: |)`. */
  function DisjoinAll(fs: seq<Formula>): Formula {
    Reduce(Or, Literal(false), fs)
  }

  // ---------------------------------------------------------------------
  // Evaluation

  /**
   * What eval asserts of its input: two operands under binary connectives,
   * and comparator endpoints that the assignment leaves open.
   */
  predicate Evaluable(f: Formula, a: Assignment) {
    match f
    case Not(g) => Evaluable(g, a)
    case NAry(c, ops) =>
      ((c == Implication || c == Xnor) ==> |ops| == 2) &&
      forall i :: 0 <= i < |ops| ==> Evaluable(ops[i], a)
    case Quantifier(_, _, scope, _) => Evaluable(scope, a)
    case Comparator(_, lhs, rhs) => Open(lhs, a) && Open(rhs, a)
    case _ => true
  }

  /** A comparator endpoint that is not a proposition fixed by `a`. */
  predicate Open(endpoint: Formula, a: Assignment) {
    endpoint.Proposition? ==> endpoint.name !in a
  }

  /** The quantified variables that `a` leaves unassigned, in their order. */
  function Unassigned(vars: seq<string>, a: Assignment): (r: seq<string>)
    ensures forall x :: x in r <==> x in vars && x !in a
    ensures |r| <= |vars|
  {
    if |vars| == 0 then []
    else if vars[0] in a then Unassigned(vars[1..], a)
    else [vars[0]] + Unassigned(vars[1..], a)
  }

  /** `eval(assignment:)` of the six formula structs (Application is atomic). */
  function Eval(f: Formula, a: Assignment): (r: Formula)
    requires Evaluable(f, a)
    ensures WellFormed(r)
    ensures Simplified(r)
    ensures Props(r) <= Props(f) - a.Keys
  {
    match f
    case Literal(_) => f
    case Proposition(p) => if p in a then Literal(a[p]) else f
    case Not(g) => MkNot(Eval(g, a))
    case NAry(c, ops) =>
      var es := EvalAll(ops, a);
      (match c
       case And => ConjoinAll(es)
       case Or => DisjoinAll(es)
       case Implication => MkImplies(es[0], es[1])
       case Xnor => MkXnor(es[0], es[1]))
    case Quantifier(q, vars, scope, arity) =>
      var remaining := Unassigned(vars, a);
      var s := Eval(scope, a);
      if |remaining| == 0 then s else Quantifier(q, remaining, s, arity)
    case Comparator(_, _, _) => f
    case Application(_, _) => f
  }

  /** `operands.map({ $0.eval(assignment:) })`. */
  function EvalAll(ops: seq<Formula>, a: Assignment): (r: seq<Formula>)
    requires forall i :: 0 <= i < |ops| ==> Evaluable(ops[i], a)
    ensures |r| == |ops|
    ensures forall i :: 0 <= i < |ops| ==> r[i] == Eval(ops[i], a)
    ensures forall i :: 0 <= i < |r| ==> WellFormed(r[i]) && Simplified(r[i])
    ensures PropsIn(r) <= PropsIn(ops) - a.Keys
  {
    if |ops| == 0 then [] else [Eval(ops[0], a)] + EvalAll(ops[1..], a)
  }

  // ---------------------------------------------------------------------
  // Classical semantics

  predicate Holds(f: Formula, v: Valuation)
    requires Classical(f)
  {
    match f
    case Literal(b) => b
    case Proposition(p) => v(p)
    case Not(g) => !Holds(g, v)
    case NAry(c, ops) =>
      match c
      case And => forall i :: 0 <= i < |ops| ==> Holds(ops[i], v)
      case Or => exists i :: 0 <= i < |ops| && Holds(ops[i], v)
      case Implication => Holds(ops[0], v) ==> Holds(ops[1], v)
      case Xnor => Holds(ops[0], v) == Holds(ops[1], v)
  }

  /** `v` with the literals of `a` taking precedence. */
  function Override(a: Assignment, v: Valuation): Valuation {
    (p: string) => if p in a then a[p] else v(p)
  }

  /** The valuation a total assignment stands for. */
  function Lookup(a: Assignment): Valuation {
    (p: string) => p in a && a[p]
  }
}
