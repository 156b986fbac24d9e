/**
 * The formula visitors: renaming of propositions, substitution of
 * propositions by formulas, and the boundedness check that every
 * proposition leaf lies in the scope of a quantifier binding it.
 */
module Visitors {
  import opened Wrappers
  import opened Formulas

  // ---------------------------------------------------------------------
  // Renaming

  function Image(s: set<string>, rn: string -> string): set<string> {
    set p | p in s :: rn(p)
  }

  /**
   * `RenamingBooleanVisitor`: renames every proposition leaf and comparator
   * endpoint and, for an application, its symbol and arguments. A
   * quantifier's own variable list is copied unchanged.
   */
  function Rename(f: Formula, rn: string -> string): (r: Formula)
    ensures Props(r) == Image(Props(f), rn)
    ensures Classical(r) == Classical(f)
    ensures WellFormed(r) == WellFormed(f)
  {
    match f
    case Literal(_) => f
    case Proposition(p) => Proposition(rn(p))
    case Not(g) => Not(Rename(g, rn))
    case NAry(c, ops) => NAry(c, RenameAll(ops, rn))
    case Quantifier(q, vars, scope, arity) => Quantifier(q, vars, Rename(scope, rn), arity)
    case Comparator(k, lhs, rhs) => Comparator(k, Rename(lhs, rn), Rename(rhs, rn))
    case Application(symbol, args) =>
      Application(rn(symbol), seq(|args|, i requires 0 <= i < |args| => rn(args[i])))
  }

  function RenameAll(ops: seq<Formula>, rn: string -> string): (r: seq<Formula>)
    ensures |r| == |ops|
    ensures forall i :: 0 <= i < |ops| ==> r[i] == Rename(ops[i], rn)
    ensures PropsIn(r) == Image(PropsIn(ops), rn)
  {
    if |ops| == 0 then []
    else
      var r := [Rename(ops[0], rn)] + RenameAll(ops[1..], rn);
      assert r[1..] == RenameAll(ops[1..], rn);
      r
  }

  lemma {:induction false} RenameIdentity(f: Formula)
    ensures Rename(f, p => p) == f
  {
    match f
    case Not(g) => RenameIdentity(g);
    case NAry(c, ops) =>
      forall i | 0 <= i < |ops| ensures Rename(ops[i], p => p) == ops[i] { RenameIdentity(ops[i]); }
      assert RenameAll(ops, p => p) == ops;
    case Quantifier(_, _, scope, _) => RenameIdentity(scope);
    case Comparator(_, lhs, rhs) => RenameIdentity(lhs); RenameIdentity(rhs);
    case Application(symbol, args) =>
    case _ =>
  }

  /** Renaming twice is renaming once by the composed function. */
  lemma {:induction false} RenameCompose(f: Formula, r1: string -> string, r2: string -> string)
    ensures Rename(Rename(f, r1), r2) == Rename(f, p => r2(r1(p)))
  {
    match f
    case Not(g) => RenameCompose(g, r1, r2);
    case NAry(c, ops) =>
      var once := RenameAll(ops, r1);
      forall i | 0 <= i < |ops|
        ensures Rename(once[i], r2) == Rename(ops[i], p => r2(r1(p)))
      {
        RenameCompose(ops[i], r1, r2);
      }
      assert RenameAll(once, r2) == RenameAll(ops, p => r2(r1(p)));
    case Quantifier(_, _, scope, _) => RenameCompose(scope, r1, r2);
    case Comparator(_, lhs, rhs) => RenameCompose(lhs, r1, r2); RenameCompose(rhs, r1, r2);
    case _ =>
  }

  /** A renamed classical formula means what the original means under the renamed lookup. */
  lemma {:induction false} RenameHolds(f: Formula, rn: string -> string, v: Valuation)
    requires Classical(f)
    ensures Holds(Rename(f, rn), v) == Holds(f, p => v(rn(p)))
  {
    match f
    case Literal(_) =>
    case Proposition(_) =>
    case Not(g) => RenameHolds(g, rn, v);
    case NAry(c, ops) =>
      var rs := RenameAll(ops, rn);
      forall i | 0 <= i < |ops| ensures Holds(rs[i], v) == Holds(ops[i], p => v(rn(p))) {
        RenameHolds(ops[i], rn, v);
      }
      if c == Or && Holds(f, p => v(rn(p))) {
        var i :| 0 <= i < |ops| && Holds(ops[i], p => v(rn(p)));
        assert Holds(rs[i], v);
      }
  }

  // ---------------------------------------------------------------------
  // Substitution

  /**
   * The proposition substitution the encoder applies to guards and safety
   * conditions: a proposition the rule maps to a formula is replaced by it,
   * every other node is copied; comparators, applications and quantifier
   * variable lists are left as they are.
   */
  function Replace(f: Formula, rule: string -> Option<Formula>): (r: Formula)
    ensures (forall p :: rule(p).None?) ==> r == f
    ensures (forall p :: rule(p).Some? ==> Props(rule(p).value) == {}) ==>
      Props(r) == set p | p in Props(f) && rule(p).None?
  {
    match f
    case Proposition(p) => if rule(p).Some? then rule(p).value else f
    case Not(g) => Not(Replace(g, rule))
    case NAry(c, ops) => NAry(c, ReplaceAll(ops, rule))
    case Quantifier(q, vars, scope, arity) => Quantifier(q, vars, Replace(scope, rule), arity)
    case _ => f
  }

  function ReplaceAll(ops: seq<Formula>, rule: string -> Option<Formula>): (r: seq<Formula>)
    ensures |r| == |ops|
    ensures forall i :: 0 <= i < |ops| ==> r[i] == Replace(ops[i], rule)
    ensures (forall p :: rule(p).None?) ==> r == ops
    ensures (forall p :: rule(p).Some? ==> Props(rule(p).value) == {}) ==>
      PropsIn(r) == set p | p in PropsIn(ops) && rule(p).None?
  {
    if |ops| == 0 then []
    else
      var r := [Replace(ops[0], rule)] + ReplaceAll(ops[1..], rule);
      assert r[1..] == ReplaceAll(ops[1..], rule);
      r
  }

  // ---------------------------------------------------------------------
  // Boundedness

  /**
   * What `BoundednessVisitor` does to its `bounded` set: `None` when the
   * assertion on a proposition fails, otherwise the set left behind. A
   * quantifier adds its variables for its scope and removes them afterwards.
   */
  function Walk(bound: set<string>, f: Formula): (r: Option<set<string>>)
    ensures r.Some? ==> bound - QVars(f) <= r.value <= bound
    decreases f
  {
    match f
    case Literal(_) => Some(bound)
    case Proposition(p) => if p in bound then Some(bound) else None
    case Not(g) => Walk(bound, g)
    case NAry(_, ops) => WalkAll(bound, ops)
    case Quantifier(_, vars, scope, _) =>
      (match Walk(bound + Vars(vars), scope)
       case None => None
       case Some(after) => Some(after - Vars(vars)))
    case Comparator(_, _, _) => Some(bound)
    case Application(symbol, args) =>
      if symbol in bound && forall i :: 0 <= i < |args| ==> args[i] in bound then Some(bound) else None
  }

  /** The operands visited left to right, each starting from the set the previous one left. */
  function WalkAll(bound: set<string>, ops: seq<Formula>): (r: Option<set<string>>)
    ensures r.Some? ==> bound - QVarsIn(ops) <= r.value <= bound
    decreases ops
  {
    if |ops| == 0 then Some(bound)
    else
      match WalkAll(bound, ops[..|ops| - 1])
      case None => None
      case Some(b) => Walk(b, ops[|ops| - 1])
  }

  /** The variables of every quantifier in `f`. */
  function QVars(f: Formula): set<string> {
    match f
    case Not(g) => QVars(g)
    case NAry(_, ops) => QVarsIn(ops)
    case Quantifier(_, vars, scope, _) => Vars(vars) + QVars(scope)
    case _ => {}
  }

  function QVarsIn(ops: seq<Formula>): set<string> {
    if |ops| == 0 then {} else QVarsIn(ops[..|ops| - 1]) + QVars(ops[|ops| - 1])
  }

  /** Lexical scoping: every proposition (and application) lies in the scope of a binder or in `bound`. */
  predicate InScope(bound: set<string>, f: Formula)
    decreases f
  {
    match f
    case Proposition(p) => p in bound
    case Not(g) => InScope(bound, g)
    case NAry(_, ops) => forall i :: 0 <= i < |ops| ==> InScope(bound, ops[i])
    case Quantifier(_, vars, scope, _) => InScope(bound + Vars(vars), scope)
    case Application(symbol, args) => symbol in bound && forall i :: 0 <= i < |args| ==> args[i] in bound
    case _ => true
  }

  /** No quantifier binds a name that is already bound where it stands. */
  predicate NoRebinding(bound: set<string>, f: Formula)
    decreases f
  {
    match f
    case Not(g) => NoRebinding(bound, g)
    case NAry(_, ops) => forall i :: 0 <= i < |ops| ==> NoRebinding(bound, ops[i])
    case Quantifier(_, vars, scope, _) => Vars(vars) !! bound && NoRebinding(bound + Vars(vars), scope)
    case _ => true
  }

  /** A successful check leaves the set it started from minus every quantified variable. */
  lemma {:induction false} VisitLeaves(bound: set<string>, f: Formula)
    requires Walk(bound, f).Some?
    ensures Walk(bound, f).value == bound - QVars(f)
    decreases f
  {
    match f
    case Not(g) => VisitLeaves(bound, g);
    case NAry(_, ops) => VisitAllLeaves(bound, ops);
    case Quantifier(_, vars, scope, _) => VisitLeaves(bound + Vars(vars), scope);
    case _ =>
  }

  lemma {:induction false} VisitAllLeaves(bound: set<string>, ops: seq<Formula>)
    requires WalkAll(bound, ops).Some?
    ensures WalkAll(bound, ops).value == bound - QVarsIn(ops)
    decreases ops
  {
    if |ops| > 0 {
      var init := ops[..|ops| - 1];
      VisitAllLeaves(bound, init);
      VisitLeaves(WalkAll(bound, init).value, ops[|ops| - 1]);
    }
  }

  lemma {:induction false} InScopeMonotone(b1: set<string>, b2: set<string>, f: Formula)
    requires b1 <= b2 && InScope(b1, f)
    ensures InScope(b2, f)
    decreases f
  {
    match f
    case Not(g) => InScopeMonotone(b1, b2, g);
    case NAry(_, ops) =>
      forall i | 0 <= i < |ops| ensures InScope(b2, ops[i]) { InScopeMonotone(b1, b2, ops[i]); }
    case Quantifier(_, vars, scope, _) => InScopeMonotone(b1 + Vars(vars), b2 + Vars(vars), scope);
    case _ =>
  }

  /** A check that passes certifies lexical scoping. */
  lemma {:induction false} VisitSound(bound: set<string>, f: Formula)
    requires Walk(bound, f).Some?
    ensures InScope(bound, f)
    decreases f
  {
    match f
    case Not(g) => VisitSound(bound, g);
    case NAry(_, ops) => VisitAllSound(bound, ops);
    case Quantifier(_, vars, scope, _) => VisitSound(bound + Vars(vars), scope);
    case _ =>
  }

  lemma {:induction false} VisitAllSound(bound: set<string>, ops: seq<Formula>)
    requires WalkAll(bound, ops).Some?
    ensures forall i :: 0 <= i < |ops| ==> InScope(bound, ops[i])
    decreases ops
  {
    if |ops| > 0 {
      var init := ops[..|ops| - 1];
      var last := ops[|ops| - 1];
      VisitAllSound(bound, init);
      VisitAllLeaves(bound, init);
      var b := WalkAll(bound, init).value;
      VisitSound(b, last);
      InScopeMonotone(b, bound, last);
      forall i | 0 <= i < |ops| ensures InScope(bound, ops[i]) {
        if i < |ops| - 1 { assert ops[i] == init[i]; }
      }
    }
  }

  /**
   * Without rebinding, the check passes exactly on lexically scoped
   * formulas, and then leaves the set as it found it.
   */
  lemma {:induction false} VisitExact(bound: set<string>, f: Formula)
    requires NoRebinding(bound, f)
    ensures Walk(bound, f) == if InScope(bound, f) then Some(bound) else None
    decreases f
  {
    match f
    case Not(g) => VisitExact(bound, g);
    case NAry(_, ops) =>
      forall i | 0 <= i < |ops| ensures NoRebinding(bound, ops[i]) { }
      VisitAllExact(bound, ops);
    case Quantifier(_, vars, scope, _) =>
      VisitExact(bound + Vars(vars), scope);
      assert bound + Vars(vars) - Vars(vars) == bound;
    case _ =>
  }

  lemma {:induction false} VisitAllExact(bound: set<string>, ops: seq<Formula>)
    requires forall i :: 0 <= i < |ops| ==> NoRebinding(bound, ops[i])
    ensures WalkAll(bound, ops) ==
      if forall i :: 0 <= i < |ops| ==> InScope(bound, ops[i]) then Some(bound) else None
    decreases ops
  {
    if |ops| > 0 {
      var init := ops[..|ops| - 1];
      var last := ops[|ops| - 1];
      assert forall i :: 0 <= i < |init| ==> init[i] == ops[i];
      VisitAllExact(bound, init);
      VisitExact(bound, last);
      if !(forall i :: 0 <= i < |ops| ==> InScope(bound, ops[i])) {
        var i :| 0 <= i < |ops| && !InScope(bound, ops[i]);
        if i < |ops| - 1 { assert !InScope(bound, init[i]); }
      }
    }
  }

  /** Rebinding an outer variable inside an operand makes a later use of it fail. */
  lemma ShadowingFails()
    ensures var f := Quantifier(Forall, ["x"],
              NAry(And, [Quantifier(Exists, ["x"], Proposition("x"), None), Proposition("x")]), None);
      InScope({}, f) && Walk({}, f).None?
  {
    var inner := Quantifier(Exists, ["x"], Proposition("x"), None);
    var body := NAry(And, [inner, Proposition("x")]);
    assert Vars(["x"]) == {"x"} by { assert "x" in ["x"]; }
    assert {} + Vars(["x"]) == {"x"};
    assert {"x"} + Vars(["x"]) == {"x"};
    assert Walk({"x"}, Proposition("x")) == Some({"x"});
    assert Walk({"x"}, inner) == Some({});
    assert [inner, Proposition("x")][..1] == [inner];
    assert [inner][..0] == [];
    assert WalkAll({"x"}, [inner]) == Some({});
    assert WalkAll({"x"}, [inner, Proposition("x")]) == None;
    assert InScope({"x"}, body);
  }

  /** Renaming ignores quantifier variable lists, so it can break scoping. */
  lemma RenameCanUnbind()
    ensures var f := Quantifier(Exists, ["x"], Proposition("x"), None);
      Walk({}, f).Some? && Walk({}, Rename(f, p => "y")).None?
  {
    assert Vars(["x"]) == {"x"} by { assert "x" in ["x"]; }
    assert {} + Vars(["x"]) == {"x"};
  }

  /**
   * `BoundednessVisitor`: the `bounded` set is updated in place around each
   * quantifier; a failed assertion stops the traversal.
   */
  class BoundednessChecker {
    var bounded: set<string>

    constructor()
      ensures bounded == {}
    {
      bounded := {};
    }

    method Visit(f: Formula) returns (ok: bool)
      modifies this
      ensures ok == Walk(old(bounded), f).Some?
      ensures ok ==> bounded == Walk(old(bounded), f).value
      decreases f
    {
      match f
      case Literal(_) =>
        ok := true;
      case Proposition(p) =>
        ok := p in bounded;
      case Not(g) =>
        ok := Visit(g);
      case NAry(_, ops) =>
        ghost var start := bounded;
        var i := 0;
        ok := true;
        while i < |ops|
          invariant 0 <= i <= |ops|
          invariant ok == WalkAll(start, ops[..i]).Some?
          invariant ok ==> bounded == WalkAll(start, ops[..i]).value
          invariant !ok ==> WalkAll(start, ops).None?
        {
          assert ops[..i + 1][..i] == ops[..i];
          ok := Visit(ops[i]);
          if !ok {
            VisitAllFailure(start, ops, i + 1);
            break;
          }
          i := i + 1;
        }
        if ok { assert ops[..|ops|] == ops; }
      case Quantifier(_, vars, scope, _) =>
        bounded := bounded + Vars(vars);
        ok := Visit(scope);
        if ok {
          bounded := bounded - Vars(vars);
        }
      case Comparator(_, _, _) =>
        ok := true;
      case Application(symbol, args) =>
        ok := symbol in bounded && forall i :: 0 <= i < |args| ==> args[i] in bounded;
    }
  }

  /** A prefix that fails makes the whole traversal fail. */
  lemma {:induction false} VisitAllFailure(bound: set<string>, ops: seq<Formula>, k: nat)
    requires k <= |ops| && WalkAll(bound, ops[..k]).None?
    ensures WalkAll(bound, ops).None?
    decreases |ops| - k
  {
    if k < |ops| {
      assert ops[..k + 1][..k] == ops[..k];
      VisitAllFailure(bound, ops, k + 1);
    } else {
      assert ops[..k] == ops;
    }
  }

  /** The check the encoder runs on its result: a fresh visitor over the whole formula. */
  method CheckBounded(f: Formula) returns (ok: bool)
    ensures ok <==> Walk({}, f).Some?
    ensures ok ==> InScope({}, f)
  {
    var checker := new BoundednessChecker();
    ok := checker.Visit(f);
    if ok { VisitSound({}, f); }
  }
}
