/**
 * Enumerating every assignment of a list of propositions, and rendering an
 * assignment as a bit string in name order.
 */
module Assignments {
  import opened Formulas
  import opened BitVectors

  /** No name occurs twice. */
  predicate Distinct(names: seq<string>) {
    forall i, j :: 0 <= i < j < |names| ==> names[i] != names[j]
  }

  // ---------------------------------------------------------------------
  // allBooleanAssignments

  /** Every variable mapped to False. */
  function ZeroAssignment(vars: seq<string>): (r: Assignment)
    ensures r.Keys == Vars(vars)
    ensures forall x :: x in r ==> !r[x]
  {
    map x | x in vars :: false
  }

  /**
   * One round of the `reduce`: each assignment is followed by its copy with
   * `v` set to True, in order.
   */
  function Doubled(assignments: seq<Assignment>, v: string): (r: seq<Assignment>)
    ensures |r| == 2 * |assignments|
    ensures forall i :: 0 <= i < |r| ==>
      r[i] == if i % 2 == 0 then assignments[i / 2] else assignments[i / 2][v := true]
  {
    if |assignments| == 0 then []
    else
      var n := |assignments| - 1;
      var init := Doubled(assignments[..n], v);
      init + [assignments[n], assignments[n][v := true]]
  }

  /** The list after the first `k` rounds of the loop. */
  function Rounds(vars: seq<string>, k: nat): (r: seq<Assignment>)
    requires k <= |vars|
    ensures |r| == Pow2(k)
  {
    if k == 0 then [ZeroAssignment(vars)]
    else Doubled(Rounds(vars, k - 1), vars[k - 1])
  }

  /** `allBooleanAssignments(variables:)`. */
  method AllBooleanAssignments(vars: seq<string>) returns (assignments: seq<Assignment>)
    ensures assignments == Rounds(vars, |vars|)
  {
    var zero: Assignment := map[];
    for i := 0 to |vars|
      invariant zero == ZeroAssignment(vars[..i])
    {
      assert vars[..i + 1] == vars[..i] + [vars[i]];
      zero := zero[vars[i] := false];
    }
    assert vars[..|vars|] == vars;
    assignments := [zero];
    for i := 0 to |vars|
      invariant assignments == Rounds(vars, i)
    {
      assignments := Doubled(assignments, vars[i]);
    }
  }

  /** Entry `i` after `k` rounds comes from entry `i / 2` after `k - 1`, with the new variable set by the low bit. */
  lemma RoundsEntry(vars: seq<string>, k: nat, i: nat)
    requires 1 <= k <= |vars| && i < Pow2(k)
    ensures i / 2 < Pow2(k - 1)
    ensures Rounds(vars, k)[i] ==
      if i % 2 == 0 then Rounds(vars, k - 1)[i / 2] else Rounds(vars, k - 1)[i / 2][vars[k - 1] := true]
  {
  }

  /** Appending a variable that is False, or setting it to True, appends its bit. */
  lemma StepBits(before: seq<string>, v: string, p: Assignment, b: bool)
    requires forall j :: 0 <= j < |before| ==> before[j] != v
    requires v in p && !p[v]
    ensures Bits(before + [v], Lookup(if b then p[v := true] else p)) == Bits(before, Lookup(p)) + [b]
  {
    assert forall j :: 0 <= j < |before| ==> (before + [v])[j] == before[j];
  }

  /** Every entry assigns exactly the variables. */
  lemma {:induction false} RoundsKeys(vars: seq<string>, k: nat, i: nat)
    requires k <= |vars| && i < Pow2(k)
    ensures Rounds(vars, k)[i].Keys == Vars(vars)
  {
    if k > 0 {
      RoundsEntry(vars, k, i);
      RoundsKeys(vars, k - 1, i / 2);
      InVars(vars, k - 1);
    }
  }

  /** After `k` rounds, the variables not yet processed are still False. */
  lemma {:induction false} RoundsUntouched(vars: seq<string>, k: nat, i: nat, j: nat)
    requires k <= j < |vars| && i < Pow2(k)
    requires forall m :: 0 <= m < k ==> vars[m] != vars[j]
    ensures vars[j] in Rounds(vars, k)[i] && !Rounds(vars, k)[i][vars[j]]
  {
    RoundsKeys(vars, k, i);
    InVars(vars, j);
    if k > 0 {
      RoundsEntry(vars, k, i);
      RoundsUntouched(vars, k - 1, i / 2, j);
    }
  }

  /**
   * After `k` rounds, entry `i` gives the first `k` variables the bits of `i`,
   * most significant first.
   */
  lemma {:induction false} RoundsEnumerate(vars: seq<string>, k: nat, i: nat)
    requires Distinct(vars) && k <= |vars| && i < Pow2(k)
    ensures Value(Bits(vars[..k], Lookup(Rounds(vars, k)[i]))) == i
  {
    if k == 0 {
      assert Bits(vars[..0], Lookup(Rounds(vars, k)[i])) == [];
    } else {
      RoundsEntry(vars, k, i);
      RoundsEnumerate(vars, k - 1, i / 2);
      RoundStep(vars, k, i);
    }
  }

  /** Round `k` extends the binary numbering of round `k - 1` by one bit. */
  lemma RoundStep(vars: seq<string>, k: nat, i: nat)
    requires Distinct(vars) && 1 <= k <= |vars| && i < Pow2(k) && i / 2 < Pow2(k - 1)
    requires Value(Bits(vars[..k - 1], Lookup(Rounds(vars, k - 1)[i / 2]))) == i / 2
    ensures Value(Bits(vars[..k], Lookup(Rounds(vars, k)[i]))) == i
  {
    RoundsEntry(vars, k, i);
    DistinctBefore(vars, k - 1);
    RoundsUntouched(vars, k - 1, i / 2, k - 1);
    EnumerateStep(vars, k, i, Rounds(vars, k - 1)[i / 2], Rounds(vars, k)[i]);
  }

  /** One round appends the new variable's bit as the least significant one. */
  lemma EnumerateStep(vars: seq<string>, k: nat, i: nat, p: Assignment, e: Assignment)
    requires Distinct(vars) && 1 <= k <= |vars|
    requires vars[k - 1] in p && !p[vars[k - 1]]
    requires Value(Bits(vars[..k - 1], Lookup(p))) == i / 2
    requires e == if i % 2 == 0 then p else p[vars[k - 1] := true]
    ensures Value(Bits(vars[..k], Lookup(e))) == i
  {
    var before, v, b := vars[..k - 1], vars[k - 1], i % 2 == 1;
    assert vars[..k] == before + [v];
    StepBits(before, v, p, b);
    ValueSnoc(Bits(before, Lookup(p)), b);
  }

  lemma DistinctBefore(names: seq<string>, j: nat)
    requires Distinct(names) && j < |names|
    ensures forall m :: 0 <= m < j ==> names[m] != names[j]
  {
  }

  lemma InVars(s: seq<string>, j: nat)
    requires j < |s|
    ensures s[j] in Vars(s)
  {
  }

  /** Entry `i` of the result encodes `i` in binary, the last variable being the least significant bit. */
  lemma AllAssignmentsInBinaryOrder(vars: seq<string>, i: nat)
    requires Distinct(vars) && i < Pow2(|vars|)
    ensures Rounds(vars, |vars|)[i].Keys == Vars(vars)
    ensures Value(Bits(vars, Lookup(Rounds(vars, |vars|)[i]))) == i
  {
    RoundsKeys(vars, |vars|, i);
    RoundsEnumerate(vars, |vars|, i);
    assert vars[..|vars|] == vars;
  }

  lemma {:induction false} ValueInjective(x: seq<bool>, y: seq<bool>)
    requires |x| == |y| && Value(x) == Value(y)
    ensures x == y
  {
    if |x| > 0 {
      ValueCompare(x, y);
      ValueCompare(y, x);
      ValueInjective(x[1..], y[1..]);
      assert x == [x[0]] + x[1..] && y == [y[0]] + y[1..];
    }
  }

  /** Every total assignment of the variables is enumerated. */
  lemma AllAssignmentsComplete(vars: seq<string>, a: Assignment)
    requires Distinct(vars) && a.Keys == Vars(vars)
    ensures a in Rounds(vars, |vars|)
  {
    var i := Value(Bits(vars, Lookup(a)));
    ValueBound(Bits(vars, Lookup(a)));
    AllAssignmentsInBinaryOrder(vars, i);
    var e := Rounds(vars, |vars|)[i];
    ValueInjective(Bits(vars, Lookup(a)), Bits(vars, Lookup(e)));
    SameBitsSameAssignment(vars, a, e);
  }

  lemma SameBitsSameAssignment(vars: seq<string>, a: Assignment, e: Assignment)
    requires a.Keys == Vars(vars) && e.Keys == Vars(vars)
    requires Bits(vars, Lookup(a)) == Bits(vars, Lookup(e))
    ensures a == e
  {
    forall x | x in a ensures a[x] == e[x] {
      var j :| 0 <= j < |vars| && vars[j] == x;
      assert Bits(vars, Lookup(a))[j] == Bits(vars, Lookup(e))[j];
    }
  }

  // ---------------------------------------------------------------------
  // bitStringFromAssignment

  /**
   * `$0.name < $1.name`, as the lexicographic order of the names' scalar
   * values. Swift compares strings by their canonical Unicode form; the two
   * orders agree on names made of ASCII characters, such as the propositions
   * the lexer reads.
   */
  predicate NameLess(a: string, b: string) {
    |b| > 0 && (|a| == 0 || a[0] < b[0] || (a[0] == b[0] && NameLess(a[1..], b[1..])))
  }

  lemma {:induction false} NameLessIrreflexive(a: string)
    ensures !NameLess(a, a)
  {
    if |a| > 0 { NameLessIrreflexive(a[1..]); }
  }

  lemma {:induction false} NameLessTransitive(a: string, b: string, c: string)
    requires NameLess(a, b) && NameLess(b, c)
    ensures NameLess(a, c)
  {
    if |a| > 0 && a[0] == b[0] && b[0] == c[0] {
      NameLessTransitive(a[1..], b[1..], c[1..]);
    }
  }

  lemma {:induction false} NameLessTotal(a: string, b: string)
    requires a != b
    ensures NameLess(a, b) || NameLess(b, a)
  {
    if |a| > 0 && |b| > 0 && a[0] == b[0] {
      assert a == [a[0]] + a[1..] && b == [b[0]] + b[1..];
      NameLessTotal(a[1..], b[1..]);
    }
  }

  predicate Least(m: string, keys: set<string>) {
    m in keys && forall k :: k in keys ==> !NameLess(k, m)
  }

  lemma {:induction false} LeastExists(keys: set<string>)
    requires keys != {}
    ensures exists m :: Least(m, keys)
    decreases |keys|
  {
    var x :| x in keys;
    if keys == {x} {
      NameLessIrreflexive(x);
      assert Least(x, keys);
    } else {
      LeastExists(keys - {x});
      var m :| Least(m, keys - {x});
      if NameLess(x, m) {
        forall k | k in keys ensures !NameLess(k, x) {
          if NameLess(k, x) {
            if k == x { NameLessIrreflexive(x); } else { NameLessTransitive(k, x, m); }
          }
        }
        assert Least(x, keys);
      } else {
        assert Least(m, keys);
      }
    }
  }

  lemma LeastUnique(keys: set<string>)
    ensures forall m, n :: Least(m, keys) && Least(n, keys) ==> m == n
  {
    forall m, n | Least(m, keys) && Least(n, keys) ensures m == n {
      if m != n { NameLessTotal(m, n); }
    }
  }

  predicate StrictlySorted(names: seq<string>) {
    forall i, j :: 0 <= i < j < |names| ==> NameLess(names[i], names[j])
  }

  /** `keys.sorted(isOrderedBefore: { $0.name < $1.name })`. */
  function SortedKeys(keys: set<string>): (r: seq<string>)
    ensures StrictlySorted(r)
    ensures Vars(r) == keys
    ensures forall i :: 0 <= i < |r| ==> r[i] in keys
    decreases keys
  {
    if keys == {} then []
    else
      LeastExists(keys);
      LeastUnique(keys);
      var m :| Least(m, keys);
      var rest := SortedKeys(keys - {m});
      var r := [m] + rest;
      assert forall x :: x in r <==> x == m || x in rest;
      assert Vars(r) == {m} + Vars(rest);
      assert forall i :: 0 < i < |r| ==> r[i] == rest[i - 1];
      assert forall i :: 0 < i < |r| ==> r[i] in keys - {m} && NameLess(m, r[i]) by {
        forall i | 0 < i < |r| ensures r[i] in keys - {m} && NameLess(m, r[i]) {
          assert rest[i - 1] in Vars(rest);
          NameLessTotal(m, r[i]);
        }
      }
      r
  }

  /** The characters for the values of `keys`, in that order. */
  function Encode(a: Assignment, keys: seq<string>): (r: string)
    requires forall i :: 0 <= i < |keys| ==> keys[i] in a
    ensures |r| == |keys|
    ensures forall i :: 0 <= i < |keys| ==> r[i] == (if a[keys[i]] then '1' else '0')
  {
    seq(|keys|, i requires 0 <= i < |keys| => if a[keys[i]] then '1' else '0')
  }

  /** `bitStringFromAssignment(_:)`. */
  method BitStringFromAssignment(a: Assignment) returns (bitstring: string)
    ensures bitstring == Encode(a, SortedKeys(a.Keys))
  {
    var keys := SortedKeys(a.Keys);
    bitstring := "";
    for i := 0 to |keys|
      invariant bitstring == Encode(a, keys[..i])
    {
      if a[keys[i]] {
        bitstring := bitstring + "1";
      } else {
        bitstring := bitstring + "0";
      }
    }
    assert keys[..|keys|] == keys;
  }

  /** Reads a bit string back against a list of names. */
  function Decode(keys: seq<string>, bits: string): (r: Assignment)
    requires |bits| == |keys|
    ensures r.Keys == Vars(keys)
  {
    if |keys| == 0 then map[]
    else Decode(keys[1..], bits[1..])[keys[0] := bits[0] == '1']
  }

  lemma {:induction false} DecodeEncode(a: Assignment, keys: seq<string>)
    requires Distinct(keys) && forall i :: 0 <= i < |keys| ==> keys[i] in a
    ensures forall k :: k in Vars(keys) ==> Decode(keys, Encode(a, keys))[k] == a[k]
  {
    if |keys| > 0 {
      var rest := keys[1..];
      assert Distinct(rest);
      assert Encode(a, keys)[1..] == Encode(a, rest);
      DecodeEncode(a, rest);
      forall k | k in Vars(keys) ensures Decode(keys, Encode(a, keys))[k] == a[k] {
        if k != keys[0] {
          var j :| 0 <= j < |keys| && keys[j] == k;
          assert k == rest[j - 1];
        }
      }
    }
  }

  lemma SortedIsDistinct(keys: seq<string>)
    requires StrictlySorted(keys)
    ensures Distinct(keys)
  {
    forall i, j | 0 <= i < j < |keys| ensures keys[i] != keys[j] {
      NameLessIrreflexive(keys[i]);
    }
  }

  /** The bit string, read against the sorted key list, gives back the assignment. */
  lemma BitStringRoundTrip(a: Assignment)
    ensures Decode(SortedKeys(a.Keys), Encode(a, SortedKeys(a.Keys))) == a
  {
    var keys := SortedKeys(a.Keys);
    SortedIsDistinct(keys);
    DecodeEncode(a, keys);
    var d := Decode(keys, Encode(a, keys));
    assert d.Keys == a.Keys;
  }
}
