/**
 * Bit vectors of propositions, most significant bit first, and `order`, the
 * formula comparing two of them.
 */
module BitVectors {
  import opened Formulas
  import opened FormulaLaws

  function Pow2(n: nat): (r: nat)
    ensures r >= 1
  {
    if n == 0 then 1 else 2 * Pow2(n - 1)
  }

  /** The unsigned value of a bit sequence, most significant bit first. */
  function Value(bits: seq<bool>): nat {
    if |bits| == 0 then 0
    else (if bits[0] then Pow2(|bits| - 1) else 0) + Value(bits[1..])
  }

  /** The bits a valuation gives to a vector of propositions. */
  function Bits(names: seq<string>, v: Valuation): (r: seq<bool>)
    ensures |r| == |names|
    ensures forall i :: 0 <= i < |names| ==> r[i] == v(names[i])
  {
    seq(|names|, i requires 0 <= i < |names| => v(names[i]))
  }

  lemma {:induction false} ValueBound(bits: seq<bool>)
    ensures Value(bits) < Pow2(|bits|)
  {
    if |bits| > 0 {
      ValueBound(bits[1..]);
    }
  }

  /** Appending a least significant bit doubles the value and adds the bit. */
  lemma {:induction false} ValueSnoc(bits: seq<bool>, b: bool)
    ensures Value(bits + [b]) == 2 * Value(bits) + (if b then 1 else 0)
  {
    if |bits| > 0 {
      assert (bits + [b])[1..] == bits[1..] + [b];
      ValueSnoc(bits[1..], b);
    } else {
      assert (bits + [b])[1..] == [];
    }
  }

  /**
   * `order(binaryLhs:binaryRhs:strict:)`: at each position the left bit is
   * greater (`l ∧ ¬r`), or both are equal (`l ↔ r`) and the rest decides;
   * the last position is decided by `greater` when strict and `equiv` otherwise.
   */
  function Order(lhs: seq<string>, rhs: seq<string>, strict: bool): (r: Formula)
    requires |lhs| == |rhs| >= 1
    ensures Classical(r)
    decreases |lhs|
  {
    var greater := MkAnd(Proposition(lhs[0]), MkNot(Proposition(rhs[0])));
    var equiv := NAry(Xnor, [Proposition(lhs[0]), Proposition(rhs[0])]);
    if |lhs| > 1 then MkOr(greater, MkAnd(equiv, Order(lhs[1..], rhs[1..], strict)))
    else if strict then greater
    else equiv
  }

  lemma OrderSingleBit(l: string, r: string)
    ensures Order([l], [r], true) == NAry(And, [Proposition(l), Not(Proposition(r))])
    ensures Order([l], [r], false) == NAry(Xnor, [Proposition(l), Proposition(r)])
  {
  }

  /** The holding of one `order` step: greater here, or equal here and the rest holds. */
  lemma OrderStep(lhs: seq<string>, rhs: seq<string>, strict: bool, v: Valuation)
    requires |lhs| == |rhs| >= 1
    ensures |lhs| > 1 ==> (Holds(Order(lhs, rhs, strict), v) <==>
      (v(lhs[0]) && !v(rhs[0])) || (v(lhs[0]) == v(rhs[0]) && Holds(Order(lhs[1..], rhs[1..], strict), v)))
    ensures |lhs| == 1 ==> (Holds(Order(lhs, rhs, strict), v) <==>
      if strict then v(lhs[0]) && !v(rhs[0]) else v(lhs[0]) == v(rhs[0]))
  {
    var pl, pr := Proposition(lhs[0]), Proposition(rhs[0]);
    var greater := MkAnd(pl, MkNot(pr));
    var equiv := NAry(Xnor, [pl, pr]);
    MkNotHolds(pr, v);
    MkAndHolds(pl, MkNot(pr), v);
    if |lhs| > 1 {
      var rest := Order(lhs[1..], rhs[1..], strict);
      MkAndHolds(equiv, rest, v);
      MkOrHolds(greater, MkAnd(equiv, rest), v);
    }
  }

  /** Comparing values most significant bit first. */
  lemma ValueCompare(x: seq<bool>, y: seq<bool>)
    requires |x| == |y| >= 1
    ensures Value(x) > Value(y) <==>
      (x[0] && !y[0]) || (x[0] == y[0] && Value(x[1..]) > Value(y[1..]))
  {
    ValueBound(x[1..]);
    ValueBound(y[1..]);
  }

  /** Strict `order` holds exactly when the left vector's value exceeds the right one's. */
  lemma {:induction false} OrderStrictMeansGreater(lhs: seq<string>, rhs: seq<string>, v: Valuation)
    requires |lhs| == |rhs| >= 1
    ensures Holds(Order(lhs, rhs, true), v) <==> Value(Bits(lhs, v)) > Value(Bits(rhs, v))
    decreases |lhs|
  {
    OrderStep(lhs, rhs, true, v);
    var x, y := Bits(lhs, v), Bits(rhs, v);
    ValueCompare(x, y);
    if |lhs| > 1 {
      OrderStrictMeansGreater(lhs[1..], rhs[1..], v);
      assert x[1..] == Bits(lhs[1..], v);
      assert y[1..] == Bits(rhs[1..], v);
    } else {
      assert x[1..] == [] && y[1..] == [];
    }
  }

  /** The bits of a vector without its first name are the vector's bits without the first. */
  lemma BitsTail(names: seq<string>, v: Valuation)
    requires |names| >= 1
    ensures Bits(names[1..], v) == Bits(names, v)[1..]
  {
  }

  /** Non-strict `order` on bit values: greater here, or equal here and the rest holds; equal at the last bit. */
  function AtLeastOnPrefix(x: seq<bool>, y: seq<bool>): bool
    requires |x| == |y| >= 1
    decreases |x|
  {
    if |x| > 1 then (x[0] && !y[0]) || (x[0] == y[0] && AtLeastOnPrefix(x[1..], y[1..]))
    else x[0] == y[0]
  }

  /** Non-strict `order` holds exactly when its bit comparison does. */
  lemma {:induction false} OrderNonStrictBits(lhs: seq<string>, rhs: seq<string>, v: Valuation)
    requires |lhs| == |rhs| >= 1
    ensures Holds(Order(lhs, rhs, false), v) == AtLeastOnPrefix(Bits(lhs, v), Bits(rhs, v))
    decreases |lhs|
  {
    OrderStep(lhs, rhs, false, v);
    if |lhs| > 1 {
      OrderNonStrictBits(lhs[1..], rhs[1..], v);
      BitsTail(lhs, v);
      BitsTail(rhs, v);
    }
  }

  /** The bit comparison: all bits agree, or the value without the last bit is greater. */
  lemma {:induction false} AtLeastOnPrefixMeaning(x: seq<bool>, y: seq<bool>)
    requires |x| == |y| >= 1
    ensures AtLeastOnPrefix(x, y) <==> x == y || Value(x[..|x| - 1]) > Value(y[..|y| - 1])
    decreases |x|
  {
    var n := |x|;
    var xp, yp := x[..n - 1], y[..n - 1];
    if n > 1 {
      AtLeastOnPrefixMeaning(x[1..], y[1..]);
      assert x[1..][..n - 2] == xp[1..] && y[1..][..n - 2] == yp[1..];
      ValueCompare(xp, yp);
      assert x == [x[0]] + x[1..] && y == [y[0]] + y[1..];
    } else {
      assert xp == [] && yp == [];
      assert x == [x[0]] && y == [y[0]];
    }
  }

  /**
   * Non-strict `order` holds when the vectors agree on every bit, or when the
   * left one is greater on all bits but the last: the last bit never counts
   * in the left's favour.
   */
  lemma OrderNonStrictMeaning(lhs: seq<string>, rhs: seq<string>, v: Valuation)
    requires |lhs| == |rhs| >= 1
    ensures Holds(Order(lhs, rhs, false), v) <==>
      Bits(lhs, v) == Bits(rhs, v) ||
      Value(Bits(lhs[..|lhs| - 1], v)) > Value(Bits(rhs[..|rhs| - 1], v))
  {
    var n := |lhs|;
    OrderNonStrictBits(lhs, rhs, v);
    AtLeastOnPrefixMeaning(Bits(lhs, v), Bits(rhs, v));
    assert Bits(lhs[..n - 1], v) == Bits(lhs, v)[..n - 1];
    assert Bits(rhs[..n - 1], v) == Bits(rhs, v)[..n - 1];
  }

  /** Hence non-strict `order` is not `≥`: `01 ≥ 00`, yet the formula is false. */
  lemma OrderNonStrictIsNotGreaterOrEqual(a: string, b: string, c: string, d: string, v: Valuation)
    requires !v(a) && v(b) && !v(c) && !v(d)
    ensures Value(Bits([a, b], v)) > Value(Bits([c, d], v))
    ensures !Holds(Order([a, b], [c, d], false), v)
  {
    OrderNonStrictMeaning([a, b], [c, d], v);
    assert Bits([a, b], v) == [false, true];
    assert Bits([c, d], v) == [false, false];
    assert [a, b][..1] == [a] && [c, d][..1] == [c];
    assert Bits([a], v) == [false] && Bits([c], v) == [false];
  }
  /**
   * `order` as its name promises: identical to `Order` except that the last
   * position, when not strict, admits `greater` as well as `equiv`.
   */
  function OrderAtLeast(lhs: seq<string>, rhs: seq<string>, strict: bool): (r: Formula)
    requires |lhs| == |rhs| >= 1
    ensures Classical(r)
    decreases |lhs|
  {
    var greater := MkAnd(Proposition(lhs[0]), MkNot(Proposition(rhs[0])));
    var equiv := NAry(Xnor, [Proposition(lhs[0]), Proposition(rhs[0])]);
    if |lhs| > 1 then MkOr(greater, MkAnd(equiv, OrderAtLeast(lhs[1..], rhs[1..], strict)))
    else if strict then greater
    else MkOr(greater, equiv)
  }

  /** Comparing values most significant bit first, non-strictly. */
  lemma ValueCompareAtLeast(x: seq<bool>, y: seq<bool>)
    requires |x| == |y| >= 1
    ensures Value(x) >= Value(y) <==>
      (x[0] && !y[0]) || (x[0] == y[0] && Value(x[1..]) >= Value(y[1..]))
  {
    ValueBound(x[1..]);
    ValueBound(y[1..]);
  }

  /** The corrected comparison holds exactly when the left value is greater, or at least as great when not strict. */
  lemma {:induction false} OrderAtLeastMeaning(lhs: seq<string>, rhs: seq<string>, strict: bool, v: Valuation)
    requires |lhs| == |rhs| >= 1
    ensures Holds(OrderAtLeast(lhs, rhs, strict), v) <==>
      if strict then Value(Bits(lhs, v)) > Value(Bits(rhs, v)) else Value(Bits(lhs, v)) >= Value(Bits(rhs, v))
    decreases |lhs|
  {
    var pl, pr := Proposition(lhs[0]), Proposition(rhs[0]);
    var greater := MkAnd(pl, MkNot(pr));
    var equiv := NAry(Xnor, [pl, pr]);
    MkNotHolds(pr, v);
    MkAndHolds(pl, MkNot(pr), v);
    var x, y := Bits(lhs, v), Bits(rhs, v);
    ValueCompare(x, y);
    ValueCompareAtLeast(x, y);
    if |lhs| > 1 {
      var rest := OrderAtLeast(lhs[1..], rhs[1..], strict);
      MkAndHolds(equiv, rest, v);
      MkOrHolds(greater, MkAnd(equiv, rest), v);
      OrderAtLeastMeaning(lhs[1..], rhs[1..], strict, v);
      BitsTail(lhs, v);
      BitsTail(rhs, v);
    } else {
      MkOrHolds(greater, equiv, v);
      assert x[1..] == [] && y[1..] == [];
    }
  }

  /** On the witness of the defect the corrected comparison holds. */
  lemma OrderAtLeastOnWitness(a: string, b: string, c: string, d: string, v: Valuation)
    requires !v(a) && v(b) && !v(c) && !v(d)
    ensures Holds(OrderAtLeast([a, b], [c, d], false), v)
  {
    OrderNonStrictIsNotGreaterOrEqual(a, b, c, d, v);
    OrderAtLeastMeaning([a, b], [c, d], false, v);
  }
}
