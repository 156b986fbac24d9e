/**
 * The names the state-symbolic encoding gives to what it quantifies:
 * a base followed by a decimal index (`s0`, `sp3`, `t_1`, Swift's
 * `"\(base)\(i)"`), and `l_` resp. `ls_` followed by an automaton state
 * (`"l_\(q)"`, `"ls_\(q)"`).
 */
module Naming {

  // ---------------------------------------------------------------------
  // Decimal rendering of an index

  function Digit(d: nat): (c: char)
    requires d < 10
  {
    (48 + d) as char
  }

  function DigitValue(c: char): nat
    requires '0' <= c <= '9'
  {
    c as int - 48
  }

  /** `"\(n)"` for a non-negative `n`: its decimal digits, with no leading zero. */
  function Decimal(n: nat): (r: string)
    ensures |r| > 0 && forall k :: 0 <= k < |r| ==> '0' <= r[k] <= '9'
    ensures |r| > 1 ==> r[0] != '0'
    decreases n
  {
    if n < 10 then [Digit(n)]
    else
      var r := Decimal(n / 10) + [Digit(n % 10)];
      assert r[0] == Decimal(n / 10)[0];
      r
  }

  /** The number a string of decimal digits stands for. */
  function ValueOf(s: string): nat
    requires forall k :: 0 <= k < |s| ==> '0' <= s[k] <= '9'
    decreases |s|
  {
    if |s| == 0 then 0 else 10 * ValueOf(s[..|s| - 1]) + DigitValue(s[|s| - 1])
  }

  /** Reading the rendered digits back gives the number. */
  lemma {:induction false} DecimalRoundTrip(n: nat)
    ensures ValueOf(Decimal(n)) == n
    decreases n
  {
    if n >= 10 {
      var r := Decimal(n);
      assert r[..|r| - 1] == Decimal(n / 10);
      DecimalRoundTrip(n / 10);
    }
  }

  lemma DecimalInjective(m: nat, n: nat)
    requires Decimal(m) == Decimal(n)
    ensures m == n
  {
    DecimalRoundTrip(m);
    DecimalRoundTrip(n);
  }

  // ---------------------------------------------------------------------
  // The generated names

  /** `"\(base)\(i)"`. */
  function Indexed(base: string, i: nat): string {
    base + Decimal(i)
  }

  /** The names `base0`, …, `base(n-1)`, as `(0..<n).map { … }` builds them. */
  function IndexedNames(base: string, n: nat): seq<string> {
    seq(n, i requires 0 <= i < n => Indexed(base, i))
  }

  /** `lambdaProposition(q)`'s name. */
  function LambdaName(q: string): string {
    "l_" + q
  }

  /** `lambdaSharpProposition(q)`'s name. */
  function LambdaSharpName(q: string): string {
    "ls_" + q
  }

  /** Within one family of indexed names, different indices give different names. */
  lemma IndexedInjective(base: string, i: nat, j: nat)
    requires Indexed(base, i) == Indexed(base, j)
    ensures i == j
  {
    assert Decimal(i) == Indexed(base, i)[|base|..];
    assert Decimal(j) == Indexed(base, j)[|base|..];
    DecimalInjective(i, j);
  }

  /** The state bits `s…` and the next-state bits `sp…` never share a name. */
  lemma StateFamiliesDisjoint(i: nat, j: nat)
    ensures Indexed("s", i) != Indexed("sp", j)
  {
    assert Indexed("s", i)[1] == Decimal(i)[0];
    assert Indexed("sp", j)[1] == 'p';
  }

  /** Annotation names of different states differ, and never meet the ranking names or an indexed name. */
  lemma AnnotationNamesDistinct(q: string, r: string, base: string, i: nat)
    requires base in ["s", "sp", "t_"]
    ensures LambdaName(q) == LambdaName(r) ==> q == r
    ensures LambdaSharpName(q) == LambdaSharpName(r) ==> q == r
    ensures LambdaName(q) != LambdaSharpName(r)
    ensures LambdaName(q) != Indexed(base, i) && LambdaSharpName(q) != Indexed(base, i)
  {
    assert LambdaName(q)[1] == '_' && LambdaSharpName(r)[1] == 's';
    assert LambdaName(q)[0] == 'l' && LambdaSharpName(q)[0] == 'l' && Indexed(base, i)[0] != 'l';
    if LambdaName(q) == LambdaName(r) {
      assert q == LambdaName(q)[2..];
    }
    if LambdaSharpName(q) == LambdaSharpName(r) {
      assert q == LambdaSharpName(q)[3..];
    }
  }
}
