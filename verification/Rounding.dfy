/** Cents out of exact percentages: rounding half away from zero, and truncation toward zero. */
module Rounding {

  /** math.Round */
  function Round(x: real): int {
    if x >= 0.0 then (x + 0.5).Floor else -((-x + 0.5).Floor)
  }

  /** Conversion of a float to an integer type. */
  function Trunc(x: real): int {
    if x >= 0.0 then x.Floor else -((-x).Floor)
  }

  function Abs(x: real): real {
    if x >= 0.0 then x else -x
  }

  /** The part of a sale, in cents, that a percentage stands for. */
  function Share(sale: int, pct: real): real {
    sale as real * pct / 100.0
  }

  lemma {:induction false} RoundError(x: real)
    ensures Abs(Round(x) as real - x) <= 0.5
  {
  }

  lemma {:induction false} RoundMonotone(x: real, y: real)
    requires x <= y
    ensures Round(x) <= Round(y)
  {
  }

  lemma {:induction false} RoundInt(n: int)
    ensures Round(n as real) == n
  {
  }

  lemma {:induction false} RoundAtMostIff(x: real, n: nat)
    ensures Round(x) <= n <==> x < n as real + 0.5
  {
  }

  lemma {:induction false} ShareMonotone(s: int, t: int, p: real, q: real)
    requires 0 <= s <= t && 0.0 <= p <= q
    ensures Share(s, p) <= Share(t, q)
  {
  }

  lemma {:induction false} ShareAdds(s: int, p: real, q: real)
    ensures Share(s, p + q) == Share(s, p) + Share(s, q)
  {
  }

  lemma {:induction false} SharesAdd(s: int, t: int, p: real)
    ensures Share(s + t, p) == Share(s, p) + Share(t, p)
  {
  }

  /** Two rounded parts against the rounded whole. */
  lemma {:induction false} RoundParts(a: real, b: real, m: real)
    requires a >= 0.0 && b >= 0.0 && a + b <= m
    ensures Round(a) + Round(b) <= Round(m) + 1
    ensures a + b == m ==> Round(m) - 1 <= Round(a) + Round(b)
  {
  }

  /** A sale on which a positive difference in percentage is worth at least one cent. */
  lemma {:induction false} SaleThatShows(p: real, q: real) returns (sale: int)
    requires p < q
    ensures sale > 0 && Share(sale, q) >= Share(sale, p) + 1.0
  {
    var gap := (q - p) / 100.0;
    sale := (1.0 / gap).Floor + 1;
    assert sale as real >= 1.0 / gap;
    assert sale as real * gap >= 1.0 / gap * gap == 1.0;
    assert Share(sale, q) - Share(sale, p) == sale as real * gap;
  }

  /** One percentage pays at most what another pays on every sale exactly when it is no larger. */
  lemma {:induction false} PaysAtMostIff(p: real, q: real)
    ensures (forall sale: int :: sale > 0 ==> Round(Share(sale, p)) <= Round(Share(sale, q))) <==> p <= q
  {
    if p <= q {
      forall sale: int | sale > 0 ensures Round(Share(sale, p)) <= Round(Share(sale, q)) {
        assert sale as real * p <= sale as real * q;
        RoundMonotone(Share(sale, p), Share(sale, q));
      }
    } else {
      var sale := SaleThatShows(q, p);
      RoundPlusOne(Share(sale, q), Share(sale, p));
    }
  }

  lemma {:induction false} RoundPlusOne(x: real, y: real)
    requires y >= x + 1.0
    ensures Round(y) > Round(x)
  {
  }

  function Total(sales: seq<int>): int {
    if sales == [] then 0 else Total(sales[..|sales| - 1]) + sales[|sales| - 1]
  }

  function RoundedTotal(sales: seq<int>, pct: real): int {
    if sales == [] then 0 else RoundedTotal(sales[..|sales| - 1], pct) + Round(Share(sales[|sales| - 1], pct))
  }

  predicate NoneNegative(sales: seq<int>) {
    forall i :: 0 <= i < |sales| ==> sales[i] >= 0
  }

  /** Rounding up happens from a half on, so the error is half-open. */
  lemma {:induction false} RoundErrorAbove(x: real)
    requires x >= 0.0
    ensures -0.5 < Round(x) as real - x <= 0.5
  {
  }

  lemma {:induction false} DriftPerSale(sales: seq<int>, pct: real)
    requires NoneNegative(sales) && pct >= 0.0
    ensures Total(sales) >= 0
    ensures var d, n := RoundedTotal(sales, pct) as real - Share(Total(sales), pct), |sales| as real;
            d <= n / 2.0 && if sales == [] then d == 0.0 else -n / 2.0 < d
  {
    if sales != [] {
      var front, last := sales[..|sales| - 1], sales[|sales| - 1];
      DriftPerSale(front, pct);
      SharesAdd(Total(front), last, pct);
      ShareMonotone(0, last, 0.0, pct);
      RoundErrorAbove(Share(last, pct));
    }
  }

  function Drift(sales: seq<int>, pct: real): int {
    RoundedTotal(sales, pct) - Round(Share(Total(sales), pct))
  }

  lemma {:induction false} DriftAbove(sales: seq<int>, pct: real)
    requires NoneNegative(sales) && pct >= 0.0
    ensures -|sales| <= 2 * Drift(sales, pct) <= |sales|
  {
    DriftPerSale(sales, pct);
    ShareMonotone(0, Total(sales), 0.0, pct);
    RoundErrorAbove(Share(Total(sales), pct));
    if sales == [] {
      assert Share(0, pct) == 0.0;
    }
  }

  lemma {:induction false} RoundedTotalMirrors(sales: seq<int>, pct: real)
    ensures RoundedTotal(sales, -pct) == -RoundedTotal(sales, pct)
  {
    if sales != [] {
      RoundedTotalMirrors(sales[..|sales| - 1], pct);
      ShareMirrors(sales[|sales| - 1], pct);
    }
  }

  lemma {:induction false} ShareMirrors(sale: int, pct: real)
    ensures Share(sale, -pct) == -Share(sale, pct)
    ensures Round(Share(sale, -pct)) == -Round(Share(sale, pct))
  {
    assert sale as real * -pct == -(sale as real * pct);
  }

  /** Paying n sales one by one drifts from paying on their sum by at most n / 2 cents either way,
      for any percentage. */
  lemma {:induction false} RoundingDrift(sales: seq<int>, pct: real)
    requires NoneNegative(sales)
    ensures -|sales| <= 2 * Drift(sales, pct) <= |sales|
  {
    if pct >= 0.0 {
      DriftAbove(sales, pct);
    } else {
      DriftAbove(sales, -pct);
      RoundedTotalMirrors(sales, -pct);
      ShareMirrors(Total(sales), -pct);
    }
  }

  /** n sales of one cent. */
  function Ones(n: nat): seq<int> {
    if n == 0 then [] else Ones(n - 1) + [1]
  }

  lemma {:induction false} OnesTotals(n: nat, pct: real)
    ensures NoneNegative(Ones(n)) && |Ones(n)| == n && Total(Ones(n)) == n
    ensures RoundedTotal(Ones(n), pct) == n * Round(Share(1, pct))
  {
    if n > 0 {
      OnesTotals(n - 1, pct);
      assert Ones(n)[..n - 1] == Ones(n - 1);
      Product(n - 1, Round(Share(1, pct)));
    }
  }

  lemma Product(n: int, r: int)
    ensures n * r + r == (n + 1) * r
  {
  }

  /** The percentage just below 50 that n sales of a cent do not make up for. */
  function JustBelow(n: nat): real {
    50.0 - 25.0 / (n + 1) as real
  }

  lemma {:induction false} DriftUp(n: nat)
    ensures Drift(Ones(n), 50.0) == n / 2
  {
    OnesTotals(n, 50.0);
    assert Round(Share(1, 50.0)) == 1;
    HalfDown(n, 0.0);
    assert Share(n, 50.0) == n as real / 2.0;
    assert Round(n as real / 2.0) == (n + 1) / 2;
  }

  lemma {:induction false} DriftDown(n: nat)
    ensures Drift(Ones(n), JustBelow(n)) == -(n / 2)
  {
    var gap := 25.0 / (n + 1) as real;
    OnesTotals(n, JustBelow(n));
    BelowAQuarter(n, gap);
    assert Round(Share(1, JustBelow(n))) == 0;
    ShareAdds(n, JustBelow(n), gap);
    assert Share(n, 50.0) == n as real / 2.0;
    HalfDown(n, Share(n, gap));
  }

  /** Both ends of the bound are reached for every n, by percentages at and just below 50. */
  lemma {:induction false} DriftReached(n: nat)
    ensures |Ones(n)| == n && NoneNegative(Ones(n))
    ensures Drift(Ones(n), 50.0) == n / 2 && Drift(Ones(n), JustBelow(n)) == -(n / 2)
  {
    OnesTotals(n, 50.0);
    DriftUp(n);
    DriftDown(n);
  }

  lemma {:induction false} BelowAQuarter(n: nat, gap: real)
    requires gap == 25.0 / (n + 1) as real
    ensures 0.0 < gap <= 25.0
    ensures 0.0 <= Share(n, gap) < 0.25
    ensures n > 0 ==> Share(n, gap) > 0.0
  {
    assert (n + 1) as real * gap == 25.0;
    assert n as real * gap == 25.0 - gap;
  }

  lemma {:induction false} HalfDown(n: nat, d: real)
    requires 0.0 <= d < 0.25
    ensures d > 0.0 || n == 0 ==> Round(n as real / 2.0 - d) == n / 2
    ensures Round(n as real / 2.0) == (n + 1) / 2
  {
    var m := n / 2;
    assert n as real / 2.0 == m as real + (if n % 2 == 0 then 0.0 else 0.5);
  }
}
