/** Sums of an integer function over finite sets. */
module FiniteSums {

  ghost function SumOver<T>(f: T -> int, s: set<T>): int {
    if s == {} then 0
    else
      var x :| x in s;
      f(x) + SumOver(f, s - {x})
  }

  /** Any element may be taken out first. */
  lemma {:induction false} SumRemove<T>(f: T -> int, s: set<T>, x: T)
    requires x in s
    ensures SumOver(f, s) == f(x) + SumOver(f, s - {x})
    decreases s
  {
    var y :| y in s && SumOver(f, s) == f(y) + SumOver(f, s - {y});
    if y != x {
      SumRemove(f, s - {y}, x);
      SumRemove(f, s - {x}, y);
      assert s - {y} - {x} == s - {x} - {y};
    }
  }

  lemma {:induction false} SumDisjoint<T>(f: T -> int, a: set<T>, b: set<T>)
    requires a !! b
    ensures SumOver(f, a + b) == SumOver(f, a) + SumOver(f, b)
    decreases b
  {
    if b == {} {
      assert a + b == a;
    } else {
      var x :| x in b;
      SumDisjoint(f, a, b - {x});
      SumRemove(f, a + b, x);
      SumRemove(f, b, x);
      assert a + b - {x} == a + (b - {x});
    }
  }

  lemma {:induction false} SumNonNegative<T>(f: T -> int, s: set<T>)
    requires forall x :: x in s ==> f(x) >= 0
    ensures SumOver(f, s) >= 0
    decreases s
  {
    if s != {} {
      var x :| x in s;
      SumRemove(f, s, x);
      SumNonNegative(f, s - {x});
    }
  }

  lemma {:induction false} SumOverCongruent<T>(f: T -> int, g: T -> int, s: set<T>)
    requires forall x :: x in s ==> f(x) == g(x)
    ensures SumOver(f, s) == SumOver(g, s)
    decreases s
  {
    if s != {} {
      var x :| x in s;
      SumRemove(f, s, x);
      SumRemove(g, s, x);
      SumOverCongruent(f, g, s - {x});
    }
  }

  lemma {:induction false} SumZero<T>(f: T -> int, s: set<T>)
    requires forall x :: x in s ==> f(x) == 0
    ensures SumOver(f, s) == 0
    decreases s
  {
    if s != {} {
      var x :| x in s;
      SumRemove(f, s, x);
      SumZero(f, s - {x});
    }
  }

  lemma {:induction false} SumPlus<T>(f: T -> int, g: T -> int, h: T -> int, s: set<T>)
    requires forall x :: x in s ==> h(x) == f(x) + g(x)
    ensures SumOver(h, s) == SumOver(f, s) + SumOver(g, s)
    decreases s
  {
    if s != {} {
      var x :| x in s;
      SumRemove(f, s, x);
      SumRemove(g, s, x);
      SumRemove(h, s, x);
      SumPlus(f, g, h, s - {x});
    }
  }

  /** Terms outside a part of the set may be counted as zero. */
  lemma {:induction false} SumRestrict<T>(f: T -> int, g: T -> int, s: set<T>, part: set<T>)
    requires part <= s && forall x :: x in s ==> g(x) == if x in part then f(x) else 0
    ensures SumOver(g, s) == SumOver(f, part)
  {
    assert s == part + (s - part);
    SumDisjoint(g, part, s - part);
    SumZero(g, s - part);
    SumOverCongruent(g, f, part);
  }

  /** Terms that are not negative add up to nothing only if each is nothing. */
  lemma {:induction false} SumZeroIff<T>(f: T -> int, s: set<T>)
    requires forall x :: x in s ==> f(x) >= 0
    ensures SumOver(f, s) == 0 <==> forall x :: x in s ==> f(x) == 0
  {
    if y :| y in s && f(y) != 0 {
      SumRemove(f, s, y);
      SumNonNegative(f, s - {y});
    } else {
      SumZero(f, s);
    }
  }

  function SumSeq<T>(f: T -> int, s: seq<T>): int {
    if s == [] then 0 else SumSeq(f, s[..|s| - 1]) + f(s[|s| - 1])
  }

  predicate Distinct<T(==)>(s: seq<T>) {
    forall i, j :: 0 <= i < j < |s| ==> s[i] != s[j]
  }

  function Elements<T>(s: seq<T>): set<T> {
    set x | x in s
  }

  /** Over distinct elements the order of summation does not matter. */
  lemma {:induction false} SumSeqIsSumOver<T>(f: T -> int, s: seq<T>)
    requires Distinct(s)
    ensures SumSeq(f, s) == SumOver(f, Elements(s))
  {
    if s != [] {
      var front, x := s[..|s| - 1], s[|s| - 1];
      SumSeqIsSumOver(f, front);
      assert s == front + [x];
      assert Elements(s) == Elements(front) + {x};
      assert x !in front;
      SumRemove(f, Elements(s), x);
      assert Elements(s) - {x} == Elements(front);
    }
  }

  lemma {:induction false} SumSeqCongruent<T>(f: T -> int, g: T -> int, s: seq<T>)
    requires forall x :: x in s ==> f(x) == g(x)
    ensures SumSeq(f, s) == SumSeq(g, s)
  {
    if s != [] {
      SumSeqCongruent(f, g, s[..|s| - 1]);
    }
  }
}
