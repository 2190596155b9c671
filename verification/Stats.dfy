/** The latency summary of the browser comparison, over exact rational arithmetic. */
module Stats {
  import opened Sorting

  datatype Summary = Empty | Summary(n: nat, p50: real, p95: real, least: real, greatest: real)

  predicate RealLeq(x: real, y: real) { x <= y }

  /** Smallest integer not below 19n/20. */
  function Rank95(n: nat): (r: nat)
    ensures 20 * r >= 19 * n && (r > 0 ==> 20 * (r - 1) < 19 * n)
    ensures n > 0 ==> 1 <= r <= n
  {
    (19 * n + 19) / 20
  }

  /** The double nearest to 0.95. */
  const DOUBLE95: real := 4278419646001971.0 / 4503599627370496.0

  function Ceiling(x: real): int { -((-x).Floor) }

  /** `r` is a double-precision rounding of `x`: the relative error is at most 2^-53, and rounding
      does not pass the integer above `x`, which is a double itself. */
  ghost predicate Rounds(x: real, r: real)
  {
    && x - x / 9007199254740992.0 <= r <= x + x / 9007199254740992.0
    && r <= Ceiling(x) as real
  }

  /** Multiplying by the double 0.95 and rounding gives the same rank, for up to 2^48 samples. */
  lemma RankSurvivesRounding(n: nat, r: real)
    requires 0 < n <= 281474976710656 && Rounds(n as real * DOUBLE95, r)
    ensures Ceiling(r) == Rank95(n)
  {
    var k := Rank95(n);
    RankAround(n, k, r);
    CeilingBelow(n as real * DOUBLE95, k);
    CeilingIs(r, k);
  }

  lemma RankAround(n: nat, k: int, r: real)
    requires 0 < n <= 281474976710656 && 20 * k >= 19 * n && 20 * (k - 1) < 19 * n
    requires r >= n as real * DOUBLE95 - n as real * DOUBLE95 / 9007199254740992.0
    ensures n as real * DOUBLE95 <= k as real && (k - 1) as real < r
  {
    assert 20.0 * k as real >= 19.0 * n as real;
    assert 20.0 * (k - 1) as real + 1.0 <= 19.0 * n as real;
  }

  lemma CeilingBelow(x: real, k: int)
    requires x <= k as real
    ensures Ceiling(x) <= k
  {
  }

  lemma CeilingIs(x: real, k: int)
    requires (k - 1) as real < x <= k as real
    ensures Ceiling(x) == k
  {
  }

  function Median(sorted: seq<real>): real
    requires sorted != []
  {
    var n := |sorted|;
    if n % 2 == 1 then sorted[n / 2] else (sorted[n / 2 - 1] + sorted[n / 2]) / 2.0
  }

  function Summarize(values: seq<real>): Summary
  {
    SummaryOf(Sort(values, RealLeq))
  }

  function SummaryOf(sorted: seq<real>): Summary
  {
    if sorted == [] then Empty
    else Summary(|sorted|, Median(sorted), sorted[Rank95(|sorted|) - 1], sorted[0], sorted[|sorted| - 1])
  }

  /** How many samples are at most `v`. */
  function AtMost(values: seq<real>, v: real): nat
  {
    if values == [] then 0 else AtMost(values[..|values| - 1], v) + if values[|values| - 1] <= v then 1 else 0
  }

  lemma RealOrderTotal()
    ensures TotalOrder(RealLeq)
  {
  }

  lemma SameArrangement(a: seq<real>, b: seq<real>)
    requires multiset(a) == multiset(b)
    ensures Sort(a, RealLeq) == Sort(b, RealLeq)
  {
    RealOrderTotal();
    SortSorts(a, RealLeq);
    SortSorts(b, RealLeq);
    OrderedUnique(Sort(a, RealLeq), Sort(b, RealLeq), RealLeq);
  }

  /** Any reordering of the samples has the same summary. */
  lemma PermutationInvariant(a: seq<real>, b: seq<real>)
    requires multiset(a) == multiset(b)
    ensures Summarize(a) == Summarize(b)
  {
    SameArrangement(a, b);
  }

  lemma Arrangement(values: seq<real>)
    ensures var s := Sort(values, RealLeq);
            Ordered(s, RealLeq) && |s| == |values| && (forall v :: v in s <==> v in values)
  {
    RealOrderTotal();
    SortSorts(values, RealLeq);
    var s := Sort(values, RealLeq);
    assert |s| == |multiset(s)| == |multiset(values)| == |values|;
    assert forall v :: v in s <==> v in multiset(s);
    assert forall v :: v in values <==> v in multiset(values);
  }

  lemma {:induction false} InsertAtMost(s: seq<real>, x: real, v: real)
    ensures AtMost(Insert(s, x, RealLeq), v) == AtMost(s, v) + if x <= v then 1 else 0
  {
    if s == [] || s[|s| - 1] <= x {
      assert (s + [x])[..|s|] == s;
    } else {
      InsertAtMost(s[..|s| - 1], x, v);
      var r := Insert(s[..|s| - 1], x, RealLeq);
      assert (r + [s[|s| - 1]])[..|r|] == r;
    }
  }

  lemma {:induction false} SortAtMost(s: seq<real>, v: real)
    ensures AtMost(Sort(s, RealLeq), v) == AtMost(s, v)
  {
    if s != [] {
      SortAtMost(s[..|s| - 1], v);
      InsertAtMost(Sort(s[..|s| - 1], RealLeq), s[|s| - 1], v);
    }
  }

  /** In an ordered list the samples at most `v` are a prefix. */
  lemma {:induction false} AtMostIsPrefix(s: seq<real>, v: real, i: nat)
    requires Ordered(s, RealLeq) && i < |s|
    ensures AtMost(s, v) <= |s|
    ensures s[i] <= v <==> AtMost(s, v) > i
  {
    var n := |s|;
    if n > 1 {
      AtMostIsPrefix(s[..n - 1], v, if i < n - 1 then i else n - 2);
    }
    assert i < n - 1 ==> RealLeq(s[i], s[n - 1]);
    assert n > 1 ==> RealLeq(s[n - 2], s[n - 1]);
  }

  /** The least sample with at least half of the samples at or below it. */
  ghost predicate LowerMedian(values: seq<real>, m: real)
  {
    && m in values && 2 * AtMost(values, m) >= |values|
    && forall v :: v in values && 2 * AtMost(values, v) >= |values| ==> m <= v
  }

  /** The least sample with more than half of the samples at or below it. */
  ghost predicate UpperMedian(values: seq<real>, m: real)
  {
    && m in values && 2 * AtMost(values, m) > |values|
    && forall v :: v in values && 2 * AtMost(values, v) > |values| ==> m <= v
  }

  /** `r` has the extremes and quantiles of the sample in order, the extremes bound it, p50 is
      midway between the two medians, and p95 is the least sample with at least 95% of the
      samples at or below it. */
  ghost predicate Describes(r: Summary, values: seq<real>)
  {
    && r.Summary? && r.n == |values|
    && r.least <= r.p50 <= r.p95 <= r.greatest
    && r.least in values && r.greatest in values && (forall v :: v in values ==> r.least <= v <= r.greatest)
    && (exists lower, upper ::
          LowerMedian(values, lower) && UpperMedian(values, upper) && r.p50 == (lower + upper) / 2.0)
    && r.p95 in values && 20 * AtMost(values, r.p95) >= 19 * |values|
    && (forall v :: v in values && 20 * AtMost(values, v) >= 19 * |values| ==> r.p95 <= v)
  }

  /** How many of the samples are at most `v`, by their indices. */
  ghost function IndicesAtMost(values: seq<real>, v: real): (r: set<int>)
    ensures forall i :: i in r <==> 0 <= i < |values| && values[i] <= v
  {
    set i | 0 <= i < |values| && values[i] <= v
  }

  lemma {:induction false} AtMostIsCount(values: seq<real>, v: real)
    ensures AtMost(values, v) == |IndicesAtMost(values, v)|
  {
    if values != [] {
      var n := |values| - 1;
      AtMostIsCount(values[..n], v);
      assert IndicesAtMost(values, v) == IndicesAtMost(values[..n], v) + if values[n] <= v then {n} else {};
    }
  }

  /** The extremes and quantiles are in order, the extremes are samples and bound all of them, p50 is
      midway between the two medians, and p95 is the least sample with at least 95% of the samples
      at or below it. */
  lemma SummaryMeaning(values: seq<real>)
    ensures values == [] ==> Summarize(values) == Empty
    ensures values != [] ==>
      var r := Summarize(values);
      && r.Summary? && r.n == |values|
      && r.least <= r.p50 <= r.p95 <= r.greatest
      && r.least in values && r.greatest in values && (forall v :: v in values ==> r.least <= v <= r.greatest)
      && (exists lower, upper ::
            LowerMedian(values, lower) && UpperMedian(values, upper) && r.p50 == (lower + upper) / 2.0)
      && r.p95 in values && 20 * AtMost(values, r.p95) >= 19 * |values|
      && (forall v :: v in values && 20 * AtMost(values, v) >= 19 * |values| ==> r.p95 <= v)
  {
    if values != [] {
      var s := Sort(values, RealLeq);
      Arrangement(values);
      OrderedSummary(s);
      forall v ensures AtMost(s, v) == AtMost(values, v) { SortAtMost(values, v); }
      SameSamples(SummaryOf(s), s, values);
    }
  }

  lemma SameSamples(r: Summary, s: seq<real>, values: seq<real>)
    requires Describes(r, s) && |s| == |values| && (forall v :: v in s <==> v in values)
    requires forall v :: AtMost(s, v) == AtMost(values, v)
    ensures Describes(r, values)
  {
    var lower, upper :| LowerMedian(s, lower) && UpperMedian(s, upper) && r.p50 == (lower + upper) / 2.0;
    assert LowerMedian(values, lower) && UpperMedian(values, upper);
  }

  lemma Medians(s: seq<real>)
    requires s != [] && Ordered(s, RealLeq)
    ensures LowerMedian(s, s[(|s| - 1) / 2]) && UpperMedian(s, s[|s| / 2])
  {
    var i, j := (|s| - 1) / 2, |s| / 2;
    forall v ensures 2 * AtMost(s, v) >= |s| <==> s[i] <= v { AtMostIsPrefix(s, v, i); }
    forall v ensures 2 * AtMost(s, v) > |s| <==> s[j] <= v { AtMostIsPrefix(s, v, j); }
  }

  lemma OrderedSummary(s: seq<real>)
    requires s != [] && Ordered(s, RealLeq)
    ensures Describes(SummaryOf(s), s)
  {
    var n := |s|;
    var k := Rank95(n) - 1;
    forall i, j | 0 <= i <= j < n ensures s[i] <= s[j] { assert i < j ==> RealLeq(s[i], s[j]); }
    forall v ensures 20 * AtMost(s, v) >= 19 * n ==> s[k] <= v { AtMostIsPrefix(s, v, k); }
    AtMostIsPrefix(s, s[k], k);
    assert n / 2 <= k;
    Medians(s);
    assert Median(s) == (s[(n - 1) / 2] + s[n / 2]) / 2.0;
  }
}
