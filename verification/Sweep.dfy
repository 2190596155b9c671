/**
 The sweep over host reservations: start and end events sorted by (time, delta),
 a running count and its maximum.
 */
module Sweep {
  import opened Sorting

  datatype Interval = Interval(start: real, end: real)
  datatype Event = Event(time: real, delta: int)

  predicate EventLeq(x: Event, y: Event)
  {
    x.time < y.time || (x.time == y.time && x.delta <= y.delta)
  }

  /** The events of the receipt checkers are +1 and -1. */
  predicate Unit(s: seq<Event>)
  {
    forall i :: 0 <= i < |s| ==> s[i].delta == 1 || s[i].delta == -1
  }

  function Sum(s: seq<Event>): int
  {
    if s == [] then 0 else Sum(s[..|s| - 1]) + s[|s| - 1].delta
  }

  /** The count in force at instant `t`, whatever the order of the events. */
  function Level(s: seq<Event>, t: real): int
  {
    if s == [] then 0
    else Level(s[..|s| - 1], t) + if s[|s| - 1].time <= t then s[|s| - 1].delta else 0
  }

  /** The running maximum, which starts at zero. */
  function Peak(s: seq<Event>): int
  {
    if s == [] then 0
    else if Sum(s) > Peak(s[..|s| - 1]) then Sum(s) else Peak(s[..|s| - 1])
  }

  /** `peak` is the maximum of the level over all instants. */
  ghost predicate IsPeak(s: seq<Event>, peak: int)
  {
    && (forall t: real :: Level(s, t) <= peak)
    && (exists t: real :: Level(s, t) == peak)
  }

  // ----- Sorting does not change sums or levels -----

  lemma {:induction false} InsertLevel(s: seq<Event>, x: Event, t: real)
    ensures Sum(Insert(s, x, EventLeq)) == Sum(s) + x.delta
    ensures Level(Insert(s, x, EventLeq), t) == Level(s, t) + if x.time <= t then x.delta else 0
    ensures Unit(s) && (x.delta == 1 || x.delta == -1) ==> Unit(Insert(s, x, EventLeq))
  {
    if s == [] || EventLeq(s[|s| - 1], x) {
      assert (s + [x])[..|s|] == s;
    } else {
      var init, last := s[..|s| - 1], s[|s| - 1];
      InsertLevel(init, x, t);
      var r := Insert(init, x, EventLeq) + [last];
      assert r[..|r| - 1] == Insert(init, x, EventLeq);
    }
  }

  lemma {:induction false} SortLevel(s: seq<Event>, t: real)
    ensures Sum(Sort(s, EventLeq)) == Sum(s)
    ensures Level(Sort(s, EventLeq), t) == Level(s, t)
    ensures Unit(s) ==> Unit(Sort(s, EventLeq))
  {
    if s != [] {
      SortLevel(s[..|s| - 1], t);
      InsertLevel(Sort(s[..|s| - 1], EventLeq), s[|s| - 1], t);
    }
  }

  // ----- On sorted events the running maximum is the maximal level -----

  lemma {:induction false} AllStarted(s: seq<Event>, t: real)
    requires forall i :: 0 <= i < |s| ==> s[i].time <= t
    ensures Level(s, t) == Sum(s)
  {
    if s != [] {
      AllStarted(s[..|s| - 1], t);
    }
  }

  lemma {:induction false} LevelBelowPeak(s: seq<Event>, t: real)
    requires Ordered(s, EventLeq)
    ensures Level(s, t) <= Peak(s)
  {
    if s != [] {
      if s[|s| - 1].time <= t {
        assert forall i :: 0 <= i < |s| - 1 ==> EventLeq(s[i], s[|s| - 1]);
        AllStarted(s, t);
      } else {
        LevelBelowPeak(s[..|s| - 1], t);
      }
    }
  }

  lemma {:induction false} PeakIsPrefixSum(s: seq<Event>) returns (k: nat)
    ensures k <= |s| && Peak(s) == Sum(s[..k])
    ensures Peak(s) >= 0
  {
    if s == [] {
      k := 0;
    } else if Sum(s) > Peak(s[..|s| - 1]) {
      k := |s|;
      var j := PeakIsPrefixSum(s[..|s| - 1]);
      assert s[..k] == s;
    } else {
      k := PeakIsPrefixSum(s[..|s| - 1]);
      assert s[..|s| - 1][..k] == s[..k];
    }
  }

  /** Events at time `t` that come after position `k` only raise the level. */
  lemma {:induction false} RestOnlyRaises(s: seq<Event>, k: nat, t: real)
    requires k <= |s|
    requires forall i :: 0 <= i < k ==> s[i].time <= t
    requires forall i :: k <= i < |s| && s[i].time <= t ==> s[i].delta >= 0
    ensures Level(s, t) >= Sum(s[..k])
  {
    if k == |s| {
      assert s[..k] == s;
      AllStarted(s, t);
    } else {
      RestOnlyRaises(s[..|s| - 1], k, t);
      assert s[..|s| - 1][..k] == s[..k];
    }
  }

  /** A positive prefix sum is reached by the level at some instant: an end sorts before a
      start at the same time, so no sum between the two overshoots. */
  lemma {:induction false} PrefixSumReached(s: seq<Event>, k: nat) returns (t: real)
    requires Ordered(s, EventLeq) && Unit(s) && k <= |s| && Sum(s[..k]) > 0
    ensures Level(s, t) >= Sum(s[..k])
  {
    var e := s[k - 1];
    assert s[..k][..k - 1] == s[..k - 1];
    if e.delta == 1 {
      t := e.time;
      assert forall i :: 0 <= i < k - 1 ==> EventLeq(s[i], e);
      assert forall i :: k <= i < |s| ==> EventLeq(e, s[i]);
      RestOnlyRaises(s, k, t);
    } else {
      t := PrefixSumReached(s, k - 1);
    }
  }

  lemma {:induction false} QuietInstant(s: seq<Event>) returns (t: real)
    ensures forall u: real :: u <= t ==> Level(s, u) == 0
  {
    if s == [] {
      t := 0.0;
    } else {
      var t' := QuietInstant(s[..|s| - 1]);
      var last := s[|s| - 1].time;
      t := if t' < last then t' else last - 1.0;
    }
  }

  lemma SortedPeak(s: seq<Event>)
    requires Ordered(s, EventLeq) && Unit(s)
    ensures IsPeak(s, Peak(s))
  {
    forall t: real ensures Level(s, t) <= Peak(s) { LevelBelowPeak(s, t); }
    var k := PeakIsPrefixSum(s);
    if Peak(s) == 0 {
      var t := QuietInstant(s);
      assert Level(s, t) == Peak(s);
    } else {
      var t := PrefixSumReached(s, k);
      assert Level(s, t) == Peak(s);
    }
  }

  lemma EventOrderTotal()
    ensures TotalOrder(EventLeq)
  {
  }

  lemma SweepPeak(s: seq<Event>)
    requires Unit(s)
    ensures IsPeak(s, Peak(Sort(s, EventLeq)))
  {
    EventOrderTotal();
    SortSorts(s, EventLeq);
    var sorted := Sort(s, EventLeq);
    SortLevel(s, 0.0);
    SortedPeak(sorted);
    forall t: real ensures Level(sorted, t) == Level(s, t) { SortLevel(s, t); }
    var t: real :| Level(sorted, t) == Peak(sorted);
    assert Level(s, t) == Peak(sorted);
  }

  /** Two event lists with the same levels have the same peak. */
  lemma PeakUnique(a: seq<Event>, p: int, b: seq<Event>, q: int)
    requires IsPeak(a, p) && IsPeak(b, q) && forall t: real :: Level(a, t) == Level(b, t)
    ensures p == q
  {
    var t: real :| Level(a, t) == p;
    var u: real :| Level(b, u) == q;
    assert Level(b, t) == p && Level(a, u) == q;
  }

  /** Adds up the deltas of the sorted events and keeps the largest count seen. */
  method Run(events: seq<Event>) returns (active: int, peak: int)
    requires Unit(events)
    ensures active == Sum(events)
    ensures IsPeak(events, peak)
  {
    var sorted := Sort(events, EventLeq);
    active, peak := 0, 0;
    var i := 0;
    while i < |sorted|
      invariant 0 <= i <= |sorted|
      invariant active == Sum(sorted[..i]) && peak == Peak(sorted[..i])
    {
      active := active + sorted[i].delta;
      peak := if active > peak then active else peak;
      i := i + 1;
      assert sorted[..i][..i - 1] == sorted[..i - 1];
    }
    assert sorted[..i] == sorted;
    SortLevel(events, 0.0);
    SweepPeak(events);
  }

  // ----- Intervals -----

  predicate Covers(iv: Interval, t: real) { iv.start <= t < iv.end }
  predicate Inverts(iv: Interval, t: real) { iv.end <= t < iv.start }

  /** How many half-open intervals contain `t`. */
  function Live(ivs: seq<Interval>, t: real): nat
  {
    if ivs == [] then 0 else Live(ivs[..|ivs| - 1], t) + if Covers(ivs[|ivs| - 1], t) then 1 else 0
  }

  /** How many intervals given backwards span `t`. */
  function Inverted(ivs: seq<Interval>, t: real): nat
  {
    if ivs == [] then 0 else Inverted(ivs[..|ivs| - 1], t) + if Inverts(ivs[|ivs| - 1], t) then 1 else 0
  }

  /** Indices of the intervals that contain `t`. */
  ghost function Containing(ivs: seq<Interval>, t: real): (r: set<int>)
    ensures forall i :: i in r <==> 0 <= i < |ivs| && ivs[i].start <= t < ivs[i].end
  {
    set i | 0 <= i < |ivs| && ivs[i].start <= t < ivs[i].end
  }

  lemma {:induction false} LiveIsCount(ivs: seq<Interval>, t: real)
    ensures Live(ivs, t) == |Containing(ivs, t)|
  {
    if ivs != [] {
      var n := |ivs| - 1;
      LiveIsCount(ivs[..n], t);
      assert Containing(ivs, t) ==
        Containing(ivs[..n], t) + if ivs[n].start <= t < ivs[n].end then {n} else {};
    }
  }

  function Starts(ivs: seq<Interval>): (s: seq<Event>)
    ensures |s| == |ivs| && Unit(s)
  {
    if ivs == [] then [] else Starts(ivs[..|ivs| - 1]) + [Event(ivs[|ivs| - 1].start, 1)]
  }

  function Ends(ivs: seq<Interval>): (s: seq<Event>)
    ensures |s| == |ivs| && Unit(s)
  {
    if ivs == [] then [] else Ends(ivs[..|ivs| - 1]) + [Event(ivs[|ivs| - 1].end, -1)]
  }

  /** All starts, then all ends, as the repeat checker lists them. */
  function Listed(ivs: seq<Interval>): (s: seq<Event>)
    ensures Unit(s)
  {
    Starts(ivs) + Ends(ivs)
  }

  /** Start and end of each interval in turn, as the directory checker extends its list. */
  function Interleaved(ivs: seq<Interval>): (s: seq<Event>)
    ensures Unit(s)
  {
    if ivs == [] then []
    else Interleaved(ivs[..|ivs| - 1]) + [Event(ivs[|ivs| - 1].start, 1), Event(ivs[|ivs| - 1].end, -1)]
  }

  lemma {:induction false} Append(a: seq<Event>, b: seq<Event>, t: real)
    ensures Sum(a + b) == Sum(a) + Sum(b)
    ensures Level(a + b, t) == Level(a, t) + Level(b, t)
  {
    if b == [] {
      assert a + b == a;
    } else {
      Append(a, b[..|b| - 1], t);
      assert (a + b)[..|a + b| - 1] == a + b[..|b| - 1];
    }
  }

  lemma {:induction false} StartsAndEnds(ivs: seq<Interval>, t: real)
    ensures Sum(Starts(ivs)) == |ivs| && Sum(Ends(ivs)) == -|ivs|
    ensures Level(Starts(ivs), t) + Level(Ends(ivs), t) == Live(ivs, t) - Inverted(ivs, t)
  {
    if ivs != [] {
      StartsAndEnds(ivs[..|ivs| - 1], t);
      assert Starts(ivs)[..|ivs| - 1] == Starts(ivs[..|ivs| - 1]);
      assert Ends(ivs)[..|ivs| - 1] == Ends(ivs[..|ivs| - 1]);
    }
  }

  /** For every list of intervals the sweep's level is the number of intervals containing the
      instant less the number spanning it backwards, and the count always returns to zero. */
  lemma ListedLevel(ivs: seq<Interval>, t: real)
    ensures Sum(Listed(ivs)) == 0
    ensures Level(Listed(ivs), t) == Live(ivs, t) - Inverted(ivs, t)
  {
    Append(Starts(ivs), Ends(ivs), t);
    StartsAndEnds(ivs, t);
  }

  lemma {:induction false} InterleavedLevel(ivs: seq<Interval>, t: real)
    ensures Sum(Interleaved(ivs)) == 0
    ensures Level(Interleaved(ivs), t) == Live(ivs, t) - Inverted(ivs, t)
  {
    if ivs != [] {
      var init, last := ivs[..|ivs| - 1], ivs[|ivs| - 1];
      InterleavedLevel(init, t);
      var s := Interleaved(ivs);
      assert s[..|s| - 1] == Interleaved(init) + [Event(last.start, 1)];
      assert s[..|s| - 1][..|s| - 2] == Interleaved(init);
    }
  }

  ghost predicate InOrder(ivs: seq<Interval>)
  {
    forall i :: 0 <= i < |ivs| ==> ivs[i].start <= ivs[i].end
  }

  lemma {:induction false} InvertedPositive(ivs: seq<Interval>, i: nat)
    requires i < |ivs| && ivs[i].end < ivs[i].start
    ensures Inverted(ivs, ivs[i].end) > 0
  {
    if i < |ivs| - 1 {
      InvertedPositive(ivs[..|ivs| - 1], i);
    }
  }

  lemma {:induction false} InvertedZero(ivs: seq<Interval>, t: real)
    requires InOrder(ivs)
    ensures Inverted(ivs, t) == 0
  {
    if ivs != [] { InvertedZero(ivs[..|ivs| - 1], t); }
  }

  /** The sweep counts the live intervals at every instant exactly when none is backwards. */
  lemma CountsLiveIffInOrder(ivs: seq<Interval>)
    ensures (forall t: real :: Level(Listed(ivs), t) == Live(ivs, t)) <==> InOrder(ivs)
  {
    if InOrder(ivs) {
      forall t: real ensures Level(Listed(ivs), t) == Live(ivs, t) { ListedLevel(ivs, t); InvertedZero(ivs, t); }
    } else {
      var i :| 0 <= i < |ivs| && ivs[i].end < ivs[i].start;
      ListedLevel(ivs, ivs[i].end);
      InvertedPositive(ivs, i);
    }
  }

  ghost predicate IsMaxLive(ivs: seq<Interval>, peak: int)
  {
    && (forall t: real :: Live(ivs, t) <= peak)
    && (exists t: real :: Live(ivs, t) == peak)
  }

  /** Ordered intervals, zero-length ones and ties included: the sweep of either listing
      returns to zero and its peak is the largest number of intervals containing one instant. */
  lemma OrderedSweep(ivs: seq<Interval>, peak: int)
    requires InOrder(ivs)
    ensures Sum(Listed(ivs)) == Sum(Interleaved(ivs)) == 0
    ensures IsPeak(Listed(ivs), peak) <==> IsMaxLive(ivs, peak)
    ensures IsPeak(Interleaved(ivs), peak) <==> IsMaxLive(ivs, peak)
  {
    forall t: real ensures Level(Listed(ivs), t) == Live(ivs, t) == Level(Interleaved(ivs), t) {
      ListedLevel(ivs, t);
      InterleavedLevel(ivs, t);
      InvertedZero(ivs, t);
    }
    ListedLevel(ivs, 0.0);
    InterleavedLevel(ivs, 0.0);
  }
}
