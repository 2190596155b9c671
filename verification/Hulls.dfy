/**
 The coalesced spans and the accepted peak in terms of the rows themselves: the
 span of a host runs from the earliest to the latest time of the rows that
 count for it, its last collection row and all its segment rows.
 */
module Hulls {
  import opened Lists
  import Sorting
  import opened Sweep
  import opened Receipts

  /** Row `i` is the last one of its host. */
  ghost predicate LastOf(rows: seq<Host>, i: int)
  {
    0 <= i < |rows| && forall j :: i < j < |rows| ==> rows[j].Id() != rows[i].Id()
  }

  /** `h` is the last collection row of host `k`, or a segment row of it. */
  ghost predicate Counts(collected: seq<Host>, segments: seq<Host>, k: Key, h: Host)
  {
    h.Id() == k && (h in segments || exists i :: LastOf(collected, i) && collected[i] == h)
  }

  /** From the earliest admission to the latest exit among the rows that count. */
  ghost predicate IsHull(collected: seq<Host>, segments: seq<Host>, k: Key, iv: Interval)
  {
    && (exists h :: Counts(collected, segments, k, h) && h.admitted == iv.start)
    && (forall h :: Counts(collected, segments, k, h) ==> iv.start <= h.admitted)
    && (exists h :: Counts(collected, segments, k, h) && h.waited == iv.end)
    && (forall h :: Counts(collected, segments, k, h) ==> h.waited <= iv.end)
  }

  // ----- The table -----

  /** The collection loop keeps the last row of each host. */
  lemma {:induction false} OverwriteKeepsLast(rows: seq<Host>, k: Key)
    ensures k in Overwrite(EMPTY, rows).spans <==> exists i :: LastOf(rows, i) && rows[i].Id() == k
    ensures forall i :: LastOf(rows, i) && rows[i].Id() == k ==>
              k in Overwrite(EMPTY, rows).spans && Overwrite(EMPTY, rows).spans[k] == rows[i].Span()
  {
    if rows != [] {
      var init, n := rows[..|rows| - 1], |rows| - 1;
      OverwriteKeepsLast(init, k);
      if rows[n].Id() == k {
        assert LastOf(rows, n);
        forall i | LastOf(rows, i) && rows[i].Id() == k ensures i == n { }
      } else {
        forall i ensures LastOf(rows, i) && rows[i].Id() == k <==> LastOf(init, i) && init[i].Id() == k {
          LastInInit(rows, i, k);
        }
        if i :| LastOf(init, i) && init[i].Id() == k { assert LastOf(rows, i) && rows[i].Id() == k; }
        if i :| LastOf(rows, i) && rows[i].Id() == k { assert LastOf(init, i) && init[i].Id() == k; }
      }
    }
  }

  lemma LastInInit(rows: seq<Host>, i: int, k: Key)
    requires rows != [] && rows[|rows| - 1].Id() != k
    ensures LastOf(rows, i) && rows[i].Id() == k <==>
            LastOf(rows[..|rows| - 1], i) && rows[..|rows| - 1][i].Id() == k
  {
    var init := rows[..|rows| - 1];
    assert forall j :: 0 <= j < |init| ==> init[j] == rows[j];
  }

  /** Merging rows into a table: the new span is exactly the hull of the old one and the rows. */
  lemma {:induction false} MergeIsHull(tb: Table, rows: seq<Host>, k: Key)
    ensures var after := Merge(tb, rows).spans;
      && (k in after <==> k in tb.spans || exists h :: h in rows && h.Id() == k)
      && (k in after ==>
            && ((k in tb.spans && tb.spans[k].start == after[k].start) ||
                exists h :: h in rows && h.Id() == k && h.admitted == after[k].start)
            && ((k in tb.spans && tb.spans[k].end == after[k].end) ||
                exists h :: h in rows && h.Id() == k && h.waited == after[k].end)
            && (k in tb.spans ==> after[k].start <= tb.spans[k].start && tb.spans[k].end <= after[k].end)
            && (forall h :: h in rows && h.Id() == k ==> after[k].start <= h.admitted && h.waited <= after[k].end))
  {
    if rows != [] {
      var init, last := rows[..|rows| - 1], rows[|rows| - 1];
      MergeIsHull(tb, init, k);
      assert rows == init + [last];
      assert forall h :: h in rows <==> h in init || h == last;
      assert last in rows;
    }
  }

  lemma CountedIsThere(c: seq<Host>, s: seq<Host>, k: Key, h: Host)
    requires Counts(c, s, k, h)
    ensures k in Merge(Overwrite(EMPTY, c), s).spans
  {
    OverwriteKeepsLast(c, k);
    MergeIsHull(Overwrite(EMPTY, c), s, k);
    if h !in s {
      var i :| LastOf(c, i) && c[i] == h;
      assert k in Overwrite(EMPTY, c).spans;
    }
  }

  lemma WhoCounts(c: seq<Host>, s: seq<Host>, k: Key) returns (h: Host)
    requires k in Merge(Overwrite(EMPTY, c), s).spans
    ensures Counts(c, s, k, h)
  {
    OverwriteKeepsLast(c, k);
    MergeIsHull(Overwrite(EMPTY, c), s, k);
    if k in Overwrite(EMPTY, c).spans {
      var i :| LastOf(c, i) && c[i].Id() == k;
      h := c[i];
    } else {
      h :| h in s && h.Id() == k;
    }
  }

  /** The span of a row that counts: in the table before, or a row merged. */
  lemma CountsWithin(c: seq<Host>, s: seq<Host>, k: Key, h: Host)
    requires Counts(c, s, k, h)
    ensures h in s || (k in Overwrite(EMPTY, c).spans && Overwrite(EMPTY, c).spans[k] == h.Span())
  {
    OverwriteKeepsLast(c, k);
    if h !in s { var i :| LastOf(c, i) && c[i] == h; }
  }

  lemma SpanIsHull(c: seq<Host>, s: seq<Host>, k: Key)
    requires k in Merge(Overwrite(EMPTY, c), s).spans
    ensures IsHull(c, s, k, Merge(Overwrite(EMPTY, c), s).spans[k])
  {
    var before, iv := Overwrite(EMPTY, c), Merge(Overwrite(EMPTY, c), s).spans[k];
    OverwriteKeepsLast(c, k);
    MergeIsHull(before, s, k);
    if k in before.spans {
      var i :| LastOf(c, i) && c[i].Id() == k;
      assert Counts(c, s, k, c[i]);
    }
    forall h | h in s && h.Id() == k ensures Counts(c, s, k, h) { }
    forall h | Counts(c, s, k, h) ensures iv.start <= h.admitted && h.waited <= iv.end { CountsWithin(c, s, k, h); }
  }

  /** The coalesced table holds, for exactly the hosts with a row that counts, their hulls. */
  lemma CoalescedIsHull(d: Directory, c: seq<Host>, s: seq<Host>, k: Key)
    requires c == Flatten(d.collections) && s == SegmentRows(d.segments)
    ensures (exists h :: Counts(c, s, k, h)) <==> k in Coalesced(d).spans
    ensures k in Coalesced(d).spans ==> IsHull(c, s, k, Coalesced(d).spans[k])
  {
    if h :| Counts(c, s, k, h) { CountedIsThere(c, s, k, h); }
    if k in Coalesced(d).spans {
      var h := WhoCounts(c, s, k);
      SpanIsHull(c, s, k);
    }
  }

  lemma HullUnique(c: seq<Host>, s: seq<Host>, k: Key, a: Interval, b: Interval)
    requires IsHull(c, s, k, a) && IsHull(c, s, k, b)
    ensures a == b
  {
    var h :| Counts(c, s, k, h) && h.admitted == a.start;
    var h' :| Counts(c, s, k, h') && h'.admitted == b.start;
    var g :| Counts(c, s, k, g) && g.waited == a.end;
    var g' :| Counts(c, s, k, g') && g'.waited == b.end;
  }

  // ----- Counting backwards spans -----

  ghost function InvertedIn(order: seq<Key>, spans: map<Key, Interval>, t: real): (r: set<Key>)
    ensures forall k :: k in r <==> k in order && k in spans && Inverts(spans[k], t)
  {
    set k | k in order && k in spans && Inverts(spans[k], t)
  }

  lemma InvertedInSnoc(order: seq<Key>, k: Key, spans: map<Key, Interval>, t: real)
    requires k !in order
    ensures |InvertedIn(order + [k], spans, t)| ==
            |InvertedIn(order, spans, t)| + if k in spans && Inverts(spans[k], t) then 1 else 0
  {
    var before, after := InvertedIn(order, spans, t), InvertedIn(order + [k], spans, t);
    if k in spans && Inverts(spans[k], t) {
      assert after == before + {k};
    } else {
      assert after == before;
    }
  }

  lemma {:induction false} InvertedCounts(order: seq<Key>, spans: map<Key, Interval>, t: real)
    requires Distinct(order)
    ensures Inverted(ValuesOf(order, spans), t) == |InvertedIn(order, spans, t)|
  {
    if order != [] {
      var init, k := order[..|order| - 1], order[|order| - 1];
      InvertedCounts(init, spans, t);
      assert order == init + [k];
      InvertedInSnoc(init, k, spans, t);
    }
  }

  // ----- Acceptance -----

  /** Hosts whose hull contains `t`. */
  ghost function Running(c: seq<Host>, s: seq<Host>, t: real): set<Key>
  {
    set k | k in Ids(c + s) && exists iv :: IsHull(c, s, k, iv) && iv.start <= t < iv.end
  }

  /** Hosts whose hull runs backwards over `t`. */
  ghost function Backwards(c: seq<Host>, s: seq<Host>, t: real): set<Key>
  {
    set k | k in Ids(c + s) && exists iv :: IsHull(c, s, k, iv) && iv.end <= t < iv.start
  }

  /** The hull of a host is its coalesced span, if it has one. */
  lemma HullIs(d: Directory, c: seq<Host>, s: seq<Host>, k: Key)
    requires c == Flatten(d.collections) && s == SegmentRows(d.segments)
    ensures k in Coalesced(d).spans ==> k in Ids(c + s)
    ensures forall iv :: IsHull(c, s, k, iv) <==> k in Coalesced(d).spans && Coalesced(d).spans[k] == iv
  {
    CoalescedIsHull(d, c, s, k);
    if k in Coalesced(d).spans {
      var h := WhoCounts(c, s, k);
      assert h in c + s;
    }
    forall iv | IsHull(c, s, k, iv) ensures k in Coalesced(d).spans && Coalesced(d).spans[k] == iv {
      HullUnique(c, s, k, iv, Coalesced(d).spans[k]);
    }
  }

  /** The level of the sweep at `t` is the number of hosts running then less the number of those
      that run backwards over it. */
  lemma LevelIs(d: Directory, c: seq<Host>, s: seq<Host>, t: real)
    requires c == Flatten(d.collections) && s == SegmentRows(d.segments)
    ensures Level(Listed(Values(Coalesced(d))), t) == |Running(c, s, t)| - |Backwards(c, s, t)|
  {
    var tb := Coalesced(d);
    CoalescedValid(d);
    ListedLevel(Values(tb), t);
    LiveCounts(tb.order, tb.spans, t);
    InvertedCounts(tb.order, tb.spans, t);
    forall k ensures k in Running(c, s, t) <==> k in LiveIn(tb.order, tb.spans, t) { HullIs(d, c, s, k); }
    forall k ensures k in Backwards(c, s, t) <==> k in InvertedIn(tb.order, tb.spans, t) { HullIs(d, c, s, k); }
    assert Running(c, s, t) == LiveIn(tb.order, tb.spans, t);
    assert Backwards(c, s, t) == InvertedIn(tb.order, tb.spans, t);
  }

  /** The first source a segment names, its hosts and their times. */
  lemma SegmentOkIff(d: Directory, s: Segment)
    ensures SegmentOk(d, s) <==> s.sourceId != "" ==>
      && (exists j :: 0 <= j < |d.sources| && d.sources[j].sourceId == s.sourceId
            && (forall i :: 0 <= i < j ==> d.sources[i].sourceId != s.sourceId)
            && forall k :: k in d.sources[j].workers <==> exists h :: h in s.hosts && h.Id() == k)
      && forall i :: 0 <= i < |s.hosts| ==> s.hosts[i].admitted <= s.hosts[i].waited
  {
    var found := FirstIndex(d.sources, (x: Source) => x.sourceId == s.sourceId);
    if found < |d.sources| {
      var workers := d.sources[found].workers;
      assert FirstSource(d.sources, s.sourceId) == Some(d.sources[found]);
      assert forall k :: k in Ids(s.hosts) <==> exists h :: h in s.hosts && h.Id() == k;
      assert forall k :: k in Elements(workers) <==> k in workers;
    }
  }

  /** All collection rows are taken, collection by collection. */
  lemma {:induction false} CollectionRows(a: seq<seq<Host>>, b: seq<seq<Host>>)
    ensures Flatten(a + b) == Flatten(a) + Flatten(b)
  {
    if b == [] {
      assert a + b == a;
    } else {
      var init, last := b[..|b| - 1], b[|b| - 1];
      CollectionRows(a, init);
      assert (a + b)[..|a + b| - 1] == a + init;
      assert (a + b)[|a + b| - 1] == last;
      assert Flatten(a) + Flatten(init) + last == Flatten(a) + (Flatten(init) + last);
    }
  }

  lemma OneCollection(rows: seq<Host>)
    ensures Flatten([rows]) == rows
  {
    assert [rows][..0] == [];
    assert [] + rows == rows;
  }

  /** Segment rows are taken segment by segment, from segments with a source. */
  lemma {:induction false} RowsOfSources(a: seq<Segment>, b: seq<Segment>)
    ensures SegmentRows(a + b) == SegmentRows(a) + SegmentRows(b)
  {
    if b == [] {
      assert a + b == a;
    } else {
      var init, last := b[..|b| - 1], b[|b| - 1];
      RowsOfSources(a, init);
      RowsSnoc(a + init, last);
      RowsSnoc(init, last);
      Regroup(a, init, [last]);
      Regroup(SegmentRows(a), SegmentRows(init), RowsOf(last));
      assert b == init + [last];
    }
  }

  lemma Regroup<T>(a: seq<T>, b: seq<T>, c: seq<T>)
    ensures a + b + c == a + (b + c)
  {
  }

  lemma RowsSnoc(a: seq<Segment>, s: Segment)
    ensures SegmentRows(a + [s]) == SegmentRows(a) + RowsOf(s)
  {
    assert (a + [s])[..|a|] == a;
  }

  lemma RowsOfSource(s: Segment)
    ensures SegmentRows([s]) == if s.sourceId == "" then [] else s.hosts
  {
    assert [s][..0] == [];
  }

  /** The report is accepted if and only if every segment is in order and at no instant more hosts
      run than the pool allows, hosts that run backwards over it being deducted. */
  lemma AcceptedIff(d: Directory, workers: int)
    ensures Accepted(d, workers) <==>
      && (forall i :: 0 <= i < |d.segments| ==> SegmentOk(d, d.segments[i]))
      && forall t: real ::
           var c, s := Flatten(d.collections), SegmentRows(d.segments);
           |Running(c, s, t)| - |Backwards(c, s, t)| <= workers
  {
    var c, s, events := Flatten(d.collections), SegmentRows(d.segments), Listed(Values(Coalesced(d)));
    forall t: real ensures Level(events, t) == |Running(c, s, t)| - |Backwards(c, s, t)| { LevelIs(d, c, s, t); }
    SweepPeak(events);
    var peak := Peak(Sorting.Sort(events, EventLeq));
    var t: real :| Level(events, t) == peak;
    assert |Running(c, s, t)| - |Backwards(c, s, t)| == peak;
    if Accepted(d, workers) {
      var p :| IsPeak(events, p) && p <= workers;
      forall u: real ensures |Running(c, s, u)| - |Backwards(c, s, u)| <= workers { assert Level(events, u) <= p; }
    }
  }
}
