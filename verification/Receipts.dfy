/**
 Host reservations of a directory report: the coalescing of rows by
 (workerIndex, pid) that feeds the sweep, and what accepting its peak means.
 */
module Receipts {
  import opened Lists
  import opened Sweep

  type Key = (int, int)

  datatype Host = Host(workerIndex: int, pid: int, admitted: real, waited: real)
  {
    function Id(): Key { (workerIndex, pid) }
    function Span(): Interval { Interval(admitted, waited) }
  }

  datatype Source = Source(sourceId: string, workers: seq<Key>)
  datatype Segment = Segment(sourceId: string, hosts: seq<Host>)
  datatype Directory = Directory(collections: seq<seq<Host>>, segments: seq<Segment>, sources: seq<Source>)

  /** The `host_intervals` dictionary with its insertion order. */
  datatype Table = Table(order: seq<Key>, spans: map<Key, Interval>)
  {
    ghost predicate Valid()
    {
      && (forall i :: 0 <= i < |order| ==> order[i] in spans)
      && (forall k :: k in spans ==> k in order)
      && Distinct(order)
    }

    function Put(k: Key, iv: Interval): Table
    {
      Table(if k in spans then order else order + [k], spans[k := iv])
    }
  }

  lemma PutValid(t: Table, k: Key, iv: Interval)
    requires t.Valid()
    ensures t.Put(k, iv).Valid()
  {
  }

  const EMPTY: Table := Table([], map[])

  function Min(x: real, y: real): real { if y < x then y else x }
  function Max(x: real, y: real): real { if y > x then y else x }

  /** Collection rows: a later row replaces an earlier one of the same host. */
  function Overwrite(t: Table, rows: seq<Host>): Table
  {
    if rows == [] then t
    else Overwrite(t, rows[..|rows| - 1]).Put(rows[|rows| - 1].Id(), rows[|rows| - 1].Span())
  }

  function Widen(t: Table, h: Host): Table
  {
    var prior := if h.Id() in t.spans then t.spans[h.Id()] else h.Span();
    t.Put(h.Id(), Interval(Min(prior.start, h.admitted), Max(prior.end, h.waited)))
  }

  /** Segment rows: each widens the span of its host. */
  function Merge(t: Table, rows: seq<Host>): Table
  {
    if rows == [] then t else Widen(Merge(t, rows[..|rows| - 1]), rows[|rows| - 1])
  }

  lemma {:induction false} OverwriteValid(t: Table, rows: seq<Host>)
    requires t.Valid()
    ensures Overwrite(t, rows).Valid()
  {
    if rows != [] {
      OverwriteValid(t, rows[..|rows| - 1]);
      PutValid(Overwrite(t, rows[..|rows| - 1]), rows[|rows| - 1].Id(), rows[|rows| - 1].Span());
    }
  }

  lemma {:induction false} MergeValid(t: Table, rows: seq<Host>)
    requires t.Valid()
    ensures Merge(t, rows).Valid()
  {
    if rows != [] {
      var before, h := Merge(t, rows[..|rows| - 1]), rows[|rows| - 1];
      MergeValid(t, rows[..|rows| - 1]);
      PutValid(before, h.Id(), Widen(before, h).spans[h.Id()]);
    }
  }

  function Flatten(rows: seq<seq<Host>>): seq<Host>
  {
    if rows == [] then [] else Flatten(rows[..|rows| - 1]) + rows[|rows| - 1]
  }

  /** A segment without a source is skipped. */
  function RowsOf(s: Segment): seq<Host>
  {
    if s.sourceId == "" then [] else s.hosts
  }

  function SegmentRows(segments: seq<Segment>): seq<Host>
  {
    if segments == [] then [] else SegmentRows(segments[..|segments| - 1]) + RowsOf(segments[|segments| - 1])
  }

  function Coalesced(d: Directory): Table
  {
    Merge(Overwrite(EMPTY, Flatten(d.collections)), SegmentRows(d.segments))
  }

  lemma CoalescedValid(d: Directory)
    ensures Coalesced(d).Valid()
  {
    OverwriteValid(EMPTY, Flatten(d.collections));
    MergeValid(Overwrite(EMPTY, Flatten(d.collections)), SegmentRows(d.segments));
  }

  function ValuesOf(order: seq<Key>, spans: map<Key, Interval>): seq<Interval>
  {
    if order == [] then []
    else
      var init, k := ValuesOf(order[..|order| - 1], spans), order[|order| - 1];
      if k in spans then init + [spans[k]] else init
  }

  /** The spans in order of insertion, as the sweep takes them. */
  function Values(t: Table): seq<Interval>
  {
    ValuesOf(t.order, t.spans)
  }

  function Ids(rows: seq<Host>): set<Key> { set h | h in rows :: h.Id() }

  /** The first source with this ID. */
  function FirstSource(sources: seq<Source>, id: string): Option<Source>
  {
    var i := FirstIndex(sources, (s: Source) => s.sourceId == id);
    if i == |sources| then None else Some(sources[i])
  }

  predicate SegmentOk(d: Directory, s: Segment)
  {
    s.sourceId != "" ==>
      && FirstSource(d.sources, s.sourceId).Some?
      && Ids(s.hosts) == Elements(FirstSource(d.sources, s.sourceId).value.workers)
      && forall h :: h in s.hosts ==> h.admitted <= h.waited
  }

  predicate SegmentsOk(d: Directory)
  {
    forall i :: 0 <= i < |d.segments| ==> SegmentOk(d, d.segments[i])
  }

  /** The report passes: every segment is in order and the sweep's peak fits the pool. */
  ghost predicate Accepted(d: Directory, workers: int)
  {
    SegmentsOk(d) && exists peak :: IsPeak(Listed(Values(Coalesced(d))), peak) && peak <= workers
  }

  // ----- The checker as written -----

  lemma {:induction false} MergeAppend(t: Table, a: seq<Host>, b: seq<Host>)
    ensures Merge(Merge(t, a), b) == Merge(t, a + b)
  {
    if b == [] {
      assert a + b == a;
    } else {
      var init, last := b[..|b| - 1], b[|b| - 1];
      MergeAppend(t, a, init);
      assert (a + b)[..|a + b| - 1] == a + init;
      assert (a + b)[|a + b| - 1] == last;
    }
  }

  lemma {:induction false} OverwriteAppend(t: Table, a: seq<Host>, b: seq<Host>)
    ensures Overwrite(Overwrite(t, a), b) == Overwrite(t, a + b)
  {
    if b == [] {
      assert a + b == a;
    } else {
      var init, last := b[..|b| - 1], b[|b| - 1];
      OverwriteAppend(t, a, init);
      assert (a + b)[..|a + b| - 1] == a + init;
      assert (a + b)[|a + b| - 1] == last;
    }
  }

  method Collect(collections: seq<seq<Host>>) returns (t: Table)
    ensures t == Overwrite(EMPTY, Flatten(collections))
  {
    t := EMPTY;
    for i := 0 to |collections|
      invariant t == Overwrite(EMPTY, Flatten(collections[..i]))
    {
      var rows := collections[i];
      ghost var before := t;
      for j := 0 to |rows|
        invariant t == Overwrite(before, rows[..j])
      {
        t := t.Put(rows[j].Id(), rows[j].Span());
        assert rows[..j + 1][..j] == rows[..j];
      }
      assert rows[..|rows|] == rows;
      OverwriteAppend(EMPTY, Flatten(collections[..i]), rows);
      assert collections[..i + 1][..i] == collections[..i];
    }
    assert collections[..|collections|] == collections;
  }

  method WidenAll(rows: seq<Host>, before: Table) returns (ok: bool, t: Table)
    ensures ok <==> forall h :: h in rows ==> h.admitted <= h.waited
    ensures ok ==> t == Merge(before, rows)
  {
    t := before;
    for j := 0 to |rows|
      invariant t == Merge(before, rows[..j])
      invariant forall i :: 0 <= i < j ==> rows[i].admitted <= rows[i].waited
    {
      var h := rows[j];
      if h.admitted > h.waited { return false, t; }
      var prior := if h.Id() in t.spans then t.spans[h.Id()] else h.Span();
      t := t.Put(h.Id(), Interval(Min(prior.start, h.admitted), Max(prior.end, h.waited)));
      assert rows[..j + 1][..j] == rows[..j];
    }
    assert rows[..|rows|] == rows;
    return true, t;
  }

  method AddSegment(d: Directory, s: Segment, before: Table) returns (ok: bool, t: Table)
    ensures ok == SegmentOk(d, s)
    ensures ok ==> t == Merge(before, RowsOf(s))
  {
    if s.sourceId == "" { return true, before; }
    var source := FirstSource(d.sources, s.sourceId);
    if source.None? { return false, before; }
    if Ids(s.hosts) != Elements(source.value.workers) { return false, before; }
    ok, t := WidenAll(s.hosts, before);
  }

  lemma MergeStep(t: Table, segments: seq<Segment>, i: nat)
    requires i < |segments|
    ensures Merge(t, SegmentRows(segments[..i + 1])) == Merge(Merge(t, SegmentRows(segments[..i])), RowsOf(segments[i]))
  {
    MergeAppend(t, SegmentRows(segments[..i]), RowsOf(segments[i]));
    assert segments[..i + 1][..i] == segments[..i];
  }

  method AddSegments(d: Directory, before: Table) returns (ok: bool, t: Table)
    ensures ok == SegmentsOk(d)
    ensures ok ==> t == Merge(before, SegmentRows(d.segments))
  {
    t := before;
    for i := 0 to |d.segments|
      invariant t == Merge(before, SegmentRows(d.segments[..i]))
      invariant forall j :: 0 <= j < i ==> SegmentOk(d, d.segments[j])
    {
      var s := d.segments[i];
      var good, wider := AddSegment(d, s, t);
      if !good { return false, t; }
      MergeStep(before, d.segments, i);
      forall j | 0 <= j < i + 1 ensures SegmentOk(d, d.segments[j]) {
        if j == i { assert SegmentOk(d, s); }
      }
      t := wider;
    }
    assert d.segments[..|d.segments|] == d.segments;
    return true, t;
  }

  method FitsPool(ivs: seq<Interval>, workers: int) returns (r: Option<int>)
    ensures r.Some? <==> exists peak :: IsPeak(Listed(ivs), peak) && peak <= workers
    ensures r.Some? ==> IsPeak(Listed(ivs), r.value) && r.value <= workers
  {
    var active, peak := Run(Listed(ivs));
    ListedLevel(ivs, 0.0);
    if active != 0 || peak > workers {
      forall p | IsPeak(Listed(ivs), p) ensures p > workers { PeakUnique(Listed(ivs), p, Listed(ivs), peak); }
      return None;
    }
    return Some(peak);
  }

  /** The coalescing and sweep part of `physical_receipts`: the peak, or a failed assertion. */
  method PhysicalReceipts(d: Directory, workers: int) returns (r: Option<int>)
    ensures r.Some? <==> Accepted(d, workers)
    ensures r.Some? ==> IsPeak(Listed(Values(Coalesced(d))), r.value) && r.value <= workers
  {
    var t := Collect(d.collections);
    var ok, t' := AddSegments(d, t);
    if !ok { return None; }
    assert t' == Coalesced(d);
    r := FitsPool(Values(t'), workers);
    assert r.Some? ==> IsPeak(Listed(Values(Coalesced(d))), r.value);
  }

  // ----- Counting hosts -----

  /** Hosts whose coalesced span contains `t`. */
  ghost function LiveHosts(tb: Table, t: real): set<Key>
  {
    set k | k in tb.spans && Covers(tb.spans[k], t)
  }

  ghost function LiveIn(order: seq<Key>, spans: map<Key, Interval>, t: real): (r: set<Key>)
    ensures forall k :: k in r <==> k in order && k in spans && Covers(spans[k], t)
  {
    set k | k in order && k in spans && Covers(spans[k], t)
  }

  lemma LiveInSnoc(order: seq<Key>, k: Key, spans: map<Key, Interval>, t: real)
    requires k !in order
    ensures var live := k in spans && Covers(spans[k], t);
      |LiveIn(order + [k], spans, t)| == |LiveIn(order, spans, t)| + if live then 1 else 0
  {
    var before, after := LiveIn(order, spans, t), LiveIn(order + [k], spans, t);
    if k in spans && Covers(spans[k], t) {
      assert after == before + {k};
    } else {
      assert after == before;
    }
  }

  lemma {:induction false} LiveCounts(order: seq<Key>, spans: map<Key, Interval>, t: real)
    requires Distinct(order)
    ensures Live(ValuesOf(order, spans), t) == |LiveIn(order, spans, t)|
  {
    if order != [] {
      var init, k := order[..|order| - 1], order[|order| - 1];
      LiveCounts(init, spans, t);
      assert order == init + [k];
      LiveInSnoc(init, k, spans, t);
    }
  }

  /** The live intervals of a table are its live hosts, each counted once. */
  lemma LiveIsHosts(tb: Table, t: real)
    requires tb.Valid()
    ensures Live(Values(tb), t) == |LiveHosts(tb, t)|
  {
    LiveCounts(tb.order, tb.spans, t);
    assert LiveHosts(tb, t) == LiveIn(tb.order, tb.spans, t);
  }

  ghost predicate SpansOrdered(tb: Table)
  {
    forall k :: k in tb.spans ==> tb.spans[k].start <= tb.spans[k].end
  }

  ghost predicate RowsOrdered(rows: seq<Host>)
  {
    forall h :: h in rows ==> h.admitted <= h.waited
  }

  predicate Within(h: Host, tb: Table)
  {
    h.Id() in tb.spans && tb.spans[h.Id()].start <= h.admitted && h.waited <= tb.spans[h.Id()].end
  }

  /** Merging widens: earlier spans and all merged rows lie within the result, and a table
      whose spans are ordered stays so. */
  lemma {:induction false} MergeWidens(tb: Table, rows: seq<Host>)
    requires RowsOrdered(rows)
    ensures forall h :: h in rows ==> Within(h, Merge(tb, rows))
    ensures forall k :: k in tb.spans ==>
              && k in Merge(tb, rows).spans
              && Merge(tb, rows).spans[k].start <= tb.spans[k].start && tb.spans[k].end <= Merge(tb, rows).spans[k].end
    ensures SpansOrdered(tb) ==> SpansOrdered(Merge(tb, rows))
  {
    if rows != [] {
      var init, last := rows[..|rows| - 1], rows[|rows| - 1];
      assert rows == init + [last];
      MergeWidens(tb, init);
    }
  }

  lemma {:induction false} RowsOfSegments(d: Directory, segments: seq<Segment>)
    requires forall i :: 0 <= i < |segments| ==> SegmentOk(d, segments[i])
    ensures RowsOrdered(SegmentRows(segments))
  {
    if segments != [] {
      var n := |segments| - 1;
      RowsOfSegments(d, segments[..n]);
      assert SegmentOk(d, segments[n]);
      assert forall h :: h in SegmentRows(segments) ==> h in SegmentRows(segments[..n]) || h in RowsOf(segments[n]);
    }
  }

  /** At `t` some row of the host is live. */
  ghost function LiveRowHosts(rows: seq<Host>, t: real): set<Key>
  {
    set h | h in rows && Covers(h.Span(), t) :: h.Id()
  }

  lemma {:induction false} ValuesInOrder(order: seq<Key>, spans: map<Key, Interval>)
    requires forall k :: k in spans ==> spans[k].start <= spans[k].end
    ensures InOrder(ValuesOf(order, spans))
  {
    if order != [] { ValuesInOrder(order[..|order| - 1], spans); }
  }

  lemma PeakBoundsHosts(tb: Table, peak: int, t: real)
    requires tb.Valid() && SpansOrdered(tb) && IsPeak(Listed(Values(tb)), peak)
    ensures |LiveHosts(tb, t)| <= peak
  {
    LiveIsHosts(tb, t);
    ListedLevel(Values(tb), t);
    ValuesInOrder(tb.order, tb.spans);
    InvertedZero(Values(tb), t);
  }

  lemma SubsetSize<T>(a: set<T>, b: set<T>)
    requires a <= b
    ensures |a| <= |b|
  {
    assert b == a + (b - a);
  }

  /** Accepting the report bounds the pool: at every instant at most `workers` distinct hosts
      have a live segment row, provided the spans the collections leave behind are ordered. */
  lemma AcceptedBoundsSegments(d: Directory, workers: int, t: real)
    requires Accepted(d, workers) && SpansOrdered(Overwrite(EMPTY, Flatten(d.collections)))
    ensures |LiveHosts(Coalesced(d), t)| <= workers
    ensures |LiveRowHosts(SegmentRows(d.segments), t)| <= workers
  {
    var tb := Coalesced(d);
    RowsOfSegments(d, d.segments);
    MergeWidens(Overwrite(EMPTY, Flatten(d.collections)), SegmentRows(d.segments));
    var peak :| IsPeak(Listed(Values(tb)), peak) && peak <= workers;
    CoalescedValid(d);
    PeakBoundsHosts(tb, peak, t);
    assert LiveRowHosts(SegmentRows(d.segments), t) <= LiveHosts(tb, t);
    SubsetSize(LiveRowHosts(SegmentRows(d.segments), t), LiveHosts(tb, t));
  }

  ghost predicate DistinctIds(rows: seq<Host>)
  {
    forall i, j :: 0 <= i < j < |rows| ==> rows[i].Id() != rows[j].Id()
  }

  lemma {:induction false} OverwriteDistinct(rows: seq<Host>)
    requires DistinctIds(rows)
    ensures Overwrite(EMPTY, rows).spans.Keys == Ids(rows)
    ensures forall h :: h in rows ==> Overwrite(EMPTY, rows).spans[h.Id()] == h.Span()
  {
    if rows != [] {
      var n := |rows| - 1;
      OverwriteDistinct(rows[..n]);
      assert rows == rows[..n] + [rows[n]];
    }
  }

  /** Every collection row that is live at some instant lies within what the table keeps of its host. */
  ghost predicate NoRowLost(rows: seq<Host>)
  {
    forall h :: h in rows && h.admitted < h.waited ==> Within(h, Overwrite(EMPTY, rows))
  }

  /** When the collections leave ordered spans and lose no row, the bound covers their rows as well. */
  lemma AcceptedBoundsCollections(d: Directory, workers: int, t: real)
    requires Accepted(d, workers)
    requires SpansOrdered(Overwrite(EMPTY, Flatten(d.collections))) && NoRowLost(Flatten(d.collections))
    ensures |LiveRowHosts(Flatten(d.collections) + SegmentRows(d.segments), t)| <= workers
  {
    var rows := Flatten(d.collections);
    var before, tb := Overwrite(EMPTY, rows), Coalesced(d);
    AcceptedBoundsSegments(d, workers, t);
    RowsOfSegments(d, d.segments);
    MergeWidens(before, SegmentRows(d.segments));
    forall h | h in rows + SegmentRows(d.segments) && Covers(h.Span(), t) ensures h.Id() in LiveHosts(tb, t) {
      if h in rows { assert Within(h, before); } else { assert Within(h, tb); }
    }
    SubsetSize(LiveRowHosts(rows + SegmentRows(d.segments), t), LiveHosts(tb, t));
  }

  /** Ordered rows of distinct hosts meet both conditions. */
  lemma DistinctRowsAreKept(rows: seq<Host>)
    requires RowsOrdered(rows) && DistinctIds(rows)
    ensures SpansOrdered(Overwrite(EMPTY, rows)) && NoRowLost(rows)
  {
    OverwriteDistinct(rows);
  }

  // ----- Coalesced and uncoalesced sweeps -----

  lemma {:induction false} ValuesFrame(order: seq<Key>, spans: map<Key, Interval>, k: Key, iv: Interval)
    requires k !in order
    ensures ValuesOf(order, spans[k := iv]) == ValuesOf(order, spans)
  {
    if order != [] { ValuesFrame(order[..|order| - 1], spans, k, iv); }
  }

  lemma WidenFresh(tb: Table, h: Host)
    requires tb.Valid() && h.Id() !in tb.spans && h.admitted <= h.waited
    ensures Values(Widen(tb, h)) == Values(tb) + [h.Span()]
  {
    ValuesFrame(tb.order, tb.spans, h.Id(), h.Span());
    assert (tb.order + [h.Id()])[..|tb.order|] == tb.order;
  }

  lemma {:induction false} MergeKeys(tb: Table, rows: seq<Host>, k: Key)
    requires k !in tb.spans && forall i :: 0 <= i < |rows| ==> rows[i].Id() != k
    ensures k !in Merge(tb, rows).spans
  {
    if rows != [] { MergeKeys(tb, rows[..|rows| - 1], k); }
  }

  function Spans(rows: seq<Host>): (r: seq<Interval>)
    ensures |r| == |rows| && forall i :: 0 <= i < |r| ==> r[i] == rows[i].Span()
  {
    if rows == [] then [] else Spans(rows[..|rows| - 1]) + [rows[|rows| - 1].Span()]
  }

  function IdList(rows: seq<Host>): (r: seq<Key>)
    ensures |r| == |rows| && forall i :: 0 <= i < |r| ==> r[i] == rows[i].Id()
  {
    if rows == [] then [] else IdList(rows[..|rows| - 1]) + [rows[|rows| - 1].Id()]
  }

  /** Ordered rows of distinct hosts that the table does not have. */
  ghost predicate NewHosts(tb: Table, rows: seq<Host>)
  {
    && DistinctIds(rows) && RowsOrdered(rows)
    && forall i :: 0 <= i < |rows| ==> rows[i].Id() !in tb.spans
  }

  lemma NewHostsInit(tb: Table, rows: seq<Host>)
    requires NewHosts(tb, rows) && rows != []
    ensures var init, last := rows[..|rows| - 1], rows[|rows| - 1];
      && NewHosts(tb, init) && last.Id() !in tb.spans && last.admitted <= last.waited
      && forall i :: 0 <= i < |init| ==> init[i].Id() != last.Id()
  {
    assert rows[|rows| - 1] in rows;
    assert forall h :: h in rows[..|rows| - 1] ==> h in rows;
  }

  /** Hosts seen for the first time contribute their rows unchanged. */
  lemma {:induction false} FreshValues(tb: Table, rows: seq<Host>)
    requires tb.Valid() && NewHosts(tb, rows)
    ensures Values(Merge(tb, rows)) == Values(tb) + Spans(rows)
  {
    if rows != [] {
      var init, last := rows[..|rows| - 1], rows[|rows| - 1];
      NewHostsInit(tb, rows);
      FreshValues(tb, init);
      FreshSnoc(tb, init, last);
      assert Values(tb) + Spans(init) + [last.Span()] == Values(tb) + (Spans(init) + [last.Span()]);
    }
  }

  lemma FreshSnoc(tb: Table, rows: seq<Host>, h: Host)
    requires tb.Valid() && h.Id() !in tb.spans && h.admitted <= h.waited
    requires forall i :: 0 <= i < |rows| ==> rows[i].Id() != h.Id()
    ensures Values(Widen(Merge(tb, rows), h)) == Values(Merge(tb, rows)) + [h.Span()]
  {
    MergeKeys(tb, rows, h.Id());
    MergeValid(tb, rows);
    WidenFresh(Merge(tb, rows), h);
  }

  lemma FromEmpty(rows: seq<Host>)
    requires DistinctIds(rows) && RowsOrdered(rows)
    ensures Values(Merge(EMPTY, rows)) == Spans(rows)
  {
    FreshValues(EMPTY, rows);
    assert Values(EMPTY) == [];
    assert [] + Spans(rows) == Spans(rows);
  }

  lemma SpansInOrder(rows: seq<Host>)
    requires RowsOrdered(rows)
    ensures InOrder(Spans(rows))
  {
    assert forall i :: 0 <= i < |rows| ==> rows[i] in rows;
  }

  lemma SamePeak(ivs: seq<Interval>, p: int, q: int)
    requires InOrder(ivs) && IsPeak(Listed(ivs), p) && IsPeak(Interleaved(ivs), q)
    ensures p == q
  {
    forall t: real ensures Level(Listed(ivs), t) == Level(Interleaved(ivs), t)
        { ListedLevel(ivs, t); InterleavedLevel(ivs, t); }
    PeakUnique(Listed(ivs), p, Interleaved(ivs), q);
  }

  /** On ordered rows of distinct hosts, sweeping the coalesced table and sweeping the rows
      themselves, as the directory checker does, give the same peak. */
  lemma CoalescingIsTransparent(rows: seq<Host>, coalesced: int, uncoalesced: int)
    requires DistinctIds(rows) && RowsOrdered(rows)
    requires IsPeak(Listed(Values(Merge(EMPTY, rows))), coalesced) && IsPeak(Interleaved(Spans(rows)), uncoalesced)
    ensures coalesced == uncoalesced
  {
    FromEmpty(rows);
    SpansInOrder(rows);
    SamePeak(Spans(rows), coalesced, uncoalesced);
  }
}
