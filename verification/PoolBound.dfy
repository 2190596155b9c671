/**
 Exactly when accepting the coalesced peak bounds the number of live hosts, for
 given collection rows and a given pool. The collection loop stores a row
 without comparing its two times and without looking at what it replaces. A
 backwards span is counted as -1 between its end and its start, and a replaced
 row is not counted at all; either can hide a live host behind segments that
 fill the rest of the pool.
 */
module PoolBound {
  import opened Lists
  import Sorting
  import opened Sweep
  import opened Receipts

  /** Whatever segments follow these collection rows, acceptance bounds the hosts live in the table. */
  ghost predicate TableBounded(rows: seq<Host>, workers: int)
  {
    forall d: Directory, t: real ::
      Flatten(d.collections) == rows && Accepted(d, workers) ==> |LiveHosts(Coalesced(d), t)| <= workers
  }

  /** It bounds the hosts with a live segment row. */
  ghost predicate SegmentsBounded(rows: seq<Host>, workers: int)
  {
    forall d: Directory, t: real ::
      Flatten(d.collections) == rows && Accepted(d, workers) ==> |LiveRowHosts(SegmentRows(d.segments), t)| <= workers
  }

  /** It bounds the hosts with a live row of either kind. */
  ghost predicate RowsBounded(rows: seq<Host>, workers: int)
  {
    forall d: Directory, t: real ::
      Flatten(d.collections) == rows && Accepted(d, workers) ==>
        |LiveRowHosts(rows + SegmentRows(d.segments), t)| <= workers
  }

  ghost predicate LevelFits(ivs: seq<Interval>, workers: int)
  {
    forall t: real :: Level(Listed(ivs), t) <= workers
  }

  /** The sweep of the collection rows alone already fits the pool. */
  ghost predicate CollectedFits(rows: seq<Host>, workers: int)
  {
    LevelFits(Values(Overwrite(EMPTY, rows)), workers)
  }

  // ----- Levels of concatenated and uniform intervals -----

  function Net(ivs: seq<Interval>, t: real): int { Live(ivs, t) - Inverted(ivs, t) }

  lemma {:induction false} NetAppend(a: seq<Interval>, b: seq<Interval>, t: real)
    ensures Net(a + b, t) == Net(a, t) + Net(b, t)
  {
    if b == [] {
      assert a + b == a;
    } else {
      var init, last := b[..|b| - 1], b[|b| - 1];
      NetAppend(a, init, t);
      assert (a + b)[..|a + b| - 1] == a + init;
      assert (a + b)[|a + b| - 1] == last;
    }
  }

  lemma {:induction false} UniformNet(ivs: seq<Interval>, iv: Interval, t: real)
    requires iv.start <= iv.end && forall i :: 0 <= i < |ivs| ==> ivs[i] == iv
    ensures Net(ivs, t) == if Covers(iv, t) then |ivs| else 0
  {
    if ivs != [] { UniformNet(ivs[..|ivs| - 1], iv, t); }
  }

  // ----- Segments never lower the level -----

  predicate Wider(a: Interval, b: Interval) { b.start <= a.start && a.end <= b.end }

  /** Replacing spans by wider ones does not lower the net count. */
  lemma {:induction false} WiderNet(order: seq<Key>, spans: map<Key, Interval>, wide: map<Key, Interval>, t: real)
    requires forall i :: 0 <= i < |order| ==>
      order[i] in spans && order[i] in wide && Wider(spans[order[i]], wide[order[i]])
    ensures Net(ValuesOf(order, spans), t) <= Net(ValuesOf(order, wide), t)
  {
    if order != [] {
      var init, k := order[..|order| - 1], order[|order| - 1];
      WiderNet(init, spans, wide, t);
      NetSnoc(ValuesOf(init, spans), spans[k], t);
      NetSnoc(ValuesOf(init, wide), wide[k], t);
    }
  }

  function Weight(iv: Interval, t: real): int
  {
    if Covers(iv, t) then 1 else if Inverts(iv, t) then -1 else 0
  }

  lemma NetSnoc(ivs: seq<Interval>, iv: Interval, t: real)
    ensures Net(ivs + [iv], t) == Net(ivs, t) + Weight(iv, t)
  {
    assert (ivs + [iv])[..|ivs|] == ivs;
  }

  lemma WidenRaises(tb: Table, h: Host, t: real)
    requires tb.Valid() && h.admitted <= h.waited
    ensures Net(Values(tb), t) <= Net(Values(Widen(tb, h)), t)
  {
    if h.Id() in tb.spans {
      WiderNet(tb.order, tb.spans, Widen(tb, h).spans, t);
    } else {
      WidenFresh(tb, h);
      NetSnoc(Values(tb), h.Span(), t);
    }
  }

  lemma {:induction false} MergeRaises(tb: Table, rows: seq<Host>, t: real)
    requires tb.Valid() && RowsOrdered(rows)
    ensures Net(Values(tb), t) <= Net(Values(Merge(tb, rows)), t)
  {
    if rows != [] {
      var init, h := rows[..|rows| - 1], rows[|rows| - 1];
      assert RowsOrdered(init) && h in rows;
      MergeRaises(tb, init, t);
      MergeValid(tb, init);
      WidenRaises(Merge(tb, init), h, t);
    }
  }

  /** Only reports whose collection rows fit by themselves are accepted. */
  lemma AcceptedMeansCollectedFits(d: Directory, workers: int)
    requires Accepted(d, workers)
    ensures CollectedFits(Flatten(d.collections), workers)
  {
    var tb := Overwrite(EMPTY, Flatten(d.collections));
    OverwriteValid(EMPTY, Flatten(d.collections));
    RowsOfSegments(d, d.segments);
    forall t: real ensures Level(Listed(Values(tb)), t) <= workers {
      MergeRaises(tb, SegmentRows(d.segments), t);
      ListedLevel(Values(tb), t);
      ListedLevel(Values(Coalesced(d)), t);
    }
  }

  // ----- A stretch in which nothing starts or ends -----

  predicate Quiet(iv: Interval, gap: Interval)
  {
    !(gap.start < iv.start < gap.end) && !(gap.start < iv.end < gap.end)
  }

  function Earlier(x: real, y: real, t: real): (r: real)
    requires t < x
    ensures t < r <= x && !(t < y < r)
  {
    if t < y < x then y else x
  }

  /** The next event after `t`, or an arbitrary later instant. */
  function NextEvent(ivs: seq<Interval>, t: real): (r: real)
    ensures t < r && forall i :: 0 <= i < |ivs| ==> Quiet(ivs[i], Interval(t, r))
  {
    if ivs == [] then t + 1.0
    else
      var last := ivs[|ivs| - 1];
      Earlier(Earlier(NextEvent(ivs[..|ivs| - 1], t), last.start, t), last.end, t)
  }

  lemma {:induction false} SteadyNet(ivs: seq<Interval>, gap: Interval, t: real)
    requires Covers(gap, t) && forall i :: 0 <= i < |ivs| ==> Quiet(ivs[i], gap)
    ensures Net(ivs, t) == Net(ivs, gap.start)
  {
    if ivs != [] { SteadyNet(ivs[..|ivs| - 1], gap, t); }
  }

  // ----- Filling the pool at one instant -----

  /** A row over `gap` for every host live at its start. */
  function Regulars(order: seq<Key>, spans: map<Key, Interval>, gap: Interval): seq<Host>
  {
    if order == [] then []
    else
      var init, k := Regulars(order[..|order| - 1], spans, gap), order[|order| - 1];
      if k in spans && Covers(spans[k], gap.start) then init + [Host(k.0, k.1, gap.start, gap.end)] else init
  }

  lemma IdsSnoc(rows: seq<Host>, h: Host)
    ensures Ids(rows + [h]) == Ids(rows) + {h.Id()}
  {
    assert forall x :: x in rows + [h] <==> x in rows || x == h;
  }

  lemma {:induction false} RegularIds(order: seq<Key>, spans: map<Key, Interval>, gap: Interval)
    ensures forall h :: h in Regulars(order, spans, gap) ==> h.Span() == gap
    ensures Ids(Regulars(order, spans, gap)) == LiveIn(order, spans, gap.start)
  {
    if order != [] {
      var init, k := order[..|order| - 1], order[|order| - 1];
      RegularIds(init, spans, gap);
      assert order == init + [k];
      if k in spans && Covers(spans[k], gap.start) {
        IdsSnoc(Regulars(init, spans, gap), Host(k.0, k.1, gap.start, gap.end));
        assert LiveIn(order, spans, gap.start) == LiveIn(init, spans, gap.start) + {k};
      } else {
        assert LiveIn(order, spans, gap.start) == LiveIn(init, spans, gap.start);
      }
    }
  }

  /** Rows within the spans of their hosts change nothing. */
  lemma {:induction false} MergeWithin(tb: Table, rows: seq<Host>)
    requires forall i :: 0 <= i < |rows| ==> Within(rows[i], tb)
    ensures Merge(tb, rows) == tb
  {
    if rows != [] {
      MergeWithin(tb, rows[..|rows| - 1]);
      assert Within(rows[|rows| - 1], tb);
      var k := rows[|rows| - 1].Id();
      assert tb.spans[k := tb.spans[k]] == tb.spans;
    }
  }

  /** `n` new hosts over `gap`. */
  function Newcomers(base: int, n: nat, gap: Interval): (r: seq<Host>)
    ensures |r| == n && forall i :: 0 <= i < n ==> r[i] == Host(base + i, 0, gap.start, gap.end)
  {
    if n == 0 then [] else Newcomers(base, n - 1, gap) + [Host(base + n - 1, 0, gap.start, gap.end)]
  }

  lemma {:induction false} NewcomerCount(base: int, n: nat, gap: Interval)
    ensures |Ids(Newcomers(base, n, gap))| == n
    ensures forall k :: k in Ids(Newcomers(base, n, gap)) ==> base <= k.0 < base + n
  {
    if n > 0 {
      NewcomerCount(base, n - 1, gap);
      IdsSnoc(Newcomers(base, n - 1, gap), Host(base + n - 1, 0, gap.start, gap.end));
    }
  }

  /** A number no collected host has. */
  function Above(order: seq<Key>): (b: int)
    ensures forall i :: 0 <= i < |order| ==> order[i].0 < b
  {
    if order == [] then 0
    else
      var b := Above(order[..|order| - 1]);
      if order[|order| - 1].0 < b then b else order[|order| - 1].0 + 1
  }

  lemma NewcomersAreNew(tb: Table, n: nat, gap: Interval)
    requires tb.Valid() && gap.start <= gap.end
    ensures NewHosts(tb, Newcomers(Above(tb.order), n, gap))
  {
    var rows := Newcomers(Above(tb.order), n, gap);
    forall i | 0 <= i < |rows| ensures rows[i].Id() !in tb.spans {
      assert rows[i].Id().0 >= Above(tb.order);
    }
  }

  /** Everyone live at the start of the gap, and `n` newcomers. */
  function Crew(tb: Table, n: nat, gap: Interval): seq<Host>
  {
    Regulars(tb.order, tb.spans, gap) + Newcomers(Above(tb.order), n, gap)
  }

  ghost predicate QuietTable(tb: Table, gap: Interval)
  {
    gap.start < gap.end && forall k :: k in tb.spans ==> Quiet(tb.spans[k], gap)
  }

  lemma CrewValues(tb: Table, n: nat, gap: Interval)
    requires tb.Valid() && QuietTable(tb, gap)
    ensures Values(Merge(tb, Crew(tb, n, gap))) == Values(tb) + Spans(Newcomers(Above(tb.order), n, gap))
  {
    var regulars, newcomers := Regulars(tb.order, tb.spans, gap), Newcomers(Above(tb.order), n, gap);
    RegularIds(tb.order, tb.spans, gap);
    forall i | 0 <= i < |regulars| ensures Within(regulars[i], tb) {
      assert regulars[i] in regulars && regulars[i].Id() in Ids(regulars);
    }
    MergeWithin(tb, regulars);
    MergeAppend(tb, regulars, newcomers);
    NewcomersAreNew(tb, n, gap);
    FreshValues(tb, newcomers);
  }

  lemma CrewIds(tb: Table, n: nat, gap: Interval)
    requires tb.Valid()
    ensures forall h :: h in Crew(tb, n, gap) ==> h.Span() == gap
    ensures |Ids(Crew(tb, n, gap))| == |LiveHosts(tb, gap.start)| + n
    ensures forall k :: k in Ids(Crew(tb, n, gap)) && k in tb.spans ==> Covers(tb.spans[k], gap.start)
  {
    var regulars, newcomers := Regulars(tb.order, tb.spans, gap), Newcomers(Above(tb.order), n, gap);
    RegularIds(tb.order, tb.spans, gap);
    NewcomerCount(Above(tb.order), n, gap);
    assert LiveHosts(tb, gap.start) == LiveIn(tb.order, tb.spans, gap.start);
    assert forall k :: k in tb.spans ==> k.0 < Above(tb.order);
    ApartIds(regulars, newcomers);
  }

  lemma ApartIds(a: seq<Host>, b: seq<Host>)
    requires Ids(a) !! Ids(b)
    ensures Ids(a + b) == Ids(a) + Ids(b) && |Ids(a + b)| == |Ids(a)| + |Ids(b)|
  {
    assert forall h :: h in a + b <==> h in a || h in b;
    assert Ids(a + b) == Ids(a) + Ids(b);
  }

  lemma CrewFits(tb: Table, n: nat, gap: Interval, workers: int)
    requires tb.Valid() && QuietTable(tb, gap) && LevelFits(Values(tb), workers)
    requires Net(Values(tb), gap.start) + n == workers
    ensures LevelFits(Values(Merge(tb, Crew(tb, n, gap))), workers)
  {
    var collected, more := Values(tb), Spans(Newcomers(Above(tb.order), n, gap));
    CrewValues(tb, n, gap);
    QuietValues(tb.order, tb.spans, gap);
    forall t: real ensures Level(Listed(collected + more), t) <= workers {
      ListedLevel(collected + more, t);
      ListedLevel(collected, t);
      NetAppend(collected, more, t);
      UniformNet(more, gap, t);
      if Covers(gap, t) { SteadyNet(collected, gap, t); }
    }
  }

  lemma {:induction false} QuietValues(order: seq<Key>, spans: map<Key, Interval>, gap: Interval)
    requires forall k :: k in spans ==> Quiet(spans[k], gap)
    ensures forall i :: 0 <= i < |ValuesOf(order, spans)| ==> Quiet(ValuesOf(order, spans)[i], gap)
  {
    if order != [] { QuietValues(order[..|order| - 1], spans, gap); }
  }

  lemma {:induction false} QuietSpans(order: seq<Key>, spans: map<Key, Interval>, gap: Interval, k: Key)
    requires forall i :: 0 <= i < |ValuesOf(order, spans)| ==> Quiet(ValuesOf(order, spans)[i], gap)
    requires k in order && k in spans
    ensures Quiet(spans[k], gap)
  {
    var init, last := order[..|order| - 1], order[|order| - 1];
    var ivs, before := ValuesOf(order, spans), ValuesOf(init, spans);
    if k == last {
      assert ivs[|ivs| - 1] == spans[k];
    } else {
      assert forall i :: 0 <= i < |before| ==> before[i] == ivs[i];
      QuietSpans(init, spans, gap, k);
    }
  }

  lemma QuietStretch(tb: Table, t: real) returns (gap: Interval)
    requires tb.Valid()
    ensures gap.start == t && QuietTable(tb, gap)
  {
    gap := Interval(t, NextEvent(Values(tb), t));
    forall k | k in tb.spans ensures Quiet(tb.spans[k], gap) { QuietSpans(tb.order, tb.spans, gap, k); }
  }

  // ----- The report -----

  /** Collected rows and one segment. */
  function Report(rows: seq<Host>, crew: seq<Host>): Directory
  {
    Directory([rows], [Segment("s", crew)], [Source("s", IdList(crew))])
  }

  lemma IdsListed(rows: seq<Host>)
    ensures Ids(rows) == Elements(IdList(rows))
  {
    forall k | k in IdList(rows) ensures k in Ids(rows) {
      var i :| 0 <= i < |rows| && IdList(rows)[i] == k;
      assert rows[i] in rows && rows[i].Id() == k;
    }
    forall k | k in Ids(rows) ensures k in IdList(rows) {
      var i :| 0 <= i < |rows| && rows[i].Id() == k;
      assert IdList(rows)[i] == k;
    }
  }

  lemma ReportShape(rows: seq<Host>, crew: seq<Host>)
    requires RowsOrdered(crew)
    ensures var d := Report(rows, crew);
            Flatten(d.collections) == rows && SegmentRows(d.segments) == crew && SegmentsOk(d)
  {
    var d := Report(rows, crew);
    assert d.collections[..0] == [];
    assert Flatten(d.collections) == [] + rows == rows;
    assert d.segments[..0] == [];
    assert SegmentRows(d.segments) == [] + crew == crew;
    IdsListed(crew);
    assert FirstSource(d.sources, "s") == Some(d.sources[0]);
  }

  lemma FitsAccepted(d: Directory, workers: int)
    requires SegmentsOk(d) && LevelFits(Values(Coalesced(d)), workers)
    ensures Accepted(d, workers)
  {
    var events := Listed(Values(Coalesced(d)));
    var peak := Peak(Sorting.Sort(events, EventLeq));
    SweepPeak(events);
    var t: real :| Level(events, t) == peak;
    assert IsPeak(events, peak) && peak <= workers;
  }

  /** At any instant the pool can be filled exactly, with the collected hosts that are live then
      and with newcomers: the report is accepted, and what its segment has live then exceeds the
      pool by the number of spans that are backwards there. */
  lemma FillPool(rows: seq<Host>, workers: int, t: real) returns (d: Directory)
    requires CollectedFits(rows, workers)
    ensures Flatten(d.collections) == rows && Accepted(d, workers)
    ensures var tb := Overwrite(EMPTY, rows); var live := LiveRowHosts(SegmentRows(d.segments), t);
      && |live| == workers + Inverted(Values(tb), t)
      && forall k :: k in live && k in tb.spans ==> Covers(tb.spans[k], t)
  {
    var tb := Overwrite(EMPTY, rows);
    OverwriteValid(EMPTY, rows);
    var gap := QuietStretch(tb, t);
    ListedLevel(Values(tb), t);
    assert Level(Listed(Values(tb)), t) <= workers;
    var n: nat := workers - Net(Values(tb), t);
    var crew := Crew(tb, n, gap);
    CrewIds(tb, n, gap);
    CrewFits(tb, n, gap, workers);
    LiveIsHosts(tb, t);
    AllLive(crew, gap);
    ReportShape(rows, crew);
    d := Report(rows, crew);
    FitsAccepted(d, workers);
  }

  lemma AllLive(crew: seq<Host>, gap: Interval)
    requires gap.start < gap.end && forall h :: h in crew ==> h.Span() == gap
    ensures LiveRowHosts(crew, gap.start) == Ids(crew) && RowsOrdered(crew)
  {
    forall h | h in crew ensures h.admitted <= h.waited && Covers(h.Span(), gap.start) { assert h.Span() == gap; }
  }

  // ----- Backwards spans -----

  lemma {:induction false} SpannedBackwards(ivs: seq<Interval>, i: nat, t: real)
    requires i < |ivs| && Inverts(ivs[i], t)
    ensures Inverted(ivs, t) > 0
  {
    if i < |ivs| - 1 { SpannedBackwards(ivs[..|ivs| - 1], i, t); }
  }

  lemma {:induction false} ValueOf(order: seq<Key>, spans: map<Key, Interval>, i: nat)
    requires i < |order| && order[i] in spans
    ensures spans[order[i]] in ValuesOf(order, spans)
  {
    var n := |order| - 1;
    if i < n { ValueOf(order[..n], spans, i); }
  }

  lemma InvertedHost(tb: Table, k: Key, t: real)
    requires tb.Valid() && k in tb.spans && Inverts(tb.spans[k], t)
    ensures Inverted(Values(tb), t) > 0
  {
    var i :| 0 <= i < |tb.order| && tb.order[i] == k;
    ValueOf(tb.order, tb.spans, i);
    var j :| 0 <= j < |Values(tb)| && Values(tb)[j] == tb.spans[k];
    SpannedBackwards(Values(tb), j, t);
  }

  lemma SegmentHostsAreLive(d: Directory, t: real)
    requires SegmentsOk(d)
    ensures |LiveRowHosts(SegmentRows(d.segments), t)| <= |LiveHosts(Coalesced(d), t)|
  {
    RowsOfSegments(d, d.segments);
    MergeWidens(Overwrite(EMPTY, Flatten(d.collections)), SegmentRows(d.segments));
    SubsetSize(LiveRowHosts(SegmentRows(d.segments), t), LiveHosts(Coalesced(d), t));
  }

  /** A backwards span admits, for every pool the collection rows fit, a report that is accepted
      although, at some instant, more hosts have a live segment row, and so are live in the table,
      than the pool allows. */
  lemma BackwardsSpanHides(rows: seq<Host>, k: Key, workers: int) returns (d: Directory, t: real)
    requires var tb := Overwrite(EMPTY, rows); k in tb.spans && tb.spans[k].end < tb.spans[k].start
    requires CollectedFits(rows, workers)
    ensures Flatten(d.collections) == rows && Accepted(d, workers)
    ensures |LiveRowHosts(SegmentRows(d.segments), t)| > workers && |LiveHosts(Coalesced(d), t)| > workers
  {
    var tb := Overwrite(EMPTY, rows);
    OverwriteValid(EMPTY, rows);
    t := tb.spans[k].end;
    InvertedHost(tb, k, t);
    d := FillPool(rows, workers, t);
    SegmentHostsAreLive(d, t);
  }

  lemma BackwardsKey(tb: Table) returns (k: Key)
    requires !SpansOrdered(tb)
    ensures k in tb.spans && tb.spans[k].end < tb.spans[k].start
  {
    k :| k in tb.spans && tb.spans[k].end < tb.spans[k].start;
  }

  /** At a given pool the hosts live in the table are bounded, whatever segments follow, if and
      only if no collected span is backwards or the collection rows do not fit by themselves. */
  lemma TableBoundIff(rows: seq<Host>, workers: int)
    ensures TableBounded(rows, workers) <==> SpansOrdered(Overwrite(EMPTY, rows)) || !CollectedFits(rows, workers)
  {
    if SpansOrdered(Overwrite(EMPTY, rows)) || !CollectedFits(rows, workers) {
      forall d: Directory, t: real | Flatten(d.collections) == rows && Accepted(d, workers)
        ensures |LiveHosts(Coalesced(d), t)| <= workers
      {
        AcceptedMeansCollectedFits(d, workers);
        AcceptedBoundsSegments(d, workers, t);
      }
    } else {
      var k := BackwardsKey(Overwrite(EMPTY, rows));
      var d, t := BackwardsSpanHides(rows, k, workers);
    }
  }

  /** The same for the hosts with a live segment row. */
  lemma SegmentBoundIff(rows: seq<Host>, workers: int)
    ensures SegmentsBounded(rows, workers) <==> SpansOrdered(Overwrite(EMPTY, rows)) || !CollectedFits(rows, workers)
  {
    if SpansOrdered(Overwrite(EMPTY, rows)) || !CollectedFits(rows, workers) {
      forall d: Directory, t: real | Flatten(d.collections) == rows && Accepted(d, workers)
        ensures |LiveRowHosts(SegmentRows(d.segments), t)| <= workers
      {
        AcceptedMeansCollectedFits(d, workers);
        AcceptedBoundsSegments(d, workers, t);
      }
    } else {
      var k := BackwardsKey(Overwrite(EMPTY, rows));
      var d, t := BackwardsSpanHides(rows, k, workers);
    }
  }

  /** One span fits every pool of at least one. */
  lemma OneSpanFits(rows: seq<Host>, span: Interval, workers: int)
    requires Values(Overwrite(EMPTY, rows)) == [span] && workers >= 1
    ensures CollectedFits(rows, workers)
  {
    forall t: real ensures Level(Listed([span]), t) <= workers {
      ListedLevel([span], t);
      assert [span][..0] == [];
    }
  }

  /** One host collected from instant 5 back to instant 0 is enough, in a pool of one. */
  lemma OneBackwardsRow() returns (d: Directory, t: real)
    ensures Flatten(d.collections) == [Host(0, 7, 5.0, 0.0)] && Accepted(d, 1)
    ensures |LiveRowHosts(SegmentRows(d.segments), t)| > 1 && |LiveHosts(Coalesced(d), t)| > 1
  {
    var rows := [Host(0, 7, 5.0, 0.0)];
    assert rows[..0] == [];
    assert Overwrite(EMPTY, rows) == EMPTY.Put((0, 7), Interval(5.0, 0.0));
    OneKeyValues((0, 7), Interval(5.0, 0.0));
    OneSpanFits(rows, Interval(5.0, 0.0), 1);
    d, t := BackwardsSpanHides(rows, (0, 7), 1);
  }

  lemma OneKeyValues(k: Key, iv: Interval)
    ensures ValuesOf([k], map[k := iv]) == [iv]
  {
    assert [k][..0] == [];
  }

  // ----- Lost rows -----

  /** An instant at which the row is live and the ordered span is not. */
  function LostInstant(h: Host, span: Interval): real
  {
    if h.admitted < span.start then h.admitted else Max(h.admitted, span.end)
  }

  /** A nonempty row that its host's final span does not contain admits, for every pool the
      collection rows fit, a report that is accepted although, at some instant, more hosts have a
      live row than the pool allows. */
  lemma LostRowHides(rows: seq<Host>, h: Host, workers: int) returns (d: Directory, t: real)
    requires h in rows && h.admitted < h.waited && CollectedFits(rows, workers)
    requires var tb := Overwrite(EMPTY, rows); SpansOrdered(tb) && h.Id() in tb.spans && !Within(h, tb)
    ensures Flatten(d.collections) == rows && Accepted(d, workers)
    ensures |LiveRowHosts(rows + SegmentRows(d.segments), t)| > workers
  {
    var tb, k := Overwrite(EMPTY, rows), h.Id();
    t := LostInstant(h, tb.spans[k]);
    d := FillPool(rows, workers, t);
    OneMoreLive(rows, SegmentRows(d.segments), h, t);
  }

  lemma OneMoreLive(rows: seq<Host>, more: seq<Host>, h: Host, t: real)
    requires h in rows && Covers(h.Span(), t) && h.Id() !in LiveRowHosts(more, t)
    ensures |LiveRowHosts(rows + more, t)| > |LiveRowHosts(more, t)|
  {
    SegmentsAmongRows(rows, more, t);
    assert h in rows + more;
    SubsetSize(LiveRowHosts(more, t) + {h.Id()}, LiveRowHosts(rows + more, t));
  }

  lemma SegmentsAmongRows(rows: seq<Host>, more: seq<Host>, t: real)
    ensures LiveRowHosts(more, t) <= LiveRowHosts(rows + more, t)
  {
    forall k | k in LiveRowHosts(more, t) ensures k in LiveRowHosts(rows + more, t) {
      var x :| x in more && Covers(x.Span(), t) && x.Id() == k;
      assert x in rows + more;
    }
  }

  /** A host collected twice, in a pool of one: the second row replaces the first, which is not
      counted any more. */
  lemma OneReplacedRow() returns (d: Directory, t: real)
    ensures Flatten(d.collections) == [Host(0, 7, 0.0, 5.0), Host(0, 7, 6.0, 7.0)] && Accepted(d, 1)
    ensures |LiveRowHosts(Flatten(d.collections) + SegmentRows(d.segments), t)| > 1
  {
    var first, second := Host(0, 7, 0.0, 5.0), Host(0, 7, 6.0, 7.0);
    var rows := [first, second];
    assert rows[..1] == [first] && [first][..0] == [];
    assert Overwrite(EMPTY, [first]) == EMPTY.Put((0, 7), first.Span());
    assert Overwrite(EMPTY, rows) == Table([(0, 7)], map[(0, 7) := second.Span()]);
    OneKeyValues((0, 7), second.Span());
    OneSpanFits(rows, second.Span(), 1);
    d, t := LostRowHides(rows, first, 1);
  }

  lemma {:induction false} Collected(rows: seq<Host>, h: Host)
    requires h in rows
    ensures h.Id() in Overwrite(EMPTY, rows).spans
  {
    var n := |rows| - 1;
    if h != rows[n] { Collected(rows[..n], h); }
  }

  /** At a given pool the hosts with a live row of either kind are bounded, whatever segments
      follow, if and only if no collected span is backwards and no nonempty row sticks out of its
      host's final span, or the collection rows do not fit by themselves. */
  lemma RowBoundIff(rows: seq<Host>, workers: int)
    ensures RowsBounded(rows, workers) <==>
            (SpansOrdered(Overwrite(EMPTY, rows)) && NoRowLost(rows)) || !CollectedFits(rows, workers)
  {
    var tb := Overwrite(EMPTY, rows);
    if (SpansOrdered(tb) && NoRowLost(rows)) || !CollectedFits(rows, workers) {
      forall d: Directory, t: real | Flatten(d.collections) == rows && Accepted(d, workers)
        ensures |LiveRowHosts(rows + SegmentRows(d.segments), t)| <= workers
      {
        AcceptedMeansCollectedFits(d, workers);
        AcceptedBoundsCollections(d, workers, t);
      }
    } else if SpansOrdered(tb) {
      var h :| h in rows && h.admitted < h.waited && !Within(h, tb);
      Collected(rows, h);
      var d, t := LostRowHides(rows, h, workers);
    } else {
      var k := BackwardsKey(tb);
      var d, t := BackwardsSpanHides(rows, k, workers);
      SegmentsAmongRows(rows, SegmentRows(d.segments), t);
      SubsetSize(LiveRowHosts(SegmentRows(d.segments), t), LiveRowHosts(rows + SegmentRows(d.segments), t));
    }
  }
}
