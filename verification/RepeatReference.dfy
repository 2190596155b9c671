/**
 The repeat mapping said again by positions in the document, and the proof that
 the validator accepts exactly the documents of which this holds.
 */
module RepeatReference {
  import opened Lists
  import opened Gathering
  import opened RepeatMapping

  // ----- First matches -----

  /** Slice `k` is the first one of its context. */
  ghost predicate IsSlice(ss: seq<Slice>, c: Context, k: int)
  {
    0 <= k < |ss| && ss[k].context == c && forall j :: 0 <= j < k ==> ss[j].context != c
  }

  /** Test `x` is the first one with this local ID. */
  ghost predicate IsTest(ts: seq<Test>, id: string, x: int)
  {
    0 <= x < |ts| && ts[x].localTestId == id && forall j :: 0 <= j < x ==> ts[j].localTestId != id
  }

  lemma SliceIff(ss: seq<Slice>, c: Context, k: int)
    ensures IsSlice(ss, c, k) <==> k == FirstSlice(ss, c) < |ss|
  {
    var f := FirstIndex(ss, (s: Slice) => s.context == c);
    assert f == FirstSlice(ss, c);
  }

  lemma TestIff(ts: seq<Test>, id: string, x: int)
    ensures IsTest(ts, id, x) <==> x == FirstTest(ts, id) < |ts|
  {
    var f := FirstIndex(ts, (t: Test) => t.localTestId == id);
    assert f == FirstTest(ts, id);
  }

  /** Slice `k` and test `x` of it are where a local ID in a context is looked up. */
  ghost predicate Located(ss: seq<Slice>, c: Context, id: string, k: int, x: int)
  {
    IsSlice(ss, c, k) && IsTest(ss[k].tests, id, x)
  }

  lemma LogicalIdIff(ss: seq<Slice>, c: Context, id: string, logical: string)
    ensures LogicalId(ss, c, id) == Some(logical) <==>
            exists k, x :: Located(ss, c, id, k, x) && ss[k].tests[x].logicalId == logical
  {
    var k := FirstSlice(ss, c);
    SliceIff(ss, c, k);
    if k < |ss| {
      var x := FirstTest(ss[k].tests, id);
      TestIff(ss[k].tests, id, x);
      if x < |ss[k].tests| { assert Located(ss, c, id, k, x); }
    }
    if k', x' :| Located(ss, c, id, k', x') && ss[k'].tests[x'].logicalId == logical {
      SliceIff(ss, c, k');
      TestIff(ss[k'].tests, id, x');
    }
  }

  // ----- Groups -----

  /** The slice has a test with this local ID. */
  ghost predicate HasTest(s: Slice, id: string)
  {
    exists x :: 0 <= x < |s.tests| && s.tests[x].localTestId == id
  }

  /** Some group of the slice has this member. */
  ghost predicate HasMember(gs: seq<Group>, slice: string, id: string)
  {
    exists a :: 0 <= a < |gs| && gs[a].compact.slice == slice && id in gs[a].selectedLocalIds
  }

  /** Groups `a` and `b` of the slice have the same member at `x` and `y`. */
  ghost predicate Shared(gs: seq<Group>, slice: string, a: int, x: int, b: int, y: int)
  {
    && 0 <= a < |gs| && gs[a].compact.slice == slice && 0 <= x < |gs[a].selectedLocalIds|
    && 0 <= b < |gs| && gs[b].compact.slice == slice && 0 <= y < |gs[b].selectedLocalIds|
    && gs[a].selectedLocalIds[x] == gs[b].selectedLocalIds[y]
  }

  /** No local ID is in two groups of the slice or twice in one, and the members are exactly the
      local IDs of the slice. */
  ghost predicate MembersLawful(gs: seq<Group>, s: Slice)
  {
    && (forall a, x, b, y :: Shared(gs, s.context.slice, a, x, b, y) ==> a == b && x == y)
    && (forall id :: HasTest(s, id) <==> HasMember(gs, s.context.slice, id))
  }

  ghost predicate IsSelected(ss: seq<Slice>, slice: string)
  {
    exists k :: 0 <= k < |ss| && ss[k].context.slice == slice
  }

  /** Groups have distinct indices and selected slices, and lawful members in each of them. */
  ghost predicate GroupsLawful(gs: seq<Group>, ss: seq<Slice>)
  {
    && (forall a, b :: 0 <= a < |gs| && 0 <= b < |gs| && gs[a].compact.index == gs[b].compact.index ==> a == b)
    && (forall a :: 0 <= a < |gs| ==> IsSelected(ss, gs[a].compact.slice))
    && (forall k :: 0 <= k < |ss| ==> MembersLawful(gs, ss[k]))
  }

  lemma LocalIff(s: Slice, id: string)
    ensures id in LocalIds(s) <==> HasTest(s, id)
  {
    if id in LocalIds(s) {
      var t :| t in s.tests && t.localTestId == id;
      var x :| 0 <= x < |s.tests| && s.tests[x] == t;
    }
    if x :| 0 <= x < |s.tests| && s.tests[x].localTestId == id { assert s.tests[x] in s.tests; }
  }

  lemma OneEachInSlice(gs: seq<Group>, slice: string)
    ensures OneEach(gs, InSlice(slice)) <==> forall a, x, b, y :: Shared(gs, slice, a, x, b, y) ==> a == b && x == y
  {
    var f := InSlice(slice);
    forall a | 0 <= a < |gs| ensures f(gs[a]) == if gs[a].compact.slice == slice then gs[a].selectedLocalIds else [] { }
    if OneEach(gs, f) {
      forall a, x, b, y | Shared(gs, slice, a, x, b, y) ensures a == b && x == y {
        assert f(gs[a])[x] == f(gs[b])[y];
      }
    }
    if forall a, x, b, y :: Shared(gs, slice, a, x, b, y) ==> a == b && x == y {
      forall a, x, b, y | 0 <= a < |gs| && 0 <= x < |f(gs[a])| && 0 <= b < |gs| && 0 <= y < |f(gs[b])|
                          && f(gs[a])[x] == f(gs[b])[y]
        ensures a == b && x == y
      {
        assert Shared(gs, slice, a, x, b, y);
      }
    }
  }

  lemma SliceCoveredIff(gs: seq<Group>, s: Slice)
    ensures SliceCovered(gs, s) <==> MembersLawful(gs, s)
  {
    var slice := s.context.slice;
    DistinctIff(gs, InSlice(slice));
    OneEachInSlice(gs, slice);
    var members := Elements(Members(gs, slice));
    forall id ensures (id in LocalIds(s) <==> HasTest(s, id)) && (id in members <==> HasMember(gs, slice, id)) {
      MemberOf(gs, slice, id);
      LocalIff(s, id);
    }
    if members == LocalIds(s) {
      forall id ensures HasTest(s, id) <==> HasMember(gs, slice, id) { assert id in members <==> id in LocalIds(s); }
    }
    if forall id :: HasTest(s, id) <==> HasMember(gs, slice, id) { assert members == LocalIds(s); }
  }

  lemma GroupsIff(gs: seq<Group>, ss: seq<Slice>)
    ensures GroupsOk(gs, ss) <==> GroupsLawful(gs, ss)
  {
    forall k | 0 <= k < |ss| ensures SliceCovered(gs, ss[k]) <==> MembersLawful(gs, ss[k]) {
      SliceCoveredIff(gs, ss[k]);
    }
    if GroupsOk(gs, ss) {
      forall k | 0 <= k < |ss| ensures MembersLawful(gs, ss[k]) { assert SliceCovered(gs, ss[k]); }
      forall a, b | 0 <= a < |gs| && 0 <= b < |gs| && gs[a].compact.index == gs[b].compact.index ensures a == b { }
      forall a | 0 <= a < |gs| ensures IsSelected(ss, gs[a].compact.slice) {
        assert SliceSelected(ss, gs[a].compact.slice);
      }
      assert GroupsLawful(gs, ss);
    }
    if GroupsLawful(gs, ss) {
      forall k | 0 <= k < |ss| ensures SliceCovered(gs, ss[k]) { assert MembersLawful(gs, ss[k]); }
      forall a | 0 <= a < |gs| ensures SliceSelected(ss, gs[a].compact.slice) {
        assert IsSelected(ss, gs[a].compact.slice);
      }
    }
  }

  /** With distinct indices, looking a group up by index finds the one that is named. */
  lemma NamedGroup(gs: seq<Group>, g: Compact)
    requires forall a, b :: 0 <= a < |gs| && 0 <= b < |gs| && gs[a].compact.index == gs[b].compact.index ==> a == b
    ensures var k := GroupByIndex(gs, g.index);
      forall a :: 0 <= a < |gs| && gs[a].compact == g <==> a == k < |gs| && gs[k].compact == g
  {
    forall a | 0 <= a < |gs| && gs[a].compact == g ensures a == GroupByIndex(gs, g.index) {
      FoundByIndex(gs, g.index, a);
    }
  }

  lemma {:induction false} FoundByIndex(gs: seq<Group>, index: int, a: nat)
    requires a < |gs| && gs[a].compact.index == index
    requires forall a, b :: 0 <= a < |gs| && 0 <= b < |gs| && gs[a].compact.index == gs[b].compact.index ==> a == b
    ensures GroupByIndex(gs, index) == a
  {
    var n := |gs| - 1;
    if a < n {
      assert gs[n].compact.index != index;
      FoundByIndex(gs[..n], index, a);
    }
  }

  // ----- Sources -----

  lemma {:induction false} DistinctSize(s: seq<string>)
    ensures |Elements(s)| <= |s|
    ensures Distinct(s) <==> |Elements(s)| == |s|
  {
    if s != [] {
      var init, last := s[..|s| - 1], s[|s| - 1];
      DistinctSize(init);
      assert s == init + [last];
      if last in init {
        assert Elements(s) == Elements(init);
        var i :| 0 <= i < |init| && init[i] == last;
        assert s[i] == s[|s| - 1];
      } else {
        assert Elements(s) == Elements(init) + {last};
        assert forall i :: 0 <= i < |init| ==> s[i] == init[i] != last;
      }
    }
  }

  /** The one body event of an attempt. */
  ghost predicate OneBody(es: seq<Event>, a: Attempt, id: string, repeatEachIndex: int)
  {
    exists i :: IsBody(es, a, id, i) && es[i].repeatEachIndex == repeatEachIndex
      && forall j :: IsBody(es, a, id, j) ==> j == i
  }

  ghost predicate IsBody(es: seq<Event>, a: Attempt, id: string, i: int)
  {
    0 <= i < |es| && es[i].body && es[i].pid == a.pid && es[i].retry == a.retry && es[i].testId == id
  }

  lemma BodiesIff(es: seq<Event>, a: Attempt, id: string, repeatEachIndex: int)
    ensures |Bodies(es, a, id)| == 1 && Bodies(es, a, id)[0].repeatEachIndex == repeatEachIndex <==>
            OneBody(es, a, id, repeatEachIndex)
  {
    var f, all := BodyOf(a, id), Bodies(es, a, id);
    if |all| == 1 && all[0].repeatEachIndex == repeatEachIndex {
      var i, z := GatherFrom(es, f, 0);
      forall j | IsBody(es, a, id, j) ensures j == i {
        var p := GatherAt(es, f, j, 0);
        Apart(es, f, i, 0, j, 0);
      }
      assert IsBody(es, a, id, i);
    }
    if OneBody(es, a, id, repeatEachIndex) {
      var i :| IsBody(es, a, id, i) && es[i].repeatEachIndex == repeatEachIndex
        && forall j :: IsBody(es, a, id, j) ==> j == i;
      var p := GatherAt(es, f, i, 0);
      OnlyPosition(es, a, id, i, 0);
      if |all| > 1 { OnlyPosition(es, a, id, i, 1); }
    }
  }

  lemma OnlyPosition(es: seq<Event>, a: Attempt, id: string, i: nat, q: nat)
    requires i < |es| && (forall j :: IsBody(es, a, id, j) ==> j == i) && q < |Bodies(es, a, id)|
    ensures q == |Gather(es[..i], BodyOf(a, id))|
  {
    var j, z := GatherFrom(es, BodyOf(a, id), q);
    assert IsBody(es, a, id, j);
  }

  /** What a source may attempt: the local IDs of its slice, or of its group when there are groups. */
  ghost predicate Attemptable(d: Doc, s: Source, id: string)
  {
    if d.groups.None? then exists k :: IsSlice(d.selected, s.context, k) && HasTest(d.selected[k], id)
    else s.group.Some? && exists a :: OwnGroup(d.groups.value, s, a) && id in d.groups.value[a].selectedLocalIds
  }

  ghost predicate OwnGroup(gs: seq<Group>, s: Source, a: int)
  {
    0 <= a < |gs| && s.group == Some(gs[a].compact) && gs[a].compact.slice == s.context.slice
  }

  /** Segment `o` is the first one of the source. */
  ghost predicate IsOwner(d: Doc, s: Source, o: int)
  {
    0 <= o < |d.segments| && d.segments[o].sourceId == s.sourceId
    && forall j :: 0 <= j < o ==> d.segments[j].sourceId != s.sourceId
  }

  /** The source has a selected slice and a retired segment of its context, which lists without
      repetition exactly what the source may attempt; with groups, both name one group of the
      slice, whose members are distinct. */
  ghost predicate OwnerLawful(d: Doc, s: Source)
  {
    && (exists k :: IsSlice(d.selected, s.context, k))
    && (exists o :: IsOwner(d, s, o) && d.segments[o].context == s.context && d.segments[o].nativeRetired
          && (d.groups.Some? ==> d.segments[o].group == s.group)
          && Distinct(d.segments[o].selectedLocalIds)
          && forall id :: id in d.segments[o].selectedLocalIds <==> Attemptable(d, s, id))
    && (d.groups.Some? ==> exists a :: OwnGroup(d.groups.value, s, a) && Distinct(d.groups.value[a].selectedLocalIds))
  }

  /** An attempt is one the source may make, of a test of its slice, and has one body event, with
      the repetition of the context. */
  ghost predicate AttemptLawful(d: Doc, s: Source, a: Attempt)
  {
    && Attemptable(d, s, a.testId)
    && exists k, x :: Located(d.selected, s.context, a.testId, k, x)
         && OneBody(d.events, a, d.selected[k].tests[x].logicalId, s.context.repeatEachIndex)
  }

  lemma SegmentIff(d: Doc, s: Source, o: int)
    ensures IsOwner(d, s, o) <==> o == FirstSegment(d.segments, s.sourceId) < |d.segments|
  {
    var f := FirstIndex(d.segments, (x: Segment) => x.sourceId == s.sourceId);
    assert f == FirstSegment(d.segments, s.sourceId);
  }

  /** With lawful groups, a source's own group is the one found by its index. */
  lemma OwnGroupIff(d: Doc, s: Source, a: int)
    requires d.groups.Some? && s.group.Some? && GroupsLawful(d.groups.value, d.selected)
    ensures var gs, g := d.groups.value, s.group.value;
      OwnGroup(gs, s, a) <==> a == GroupByIndex(gs, g.index) < |gs| && gs[a].compact == g && g.slice == s.context.slice
  {
    NamedGroup(d.groups.value, s.group.value);
  }

  /** `Admitted` collects what may be attempted, if the source has its slice and group. */
  lemma AdmittedIff(d: Doc, s: Source)
    requires d.groups.Some? ==> GroupsLawful(d.groups.value, d.selected)
    ensures Admitted(d, s).Some? <==>
      && (exists k :: IsSlice(d.selected, s.context, k))
      && (d.groups.Some? ==> exists a :: OwnGroup(d.groups.value, s, a) && Distinct(d.groups.value[a].selectedLocalIds))
  {
    var k := FirstSlice(d.selected, s.context);
    SliceIff(d.selected, s.context, k);
    if j :| IsSlice(d.selected, s.context, j) { SliceIff(d.selected, s.context, j); }
    if d.groups.Some? && s.group.Some? {
      var gs := d.groups.value;
      var q := GroupByIndex(gs, s.group.value.index);
      OwnGroupIff(d, s, q);
      if a :| OwnGroup(gs, s, a) && Distinct(gs[a].selectedLocalIds) { OwnGroupIff(d, s, a); }
    }
  }

  lemma AdmittedIs(d: Doc, s: Source, id: string)
    requires d.groups.Some? ==> GroupsLawful(d.groups.value, d.selected)
    requires Admitted(d, s).Some?
    ensures id in Admitted(d, s).value <==> Attemptable(d, s, id)
  {
    var k := FirstSlice(d.selected, s.context);
    SliceIff(d.selected, s.context, k);
    LocalIff(d.selected[k], id);
    if d.groups.None? {
      if j :| IsSlice(d.selected, s.context, j) && HasTest(d.selected[j], id) { SliceIff(d.selected, s.context, j); }
    } else {
      var gs := d.groups.value;
      OwnGroupIff(d, s, GroupByIndex(gs, s.group.value.index));
      if a :| OwnGroup(gs, s, a) && id in gs[a].selectedLocalIds { OwnGroupIff(d, s, a); }
    }
  }

  /** The segment lists exactly the admitted IDs, each once. */
  lemma ListsIff(ids: seq<string>, admitted: set<string>)
    ensures Elements(ids) == admitted && |ids| == |admitted| <==>
            Distinct(ids) && forall id :: id in ids <==> id in admitted
  {
    DistinctSize(ids);
    assert Elements(ids) == admitted <==> forall id :: id in Elements(ids) <==> id in admitted;
    assert forall id :: id in Elements(ids) <==> id in ids;
  }

  lemma OwnerIff(d: Doc, s: Source)
    requires d.groups.Some? ==> GroupsLawful(d.groups.value, d.selected)
    ensures OwnerOk(d, s) <==> OwnerLawful(d, s)
  {
    AdmittedIff(d, s);
    var o := FirstSegment(d.segments, s.sourceId);
    SegmentIff(d, s, o);
    forall j | IsOwner(d, s, j) ensures j == o { SegmentIff(d, s, j); }
    if Admitted(d, s).Some? && o < |d.segments| {
      ListsIff(d.segments[o].selectedLocalIds, Admitted(d, s).value);
      forall id ensures id in Admitted(d, s).value <==> Attemptable(d, s, id) { AdmittedIs(d, s, id); }
    }
  }

  lemma AttemptIff(d: Doc, s: Source, a: Attempt)
    requires (d.groups.Some? ==> GroupsLawful(d.groups.value, d.selected)) && Admitted(d, s).Some?
    ensures AttemptOk(d, s, a) <==> AttemptLawful(d, s, a)
  {
    AdmittedIs(d, s, a.testId);
    var found := LogicalId(d.selected, s.context, a.testId);
    if found.Some? {
      LogicalIdIff(d.selected, s.context, a.testId, found.value);
      BodiesIff(d.events, a, found.value, s.context.repeatEachIndex);
    }
    if k, x :| Located(d.selected, s.context, a.testId, k, x)
               && OneBody(d.events, a, d.selected[k].tests[x].logicalId, s.context.repeatEachIndex) {
      LogicalIdIff(d.selected, s.context, a.testId, d.selected[k].tests[x].logicalId);
    }
  }

  /** A source and all its attempts. */
  ghost predicate SourceLawful(d: Doc, s: Source)
  {
    OwnerLawful(d, s) && forall i :: 0 <= i < |s.attempts| ==> AttemptLawful(d, s, s.attempts[i])
  }

  lemma SourceIff(d: Doc, s: Source)
    requires d.groups.Some? ==> GroupsLawful(d.groups.value, d.selected)
    ensures SourceOk(d, s) <==> SourceLawful(d, s)
  {
    OwnerIff(d, s);
    if OwnerOk(d, s) {
      forall i | 0 <= i < |s.attempts| ensures AttemptOk(d, s, s.attempts[i]) <==> AttemptLawful(d, s, s.attempts[i]) {
        AttemptIff(d, s, s.attempts[i]);
      }
    }
  }

  // ----- Rows -----

  /** Source `j` is the first one with this ID. */
  ghost predicate IsSource(ss: seq<Source>, id: string, j: int)
  {
    0 <= j < |ss| && ss[j].sourceId == id && forall i :: 0 <= i < j ==> ss[i].sourceId != id
  }

  /** The row's group is a group of its slice that has its test. */
  ghost predicate RowGroupLawful(d: Doc, r: Row)
    requires d.groups.Some?
  {
    exists a :: 0 <= a < |d.groups.value| && r.group == Some(d.groups.value[a].compact)
      && d.groups.value[a].compact.slice == r.context.slice && r.testId in d.groups.value[a].selectedLocalIds
  }

  /** A row carries the logical ID of its test; one that was only selected names no source and did
      not run, any other names a source with its context and group. */
  ghost predicate RowLawful(d: Doc, r: Row)
  {
    && (exists k, x ::
          Located(d.selected, r.context, r.testId, k, x) && d.selected[k].tests[x].logicalId == r.logicalId)
    && (d.groups.Some? ==> RowGroupLawful(d, r))
    && (if r.selectionOnly then r.sourceId == None && r.didNotRun && r.attemptIndices == []
        else RanLawful(d, r))
  }

  ghost predicate RanLawful(d: Doc, r: Row)
  {
    && r.sourceId.Some?
    && exists j ::
         && IsSource(d.sources, r.sourceId.value, j)
         && d.sources[j].context == r.context && (d.groups.Some? ==> d.sources[j].group == r.group)
  }

  lemma SourceFirstIff(ss: seq<Source>, id: string, j: int)
    ensures IsSource(ss, id, j) <==> j == FirstSource(ss, id) < |ss|
  {
    var f := FirstIndex(ss, (s: Source) => s.sourceId == id);
    assert f == FirstSource(ss, id);
  }

  lemma RowGroupIff(d: Doc, r: Row)
    requires d.groups.Some? && GroupsLawful(d.groups.value, d.selected)
    ensures RowGroupOk(d, r) <==> RowGroupLawful(d, r)
  {
    var gs := d.groups.value;
    if r.group.Some? {
      NamedGroup(gs, r.group.value);
      if RowGroupLawful(d, r) {
        var a :| 0 <= a < |gs| && r.group == Some(gs[a].compact)
          && gs[a].compact.slice == r.context.slice && r.testId in gs[a].selectedLocalIds;
      }
    }
  }

  lemma RowIff(d: Doc, r: Row)
    requires d.groups.Some? ==> GroupsLawful(d.groups.value, d.selected)
    ensures RowOk(d, r) <==> RowLawful(d, r)
  {
    LogicalIdIff(d.selected, r.context, r.testId, r.logicalId);
    if k, x :| Located(d.selected, r.context, r.testId, k, x) && d.selected[k].tests[x].logicalId == r.logicalId {
      assert SliceIds(d.selected[k])[x] == r.logicalId;
      GatherIn(d.selected, SliceIds, r.logicalId);
    }
    if d.groups.Some? { RowGroupIff(d, r); }
    RanIff(d, r);
  }

  lemma RanIff(d: Doc, r: Row)
    ensures RanLawful(d, r) <==>
      && r.sourceId.Some?
      && var i := FirstSource(d.sources, r.sourceId.value);
         i < |d.sources| && d.sources[i].context == r.context && (d.groups.Some? ==> d.sources[i].group == r.group)
  {
    if r.sourceId.Some? {
      var f := FirstSource(d.sources, r.sourceId.value);
      SourceFirstIff(d.sources, r.sourceId.value, f);
      if RanLawful(d, r) {
        var j :| && IsSource(d.sources, r.sourceId.value, j)
                 && d.sources[j].context == r.context && (d.groups.Some? ==> d.sources[j].group == r.group);
        SourceFirstIff(d.sources, r.sourceId.value, j);
      }
    }
  }

  // ----- The whole document -----

  /** No two tests of the selection have the same logical ID. */
  ghost predicate IdsOnce(ss: seq<Slice>)
  {
    forall i, j, i', j' ::
      (&& 0 <= i < |ss| && 0 <= j < |ss[i].tests| && 0 <= i' < |ss| && 0 <= j' < |ss[i'].tests|
       && ss[i].tests[j].logicalId == ss[i'].tests[j'].logicalId)
      ==> i == i' && j == j'
  }

  /** No two attempts have the same generation. */
  ghost predicate GenerationsOnce(ss: seq<Source>)
  {
    forall i, j, i', j' ::
      (&& 0 <= i < |ss| && 0 <= j < |ss[i].attempts| && 0 <= i' < |ss| && 0 <= j' < |ss[i'].attempts|
       && ss[i].attempts[j].generation == ss[i'].attempts[j'].generation)
      ==> i == i' && j == j'
  }

  /** No two outputs have the same ID. */
  ghost predicate OutputsOnce(ss: seq<Source>)
  {
    forall i, j, i', j' ::
      (&& 0 <= i < |ss| && 0 <= j < |ss[i].outputIds| && 0 <= i' < |ss| && 0 <= j' < |ss[i'].outputIds|
       && ss[i].outputIds[j] == ss[i'].outputIds[j'])
      ==> i == i' && j == j'
  }

  lemma IdsOnceIff(ss: seq<Slice>)
    ensures Distinct(AllIds(ss)) <==> IdsOnce(ss)
  {
    DistinctIff(ss, SliceIds);
    if OneEach(ss, SliceIds) {
      forall i, j, i', j' | 0 <= i < |ss| && 0 <= j < |ss[i].tests| && 0 <= i' < |ss| && 0 <= j' < |ss[i'].tests|
                            && ss[i].tests[j].logicalId == ss[i'].tests[j'].logicalId
        ensures i == i' && j == j'
      {
        assert SliceIds(ss[i])[j] == SliceIds(ss[i'])[j'];
      }
    }
  }

  lemma GenerationsOnceIff(ss: seq<Source>)
    ensures Distinct(Generations(ss)) <==> GenerationsOnce(ss)
  {
    DistinctIff(ss, SourceGenerations);
    if OneEach(ss, SourceGenerations) {
      forall i, j, i', j' | 0 <= i < |ss| && 0 <= j < |ss[i].attempts| && 0 <= i' < |ss| && 0 <= j' < |ss[i'].attempts|
                            && ss[i].attempts[j].generation == ss[i'].attempts[j'].generation
        ensures i == i' && j == j'
      {
        assert SourceGenerations(ss[i])[j] == SourceGenerations(ss[i'])[j'];
      }
    }
  }

  lemma OutputsOnceIff(ss: seq<Source>)
    ensures Distinct(OutputIds(ss)) <==> OutputsOnce(ss)
  {
    DistinctIff(ss, SourceOutputs);
    if OneEach(ss, SourceOutputs) {
      forall i, j, i', j' | 0 <= i < |ss| && 0 <= j < |ss[i].outputIds|
                            && 0 <= i' < |ss| && 0 <= j' < |ss[i'].outputIds|
                            && ss[i].outputIds[j] == ss[i'].outputIds[j']
        ensures i == i' && j == j'
      {
        assert SourceOutputs(ss[i])[j] == SourceOutputs(ss[i'])[j'];
      }
    }
  }

  /** Logical IDs, generations and output IDs are used once each; groups, sources and rows are lawful. */
  ghost predicate Lawful(d: Doc)
  {
    && IdsOnce(d.selected) && GenerationsOnce(d.sources) && OutputsOnce(d.sources)
    && (d.groups.Some? ==> GroupsLawful(d.groups.value, d.selected))
    && (forall i :: 0 <= i < |d.sources| ==> SourceLawful(d, d.sources[i]))
    && (forall i :: 0 <= i < |d.rows| ==> RowLawful(d, d.rows[i]))
  }

  lemma SourcesIff(d: Doc)
    requires d.groups.Some? ==> GroupsLawful(d.groups.value, d.selected)
    ensures SourcesOk(d) <==> forall i :: 0 <= i < |d.sources| ==> SourceLawful(d, d.sources[i])
  {
    forall i | 0 <= i < |d.sources| ensures SourceOk(d, d.sources[i]) <==> SourceLawful(d, d.sources[i]) {
      SourceIff(d, d.sources[i]);
    }
    if SourcesOk(d) {
      forall i | 0 <= i < |d.sources| ensures SourceLawful(d, d.sources[i]) { assert SourceOk(d, d.sources[i]); }
    }
  }

  lemma RowsIff(d: Doc)
    requires d.groups.Some? ==> GroupsLawful(d.groups.value, d.selected)
    ensures RowsOk(d) <==> forall i :: 0 <= i < |d.rows| ==> RowLawful(d, d.rows[i])
  {
    forall i | 0 <= i < |d.rows| ensures RowOk(d, d.rows[i]) <==> RowLawful(d, d.rows[i]) { RowIff(d, d.rows[i]); }
    if RowsOk(d) {
      forall i | 0 <= i < |d.rows| ensures RowLawful(d, d.rows[i]) { assert RowOk(d, d.rows[i]); }
    }
  }

  /** The validator accepts exactly the lawful documents. */
  lemma AcceptsIff(d: Doc)
    ensures Accepts(d) <==> Lawful(d)
  {
    IdsOnceIff(d.selected);
    GenerationsOnceIff(d.sources);
    OutputsOnceIff(d.sources);
    if d.groups.Some? { GroupsIff(d.groups.value, d.selected); }
    if d.groups.Some? ==> GroupsLawful(d.groups.value, d.selected) {
      SourcesIff(d);
      RowsIff(d);
    }
  }

  // ----- The IDs it returns -----

  lemma {:induction false} AttemptIdsIff(d: Doc, s: Source, xs: seq<Attempt>, id: string)
    ensures id in AttemptIds(d, s, xs) <==>
            exists j :: 0 <= j < |xs| && LogicalId(d.selected, s.context, xs[j].testId) == Some(id)
  {
    if xs != [] {
      var n := |xs| - 1;
      AttemptIdsIff(d, s, xs[..n], id);
      assert forall j :: 0 <= j < n ==> xs[..n][j] == xs[j];
    }
  }

  /** Attempt `j` of the source is of a test with this logical ID. */
  ghost predicate Attempted(d: Doc, s: Source, id: string)
  {
    exists j :: 0 <= j < |s.attempts| && LogicalId(d.selected, s.context, s.attempts[j].testId) == Some(id)
  }

  /** The validator returns exactly the logical IDs of the attempted tests. */
  lemma {:induction false} SourceIdsIff(d: Doc, ss: seq<Source>, id: string)
    ensures id in SourceIds(d, ss) <==> exists i :: 0 <= i < |ss| && Attempted(d, ss[i], id)
  {
    if ss != [] {
      var n := |ss| - 1;
      SourceIdsIff(d, ss[..n], id);
      AttemptIdsIff(d, ss[n], ss[n].attempts, id);
      assert forall i :: 0 <= i < n ==> ss[..n][i] == ss[i];
    }
  }
}
