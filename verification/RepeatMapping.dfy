/**
 The identity mapping of repeated suites: selected slices assign an opaque
 logical ID to every local test, and sources, segments, groups and callback
 events must agree with that assignment.
 */
module RepeatMapping {
  import opened Lists
  import opened Gathering

  datatype Context = Context(slice: string, repeatEachIndex: int, actor: string)
  datatype Test = Test(logicalId: string, localTestId: string)
  datatype Slice = Slice(context: Context, tests: seq<Test>)
  /** The four fields by which sources and rows name a group. */
  datatype Compact = Compact(index: int, slice: string, mode: string, suiteId: string)
  datatype Group = Group(compact: Compact, selectedLocalIds: seq<string>)
  datatype Segment = Segment(sourceId: string, context: Context, nativeRetired: bool, selectedLocalIds: seq<string>,
      group: Option<Compact>)
  datatype Attempt = Attempt(testId: string, pid: int, retry: int, generation: string)
  datatype Source = Source(sourceId: string, context: Context, group: Option<Compact>, attempts: seq<Attempt>,
      outputIds: seq<string>)
  datatype Event = Event(body: bool, pid: int, retry: int, testId: string, repeatEachIndex: int)
  datatype Row = Row(logicalId: string, testId: string, context: Context, group: Option<Compact>,
                     selectionOnly: bool, sourceId: Option<string>, didNotRun: bool, attemptIndices: seq<int>)
  datatype Doc = Doc(selected: seq<Slice>, groups: Option<seq<Group>>, segments: seq<Segment>, sources: seq<Source>,
                     events: seq<Event>, rows: seq<Row>)

  // ----- First matches -----

  function FirstSlice(ss: seq<Slice>, c: Context): (i: nat)
    ensures i <= |ss| && (i < |ss| ==> ss[i].context == c)
  {
    FirstIndex(ss, (s: Slice) => s.context == c)
  }

  function FirstTest(ts: seq<Test>, id: string): (i: nat)
    ensures i <= |ts| && (i < |ts| ==> ts[i].localTestId == id)
    ensures i == |ts| ==> forall k :: 0 <= k < |ts| ==> ts[k].localTestId != id
  {
    FirstIndex(ts, (t: Test) => t.localTestId == id)
  }

  function FirstSegment(ss: seq<Segment>, id: string): (i: nat)
    ensures i <= |ss| && (i < |ss| ==> ss[i].sourceId == id)
  {
    FirstIndex(ss, (s: Segment) => s.sourceId == id)
  }

  function FirstSource(ss: seq<Source>, id: string): (i: nat)
    ensures i <= |ss| && (i < |ss| ==> ss[i].sourceId == id)
  {
    FirstIndex(ss, (s: Source) => s.sourceId == id)
  }

  /** The mapping the checker uses: first slice of the context, first test with the local ID. */
  function LogicalId(selected: seq<Slice>, c: Context, local: string): Option<string>
  {
    var i := FirstSlice(selected, c);
    if i == |selected| then None
    else
      var j := FirstTest(selected[i].tests, local);
      if j == |selected[i].tests| then None else Some(selected[i].tests[j].logicalId)
  }

  // ----- Conditions -----

  function TestIds(ts: seq<Test>): (r: seq<string>)
    ensures |r| == |ts| && forall i :: 0 <= i < |r| ==> r[i] == ts[i].logicalId
  {
    if ts == [] then [] else TestIds(ts[..|ts| - 1]) + [ts[|ts| - 1].logicalId]
  }

  function SliceIds(s: Slice): seq<string> { TestIds(s.tests) }

  /** The logical IDs of all selected tests, slice by slice. */
  function AllIds(ss: seq<Slice>): seq<string> { Gather(ss, SliceIds) }

  function LocalIds(s: Slice): set<string> { set t | t in s.tests :: t.localTestId }

  function InSlice(slice: string): Group -> seq<string>
  {
    (g: Group) => if g.compact.slice == slice then g.selectedLocalIds else []
  }

  /** Members of all groups of one slice, in order. */
  function Members(gs: seq<Group>, slice: string): seq<string> { Gather(gs, InSlice(slice)) }

  predicate SliceCovered(gs: seq<Group>, s: Slice)
  {
    var members := Members(gs, s.context.slice);
    Distinct(members) && Elements(members) == LocalIds(s)
  }

  predicate IndicesUnique(gs: seq<Group>)
  {
    forall i, j :: 0 <= i < j < |gs| ==> gs[i].compact.index != gs[j].compact.index
  }

  predicate SliceSelected(selected: seq<Slice>, slice: string)
  {
    exists k :: 0 <= k < |selected| && selected[k].context.slice == slice
  }

  predicate GroupsOk(gs: seq<Group>, selected: seq<Slice>)
  {
    && IndicesUnique(gs)
    && (forall i :: 0 <= i < |gs| ==> SliceSelected(selected, gs[i].compact.slice))
    && (forall k :: 0 <= k < |selected| ==> SliceCovered(gs, selected[k]))
  }

  /** Position of the group with this index in a dictionary by index: the last one wins. */
  function GroupByIndex(gs: seq<Group>, index: int): (i: nat)
    ensures i <= |gs| && (i < |gs| ==> gs[i].compact.index == index)
  {
    if gs == [] then 0
    else if gs[|gs| - 1].compact.index == index then |gs| - 1
    else
      var i := GroupByIndex(gs[..|gs| - 1], index);
      if i == |gs| - 1 then |gs| else i
  }

  /** The local IDs a source may attempt: its group's, or its whole slice's when there are no groups. */
  function Admitted(d: Doc, s: Source): Option<set<string>>
  {
    var i := FirstSlice(d.selected, s.context);
    if i == |d.selected| then None
    else if d.groups.None? then Some(LocalIds(d.selected[i]))
    else if s.group.None? then None
    else
      var gs, g := d.groups.value, s.group.value;
      var k := GroupByIndex(gs, g.index);
      if k == |gs| || gs[k].compact != g || g.slice != s.context.slice || !Distinct(gs[k].selectedLocalIds) then None
      else Some(Elements(gs[k].selectedLocalIds))
  }

  predicate OwnerOk(d: Doc, s: Source)
  {
    var i := FirstSegment(d.segments, s.sourceId);
    && i < |d.segments| && d.segments[i].context == s.context && d.segments[i].nativeRetired
    && (d.groups.Some? ==> d.segments[i].group == s.group)
    && Admitted(d, s).Some? && Elements(d.segments[i].selectedLocalIds) == Admitted(d, s).value
    && |d.segments[i].selectedLocalIds| == |Admitted(d, s).value|
  }

  /** Body events of one attempt under one logical ID. */
  function Bodies(es: seq<Event>, a: Attempt, id: string): seq<Event>
  {
    Gather(es, BodyOf(a, id))
  }

  function BodyOf(a: Attempt, id: string): Event -> seq<Event>
  {
    (e: Event) => if e.body && e.pid == a.pid && e.retry == a.retry && e.testId == id then [e] else []
  }

  predicate AttemptOk(d: Doc, s: Source, a: Attempt)
    requires Admitted(d, s).Some?
  {
    && a.testId in Admitted(d, s).value && LogicalId(d.selected, s.context, a.testId).Some?
    && var bodies := Bodies(d.events, a, LogicalId(d.selected, s.context, a.testId).value);
       |bodies| == 1 && bodies[0].repeatEachIndex == s.context.repeatEachIndex
  }

  predicate SourceOk(d: Doc, s: Source)
  {
    OwnerOk(d, s) && forall i :: 0 <= i < |s.attempts| ==> AttemptOk(d, s, s.attempts[i])
  }

  function AttemptGenerations(xs: seq<Attempt>): (r: seq<string>)
    ensures |r| == |xs| && forall i :: 0 <= i < |r| ==> r[i] == xs[i].generation
  {
    if xs == [] then [] else AttemptGenerations(xs[..|xs| - 1]) + [xs[|xs| - 1].generation]
  }

  function SourceGenerations(s: Source): seq<string> { AttemptGenerations(s.attempts) }
  function SourceOutputs(s: Source): seq<string> { s.outputIds }

  function Generations(ss: seq<Source>): seq<string> { Gather(ss, SourceGenerations) }
  function OutputIds(ss: seq<Source>): seq<string> { Gather(ss, SourceOutputs) }

  predicate RowGroupOk(d: Doc, r: Row)
  {
    d.groups.Some? ==>
      && r.group.Some?
      && var gs, g := d.groups.value, r.group.value;
         var k := GroupByIndex(gs, g.index);
         k < |gs| && gs[k].compact == g && g.slice == r.context.slice && r.testId in gs[k].selectedLocalIds
  }

  predicate RowOk(d: Doc, r: Row)
  {
    && r.logicalId in AllIds(d.selected)
    && LogicalId(d.selected, r.context, r.testId) == Some(r.logicalId)
    && RowGroupOk(d, r)
    && if r.selectionOnly then r.sourceId.None? && r.didNotRun && r.attemptIndices == []
       else
         && r.sourceId.Some?
         && var i := FirstSource(d.sources, r.sourceId.value);
            i < |d.sources| && d.sources[i].context == r.context && (d.groups.Some? ==> d.sources[i].group == r.group)
  }

  predicate SourcesOk(d: Doc)
  {
    forall i :: 0 <= i < |d.sources| ==> SourceOk(d, d.sources[i])
  }

  predicate RowsOk(d: Doc)
  {
    forall i :: 0 <= i < |d.rows| ==> RowOk(d, d.rows[i])
  }

  predicate Accepts(d: Doc)
  {
    && Distinct(AllIds(d.selected))
    && (d.groups.Some? ==> GroupsOk(d.groups.value, d.selected))
    && SourcesOk(d)
    && Distinct(Generations(d.sources)) && Distinct(OutputIds(d.sources))
    && RowsOk(d)
  }

  // ----- Consequences -----

  lemma OnePosition(ss: seq<Slice>, i: nat, j: nat, i': nat, j': nat)
    requires Distinct(AllIds(ss)) && i < |ss| && j < |ss[i].tests| && i' < |ss| && j' < |ss[i'].tests|
    requires ss[i].tests[j].logicalId == ss[i'].tests[j'].logicalId
    ensures i == i' && j == j'
  {
    DistinctIff(ss, SliceIds);
    assert SliceIds(ss[i])[j] == SliceIds(ss[i'])[j'];
  }

  /** The mapping from (context, local ID) to logical ID is injective. */
  lemma MappingIsInjective(d: Doc, c: Context, local: string, c': Context, local': string)
    requires Accepts(d) && LogicalId(d.selected, c, local).Some?
        && LogicalId(d.selected, c, local) == LogicalId(d.selected, c', local')
    ensures c == c' && local == local'
  {
    var i, i' := FirstSlice(d.selected, c), FirstSlice(d.selected, c');
    OnePosition(d.selected, i, FirstTest(d.selected[i].tests, local), i', FirstTest(d.selected[i'].tests, local'));
  }

  lemma MemberOf(gs: seq<Group>, slice: string, id: string)
    ensures id in Members(gs, slice) <==>
            exists a :: 0 <= a < |gs| && gs[a].compact.slice == slice && id in gs[a].selectedLocalIds
  {
    GatherIn(gs, InSlice(slice), id);
    forall a | 0 <= a < |gs|
      ensures id in InSlice(slice)(gs[a]) <==> gs[a].compact.slice == slice && id in gs[a].selectedLocalIds { }
  }

  lemma OneGroup(gs: seq<Group>, slice: string, a: nat, b: nat, id: string)
    requires Distinct(Members(gs, slice)) && a < |gs| && b < |gs| && gs[a].compact.slice == slice == gs[b].compact.slice
    requires id in gs[a].selectedLocalIds && id in gs[b].selectedLocalIds
    ensures a == b
  {
    var f := InSlice(slice);
    DistinctIff(gs, f);
    var x :| 0 <= x < |gs[a].selectedLocalIds| && gs[a].selectedLocalIds[x] == id;
    var y :| 0 <= y < |gs[b].selectedLocalIds| && gs[b].selectedLocalIds[y] == id;
    assert f(gs[a])[x] == f(gs[b])[y];
  }

  /** The groups of a selected slice partition its local IDs. */
  lemma GroupsPartitionSlice(d: Doc, k: nat, id: string) returns (a: nat)
    requires Accepts(d) && d.groups.Some? && k < |d.selected| && id in LocalIds(d.selected[k])
    ensures a < |d.groups.value|
    ensures forall b :: 0 <= b < |d.groups.value| && d.groups.value[b].compact.slice == d.selected[k].context.slice ==>
              (id in d.groups.value[b].selectedLocalIds <==> b == a)
    ensures d.groups.value[a].compact.slice == d.selected[k].context.slice
  {
    var gs, slice := d.groups.value, d.selected[k].context.slice;
    assert SliceCovered(gs, d.selected[k]);
    assert id in Elements(Members(gs, slice));
    MemberOf(gs, slice, id);
    a :| 0 <= a < |gs| && gs[a].compact.slice == slice && id in gs[a].selectedLocalIds;
    forall b | 0 <= b < |gs| && gs[b].compact.slice == slice && id in gs[b].selectedLocalIds ensures b == a {
      OneGroup(gs, slice, a, b, id);
    }
  }

  /** Conversely the groups of a slice have no other members. */
  lemma GroupsStayInSlice(d: Doc, k: nat, a: nat, x: nat)
    requires Accepts(d) && d.groups.Some? && k < |d.selected| && a < |d.groups.value|
    requires d.groups.value[a].compact.slice == d.selected[k].context.slice && x < |d.groups.value[a].selectedLocalIds|
    ensures d.groups.value[a].selectedLocalIds[x] in LocalIds(d.selected[k])
  {
    var gs, slice := d.groups.value, d.selected[k].context.slice;
    assert SliceCovered(gs, d.selected[k]);
    MemberOf(gs, slice, gs[a].selectedLocalIds[x]);
    assert gs[a].selectedLocalIds[x] in Elements(Members(gs, slice));
  }

  /** The test of an attempt is the only one of the selection with its logical ID. */
  lemma OneTestPerAttempt(d: Doc, i: nat, j: nat, k: nat, x: nat)
    requires Accepts(d) && i < |d.sources| && j < |d.sources[i].attempts| && k < |d.selected|
        && x < |d.selected[k].tests|
    ensures var s := d.sources[i];
      LogicalId(d.selected, s.context, s.attempts[j].testId) == Some(d.selected[k].tests[x].logicalId) <==>
        k == FirstSlice(d.selected, s.context) && x == FirstTest(d.selected[k].tests, s.attempts[j].testId)
  {
    var s := d.sources[i];
    assert SourceOk(d, s);
    assert AttemptOk(d, s, s.attempts[j]);
    var k' := FirstSlice(d.selected, s.context);
    var x' := FirstTest(d.selected[k'].tests, s.attempts[j].testId);
    if d.selected[k'].tests[x'].logicalId == d.selected[k].tests[x].logicalId {
      OnePosition(d.selected, k', x', k, x);
    }
  }

  /** Every attempt of a source is inside the source's own group and inside no other group of
      its slice. */
  lemma AttemptInOwnGroup(d: Doc, i: nat, j: nat) returns (a: nat)
    requires Accepts(d) && d.groups.Some? && i < |d.sources| && j < |d.sources[i].attempts|
    ensures a < |d.groups.value| && d.sources[i].group == Some(d.groups.value[a].compact)
    ensures d.groups.value[a].compact.slice == d.sources[i].context.slice
    ensures forall b :: 0 <= b < |d.groups.value| && d.groups.value[b].compact.slice == d.sources[i].context.slice ==>
              (d.sources[i].attempts[j].testId in d.groups.value[b].selectedLocalIds <==> b == a)
  {
    var s := d.sources[i];
    assert SourceOk(d, s);
    assert AttemptOk(d, s, s.attempts[j]);
    var gs := d.groups.value;
    var own := GroupByIndex(gs, s.group.value.index);
    var k := FirstSlice(d.selected, s.context);
    var t := FirstTest(d.selected[k].tests, s.attempts[j].testId);
    assert d.selected[k].tests[t] in d.selected[k].tests;
    a := GroupsPartitionSlice(d, k, s.attempts[j].testId);
    assert own == a;
  }

  // ----- The checker as written -----

  function AttemptIds(d: Doc, s: Source, xs: seq<Attempt>): set<string>
  {
    if xs == [] then {}
    else
      var id := LogicalId(d.selected, s.context, xs[|xs| - 1].testId);
      AttemptIds(d, s, xs[..|xs| - 1]) + if id.Some? then {id.value} else {}
  }

  /** Logical IDs of all attempts of the sources. */
  function SourceIds(d: Doc, ss: seq<Source>): set<string>
  {
    if ss == [] then {} else SourceIds(d, ss[..|ss| - 1]) + AttemptIds(d, ss[|ss| - 1], ss[|ss| - 1].attempts)
  }

  method CheckSource(d: Doc, s: Source, before: set<string>) returns (ok: bool, ids: set<string>)
    ensures ok == SourceOk(d, s)
    ensures ok ==> ids == before + AttemptIds(d, s, s.attempts)
  {
    ids := before;
    if !OwnerOk(d, s) { return false, ids; }
    for j := 0 to |s.attempts|
      invariant forall i :: 0 <= i < j ==> AttemptOk(d, s, s.attempts[i])
      invariant ids == before + AttemptIds(d, s, s.attempts[..j])
    {
      var a := s.attempts[j];
      if !AttemptOk(d, s, a) { return false, ids; }
      AttemptIdsStep(d, s, j);
      forall i | 0 <= i < j + 1 ensures AttemptOk(d, s, s.attempts[i]) {
        if i == j { assert AttemptOk(d, s, a); }
      }
      ids := ids + {LogicalId(d.selected, s.context, a.testId).value};
    }
    assert s.attempts[..|s.attempts|] == s.attempts;
    return true, ids;
  }

  lemma AttemptIdsStep(d: Doc, s: Source, j: nat)
    requires j < |s.attempts| && LogicalId(d.selected, s.context, s.attempts[j].testId).Some?
    ensures AttemptIds(d, s, s.attempts[..j + 1]) ==
            AttemptIds(d, s, s.attempts[..j]) + {LogicalId(d.selected, s.context, s.attempts[j].testId).value}
  {
    assert s.attempts[..j + 1][..j] == s.attempts[..j];
  }

  lemma SourceIdsStep(d: Doc, ss: seq<Source>, i: nat)
    requires i < |ss|
    ensures SourceIds(d, ss[..i + 1]) == SourceIds(d, ss[..i]) + AttemptIds(d, ss[i], ss[i].attempts)
  {
    assert ss[..i + 1][..i] == ss[..i];
  }

  method CheckSources(d: Doc, ss: seq<Source>) returns (ok: bool, ids: set<string>)
    ensures ok == forall k :: 0 <= k < |ss| ==> SourceOk(d, ss[k])
    ensures ok ==> ids == SourceIds(d, ss)
  {
    ids := {};
    for i := 0 to |ss|
      invariant forall k :: 0 <= k < i ==> SourceOk(d, ss[k])
      invariant ids == SourceIds(d, ss[..i])
    {
      var good, more := CheckSource(d, ss[i], ids);
      if !good { return false, ids; }
      SourceIdsStep(d, ss, i);
      forall k | 0 <= k < i + 1 ensures SourceOk(d, ss[k]) {
        if k == i { assert SourceOk(d, ss[i]); }
      }
      ids := more;
    }
    assert ss[..|ss|] == ss;
    return true, ids;
  }

  method CheckRows(d: Doc) returns (ok: bool)
    ensures ok == RowsOk(d)
  {
    for i := 0 to |d.rows|
      invariant forall k :: 0 <= k < i ==> RowOk(d, d.rows[k])
    {
      if !RowOk(d, d.rows[i]) { return false; }
    }
    return true;
  }

  /** The validator: the set of logical IDs attempted, or a failed assertion. */
  method RepeatMap(d: Doc) returns (r: Option<set<string>>)
    ensures r.Some? <==> Accepts(d)
    ensures r.Some? ==> r.value == SourceIds(d, d.sources)
  {
    if !Distinct(AllIds(d.selected)) { return None; }
    if d.groups.Some? && !GroupsOk(d.groups.value, d.selected) { return None; }
    var ok, ids := CheckSources(d, d.sources);
    if !ok || !Distinct(Generations(d.sources)) || !Distinct(OutputIds(d.sources)) { return None; }
    ok := CheckRows(d);
    if !ok { return None; }
    return Some(ids);
  }
}
