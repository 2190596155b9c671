/** The validator of the anonymous-file work groups and what its acceptance guarantees. */
module FileGroups {
  import opened Lists

  datatype Receipt = PhysicalRetired | NeverStarted | NotAdmitted | Unknown(text: string)
  datatype Group = Group(id: string, fileId: string, testIds: seq<string>, generation: Option<string>,
                         receipt: Receipt, workerIndices: seq<int>, status: string, namesProject: bool)
  datatype Worker = Worker(workerIndex: int, exitStatusKnown: bool)
  datatype Attempt = Attempt(testId: string, workerIndex: int)
  datatype Lease = Lease(groupId: string, fileId: string, generation: Option<string>, receipt: Receipt,
      namesProject: bool, names: seq<string>)
  datatype FileRow = FileRow(id: string, selectedTestIds: seq<string>)
  /** `mixed`: the report also has projects, work groups or resource locks. */
  datatype Report = Report(mixed: bool, files: seq<FileRow>, groups: seq<Group>, workers: seq<Worker>,
                           attempts: seq<Attempt>, leases: seq<Lease>)

  function Tests(g: Group): set<string> { Elements(g.testIds) }
  function Workers(g: Group): set<int> { Elements(g.workerIndices) }

  /** Workers by index; a later worker of the same index wins. */
  function WorkerMap(ws: seq<Worker>): map<int, Worker>
  {
    if ws == [] then map[] else WorkerMap(ws[..|ws| - 1])[ws[|ws| - 1].workerIndex := ws[|ws| - 1]]
  }

  /** Position of the first group that has the test, or the length when there is none. */
  function FirstWithTest(gs: seq<Group>, test: string): (i: nat)
    ensures i <= |gs| && (i < |gs| ==> test in gs[i].testIds) && forall j :: 0 <= j < i ==> test !in gs[j].testIds
  {
    FirstIndex(gs, (g: Group) => test in g.testIds)
  }

  function FirstWithId(gs: seq<Group>, id: string): (i: nat)
    ensures i <= |gs| && (i < |gs| ==> gs[i].id == id) && forall j :: 0 <= j < i ==> gs[j].id != id
  {
    FirstIndex(gs, (g: Group) => g.id == id)
  }

  // ----- The declarative meaning -----

  predicate GroupInOrder(file: FileRow, workers: map<int, Worker>, g: Group)
  {
    && g.fileId == file.id && !g.namesProject && Tests(g) <= Elements(file.selectedTestIds)
    && if g.receipt.PhysicalRetired? then
         && g.generation.Some? && g.workerIndices != [] && Distinct(g.workerIndices)
         && forall w :: w in g.workerIndices ==> w in workers && workers[w].exitStatusKnown
       else
         && (g.receipt.NeverStarted? || g.receipt.NotAdmitted?) && g.workerIndices == [] && g.status == "notRun"
         && (g.generation.None? <==> g.receipt.NotAdmitted?)
  }

  predicate PairwiseDisjoint(gs: seq<Group>)
  {
    && (forall i, j :: 0 <= i < j < |gs| ==> Tests(gs[i]) !! Tests(gs[j]))
    && (forall i, j :: 0 <= i < j < |gs| ==> Workers(gs[i]) !! Workers(gs[j]))
  }

  function AllTests(gs: seq<Group>): set<string>
  {
    if gs == [] then {} else AllTests(gs[..|gs| - 1]) + Tests(gs[|gs| - 1])
  }

  function AllWorkers(gs: seq<Group>): set<int>
  {
    if gs == [] then {} else AllWorkers(gs[..|gs| - 1]) + Workers(gs[|gs| - 1])
  }

  ghost predicate Homed(gs: seq<Group>, t: string)
  {
    exists k :: 0 <= k < |gs| && t in gs[k].testIds
  }

  ghost predicate Employed(gs: seq<Group>, w: int)
  {
    exists k :: 0 <= k < |gs| && w in gs[k].workerIndices
  }

  lemma {:induction false} UnionTests(gs: seq<Group>, t: string)
    ensures t in AllTests(gs) <==> Homed(gs, t)
  {
    if gs != [] {
      var n := |gs| - 1;
      UnionTests(gs[..n], t);
      if Homed(gs[..n], t) {
        var k :| 0 <= k < n && t in gs[..n][k].testIds;
        assert t in gs[k].testIds;
      }
    }
  }

  lemma {:induction false} UnionWorkers(gs: seq<Group>, w: int)
    ensures w in AllWorkers(gs) <==> Employed(gs, w)
  {
    if gs != [] {
      var n := |gs| - 1;
      UnionWorkers(gs[..n], w);
      if Employed(gs[..n], w) {
        var k :| 0 <= k < n && w in gs[..n][k].workerIndices;
        assert w in gs[k].workerIndices;
      }
    }
  }

  predicate AttemptAtHome(gs: seq<Group>, a: Attempt)
  {
    var i := FirstWithTest(gs, a.testId);
    i < |gs| && a.workerIndex in gs[i].workerIndices
  }

  predicate LeaseInOrder(file: FileRow, gs: seq<Group>, l: Lease)
  {
    var i := FirstWithId(gs, l.groupId);
    && i < |gs| && l.fileId == file.id && l.generation == gs[i].generation && l.receipt == gs[i].receipt
    && !l.namesProject && Distinct(l.names)
  }

  predicate IdsUnique(gs: seq<Group>)
  {
    && (forall i, j :: 0 <= i < j < |gs| ==> gs[i].id != gs[j].id)
    && (forall i, j :: 0 <= i < j < |gs| && gs[i].generation.Some? ==> gs[i].generation != gs[j].generation)
  }

  /** The report is a partition of the selected tests and of the workers into groups. */
  predicate WellGrouped(r: Report)
  {
    && !r.mixed && |r.files| == 1
    && var file, workers := r.files[0], WorkerMap(r.workers);
    && IdsUnique(r.groups)
    && (forall i :: 0 <= i < |r.groups| ==> GroupInOrder(file, workers, r.groups[i]))
    && PairwiseDisjoint(r.groups)
    && AllTests(r.groups) == Elements(file.selectedTestIds) && AllWorkers(r.groups) == workers.Keys
    && (forall i :: 0 <= i < |r.attempts| ==> AttemptAtHome(r.groups, r.attempts[i]))
    && (forall i :: 0 <= i < |r.leases| ==> LeaseInOrder(file, r.groups, r.leases[i]))
  }

  /** In an accepted report every attempt has exactly one home: the group of its test is the group
      of its worker, no other group has either, and it is generation-bearing and retired. */
  lemma OneHomePerAttempt(r: Report, k: nat) returns (home: nat)
    requires WellGrouped(r) && k < |r.attempts|
    ensures home < |r.groups|
    ensures forall i :: 0 <= i < |r.groups| ==> (r.attempts[k].testId in r.groups[i].testIds <==> i == home)
    ensures forall i :: 0 <= i < |r.groups| ==> (r.attempts[k].workerIndex in r.groups[i].workerIndices <==> i == home)
    ensures r.groups[home].receipt.PhysicalRetired? && r.groups[home].generation.Some?
    ensures r.attempts[k].workerIndex in WorkerMap(r.workers)
        && WorkerMap(r.workers)[r.attempts[k].workerIndex].exitStatusKnown
  {
    var a := r.attempts[k];
    assert AttemptAtHome(r.groups, a);
    home := FirstWithTest(r.groups, a.testId);
    assert GroupInOrder(r.files[0], WorkerMap(r.workers), r.groups[home]);
    assert a.testId in Tests(r.groups[home]) && a.workerIndex in Workers(r.groups[home]);
    forall i | 0 <= i < |r.groups| && i != home
      ensures a.testId !in r.groups[i].testIds && a.workerIndex !in r.groups[i].workerIndices
    {
      assert Tests(r.groups[i]) !! Tests(r.groups[home]) && Workers(r.groups[i]) !! Workers(r.groups[home]);
      assert a.testId !in Tests(r.groups[i]) && a.workerIndex !in Workers(r.groups[i]);
    }
  }

  /** The groups between them have exactly the selected tests and exactly the workers. */
  lemma GroupsCover(r: Report)
    requires WellGrouped(r)
    ensures forall t :: t in r.files[0].selectedTestIds <==> Homed(r.groups, t)
    ensures forall w :: w in WorkerMap(r.workers) <==> Employed(r.groups, w)
  {
    forall t ensures t in r.files[0].selectedTestIds <==> Homed(r.groups, t) {
      UnionTests(r.groups, t);
      assert t in r.files[0].selectedTestIds <==> t in AllTests(r.groups);
    }
    forall w ensures w in WorkerMap(r.workers) <==> Employed(r.groups, w) {
      UnionWorkers(r.groups, w);
      assert w in WorkerMap(r.workers) <==> w in AllWorkers(r.groups);
    }
  }

  /** No test and no worker is in two groups, and exactly the physically retired groups have workers. */
  lemma GroupsAreApart(r: Report, i: nat, j: nat)
    requires WellGrouped(r) && i < |r.groups| && j < |r.groups|
    ensures forall t :: t in r.groups[i].testIds && t in r.groups[j].testIds ==> i == j
    ensures forall w :: w in r.groups[i].workerIndices && w in r.groups[j].workerIndices ==> i == j
    ensures r.groups[i].workerIndices != [] <==> r.groups[i].receipt.PhysicalRetired?
  {
    assert GroupInOrder(r.files[0], WorkerMap(r.workers), r.groups[i]);
    if i < j {
      assert Tests(r.groups[i]) !! Tests(r.groups[j]) && Workers(r.groups[i]) !! Workers(r.groups[j]);
    } else if j < i {
      assert Tests(r.groups[j]) !! Tests(r.groups[i]) && Workers(r.groups[j]) !! Workers(r.groups[i]);
    }
    assert forall t :: t in r.groups[i].testIds && t in r.groups[j].testIds ==>
        t in Tests(r.groups[i]) && t in Tests(r.groups[j]);
    assert forall w :: w in r.groups[i].workerIndices && w in r.groups[j].workerIndices ==>
        w in Workers(r.groups[i]) && w in Workers(r.groups[j]);
  }

  // ----- The validator as written -----

  method ClaimWorkers(g: Group, workers: map<int, Worker>, before: set<int>) returns (ok: bool, owned: set<int>)
    ensures ok <==> && Distinct(g.workerIndices) && Workers(g) !! before
                    && forall w :: w in g.workerIndices ==> w in workers && workers[w].exitStatusKnown
    ensures ok ==> owned == before + Workers(g)
  {
    owned := before;
    for k := 0 to |g.workerIndices|
      invariant owned == before + Elements(g.workerIndices[..k])
      invariant forall i :: 0 <= i < k ==> g.workerIndices[i] !in before
      invariant forall i, j :: 0 <= i < j < k ==> g.workerIndices[i] != g.workerIndices[j]
      invariant forall i :: 0 <= i < k ==> g.workerIndices[i] in workers && workers[g.workerIndices[i]].exitStatusKnown
    {
      var index := g.workerIndices[k];
      if index in owned {
        if index in before {
          assert index in Workers(g);
        } else {
          var i :| 0 <= i < k && g.workerIndices[i] == index;
        }
        return false, owned;
      }
      if index !in workers || !workers[index].exitStatusKnown { return false, owned; }
      assert g.workerIndices[..k + 1] == g.workerIndices[..k] + [index];
      owned := owned + {index};
    }
    assert g.workerIndices[..|g.workerIndices|] == g.workerIndices;
    return true, owned;
  }

  method CheckGroup(file: FileRow, workers: map<int, Worker>, g: Group, tests: set<string>, owned: set<int>)
      returns (ok: bool, tests': set<string>, owned': set<int>)
    ensures ok <==> GroupInOrder(file, workers, g) && Tests(g) !! tests && Workers(g) !! owned
    ensures ok ==> tests' == tests + Tests(g) && owned' == owned + Workers(g)
  {
    tests', owned' := tests, owned;
    if g.fileId != file.id || !(Tests(g) <= Elements(file.selectedTestIds))
        || !(Tests(g) !! tests) { return false, tests', owned'; }
    tests' := tests' + Tests(g);
    if g.namesProject { return false, tests', owned'; }
    if g.receipt.PhysicalRetired? {
      if g.generation.None? || g.workerIndices == [] { return false, tests', owned'; }
      ok, owned' := ClaimWorkers(g, workers, owned);
    } else {
      assert g.workerIndices == [] ==> Workers(g) == {};
      ok := (g.receipt.NeverStarted? || g.receipt.NotAdmitted?) && g.workerIndices == [] && g.status == "notRun"
            && (g.generation.None? <==> g.receipt.NotAdmitted?);
    }
  }

  ghost predicate Accumulated(gs: seq<Group>, tests: set<string>, owned: set<int>)
  {
    tests == AllTests(gs) && owned == AllWorkers(gs)
  }

  lemma UnionStep(gs: seq<Group>, g: Group)
    ensures AllTests(gs + [g]) == AllTests(gs) + Tests(g) && AllWorkers(gs + [g]) == AllWorkers(gs) + Workers(g)
  {
    assert (gs + [g])[..|gs|] == gs;
  }

  lemma {:induction false} ApartFromAll(gs: seq<Group>, g: Group)
    ensures Tests(g) !! AllTests(gs) <==> forall i :: 0 <= i < |gs| ==> Tests(gs[i]) !! Tests(g)
    ensures Workers(g) !! AllWorkers(gs) <==> forall i :: 0 <= i < |gs| ==> Workers(gs[i]) !! Workers(g)
  {
    if gs != [] {
      var n := |gs| - 1;
      ApartFromAll(gs[..n], g);
      assert forall i :: 0 <= i < n ==> gs[..n][i] == gs[i];
    }
  }

  lemma DisjointStep(gs: seq<Group>, g: Group)
    ensures PairwiseDisjoint(gs + [g]) <==>
        PairwiseDisjoint(gs) && Tests(g) !! AllTests(gs) && Workers(g) !! AllWorkers(gs)
  {
    ApartFromAll(gs, g);
    var all, n := gs + [g], |gs|;
    assert forall i :: 0 <= i < n ==> all[i] == gs[i];
    assert all[n] == g;
    if PairwiseDisjoint(all) {
      forall i | 0 <= i < n ensures Tests(gs[i]) !! Tests(g) && Workers(gs[i]) !! Workers(g) {
        assert Tests(all[i]) !! Tests(all[n]) && Workers(all[i]) !! Workers(all[n]);
      }
      assert forall i, j :: 0 <= i < j < n ==> Tests(all[i]) !! Tests(all[j]) && Workers(all[i]) !! Workers(all[j]);
    }
  }

  lemma EarlyDisjoint(gs: seq<Group>, i: nat)
    requires i <= |gs| && PairwiseDisjoint(gs)
    ensures PairwiseDisjoint(gs[..i])
  {
    assert forall k :: 0 <= k < i ==> gs[..i][k] == gs[k];
  }

  lemma GroupStep(gs: seq<Group>, k: nat)
    requires k < |gs|
    ensures AllTests(gs[..k + 1]) == AllTests(gs[..k]) + Tests(gs[k])
        && AllWorkers(gs[..k + 1]) == AllWorkers(gs[..k]) + Workers(gs[k])
    ensures PairwiseDisjoint(gs[..k + 1]) <==>
              PairwiseDisjoint(gs[..k]) && Tests(gs[k]) !! AllTests(gs[..k]) && Workers(gs[k]) !! AllWorkers(gs[..k])
  {
    assert gs[..k + 1] == gs[..k] + [gs[k]];
    DisjointStep(gs[..k], gs[k]);
    UnionStep(gs[..k], gs[k]);
  }

  method CheckGroups(file: FileRow, workers: map<int, Worker>, gs: seq<Group>) returns (ok: bool)
    ensures ok <==> && (forall i :: 0 <= i < |gs| ==> GroupInOrder(file, workers, gs[i]))
                    && PairwiseDisjoint(gs)
                    && AllTests(gs) == Elements(file.selectedTestIds) && AllWorkers(gs) == workers.Keys
  {
    var tests, owned: set<int> := {}, {};
    for k := 0 to |gs|
      invariant forall i :: 0 <= i < k ==> GroupInOrder(file, workers, gs[i])
      invariant PairwiseDisjoint(gs[..k]) && Accumulated(gs[..k], tests, owned)
    {
      GroupStep(gs, k);
      ok, tests, owned := CheckGroup(file, workers, gs[k], tests, owned);
      if !ok {
        if PairwiseDisjoint(gs) { EarlyDisjoint(gs, k + 1); }
        return false;
      }
    }
    assert gs[..|gs|] == gs;
    return tests == Elements(file.selectedTestIds) && owned == workers.Keys;
  }

  /** The whole validator: true exactly on well-grouped reports. */
  method ValidateFileGroups(r: Report) returns (ok: bool)
    ensures ok == WellGrouped(r)
  {
    if r.mixed || |r.files| != 1 { return false; }
    var file, workers := r.files[0], WorkerMap(r.workers);
    if !IdsUnique(r.groups) { return false; }
    ok := CheckGroups(file, workers, r.groups);
    if !ok { return false; }
    for k := 0 to |r.attempts|
      invariant forall i :: 0 <= i < k ==> AttemptAtHome(r.groups, r.attempts[i])
    {
      if !AttemptAtHome(r.groups, r.attempts[k]) { return false; }
    }
    for k := 0 to |r.leases|
      invariant forall i :: 0 <= i < k ==> LeaseInOrder(file, r.groups, r.leases[i])
    {
      if !LeaseInOrder(file, r.groups, r.leases[k]) { return false; }
    }
    return true;
  }
}
