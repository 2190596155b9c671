/**
 The grouping of anonymous files said again by rows of the report, and the proof
 that the validator accepts exactly the reports of which this holds.
 */
module GroupReference {
  import opened Lists
  import opened FileGroups

  /** Row `k` is the last one of this worker, and its exit status is known. */
  ghost predicate KnownExit(ws: seq<Worker>, index: int, k: int)
  {
    && 0 <= k < |ws| && ws[k].workerIndex == index && ws[k].exitStatusKnown
    && forall j :: k < j < |ws| ==> ws[j].workerIndex != index
  }

  /** A retired group has a generation and distinct workers that are known to have exited; any
      other was never started or not admitted, has no workers and did not run, and has a generation
      exactly if it was admitted. */
  ghost predicate GroupLawful(file: FileRow, ws: seq<Worker>, g: Group)
  {
    && g.fileId == file.id && !g.namesProject
    && (forall t :: t in g.testIds ==> t in file.selectedTestIds)
    && if g.receipt == PhysicalRetired then
         && g.generation != None && g.workerIndices != []
         && (forall a, b :: 0 <= a < b < |g.workerIndices| ==> g.workerIndices[a] != g.workerIndices[b])
         && (forall w :: w in g.workerIndices ==> exists k :: KnownExit(ws, w, k))
       else
         && g.workerIndices == [] && g.status == "notRun"
         && ((g.receipt == NotAdmitted && g.generation == None) || (g.receipt == NeverStarted && g.generation != None))
  }

  ghost predicate HasTest(gs: seq<Group>, t: string) { exists i :: 0 <= i < |gs| && t in gs[i].testIds }
  ghost predicate HasWorker(gs: seq<Group>, w: int) { exists i :: 0 <= i < |gs| && w in gs[i].workerIndices }
  ghost predicate Reported(ws: seq<Worker>, w: int) { exists k :: 0 <= k < |ws| && ws[k].workerIndex == w }

  ghost predicate IdsOnce(gs: seq<Group>)
  {
    forall i, j :: 0 <= i < |gs| && 0 <= j < |gs| && gs[i].id == gs[j].id ==> i == j
  }

  ghost predicate GenerationsOnce(gs: seq<Group>)
  {
    forall i, j ::
      0 <= i < |gs| && 0 <= j < |gs| && gs[i].generation != None && gs[i].generation == gs[j].generation ==> i == j
  }

  /** Ids and generations are used once, no test and no worker is in two groups, and the groups have
      exactly the selected tests and the reported workers. */
  ghost predicate PartitionLawful(r: Report, file: FileRow)
  {
    var gs := r.groups;
    && IdsOnce(gs) && GenerationsOnce(gs) && TestsOnce(gs) && WorkersOnce(gs)
    && (forall t :: t in file.selectedTestIds <==> HasTest(gs, t))
    && (forall w :: Reported(r.workers, w) <==> HasWorker(gs, w))
  }

  /** Some group has both the test and the worker of the attempt. */
  ghost predicate AttemptLawful(gs: seq<Group>, a: Attempt)
  {
    exists i :: 0 <= i < |gs| && a.testId in gs[i].testIds && a.workerIndex in gs[i].workerIndices
  }

  /** A lease is of the file, names a group with its generation and receipt, and no lock twice. */
  ghost predicate LeaseLawful(file: FileRow, gs: seq<Group>, l: Lease)
  {
    && (exists i ::
          0 <= i < |gs| && gs[i].id == l.groupId && gs[i].generation == l.generation && gs[i].receipt == l.receipt)
    && l.fileId == file.id && !l.namesProject
    && forall a, b :: 0 <= a < b < |l.names| ==> l.names[a] != l.names[b]
  }

  ghost predicate Lawful(r: Report)
  {
    && !r.mixed && |r.files| == 1
    && var file := r.files[0];
    && (forall i :: 0 <= i < |r.groups| ==> GroupLawful(file, r.workers, r.groups[i]))
    && PartitionLawful(r, file)
    && (forall i :: 0 <= i < |r.attempts| ==> AttemptLawful(r.groups, r.attempts[i]))
    && (forall i :: 0 <= i < |r.leases| ==> LeaseLawful(file, r.groups, r.leases[i]))
  }

  // ----- Workers -----

  lemma {:induction false} WorkerMapIff(ws: seq<Worker>, w: int)
    ensures w in WorkerMap(ws) <==> Reported(ws, w)
    ensures (w in WorkerMap(ws) && WorkerMap(ws)[w].exitStatusKnown) <==> exists k :: KnownExit(ws, w, k)
  {
    if ws != [] {
      var n := |ws| - 1;
      var init := ws[..n];
      WorkerMapIff(init, w);
      assert forall k :: 0 <= k < n ==> init[k] == ws[k];
      if ws[n].workerIndex == w {
        assert ws[n].exitStatusKnown ==> KnownExit(ws, w, n);
      } else {
        forall k ensures KnownExit(ws, w, k) <==> KnownExit(init, w, k) { }
        if k :| KnownExit(init, w, k) { assert KnownExit(ws, w, k); }
        if k :| KnownExit(ws, w, k) { assert KnownExit(init, w, k); }
      }
    }
  }

  lemma GroupIff(file: FileRow, ws: seq<Worker>, g: Group)
    ensures GroupInOrder(file, WorkerMap(ws), g) <==> GroupLawful(file, ws, g)
  {
    assert Tests(g) <= Elements(file.selectedTestIds) <==> forall t :: t in g.testIds ==> t in file.selectedTestIds by {
      assert forall t :: t in Tests(g) <==> t in g.testIds;
      assert forall t :: t in Elements(file.selectedTestIds) <==> t in file.selectedTestIds;
    }
    forall w ensures (w in WorkerMap(ws) && WorkerMap(ws)[w].exitStatusKnown) <==> exists k :: KnownExit(ws, w, k) {
      WorkerMapIff(ws, w);
    }
  }

  // ----- Partition -----

  /** No test is in two groups. */
  ghost predicate TestsOnce(gs: seq<Group>)
  {
    forall i, j, t :: 0 <= i < |gs| && 0 <= j < |gs| && t in gs[i].testIds && t in gs[j].testIds ==> i == j
  }

  /** No worker is in two groups. */
  ghost predicate WorkersOnce(gs: seq<Group>)
  {
    forall i, j, w :: 0 <= i < |gs| && 0 <= j < |gs| && w in gs[i].workerIndices && w in gs[j].workerIndices ==> i == j
  }

  lemma ApartIff(gs: seq<Group>)
    ensures PairwiseDisjoint(gs) <==> TestsOnce(gs) && WorkersOnce(gs)
  {
    if PairwiseDisjoint(gs) {
      forall i, j, t | 0 <= i < |gs| && 0 <= j < |gs| && t in gs[i].testIds && t in gs[j].testIds ensures i == j {
        assert t in Tests(gs[i]) && t in Tests(gs[j]);
      }
      forall i, j, w | 0 <= i < |gs| && 0 <= j < |gs| && w in gs[i].workerIndices && w in gs[j].workerIndices
        ensures i == j
      {
        assert w in Workers(gs[i]) && w in Workers(gs[j]);
      }
    }
    if TestsOnce(gs) && WorkersOnce(gs) {
      forall i, j | 0 <= i < j < |gs| ensures Tests(gs[i]) !! Tests(gs[j]) && Workers(gs[i]) !! Workers(gs[j]) {
        forall t | t in Tests(gs[i]) ensures t !in Tests(gs[j]) { assert t in gs[i].testIds; }
        forall w | w in Workers(gs[i]) ensures w !in Workers(gs[j]) { assert w in gs[i].workerIndices; }
      }
    }
  }

  lemma SameMembers<T>(a: set<T>, b: set<T>)
    requires forall x :: x in a <==> x in b
    ensures a == b
  {
  }

  lemma TestsCoverIff(r: Report, file: FileRow)
    ensures AllTests(r.groups) == Elements(file.selectedTestIds) <==>
            forall t :: t in file.selectedTestIds <==> HasTest(r.groups, t)
  {
    var selected, tests := Elements(file.selectedTestIds), AllTests(r.groups);
    forall t ensures (t in tests <==> HasTest(r.groups, t)) && (t in selected <==> t in file.selectedTestIds) {
      UnionTests(r.groups, t);
    }
    if tests == selected {
      forall t ensures t in file.selectedTestIds <==> HasTest(r.groups, t) { assert t in tests <==> t in selected; }
    }
    if forall t :: t in file.selectedTestIds <==> HasTest(r.groups, t) { SameMembers(tests, selected); }
  }

  lemma WorkersCoverIff(r: Report)
    ensures AllWorkers(r.groups) == WorkerMap(r.workers).Keys <==>
            forall w :: Reported(r.workers, w) <==> HasWorker(r.groups, w)
  {
    var known, workers := WorkerMap(r.workers).Keys, AllWorkers(r.groups);
    forall w ensures (w in workers <==> HasWorker(r.groups, w)) && (w in known <==> Reported(r.workers, w)) {
      UnionWorkers(r.groups, w);
      WorkerMapIff(r.workers, w);
    }
    if workers == known {
      forall w ensures Reported(r.workers, w) <==> HasWorker(r.groups, w) { assert w in workers <==> w in known; }
    }
    if forall w :: Reported(r.workers, w) <==> HasWorker(r.groups, w) {
      forall w ensures w in workers <==> w in known { assert Reported(r.workers, w) <==> HasWorker(r.groups, w); }
      SameMembers(workers, known);
    }
  }

  // ----- Attempts and leases -----

  lemma AttemptIff(gs: seq<Group>, a: Attempt)
    requires TestsOnce(gs)
    ensures AttemptAtHome(gs, a) <==> AttemptLawful(gs, a)
  {
    var home := FirstWithTest(gs, a.testId);
    if i :| 0 <= i < |gs| && a.testId in gs[i].testIds && a.workerIndex in gs[i].workerIndices {
      assert home == i;
    }
  }

  lemma LeaseIff(file: FileRow, gs: seq<Group>, l: Lease)
    requires IdsOnce(gs)
    ensures LeaseInOrder(file, gs, l) <==> LeaseLawful(file, gs, l)
  {
    var named := FirstWithId(gs, l.groupId);
    if i :| 0 <= i < |gs| && gs[i].id == l.groupId && gs[i].generation == l.generation && gs[i].receipt == l.receipt {
      assert named == i;
    }
  }

  // ----- The whole report -----

  lemma OnceIff(gs: seq<Group>)
    ensures IdsUnique(gs) <==> IdsOnce(gs) && GenerationsOnce(gs)
  {
  }

  lemma PartitionIff(r: Report, file: FileRow)
    ensures PartitionLawful(r, file) <==>
      && IdsUnique(r.groups) && PairwiseDisjoint(r.groups)
      && AllTests(r.groups) == Elements(file.selectedTestIds) && AllWorkers(r.groups) == WorkerMap(r.workers).Keys
  {
    ApartIff(r.groups);
    TestsCoverIff(r, file);
    WorkersCoverIff(r);
    OnceIff(r.groups);
  }

  /** The validator accepts exactly the lawful reports. */
  lemma WellGroupedIff(r: Report)
    ensures WellGrouped(r) <==> Lawful(r)
  {
    if !r.mixed && |r.files| == 1 {
      var file := r.files[0];
      PartitionIff(r, file);
      forall i | 0 <= i < |r.groups|
        ensures GroupInOrder(file, WorkerMap(r.workers), r.groups[i]) <==> GroupLawful(file, r.workers, r.groups[i])
      {
        GroupIff(file, r.workers, r.groups[i]);
      }
      if PartitionLawful(r, file) {
        forall i | 0 <= i < |r.attempts|
          ensures AttemptAtHome(r.groups, r.attempts[i]) <==> AttemptLawful(r.groups, r.attempts[i])
        {
          AttemptIff(r.groups, r.attempts[i]);
        }
        forall i | 0 <= i < |r.leases|
          ensures LeaseInOrder(file, r.groups, r.leases[i]) <==> LeaseLawful(file, r.groups, r.leases[i])
        {
          LeaseIff(file, r.groups, r.leases[i]);
        }
      }
    }
  }
}
