/**
 What runs of the rendezvous guarantee. A run starts before any client connected
 and follows any interleaving of enabled actions; `RunSafe` shows that the server
 invariant asked for by `Step` is never what stops a run.
 */
module Overlap {
  import opened Lists
  import opened Barrier
  import opened Rendezvous

  ghost predicate Step(cfg: Config, w: World, a: Action, w': World)
  {
    Invariant(cfg, w.server) && Enabled(cfg, w, a) && w' == Next(cfg, w, a)
  }

  ghost predicate Run(cfg: Config, ws: seq<World>, acts: seq<Action>)
  {
    && |ws| == |acts| + 1
    && ProcsOk(ws[0].procs) && ws[0].clients == map[] && ws[0].server == Fresh()
    && forall i :: 0 <= i < |acts| ==> Step(cfg, ws[i], acts[i], ws[i + 1])
  }

  lemma {:induction false} RunSafe(cfg: Config, ws: seq<World>, acts: seq<Action>, i: nat)
    requires Run(cfg, ws, acts) && i < |ws|
    ensures Safe(cfg, ws[i])
  {
    if i > 0 {
      RunSafe(cfg, ws, acts, i - 1);
      assert Step(cfg, ws[i - 1], acts[i - 1], ws[i]);
      StepKeeps(cfg, ws[i - 1], acts[i - 1]);
    }
  }

  // ----- Batch arithmetic -----

  lemma BatchOrder(i: nat, j: nat, b: nat)
    requires b > 0
    ensures j / b < i / b <==> j < BatchStart(i, b)
    ensures i <= j ==> BatchStart(i, b) <= BatchStart(j, b)
    ensures i < BatchStart(j, b) ==> BatchStart(i, b) + b <= BatchStart(j, b)
    ensures i < BatchStart(i, b) + b
    ensures BatchStart(i, b) <= j < BatchStart(i, b) + b ==> BatchStart(j, b) == BatchStart(i, b)
  {
    var p, q := i / b, j / b;
    assert i == p * b + i % b && j == q * b + j % b;
    MulOrder(p, q, b);
    MulOrder(q, p, b);
  }

  lemma MulNonNegative(x: nat, b: nat)
    ensures x * b >= 0
  {
  }

  lemma MulOrder(p: int, q: int, b: int)
    requires b > 0
    ensures p < q ==> p * b + b <= q * b
    ensures p <= q ==> p * b <= q * b
  {
    if p < q {
      MulNonNegative(q - p - 1, b);
      assert (q - p - 1) * b == q * b - p * b - b;
    }
  }

  // ----- Safety in every reachable state -----

  /** `c` arrived in `slot`, and all members of that slot's batch have been recorded,
      each with exactly the message its client wrote. */
  ghost predicate BatchRecorded(cfg: Config, w: World, c: Conn, slot: nat)
  {
    var b := cfg.Batch();
    && b > 0 && cfg.release
    && BatchStart(slot, b) + b <= |w.server.messages| == |w.server.held|
    && slot < |w.server.held| && w.server.held[slot] == c
    && forall j :: BatchStart(slot, b) <= j < BatchStart(slot, b) + b ==>
         w.server.held[j] in w.clients && w.clients[w.server.held[j]].wrote
             && w.server.messages[j] == w.clients[w.server.held[j]].message
  }

  /** No barrier call returns true before every member of its batch has been recorded. */
  lemma TrueMeansBatchRecorded(cfg: Config, ws: seq<World>, acts: seq<Action>, i: nat, c: Conn) returns (slot: nat)
    requires Run(cfg, ws, acts) && i < |ws|
    requires c in ws[i].clients && ws[i].clients[c].phase.ReturnedTrue?
    ensures BatchRecorded(cfg, ws[i], c, slot)
  {
    RunSafe(cfg, ws, acts, i);
    var w := ws[i];
    assert ClientOk(cfg, w, c);
    var r :| 0 <= r < |w.server.released| && w.server.released[r] < |w.server.held|
        && w.server.held[w.server.released[r]] == c;
    slot := w.server.released[r];
    BatchOrder(slot, |w.server.messages|, cfg.Batch());
    var b := cfg.Batch();
    forall j | BatchStart(slot, b) <= j < BatchStart(slot, b) + b
      ensures w.server.held[j] in w.clients && w.clients[w.server.held[j]].wrote
          && w.server.messages[j] == w.clients[w.server.held[j]].message
    {
      assert SlotOk(w, j);
    }
  }

  /** A member of a later batch is recorded only when the processes of all members of
      all earlier batches have exited; not only those of the batch just before it. */
  lemma LaterBatchAfterExits(cfg: Config, ws: seq<World>, acts: seq<Action>, n: nat, i: nat, j: nat)
    requires Run(cfg, ws, acts) && n < |ws| && cfg.Batch() > 0
    requires i < |ws[n].server.messages| && j < |ws[n].server.messages| && j / cfg.Batch() < i / cfg.Batch()
    ensures j < |ws[n].server.held| && ws[n].server.held[j] in ws[n].clients
    ensures Gone(ws[n], ws[n].clients[ws[n].server.held[j]].owner)
  {
    RunSafe(cfg, ws, acts, n);
    var w := ws[n];
    BatchOrder(i, j, cfg.Batch());
    BatchOrder(i, |w.server.messages| - 1, cfg.Batch());
    assert SlotOk(w, j);
    assert Gone(w, w.server.pidfds[j]);
  }

  /** Error-free runs send `go` to exactly the slots of complete batches, once each and in
      order, and to none when `release` is off; and SIGINT goes out at most once. */
  lemma ReleaseIsExact(cfg: Config, ws: seq<World>, acts: seq<Action>, n: nat)
    requires Run(cfg, ws, acts) && n < |ws| && ws[n].server.errors == []
    ensures var s := ws[n].server;
      && |s.messages| == |s.held| == |s.pidfds| <= cfg.count
      && (!cfg.release ==> s.released == [])
      && (forall i, j :: 0 <= i < j < |s.released| ==> s.released[i] != s.released[j])
      && (cfg.release ==> forall i :: 0 <= i < |s.held| ==> (i in s.released <==>
          BatchStart(i, cfg.Batch()) + cfg.Batch() <= |s.messages|))
      && (s.signalled == if cfg.interrupt && 0 < |s.messages| == cfg.count then [s.messages[0].nativePid] else [])
      && (s.signalled != [] ==> OneRoot(s.messages))
  {
    RunSafe(cfg, ws, acts, n);
    var s := ws[n].server;
    var b := cfg.Batch();
    if cfg.release {
      forall i | 0 <= i < |s.held| ensures i in s.released <==> BatchStart(i, b) + b <= |s.messages| {
        BatchOrder(i, |s.messages|, b);
        BatchOrder(|s.messages|, i, b);
        assert i < |s.released| ==> s.released[i] == i;
      }
    }
  }

  // ----- The interrupt -----

  lemma StepSignals(cfg: Config, w: World, a: Action, w': World)
    requires Step(cfg, w, a, w')
    ensures w'.server.signalled == w.server.signalled || (a.Deliver? && Signals(w.server, a.k, w'.server))
  {
    if a.Deliver? { OnBodySignals(cfg, w.server, a.c, w.clients[a.c].upstream[..a.n], a.k); }
  }

  /** At the step to `w'` the process `p` held the signalled PID as a child of the CLI, and that PID
      is the parent PID every process that had arrived reports. */
  ghost predicate InterruptsRoot(w: World, p: ProcId, w': World)
  {
    && w.server.signalled == [] && |w'.server.signalled| == 1 && OneRoot(w'.server.messages)
    && p in w.procs && !w.procs[p].reaped && w.procs[p].pid == w'.server.signalled[0]
    && w.server.cliPid == Some(w.procs[p].ppid)
    && forall i :: 0 <= i < |w'.server.held| ==>
         && w'.server.held[i] in w'.clients && w'.clients[w'.server.held[i]].owner in w'.procs
         && w'.procs[w'.clients[w'.server.held[i]].owner].ppid == w'.server.signalled[0]
  }

  /** SIGINT, if it is ever sent, goes once, to the PID that all arrivals report as their parent's
      and that a child of the CLI then holds. */
  lemma {:induction false} InterruptGoesToRoot(cfg: Config, ws: seq<World>, acts: seq<Action>, n: nat)
      returns (m: nat, p: ProcId)
    requires Run(cfg, ws, acts) && n < |ws| && ws[n].server.signalled != []
    ensures 0 < m <= n && InterruptsRoot(ws[m - 1], p, ws[m]) && ws[m].server.signalled == ws[n].server.signalled
    decreases n
  {
    var w, w', a := ws[n - 1], ws[n], acts[n - 1];
    RunSafe(cfg, ws, acts, n);
    assert Step(cfg, w, a, w');
    StepSignals(cfg, w, a, w');
    if w.server.signalled != [] {
      m, p := InterruptGoesToRoot(cfg, ws, acts, n - 1);
    } else {
      m := n;
      p := RootHolder(cfg, w, a.k, w');
    }
  }

  lemma RootHolder(cfg: Config, w: World, k: Kernel, w': World) returns (p: ProcId)
    requires Safe(cfg, w') && Truthful(w.procs, k) && Signals(w.server, k, w'.server) && w.server.signalled == []
    ensures InterruptsRoot(w, p, w')
  {
    var root := w'.server.messages[0].nativePid;
    p :| p in w.procs && !w.procs[p].reaped && w.procs[p].pid == root && w.procs[p].ppid == k.parents[root];
    forall i | 0 <= i < |w'.server.held|
      ensures w'.server.held[i] in w'.clients && w'.clients[w'.server.held[i]].owner in w'.procs
      ensures w'.procs[w'.clients[w'.server.held[i]].owner].ppid == root
    {
      assert SlotOk(w', i);
      assert ClientOk(cfg, w', w'.server.held[i]);
    }
  }

  // ----- Bounded pool -----

  ghost function LiveOwners(w: World, lo: nat, hi: nat): set<ProcId>
    requires lo <= hi <= |w.server.held| && forall i :: lo <= i < hi ==> w.server.held[i] in w.clients
    decreases hi - lo
  {
    if lo == hi then {}
    else
      var owner := w.clients[w.server.held[lo]].owner;
      LiveOwners(w, lo + 1, hi) + if Alive(w, owner) then {owner} else {}
  }

  lemma {:induction false} LiveOwnersFacts(w: World, lo: nat, hi: nat)
    requires lo <= hi <= |w.server.held| && forall i :: lo <= i < hi ==> w.server.held[i] in w.clients
    ensures |LiveOwners(w, lo, hi)| <= hi - lo
    ensures forall i :: lo <= i < hi && Alive(w, w.clients[w.server.held[i]].owner) ==>
              w.clients[w.server.held[i]].owner in LiveOwners(w, lo, hi)
    decreases hi - lo
  {
    if lo < hi {
      LiveOwnersFacts(w, lo + 1, hi);
    }
  }

  /** However many processes have arrived, at most one batch of them is ever alive. */
  lemma AtMostOneBatchAlive(cfg: Config, ws: seq<World>, acts: seq<Action>, n: nat) returns (live: set<ProcId>)
    requires Run(cfg, ws, acts) && n < |ws| && cfg.Batch() > 0
    ensures |live| <= cfg.Batch()
    ensures forall i :: 0 <= i < |ws[n].server.held| ==> ws[n].server.held[i] in ws[n].clients
    ensures forall i :: 0 <= i < |ws[n].server.held| && Alive(ws[n], ws[n].clients[ws[n].server.held[i]].owner) ==>
        ws[n].clients[ws[n].server.held[i]].owner in live
  {
    RunSafe(cfg, ws, acts, n);
    var w := ws[n];
    var total := |w.server.held|;
    forall i | 0 <= i < total ensures w.server.held[i] in w.clients { assert SlotOk(w, i); }
    var lo := OldBound(cfg, w.server);
    if total > 0 { BatchOrder(total - 1, 0, cfg.Batch()); }
    live := LiveOwners(w, lo, total);
    LiveOwnersFacts(w, lo, total);
    forall i | 0 <= i < lo ensures !Alive(w, w.clients[w.server.held[i]].owner) {
      assert SlotOk(w, i);
      assert Gone(w, w.server.pidfds[i]);
    }
  }

  // ----- Overlap -----

  /** `c` is inside its barrier call, in a live process. */
  predicate InBarrier(w: World, c: Conn)
  {
    c in w.clients && w.clients[c].phase.Waiting? && Alive(w, w.clients[c].owner)
  }

  /** What one step does to a client and to the list of arrivals. */
  ghost predicate Onward(w: World, w': World)
  {
    && w.server.held <= w'.server.held && |w'.server.held| <= |w.server.held| + 1
    && (w'.server.held != w.server.held ==> forall c :: c in w'.clients ==>
        c in w.clients && w'.clients[c].phase == w.clients[c].phase)
    && (forall c :: c in w.clients ==>
        c in w'.clients && w'.clients[c].owner == w.clients[c].owner && (w.clients[c].wrote ==> w'.clients[c].wrote))
    && (forall c :: c in w.clients && w.clients[c].wrote && w.clients[c].phase != w'.clients[c].phase ==>
        InBarrier(w, c))
    && (forall c :: c in w.clients && w.clients[c].wrote && !InBarrier(w, c) ==> !InBarrier(w', c))
  }

  lemma DeliverOnward(cfg: Config, w: World, c: Conn, n: nat, k: Kernel, s': Server)
    requires Invariant(cfg, w.server) && c in w.clients && c in w.server.pending && n <= |w.clients[c].upstream|
    requires ChunkEffect(cfg, w.server, c, w.clients[c].upstream[..n], k, s')
    ensures Onward(w, Update(w, c, w.clients[c].(upstream := w.clients[c].upstream[n..])).(server := s'))
  {
  }

  /** The environment and client actions: one client, or none, changes. */
  lemma ClientOnward(cfg: Config, w: World, a: Action)
    requires Invariant(cfg, w.server) && Enabled(cfg, w, a)
    requires a.Connect? || a.Write? || a.Abort? || a.ClientError? || a.Lose? || a.Receive? || a.Accept?
    requires a.c in w.clients && w.clients[a.c].phase.Connecting? ==> !w.clients[a.c].wrote
    ensures Onward(w, Next(cfg, w, a))
  {
    var w' := Next(cfg, w, a);
    assert w'.clients == w.clients[a.c := w'.clients[a.c]];
    assert w'.server.held == w.server.held && w'.procs == w.procs;
  }

  lemma StepOnward(cfg: Config, w: World, a: Action, w': World)
    requires Safe(cfg, w) && Step(cfg, w, a, w')
    ensures Onward(w, w')
  {
    if a.Deliver? {
      var data := w.clients[a.c].upstream[..a.n];
      OnBodyEffect(cfg, w.server, a.c, data, a.k);
      DeliverOnward(cfg, w, a.c, a.n, a.k, OnBody(cfg, w.server, a.c, data, a.k));
    } else if a.Connect? || a.Write? || a.Abort? || a.ClientError? || a.Lose? || a.Receive? || a.Accept? {
      assert a.c in w.clients ==> ClientOk(cfg, w, a.c);
      ClientOnward(cfg, w, a);
    } else {
      assert forall c :: c in w.clients ==> ClientOk(cfg, w, c);
      QuietOnward(cfg, w, a);
    }
  }

  /** Process and server housekeeping leaves clients and arrivals alone. */
  lemma QuietOnward(cfg: Config, w: World, a: Action)
    requires Invariant(cfg, w.server) && Enabled(cfg, w, a)
    requires a.Spawn? || a.Exit? || a.Reap? || a.Launch? || a.EndOfFile? || a.Broken? || a.Stop?
    requires forall c :: c in w.clients ==> w.clients[c].owner in w.procs
    ensures Onward(w, Next(cfg, w, a))
  {
    var w' := Next(cfg, w, a);
    assert w'.clients == w.clients && w'.server.held == w.server.held;
    assert forall p :: Alive(w', p) && p in w.procs ==> Alive(w, p);
  }

  /** What any number of steps does: a call that is over stays as it is. */
  ghost predicate Kept(w: World, w': World)
  {
    && w.server.held <= w'.server.held
    && (forall c :: c in w.clients ==> c in w'.clients)
    && (forall c :: c in w.clients && w.clients[c].wrote && !InBarrier(w, c) ==>
          w'.clients[c].wrote && w'.clients[c].phase == w.clients[c].phase && !InBarrier(w', c))
  }

  lemma KeptStep(w: World, w': World, w'': World)
    requires Kept(w, w') && Onward(w', w'')
    ensures Kept(w, w'')
  {
  }

  lemma {:induction false} KeptThroughout(ws: seq<World>, m: nat, n: nat)
    requires m <= n < |ws| && forall i :: 0 < i < |ws| ==> Onward(ws[i - 1], ws[i])
    ensures Kept(ws[m], ws[n])
    decreases n - m
  {
    if m < n {
      KeptThroughout(ws, m, n - 1);
      KeptStep(ws[m], ws[n - 1], ws[n]);
    }
  }

  lemma RunOnward(cfg: Config, ws: seq<World>, acts: seq<Action>, m: nat, n: nat)
    requires Run(cfg, ws, acts) && m <= n < |ws|
    ensures Kept(ws[m], ws[n])
  {
    forall i | 0 < i < |ws| ensures Onward(ws[i - 1], ws[i]) { OneStep(cfg, ws, acts, i); }
    KeptThroughout(ws, m, n);
  }

  /** The step that records arrival number `t` of a run. */
  lemma ArrivalStep(cfg: Config, ws: seq<World>, acts: seq<Action>, n: nat, t: nat) returns (m: nat)
    requires Run(cfg, ws, acts) && n < |ws| && 0 < t <= |ws[n].server.held|
    ensures 0 < m <= n && |ws[m - 1].server.held| == t - 1 && |ws[m].server.held| == t
  {
    forall i | 0 < i < |ws| ensures |ws[i].server.held| <= |ws[i - 1].server.held| + 1 { OneStep(cfg, ws, acts, i); }
    m := FirstReached(ws, n, t);
  }

  lemma {:induction false} FirstReached(ws: seq<World>, n: nat, t: nat) returns (m: nat)
    requires n < |ws| && |ws[0].server.held| == 0 && 0 < t <= |ws[n].server.held|
    requires forall i :: 0 < i < |ws| ==> |ws[i].server.held| <= |ws[i - 1].server.held| + 1
    ensures 0 < m <= n && |ws[m - 1].server.held| == t - 1 && |ws[m].server.held| == t
    decreases n
  {
    if t <= |ws[n - 1].server.held| {
      m := FirstReached(ws, n - 1, t);
    } else {
      m := n;
    }
  }

  /** All members of a batch whose calls return true overlap: there is one instant at which
      every one of them is inside its barrier call and its process is alive. */
  lemma BatchOverlaps(cfg: Config, ws: seq<World>, acts: seq<Action>, n: nat, slot: nat) returns (m: nat)
    requires Run(cfg, ws, acts) && n < |ws|
    requires cfg.Batch() > 0 && BatchStart(slot, cfg.Batch()) + cfg.Batch() <= |ws[n].server.held|
    ensures m <= n
    ensures forall j :: BatchStart(slot, cfg.Batch()) <= j < BatchStart(slot, cfg.Batch()) + cfg.Batch() ==>
              ws[n].server.held[j] in ws[n].clients
    ensures forall j :: BatchStart(slot, cfg.Batch()) <= j < BatchStart(slot, cfg.Batch()) + cfg.Batch() ==>
              ws[n].clients[ws[n].server.held[j]].phase.ReturnedTrue? ==> InBarrier(ws[m], ws[n].server.held[j])
  {
    var b := cfg.Batch();
    var start := BatchStart(slot, b);
    m := ArrivalStep(cfg, ws, acts, n, start + b);
    RunSafe(cfg, ws, acts, n);
    forall j | start <= j < start + b ensures ws[n].server.held[j] in ws[n].clients { assert SlotOk(ws[n], j); }
    forall j | start <= j < start + b && ws[n].clients[ws[n].server.held[j]].phase.ReturnedTrue?
      ensures InBarrier(ws[m], ws[n].server.held[j])
    {
      InsideAtCompletion(cfg, ws, acts, n, m, slot, j);
    }
  }

  lemma NotComplete(held: seq<Conn>, held': seq<Conn>, slot: nat, slot': nat, j: nat, b: nat)
    requires b > 0 && held <= held' && Distinct(held')
    requires BatchStart(slot, b) <= j < BatchStart(slot, b) + b == |held'| == |held| + 1
    requires slot' < |held| && held[slot'] == held'[j]
    ensures BatchStart(slot', b) + b > |held|
  {
    assert held'[slot'] == held'[j];
    BatchOrder(slot, j, b);
  }

  lemma Member(cfg: Config, ws: seq<World>, acts: seq<Action>, m: nat, j: nat)
    requires Run(cfg, ws, acts) && m < |ws| && j < |ws[m].server.held|
    ensures Distinct(ws[m].server.held)
    ensures var c := ws[m].server.held[j]; c in ws[m].clients && ws[m].clients[c].wrote
  {
    RunSafe(cfg, ws, acts, m);
    assert SlotOk(ws[m], j);
  }

  lemma OneStep(cfg: Config, ws: seq<World>, acts: seq<Action>, m: nat)
    requires Run(cfg, ws, acts) && 0 < m < |ws|
    ensures Onward(ws[m - 1], ws[m])
  {
    RunSafe(cfg, ws, acts, m - 1);
    assert Step(cfg, ws[m - 1], acts[m - 1], ws[m]);
    StepOnward(cfg, ws[m - 1], acts[m - 1], ws[m]);
  }

  /** At the step that completes a batch, none of its members has returned true yet. */
  lemma NotReturnedAtCompletion(cfg: Config, ws: seq<World>, acts: seq<Action>, m: nat, slot: nat, j: nat)
    requires Run(cfg, ws, acts) && 0 < m < |ws| && cfg.Batch() > 0
    requires BatchStart(slot, cfg.Batch()) <= j < BatchStart(slot, cfg.Batch()) + cfg.Batch()
    requires |ws[m - 1].server.held| + 1 == BatchStart(slot, cfg.Batch()) + cfg.Batch() == |ws[m].server.held|
    ensures var c := ws[m].server.held[j]; c in ws[m].clients && !ws[m].clients[c].phase.ReturnedTrue?
  {
    var c := ws[m].server.held[j];
    Member(cfg, ws, acts, m, j);
    OneStep(cfg, ws, acts, m);
    if ws[m].clients[c].phase.ReturnedTrue? {
      assert ws[m - 1].server.held != ws[m].server.held;
      var slot' := TrueMeansBatchRecorded(cfg, ws, acts, m - 1, c);
      NotComplete(ws[m - 1].server.held, ws[m].server.held, slot, slot', j, cfg.Batch());
    }
  }

  lemma InsideAtCompletion(cfg: Config, ws: seq<World>, acts: seq<Action>, n: nat, m: nat, slot: nat, j: nat)
    requires Run(cfg, ws, acts) && 0 < m <= n < |ws| && cfg.Batch() > 0
    requires BatchStart(slot, cfg.Batch()) <= j < BatchStart(slot, cfg.Batch()) + cfg.Batch()
    requires |ws[m - 1].server.held| + 1 == BatchStart(slot, cfg.Batch()) + cfg.Batch() == |ws[m].server.held|
    requires |ws[m].server.held| <= |ws[n].server.held|
    requires ws[n].server.held[j] in ws[n].clients && ws[n].clients[ws[n].server.held[j]].phase.ReturnedTrue?
    ensures InBarrier(ws[m], ws[n].server.held[j])
  {
    RunOnward(cfg, ws, acts, m, n);
    assert ws[m].server.held[j] == ws[n].server.held[j];
    Member(cfg, ws, acts, m, j);
    NotReturnedAtCompletion(cfg, ws, acts, m, slot, j);
  }
}
