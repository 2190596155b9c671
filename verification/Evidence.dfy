/**
 What the two conditions on a finished barrier, no errors and all arrivals
 recorded, are evidence of; and runs that meet them, in which every call returns true.
 */
module Evidence {
  import opened Lists
  import opened Bytes
  import opened Barrier
  import opened Rendezvous
  import opened Overlap
  import opened Admission

  /** At state `m` all members of the slot's batch whose calls have returned true by state `n` are
      inside their calls, in live processes. */
  ghost predicate OverlapsAt(cfg: Config, ws: seq<World>, n: nat, slot: nat, m: nat)
    requires n < |ws|
  {
    && m <= n && BatchStart(slot, cfg.Batch()) + cfg.Batch() <= |ws[n].server.held|
    && forall j :: BatchStart(slot, cfg.Batch()) <= j < BatchStart(slot, cfg.Batch()) + cfg.Batch() ==>
         && ws[n].server.held[j] in ws[n].clients
         && (ws[n].clients[ws[n].server.held[j]].phase.ReturnedTrue? ==> InBarrier(ws[m], ws[n].server.held[j]))
  }

  ghost predicate Overlapped(cfg: Config, ws: seq<World>, n: nat, slot: nat)
    requires n < |ws|
  {
    exists m :: OverlapsAt(cfg, ws, n, slot, m)
  }

  /** An accepted barrier that releases batches dividing the expected number: every slot was sent
      `go`, each once and in order, and every batch overlapped. */
  lemma AcceptedBarrierOverlapped(cfg: Config, ws: seq<World>, acts: seq<Action>, n: nat)
    requires Run(cfg, ws, acts) && n < |ws| && ws[n].server.errors == [] && |ws[n].server.messages| == cfg.count
    requires cfg.release && cfg.count > 0 && cfg.count % cfg.Batch() == 0
    ensures ws[n].server.released == Upto(cfg.count)
    ensures forall slot :: 0 <= slot < cfg.count ==> Overlapped(cfg, ws, n, slot)
  {
    RunSafe(cfg, ws, acts, n);
    forall slot | 0 <= slot < cfg.count ensures Overlapped(cfg, ws, n, slot) {
      BatchOrder(slot, cfg.count, cfg.Batch());
      BatchOrder(cfg.count, slot, cfg.Batch());
      var m := BatchOverlaps(cfg, ws, acts, n, slot);
      assert OverlapsAt(cfg, ws, n, slot, m);
    }
  }

  // ----- A run in which every call returns true -----

  function Pid(c: nat): int { 11 + c }
  function Arriving(c: nat): Message { Message("project", Pid(c), 7, 0) }

  /** Callers are told apart by one byte. */
  const MANY: nat := 200

  function Line(c: nat): seq<Byte>
    requires c < MANY
  {
    [(50 + c) as Byte]
  }

  function Decode(line: seq<Byte>): Decoded
  {
    if |line| == 1 && 50 <= line[0] < 250 then Arrival(Arriving(line[0] as int - 50)) else Malformed
  }

  /** `count` arrivals, released in batches. */
  function Squad(count: nat, batch: nat): Config { Config(count, true, batch, false, Decode) }

  function Handles(count: nat): (r: map<int, ProcId>)
    ensures forall pid :: pid in r <==> 11 <= pid < 11 + count
    ensures forall pid :: pid in r ==> r[pid] == pid - 11
  {
    if count == 0 then map[] else Handles(count - 1)[Pid(count - 1) := count - 1]
  }

  function Below(gone: nat): (r: set<ProcId>)
    ensures forall p: nat :: p in r <==> p < gone
  {
    if gone == 0 then {} else Below(gone - 1) + {gone - 1}
  }

  /** What the kernel answers when the first `gone` processes have exited. */
  function Answers(count: nat, gone: nat): Kernel
  {
    Kernel(Handles(count), Below(gone), map[], {})
  }

  function Caller(c: nat, phase: Phase, wrote: bool, accepted: bool, upstream: seq<Byte>): Client
    requires c < MANY
  {
    Client(c, Arriving(c), Line(c), phase, wrote, accepted, upstream)
  }

  function Messages(n: nat): (r: seq<Message>)
    ensures |r| == n && forall i :: 0 <= i < n ==> r[i] == Arriving(i)
  {
    if n == 0 then [] else Messages(n - 1) + [Arriving(n - 1)]
  }

  /** All processes, the first `gone` of them exited. */
  ghost predicate ProcsAt(procs: map<ProcId, Proc>, count: nat, gone: nat)
  {
    && (forall p: nat :: p in procs <==> p < count)
    && (forall p: nat :: p < count ==> procs[p] == Proc(Pid(p), 7, p < gone, false))
  }

  /** `n` callers, of which the first `done` have returned. */
  ghost predicate CallersAt(clients: map<Conn, Client>, n: nat, done: nat)
    requires n <= MANY
  {
    && (forall c: nat :: c in clients <==> c < n)
    && (forall c: nat :: c < n ==>
          clients[c] == Caller(c, if c < done then ReturnedTrue else Waiting, true, true, []))
  }

  /** The server with the first `n` callers recorded. */
  ghost predicate ServerAt(s: Server, batch: nat, n: nat)
  {
    && s == Server(Messages(n), Upto(n), Upto(n), s.pending, None, [], true, Upto(BatchStart(n, batch)), [])
    && (forall c: nat :: c in s.pending <==> c < n)
    && (forall c: nat :: c < n ==> s.pending[c] == [])
  }

  ghost predicate At(w: World, count: nat, batch: nat, n: nat, done: nat, gone: nat)
    requires n <= MANY
  {
    ProcsAt(w.procs, count, gone) && CallersAt(w.clients, n, done) && ServerAt(w.server, batch, n)
  }

  /** Some run ends in `w`. */
  ghost predicate Reachable(cfg: Config, w: World)
  {
    exists ws, acts :: Run(cfg, ws, acts) && ws[|ws| - 1] == w
  }

  /** A run goes on with one more step. */
  lemma Onwards(cfg: Config, w: World, a: Action, w': World)
    requires Reachable(cfg, w) && Step(cfg, w, a, w')
    ensures Reachable(cfg, w')
  {
    var ws, acts :| Run(cfg, ws, acts) && ws[|ws| - 1] == w;
    var ws', acts' := ws + [w'], acts + [a];
    forall i | 0 <= i < |acts'| ensures Step(cfg, ws'[i], acts'[i], ws'[i + 1]) {
      if i < |acts| { assert Step(cfg, ws[i], acts[i], ws[i + 1]); }
    }
    assert Run(cfg, ws', acts') && ws'[|ws'| - 1] == w';
  }

  lemma ReachableInvariant(cfg: Config, w: World)
    requires Reachable(cfg, w)
    ensures Invariant(cfg, w.server)
  {
    var ws, acts :| Run(cfg, ws, acts) && ws[|ws| - 1] == w;
    RunSafe(cfg, ws, acts, |ws| - 1);
  }

  // ----- Arriving -----

  lemma Connects(cfg: Config, c: nat, w: World)
    requires c < MANY && Invariant(cfg, w.server) && cfg.decode == Decode && c !in w.clients
    requires c in w.procs && w.procs[c] == Proc(Pid(c), 7, false, false)
    ensures Step(cfg, w, Connect(c, c, Arriving(c), Line(c)), Update(w, c, Caller(c, Connecting, false, false, [])))
  {
  }

  lemma Writes(cfg: Config, c: nat, w: World)
    requires c < MANY && Invariant(cfg, w.server) && Alive(w, c)
    ensures Step(cfg, Update(w, c, Caller(c, Connecting, false, false, [])), Write(c),
                 Update(w, c, Caller(c, Waiting, true, false, Line(c) + [NEWLINE])))
  {
  }

  lemma IsAccepted(cfg: Config, c: nat, w: World)
    requires c < MANY && Invariant(cfg, w.server) && w.server.running
    ensures Step(cfg, Update(w, c, Caller(c, Waiting, true, false, Line(c) + [NEWLINE])), Accept(c), Calling(w, c))
  {
  }

  /** `c` has connected, written and been accepted; nothing is delivered yet. */
  function Calling(w: World, c: nat): World
    requires c < MANY
  {
    Update(w, c, Caller(c, Waiting, true, true, Line(c) + [NEWLINE])).(server := OnListen(w.server, c))
  }

  lemma Calls(cfg: Config, c: nat, w: World)
    requires Reachable(cfg, w) && w.server.running && c < MANY && cfg.decode == Decode && c !in w.clients
    requires c in w.procs && w.procs[c] == Proc(Pid(c), 7, false, false)
    ensures Reachable(cfg, Calling(w, c))
  {
    ReachableInvariant(cfg, w);
    Connects(cfg, c, w);
    var w1 := Update(w, c, Caller(c, Connecting, false, false, []));
    Onwards(cfg, w, Connect(c, c, Arriving(c), Line(c)), w1);
    Writes(cfg, c, w);
    var w2 := Update(w, c, Caller(c, Waiting, true, false, Line(c) + [NEWLINE]));
    Onwards(cfg, w1, Write(c), w2);
    IsAccepted(cfg, c, w);
    Onwards(cfg, w2, Accept(c), Calling(w, c));
  }

  lemma IsRecorded(count: nat, batch: nat, n: nat, gone: nat, s: Server)
    requires batch > 0 && n < count <= MANY && BatchStart(n, batch) <= gone && ServerAt(s, batch, n)
    requires Invariant(Squad(count, batch), OnListen(s, n))
    ensures var s' := OnBody(Squad(count, batch), OnListen(s, n), n, Line(n) + [NEWLINE], Answers(count, gone));
            s'.errors == [] && s'.messages == s.messages + [Arriving(n)]
  {
    var data, k := Line(n) + [NEWLINE], Answers(count, gone);
    var listening := OnListen(s, n);
    assert listening.pending[n] + data == data;
    OneByteLine(n);
    assert Pid(n) in k.handles && |listening.messages| == n;
    assert forall i: nat :: i < n ==> listening.held[i] in listening.pending;
    assert n % batch == 0 ==> forall i :: 0 <= i < n ==> listening.pidfds[i] in k.exited;
    RecordedIff(Squad(count, batch), listening, n, data, k, Arriving(n));
  }

  lemma OneByteLine(c: nat)
    requires c < MANY
    ensures var data := Line(c) + [NEWLINE];
      |data| == 2 && data[1] == 10 && 10 !in data[..1] && Decode(data[..1]) == Arrival(Arriving(c))
  {
    assert (Line(c) + [NEWLINE])[..1] == Line(c);
  }

  lemma Recorded(count: nat, batch: nat, n: nat, gone: nat, s: Server)
    requires batch > 0 && n < count <= MANY && BatchStart(n, batch) <= gone && ServerAt(s, batch, n)
    requires Invariant(Squad(count, batch), OnListen(s, n))
    ensures var s' := OnBody(Squad(count, batch), OnListen(s, n), n, Line(n) + [NEWLINE], Answers(count, gone));
            ServerAt(s', batch, n + 1)
  {
    IsRecorded(count, batch, n, gone, s);
    RecordedState(Squad(count, batch), OnListen(s, n), n, Line(n) + [NEWLINE], Answers(count, gone), Arriving(n));
    ModStep(n, batch);
    assert Upto(n) + [n] == Upto(n + 1);
  }

  lemma AnswersTruthfully(procs: map<ProcId, Proc>, count: nat, gone: nat)
    requires gone <= count && ProcsAt(procs, count, gone)
    ensures Truthful(procs, Answers(count, gone))
  {
  }

  lemma Delivers(cfg: Config, w: World, c: Conn, k: Kernel) returns (w': World)
    requires Invariant(cfg, w.server) && w.server.running && c in w.clients && c in w.server.pending
    requires 0 < |w.clients[c].upstream| <= LIMIT && Truthful(w.procs, k)
    ensures Step(cfg, w, Deliver(c, |w.clients[c].upstream|, k), w')
    ensures w' == Update(w, c, w.clients[c].(upstream := []))
                    .(server := OnBody(cfg, w.server, c, w.clients[c].upstream, k))
  {
    var data := w.clients[c].upstream;
    assert data[..|data|] == data && data[|data|..] == [];
    w' := Next(cfg, w, Deliver(c, |data|, k));
  }

  /** The next caller arrives, provided all earlier batches have exited. */
  lemma Arrives(count: nat, batch: nat, n: nat, done: nat, w: World) returns (w': World)
    requires batch > 0 && n < count <= MANY && done == BatchStart(n, batch)
    requires Reachable(Squad(count, batch), w) && At(w, count, batch, n, done, done)
    ensures Reachable(Squad(count, batch), w') && At(w', count, batch, n + 1, done, done)
  {
    var cfg, calling, k := Squad(count, batch), Calling(w, n), Answers(count, done);
    Calls(cfg, n, w);
    ReachableInvariant(cfg, calling);
    AnswersTruthfully(w.procs, count, done);
    w' := Delivers(cfg, calling, n, k);
    Onwards(cfg, calling, Deliver(n, 2, k), w');
    Recorded(count, batch, n, done, w.server);
    OneMoreCaller(w.clients, n, done, calling.clients[n]);
  }

  lemma OneMoreCaller(clients: map<Conn, Client>, n: nat, done: nat, cl: Client)
    requires done <= n < MANY && CallersAt(clients, n, done)
    ensures CallersAt(clients[n := cl][n := Caller(n, Waiting, true, true, [])], n + 1, done)
  {
  }

  // ----- Returning and exiting -----

  lemma Returns(count: nat, batch: nat, n: nat, done: nat, gone: nat, w: World) returns (w': World)
    requires n <= count <= MANY && gone <= done < BatchStart(n, batch)
    requires Reachable(Squad(count, batch), w) && At(w, count, batch, n, done, gone)
    ensures Reachable(Squad(count, batch), w') && At(w', count, batch, n, done + 1, gone)
  {
    var s := w.server;
    assert s.released[done] == done && s.held[done] == done;
    assert Sent(s, done);
    ReachableInvariant(Squad(count, batch), w);
    w' := Update(w, done, Caller(done, ReturnedTrue, true, true, []));
    ReceiveStep(Squad(count, batch), w, done);
    Onwards(Squad(count, batch), w, Receive(done, 3), w');
  }

  lemma ReceiveStep(cfg: Config, w: World, c: Conn)
    requires Invariant(cfg, w.server) && Sent(w.server, c)
    requires c in w.clients && w.clients[c].phase.Waiting? && Alive(w, w.clients[c].owner)
    ensures Step(cfg, w, Receive(c, 3), Update(w, c, w.clients[c].(phase := ReturnedTrue)))
  {
  }

  lemma {:induction false} AllReturn(count: nat, batch: nat, n: nat, done: nat, gone: nat, w: World) returns (w': World)
    requires n <= count <= MANY && gone <= done <= BatchStart(n, batch) == n
    requires Reachable(Squad(count, batch), w) && At(w, count, batch, n, done, gone)
    ensures Reachable(Squad(count, batch), w') && At(w', count, batch, n, n, gone)
    decreases n - done
  {
    w' := w;
    if done < n {
      w' := Returns(count, batch, n, done, gone, w);
      w' := AllReturn(count, batch, n, done + 1, gone, w');
    }
  }

  lemma Exits(count: nat, batch: nat, n: nat, gone: nat, w: World) returns (w': World)
    requires gone < n <= count <= MANY
    requires Reachable(Squad(count, batch), w) && At(w, count, batch, n, n, gone)
    ensures Reachable(Squad(count, batch), w') && At(w', count, batch, n, n, gone + 1)
  {
    ReachableInvariant(Squad(count, batch), w);
    w' := w.(procs := w.procs[gone := w.procs[gone].(exited := true)]);
    assert Step(Squad(count, batch), w, Exit(gone), w');
    Onwards(Squad(count, batch), w, Exit(gone), w');
  }

  lemma {:induction false} AllExit(count: nat, batch: nat, n: nat, gone: nat, w: World) returns (w': World)
    requires gone <= n <= count <= MANY
    requires Reachable(Squad(count, batch), w) && At(w, count, batch, n, n, gone)
    ensures Reachable(Squad(count, batch), w') && At(w', count, batch, n, n, n)
    decreases n - gone
  {
    w' := w;
    if gone < n {
      w' := Exits(count, batch, n, gone, w);
      w' := AllExit(count, batch, n, gone + 1, w');
    }
  }

  /** `n` callers can have arrived, with all complete batches returned and exited. */
  lemma {:induction false} Reaches(count: nat, batch: nat, n: nat) returns (w: World)
    requires batch > 0 && n <= count <= MANY
    ensures Reachable(Squad(count, batch), w) && At(w, count, batch, n, BatchStart(n, batch), BatchStart(n, batch))
  {
    if n == 0 {
      w := Begins(count, batch);
    } else {
      var done := BatchStart(n - 1, batch);
      w := Reaches(count, batch, n - 1);
      w := Arrives(count, batch, n - 1, done, w);
      ModStep(n - 1, batch);
      if n % batch == 0 {
        w := AllReturn(count, batch, n, done, done, w);
        w := AllExit(count, batch, n, done, w);
      }
    }
  }

  function Procs(count: nat): (r: map<ProcId, Proc>)
    ensures forall p: nat :: p in r <==> p < count
    ensures forall p: nat :: p < count ==> r[p] == Proc(Pid(p), 7, false, false)
  {
    if count == 0 then map[] else Procs(count - 1)[count - 1 := Proc(Pid(count - 1), 7, false, false)]
  }

  lemma Begins(count: nat, batch: nat) returns (w: World)
    requires batch > 0
    ensures Reachable(Squad(count, batch), w) && At(w, count, batch, 0, 0, 0)
  {
    w := World(Procs(count), map[], Fresh());
    var ws, acts: seq<Action> := [w], [];
    assert Run(Squad(count, batch), ws, acts) && ws[|ws| - 1] == w;
  }

  /** For every number of callers, up to 200 of them, and every batch size dividing it there is an
      error-free run in which every call returns true. */
  lemma EveryCallReturns(count: nat, batch: nat) returns (ws: seq<World>, acts: seq<Action>)
    requires 0 < count <= 200 && batch > 0 && count % batch == 0
    ensures Run(Squad(count, batch), ws, acts)
    ensures var w := ws[|ws| - 1];
      && w.server.errors == [] && |w.server.messages| == count
      && forall c: nat :: c < count ==> c in w.clients && w.clients[c].phase.ReturnedTrue?
  {
    var w := Reaches(count, batch, count);
    ws, acts :| Run(Squad(count, batch), ws, acts) && ws[|ws| - 1] == w;
  }
}
