/**
 The barrier server together with its environment: processes that are spawned,
 exit and are reaped (so PIDs are reused), the authored clients, and the
 connections between them, which deliver what was written in arbitrary chunks.
 A run is any interleaving of the actions below.
 */
module Rendezvous {
  import opened Lists
  import opened Bytes
  import opened Barrier

  /** A reaped process has given up its PID; an exited one is still waited for. */
  datatype Proc = Proc(pid: int, ppid: int, exited: bool, reaped: bool)

  /** Where the authored `barrier(info)` call stands. */
  datatype Phase = Connecting | Waiting | ReturnedTrue | ReturnedFalse | Threw

  /** One barrier call: `line` is the JSON text of `message`; `upstream` was
      written but not yet read by the server. */
  datatype Client = Client(owner: ProcId, message: Message, line: seq<Byte>,
                           phase: Phase, wrote: bool, accepted: bool, upstream: seq<Byte>)

  datatype World = World(procs: map<ProcId, Proc>, clients: map<Conn, Client>, server: Server)

  datatype Action =
    | Spawn(p: ProcId, pid: int, ppid: int)
    | Exit(p: ProcId)
    | Reap(p: ProcId)
    | Launch(cli: int)
    | Connect(c: Conn, owner: ProcId, message: Message, line: seq<Byte>)
    | Write(c: Conn)
    | Abort(c: Conn)
    | ClientError(c: Conn)
    | Lose(c: Conn, keep: nat)
    | Receive(c: Conn, n: nat)
    | Accept(c: Conn)
    | Deliver(c: Conn, n: nat, k: Kernel)
    | EndOfFile(c: Conn, k: Kernel)
    | Broken
    | Stop

  /** The bytes one client writes: its JSON line and the newline. */
  function Frame(cl: Client): seq<Byte> { cl.line + [NEWLINE] }

  predicate Alive(w: World, p: ProcId)
  {
    p in w.procs && !w.procs[p].exited
  }

  predicate Gone(w: World, p: ProcId)
  {
    p in w.procs && w.procs[p].exited
  }

  /** The client's socket end is gone: the call is over or its process has exited. */
  predicate Closed(w: World, c: Conn)
    requires c in w.clients
  {
    !(w.clients[c].phase in {Connecting, Waiting} && Alive(w, w.clients[c].owner))
  }

  /** The kernel answers truthfully: a pidfd names a process that holds the PID now,
      polling reports only exited ones, and `/proc` gives a holder's parent. */
  ghost predicate Truthful(procs: map<ProcId, Proc>, k: Kernel)
  {
    && (forall pid :: pid in k.handles ==>
        k.handles[pid] in procs && !procs[k.handles[pid]].reaped && procs[k.handles[pid]].pid == pid)
    && (forall p :: p in k.exited ==> p in procs && procs[p].exited)
    && (forall q :: q in k.parents ==>
        exists p :: p in procs && !procs[p].reaped && procs[p].pid == q && procs[p].ppid == k.parents[q])
  }

  predicate Sent(s: Server, c: Conn)
  {
    exists i :: 0 <= i < |s.released| && s.released[i] < |s.held| && s.held[s.released[i]] == c
  }

  ghost predicate Enabled(cfg: Config, w: World, a: Action)
  {
    match a
    case Spawn(p, pid, _) => p !in w.procs && forall q :: q in w.procs && !w.procs[q].reaped ==> w.procs[q].pid != pid
    case Exit(p) => Alive(w, p)
    case Reap(p) => p in w.procs && w.procs[p].exited && !w.procs[p].reaped
    case Launch(_) => w.server.cliPid.None?
    case Connect(c, owner, m, line) =>
      && c !in w.clients && Alive(w, owner)
      && m.pid == w.procs[owner].pid && m.nativePid == w.procs[owner].ppid
      && NEWLINE !in line && cfg.decode(line) == Arrival(m)
    case Write(c) => c in w.clients && w.clients[c].phase.Connecting? && Alive(w, w.clients[c].owner)
    case Abort(c) => c in w.clients && w.clients[c].phase in {Connecting, Waiting} && Alive(w, w.clients[c].owner)
    case ClientError(c) => c in w.clients && w.clients[c].phase in {Connecting, Waiting} && Alive(w, w.clients[c].owner)
    case Lose(c, keep) => c in w.clients && Closed(w, c) && keep <= |w.clients[c].upstream|
    case Receive(c, n) =>
      && c in w.clients && w.clients[c].phase.Waiting? && Alive(w, w.clients[c].owner)
      && Sent(w.server, c) && 1 <= n <= 3
    case Accept(c) => w.server.running && c in w.clients && !w.clients[c].accepted
    case Deliver(c, n, k) =>
      && w.server.running && c in w.clients && c in w.server.pending
      && 1 <= n <= |w.clients[c].upstream| && n <= LIMIT
      && Truthful(w.procs, k)
    case EndOfFile(c, k) =>
      && w.server.running && c in w.clients && c in w.server.pending
      && w.clients[c].upstream == [] && Closed(w, c)
    case Broken => w.server.running
    case Stop => w.server.running
  }

  function Update(w: World, c: Conn, cl: Client): World
  {
    w.(clients := w.clients[c := cl])
  }

  ghost function Next(cfg: Config, w: World, a: Action): World
    requires Invariant(cfg, w.server) && Enabled(cfg, w, a)
  {
    match a
    case Spawn(p, pid, ppid) => w.(procs := w.procs[p := Proc(pid, ppid, false, false)])
    case Exit(p) => w.(procs := w.procs[p := w.procs[p].(exited := true)])
    case Reap(p) => w.(procs := w.procs[p := w.procs[p].(reaped := true)])
    case Launch(cli) => w.(server := w.server.(cliPid := Some(cli)))
    case Connect(c, owner, m, line) => Update(w, c, Client(owner, m, line, Connecting, false, false, []))
    case Write(c) =>
      var cl := w.clients[c];
      Update(w, c, cl.(phase := Waiting, wrote := true, upstream := Frame(cl)))
    case Abort(c) => Update(w, c, w.clients[c].(phase := ReturnedFalse))
    case ClientError(c) => Update(w, c, w.clients[c].(phase := Threw))
    case Lose(c, keep) => Update(w, c, w.clients[c].(upstream := w.clients[c].upstream[..keep]))
    case Receive(c, n) => Update(w, c, w.clients[c].(phase := if n == 3 then ReturnedTrue else Threw))
    case Accept(c) => Update(w, c, w.clients[c].(accepted := true)).(server := OnListen(w.server, c))
    case Deliver(c, n, k) =>
      var cl := w.clients[c];
      Update(w, c, cl.(upstream := cl.upstream[n..])).(server := OnBody(cfg, w.server, c, cl.upstream[..n], k))
    case EndOfFile(c, k) => w.(server := OnBody(cfg, w.server, c, [], k))
    case Broken => w.(server := OnBroken(w.server))
    case Stop => w.(server := OnStop(w.server))
  }

  // ----- The invariant of every interleaving -----

  ghost predicate ProcsOk(procs: map<ProcId, Proc>)
  {
    && (forall p :: p in procs && procs[p].reaped ==> procs[p].exited)
    && (forall p, q ::
          p in procs && q in procs && !procs[p].reaped && !procs[q].reaped && procs[p].pid == procs[q].pid ==> p == q)
  }

  /** Bytes of `c` already in the server's buffer. */
  function Buffered(s: Server, c: Conn): seq<Byte>
  {
    if c in s.pending then s.pending[c] else []
  }

  /** What is buffered and in flight is a prefix of the client's one frame,
      and all of it has been consumed once the arrival is recorded. */
  ghost predicate ChannelOk(s: Server, c: Conn, cl: Client)
  {
    && (!cl.wrote ==> cl.upstream == [] && Buffered(s, c) == [] && c !in s.held)
    && (c in s.pending ==> cl.accepted)
    && (!cl.accepted ==> c !in s.held)
    && (s.running ==>
      if c in s.held then cl.upstream == [] && Buffered(s, c) == []
      else Buffered(s, c) + cl.upstream <= Frame(cl))
  }

  ghost predicate ClientOk(cfg: Config, w: World, c: Conn)
    requires c in w.clients
  {
    var cl := w.clients[c];
    && cl.owner in w.procs
    && cl.message.pid == w.procs[cl.owner].pid && cl.message.nativePid == w.procs[cl.owner].ppid
    && NEWLINE !in cl.line && cfg.decode(cl.line) == Arrival(cl.message)
    && (cl.phase.Connecting? ==> !cl.wrote)
    && (cl.phase in {Waiting, ReturnedTrue} ==> cl.wrote)
    && (cl.phase.ReturnedTrue? ==> Sent(w.server, c))
    && ChannelOk(w.server, c, cl)
  }

  /** Slot `i` of the three aligned lists describes the client `held[i]`; its handle is
      the client's own process unless that one was gone already. */
  ghost predicate SlotOk(w: World, i: nat)
    requires |w.server.messages| == |w.server.held| == |w.server.pidfds| && i < |w.server.held|
  {
    var c, h := w.server.held[i], w.server.pidfds[i];
    && c in w.clients && w.clients[c].wrote && w.server.messages[i] == w.clients[c].message
    && h in w.procs && w.clients[c].owner in w.procs
    && (h == w.clients[c].owner || w.procs[w.clients[c].owner].exited)
  }

  ghost predicate Safe(cfg: Config, w: World)
  {
    && Invariant(cfg, w.server)
    && ProcsOk(w.procs)
    && (forall c :: c in w.clients ==> ClientOk(cfg, w, c))
    && (forall c :: c in w.server.pending ==> c in w.clients)
    && (forall i :: 0 <= i < |w.server.held| ==> SlotOk(w, i))
    && Distinct(w.server.held)
    && (forall j :: 0 <= j < OldBound(cfg, w.server) ==> Gone(w, w.server.pidfds[j]))
  }

  // ----- Preservation -----

  /** A newline in the buffer means the whole frame is there and nothing follows it. */
  lemma WholeFrame(line: seq<Byte>, buffer: seq<Byte>)
    requires NEWLINE !in line && buffer <= line + [NEWLINE] && FirstNewline(buffer) < |buffer|
    ensures buffer == line + [NEWLINE] && FirstNewline(buffer) == |line|
  {
    var frame := line + [NEWLINE];
    assert frame[..|line|] == line;
    FirstNewlineAt(frame, |line|);
    assert forall j :: 0 <= j < |line| ==> frame[j] != NEWLINE;
  }

  /** Reading a chunk either extends the buffer, stores this client's own message, or raises. */
  ghost predicate Delivered(cfg: Config, s: Server, c: Conn, cl: Client, n: nat, k: Kernel, s': Server)
    requires Invariant(cfg, s) && c in s.pending && n <= |cl.upstream|
  {
    var grown := Grown(s, c, cl.upstream[..n]);
    && cl.wrote && c !in s.held
    && (|| s' == grown
        || Refused(grown, s')
        || StoreStep(cfg, s, c, cl, n, k, s'))
  }

  lemma DeliverEffect(cfg: Config, s: Server, c: Conn, cl: Client, n: nat, k: Kernel, s': Server)
    requires Invariant(cfg, s) && s.running && c in s.pending && 1 <= n <= |cl.upstream|
    requires NEWLINE !in cl.line && cfg.decode(cl.line) == Arrival(cl.message) && ChannelOk(s, c, cl)
    requires ChunkEffect(cfg, s, c, cl.upstream[..n], k, s')
    ensures Delivered(cfg, s, c, cl, n, k, s')
  {
    var buffer := s.pending[c] + cl.upstream[..n];
    assert buffer + cl.upstream[n..] == Buffered(s, c) + cl.upstream;
    if FirstNewline(buffer) < |buffer| {
      WholeFrame(cl.line, buffer);
      assert buffer[..|cl.line|] == cl.line;
    }
  }

  /** Processes never un-exit and never change PID. */
  ghost predicate Later(procs: map<ProcId, Proc>, procs': map<ProcId, Proc>)
  {
    forall p :: p in procs ==>
      && p in procs' && procs'[p].pid == procs[p].pid && procs'[p].ppid == procs[p].ppid
      && (procs[p].exited ==> procs'[p].exited)
  }

  lemma ProcessKeeps(cfg: Config, w: World, procs': map<ProcId, Proc>)
    requires Safe(cfg, w) && Later(w.procs, procs') && ProcsOk(procs')
    ensures Safe(cfg, w.(procs := procs'))
  {
    var w' := w.(procs := procs');
    forall c | c in w'.clients ensures ClientOk(cfg, w', c) { assert ClientOk(cfg, w, c); }
    forall i | 0 <= i < |w.server.held| ensures SlotOk(w', i) { assert SlotOk(w, i); }
    forall j | 0 <= j < OldBound(cfg, w.server) ensures Gone(w', w.server.pidfds[j])
        { assert Gone(w, w.server.pidfds[j]); }
  }

  /** If nothing is stored and no client changes identity, the slots stay in order. */
  lemma SameSlots(cfg: Config, w: World, w': World)
    requires Safe(cfg, w) && w'.procs == w.procs && Invariant(cfg, w'.server)
    requires w'.server.messages == w.server.messages && w'.server.held == w.server.held
        && w'.server.pidfds == w.server.pidfds
    requires forall c :: c in w.clients ==>
        && c in w'.clients && w'.clients[c].owner == w.clients[c].owner
        && w'.clients[c].message == w.clients[c].message && (w.clients[c].wrote ==> w'.clients[c].wrote)
    requires forall c :: c in w'.clients ==> ClientOk(cfg, w', c)
    requires forall c :: c in w'.server.pending ==> c in w'.clients
    ensures Safe(cfg, w')
  {
    forall i | 0 <= i < |w'.server.held| ensures SlotOk(w', i) {
      assert SlotOk(w, i);
      SameSlot(w, w', i);
    }
    assert OldBound(cfg, w'.server) == OldBound(cfg, w.server);
    forall j | 0 <= j < OldBound(cfg, w'.server) ensures Gone(w', w'.server.pidfds[j]) {
      assert Gone(w, w.server.pidfds[j]);
    }
  }

  lemma SameSlot(w: World, w': World, i: nat)
    requires |w.server.messages| == |w.server.held| == |w.server.pidfds| && i < |w.server.held| && SlotOk(w, i)
    requires w'.server.messages == w.server.messages && w'.server.held == w.server.held
    requires w'.server.pidfds == w.server.pidfds && w'.procs == w.procs
    requires var c := w.server.held[i];
      && c in w'.clients && w'.clients[c].owner == w.clients[c].owner
      && w'.clients[c].message == w.clients[c].message && (w.clients[c].wrote ==> w'.clients[c].wrote)
    ensures SlotOk(w', i)
  {
  }

  /** Replacing one client's record keeps everything if the new record is in order. */
  lemma ClientKeeps(cfg: Config, w: World, c: Conn, cl: Client)
    requires Safe(cfg, w)
    requires ClientOk(cfg, Update(w, c, cl), c)
    requires c in w.clients ==>
        cl.owner == w.clients[c].owner && cl.message == w.clients[c].message && (w.clients[c].wrote ==> cl.wrote)
    ensures Safe(cfg, Update(w, c, cl))
  {
    var w' := Update(w, c, cl);
    forall d | d in w'.clients ensures ClientOk(cfg, w', d) { assert d != c ==> ClientOk(cfg, w, d); }
    SameSlots(cfg, w, w');
  }

  /** A server change that stores nothing keeps everything if every channel stays in order. */
  lemma ServerKeeps(cfg: Config, w: World, s': Server)
    requires Safe(cfg, w) && Invariant(cfg, s')
    requires s'.messages == w.server.messages && s'.held == w.server.held && s'.pidfds == w.server.pidfds
        && s'.released == w.server.released
    requires forall c :: c in s'.pending ==> c in w.clients
    requires forall c :: c in w.clients ==> ChannelOk(s', c, w.clients[c])
    ensures Safe(cfg, w.(server := s'))
  {
    var w' := w.(server := s');
    forall c | c in w'.clients ensures ClientOk(cfg, w', c) {
      assert ClientOk(cfg, w, c);
      assert Sent(w.server, c) ==> Sent(s', c);
    }
    SameSlots(cfg, w, w');
  }

  /** The check on the immediately preceding batch extends to all older slots. */
  lemma OlderExited(cfg: Config, w: World, k: Kernel, j: nat)
    requires Safe(cfg, w) && Truthful(w.procs, k)
    requires |w.server.messages| > 0 ==> cfg.Batch() > 0
    requires |w.server.messages| > 0 && |w.server.messages| % cfg.Batch() == 0 ==>
        cfg.Batch() <= |w.server.messages| && PriorBatchExited(w.server, cfg.Batch(), k)
    requires j < BatchStart(|w.server.messages|, cfg.Batch())
    ensures Gone(w, w.server.pidfds[j])
  {
    var n, b := |w.server.messages|, cfg.Batch();
    ModStep(n - 1, b);
    ModStep(n, b);
    assert SlotOk(w, j);
  }

  /** The chunk that completes a frame was stored and its buffer consumed. */
  ghost predicate StoreStep(cfg: Config, s: Server, c: Conn, cl: Client, n: nat, k: Kernel, s': Server)
    requires Invariant(cfg, s) && c in s.pending && n <= |cl.upstream|
  {
    && cl.wrote && c !in s.held && cl.upstream[n..] == []
    && (|s.messages| > 0 ==> cfg.Batch() > 0)
    && Stored(cfg, Grown(s, c, cl.upstream[..n]), s', c, cl.message, k)
  }

  lemma StoreClient(cfg: Config, w: World, c: Conn, n: nat, k: Kernel, s': Server, d: Conn)
    requires Invariant(cfg, w.server) && c in w.clients && c in w.server.pending && n <= |w.clients[c].upstream|
    requires StoreStep(cfg, w.server, c, w.clients[c], n, k, s')
    requires w.server.running && d in w.clients && ClientOk(cfg, w, d)
    ensures ClientOk(cfg, Update(w, c, w.clients[c].(upstream := [])).(server := s'), d)
  {
    var s := w.server;
    assert d in s'.held <==> d in s.held || d == c;
    assert d != c ==> Buffered(s', d) == Buffered(s, d);
    if Sent(s, d) {
      var i :| 0 <= i < |s.released| && s.released[i] < |s.held| && s.held[s.released[i]] == d;
      assert s'.released[i] == s.released[i] && s'.held[s.released[i]] == d;
    }
  }

  /** The handle opened for the stored PID is the client's process, unless that one is gone. */
  lemma NewSlot(w: World, c: Conn, k: Kernel)
    requires ProcsOk(w.procs) && Truthful(w.procs, k)
    requires c in w.clients && w.clients[c].owner in w.procs
        && w.clients[c].message.pid == w.procs[w.clients[c].owner].pid
    requires w.clients[c].message.pid in k.handles
    ensures var h := k.handles[w.clients[c].message.pid];
            h in w.procs && (h == w.clients[c].owner || w.procs[w.clients[c].owner].exited)
  {
    var h, o := k.handles[w.clients[c].message.pid], w.clients[c].owner;
    assert !w.procs[h].reaped && w.procs[h].pid == w.procs[o].pid;
  }

  /** Slots after storing the arrival of `c`: in order, and every older batch has exited. */
  lemma StoreSlots(cfg: Config, w: World, c: Conn, n: nat, k: Kernel, s': Server)
    requires Safe(cfg, w) && c in w.clients && c in w.server.pending && n <= |w.clients[c].upstream|
    requires Truthful(w.procs, k)
    requires StoreStep(cfg, w.server, c, w.clients[c], n, k, s')
    ensures |s'.messages| == |s'.held| == |s'.pidfds|
    ensures var w' := Update(w, c, w.clients[c].(upstream := [])).(server := s');
            && (forall i :: 0 <= i < |s'.held| ==> SlotOk(w', i))
            && (forall j :: 0 <= j < OldBound(cfg, s') ==> Gone(w', s'.pidfds[j]))
  {
    var s := w.server;
    var w' := Update(w, c, w.clients[c].(upstream := [])).(server := s');
    assert ClientOk(cfg, w, c);
    NewSlot(w, c, k);
    forall i | 0 <= i < |s'.held| ensures SlotOk(w', i) {
      if i < |s.held| { assert SlotOk(w, i); }
    }
    forall j | 0 <= j < OldBound(cfg, s') ensures Gone(w', s'.pidfds[j]) {
      OlderExited(cfg, w, k, j);
    }
  }

  lemma StoreKeeps(cfg: Config, w: World, c: Conn, n: nat, k: Kernel, s': Server)
    requires Safe(cfg, w) && c in w.clients && c in w.server.pending && n <= |w.clients[c].upstream|
    requires w.server.running && Truthful(w.procs, k) && Invariant(cfg, s')
    requires StoreStep(cfg, w.server, c, w.clients[c], n, k, s')
    ensures Safe(cfg, Update(w, c, w.clients[c].(upstream := [])).(server := s'))
  {
    var w' := Update(w, c, w.clients[c].(upstream := [])).(server := s');
    forall d | d in w'.clients ensures ClientOk(cfg, w', d) { StoreClient(cfg, w, c, n, k, s', d); }
    StoreSlots(cfg, w, c, n, k, s');
  }

  lemma GrowClient(cfg: Config, w: World, c: Conn, n: nat, s': Server, d: Conn)
    requires c in w.clients && c in w.server.pending && n <= |w.clients[c].upstream| && w.server.running
    requires var grown := Grown(w.server, c, w.clients[c].upstream[..n]); s' == grown || Refused(grown, s')
    requires d in w.clients && ClientOk(cfg, w, d)
    requires ClientOk(cfg, w, c)
    requires n > 0
    ensures ClientOk(cfg, Update(w, c, w.clients[c].(upstream := w.clients[c].upstream[n..])).(server := s'), d)
  {
    var s, cl := w.server, w.clients[c];
    assert s.pending[c] + cl.upstream[..n] + cl.upstream[n..] == Buffered(s, c) + cl.upstream;
    assert Sent(s, d) ==> Sent(s', d);
  }

  /** A chunk that stores nothing. */
  lemma GrowKeeps(cfg: Config, w: World, c: Conn, n: nat, k: Kernel, s': Server)
    requires Safe(cfg, w) && Invariant(cfg, s')
    requires c in w.clients && c in w.server.pending && 1 <= n <= |w.clients[c].upstream| && w.server.running
    requires var grown := Grown(w.server, c, w.clients[c].upstream[..n]); s' == grown || Refused(grown, s')
    ensures Safe(cfg, Update(w, c, w.clients[c].(upstream := w.clients[c].upstream[n..])).(server := s'))
  {
    var s, cl := w.server, w.clients[c];
    var w' := Update(w, c, cl.(upstream := cl.upstream[n..])).(server := s');
    forall d | d in w'.clients ensures ClientOk(cfg, w', d) { GrowClient(cfg, w, c, n, s', d); }
    SameSlots(cfg, w, w');
  }

  lemma DeliverKeeps(cfg: Config, w: World, c: Conn, n: nat, k: Kernel)
    requires Safe(cfg, w) && Enabled(cfg, w, Deliver(c, n, k))
    ensures Safe(cfg, Next(cfg, w, Deliver(c, n, k)))
  {
    var s, cl := w.server, w.clients[c];
    var s' := OnBody(cfg, s, c, cl.upstream[..n], k);
    assert ClientOk(cfg, w, c);
    OnBodyKeeps(cfg, s, c, cl.upstream[..n], k);
    OnBodyEffect(cfg, s, c, cl.upstream[..n], k);
    DeliverEffect(cfg, s, c, cl, n, k, s');
    var grown := Grown(s, c, cl.upstream[..n]);
    if s' == grown || Refused(grown, s') {
      GrowKeeps(cfg, w, c, n, k, s');
    } else {
      StoreKeeps(cfg, w, c, n, k, s');
    }
  }

  /** Every enabled action, of whichever participant, keeps the invariant. */
  lemma StepKeeps(cfg: Config, w: World, a: Action)
    requires Safe(cfg, w) && Enabled(cfg, w, a)
    ensures Safe(cfg, Next(cfg, w, a))
  {
    match a
    case Spawn(_, _, _) => ProcessActionKeeps(cfg, w, a);
    case Exit(_) => ProcessActionKeeps(cfg, w, a);
    case Reap(_) => ProcessActionKeeps(cfg, w, a);
    case Launch(cli) => LaunchKeeps(cfg, w, cli);
    case Deliver(c, n, k) => DeliverKeeps(cfg, w, c, n, k);
    case EndOfFile(c, k) => EndOfFileKeeps(cfg, w, c, k);
    case Broken => HaltKeeps(cfg, w, OnBroken(w.server));
    case Stop => HaltKeeps(cfg, w, OnStop(w.server));
    case Accept(c) => AcceptKeeps(cfg, w, c);
    case Connect(c, owner, m, line) => ConnectKeeps(cfg, w, a);
    case _ => ClientActionKeeps(cfg, w, a);
  }

  lemma ProcessActionKeeps(cfg: Config, w: World, a: Action)
    requires Safe(cfg, w) && Enabled(cfg, w, a) && (a.Spawn? || a.Exit? || a.Reap?)
    ensures Safe(cfg, Next(cfg, w, a))
  {
    ProcessKeeps(cfg, w, Next(cfg, w, a).procs);
  }

  lemma LaunchKeeps(cfg: Config, w: World, cli: int)
    requires Safe(cfg, w)
    ensures Safe(cfg, w.(server := w.server.(cliPid := Some(cli))))
  {
    forall c | c in w.clients ensures ChannelOk(w.server.(cliPid := Some(cli)), c, w.clients[c])
        { assert ClientOk(cfg, w, c); }
    ServerKeeps(cfg, w, w.server.(cliPid := Some(cli)));
  }

  lemma HaltKeeps(cfg: Config, w: World, s': Server)
    requires Safe(cfg, w)
    requires s' == w.server.(running := false, errors := s'.errors) && Invariant(cfg, s')
    ensures Safe(cfg, w.(server := s'))
  {
    forall c | c in w.clients ensures ChannelOk(s', c, w.clients[c]) { assert ClientOk(cfg, w, c); }
    ServerKeeps(cfg, w, s');
  }

  lemma EndOfFileKeeps(cfg: Config, w: World, c: Conn, k: Kernel)
    requires Safe(cfg, w) && Enabled(cfg, w, EndOfFile(c, k))
    ensures Safe(cfg, Next(cfg, w, EndOfFile(c, k)))
  {
    var s' := w.server.(pending := w.server.pending - {c});
    forall d | d in w.clients ensures ChannelOk(s', d, w.clients[d]) { assert ClientOk(cfg, w, d); }
    ServerKeeps(cfg, w, s');
  }

  lemma AcceptKeeps(cfg: Config, w: World, c: Conn)
    requires Safe(cfg, w) && Enabled(cfg, w, Accept(c))
    ensures Safe(cfg, Next(cfg, w, Accept(c)))
  {
    assert ClientOk(cfg, w, c);
    var cl := w.clients[c].(accepted := true);
    ClientKeeps(cfg, w, c, cl);
    var w1, s' := Update(w, c, cl), OnListen(w.server, c);
    forall d | d in w1.clients ensures ChannelOk(s', d, w1.clients[d]) { assert ClientOk(cfg, w1, d); }
    ServerKeeps(cfg, w1, s');
  }

  lemma ConnectKeeps(cfg: Config, w: World, a: Action)
    requires Safe(cfg, w) && a.Connect? && Enabled(cfg, w, a)
    ensures Safe(cfg, Next(cfg, w, a))
  {
    forall i | 0 <= i < |w.server.held| ensures w.server.held[i] != a.c { assert SlotOk(w, i); }
    ClientKeeps(cfg, w, a.c, Client(a.owner, a.message, a.line, Connecting, false, false, []));
  }

  lemma ClientActionKeeps(cfg: Config, w: World, a: Action)
    requires Safe(cfg, w) && Enabled(cfg, w, a)
    requires a.Write? || a.Abort? || a.ClientError? || a.Lose? || a.Receive?
    ensures Safe(cfg, Next(cfg, w, a))
  {
    assert ClientOk(cfg, w, a.c);
    ClientStaysOk(cfg, w, a);
    ClientKeeps(cfg, w, a.c, Next(cfg, w, a).clients[a.c]);
  }

  lemma ClientStaysOk(cfg: Config, w: World, a: Action)
    requires Invariant(cfg, w.server) && Enabled(cfg, w, a)
    requires a.Write? || a.Abort? || a.ClientError? || a.Lose? || a.Receive?
    requires ClientOk(cfg, w, a.c)
    ensures var w' := Next(cfg, w, a);
      && a.c in w'.clients && w' == Update(w, a.c, w'.clients[a.c]) && ClientOk(cfg, w', a.c)
      && w'.clients[a.c].owner == w.clients[a.c].owner && w'.clients[a.c].message == w.clients[a.c].message
      && (w.clients[a.c].wrote ==> w'.clients[a.c].wrote)
  {
  }
}
