/**
 The rendezvous server of the parallel checkers, seen from its own thread.

 `Server` is the value of everything the server thread owns; `OnListen`,
 `OnBody`, `OnBroken` and `OnStop` say what one selector event makes of it.
 The class at the end is the event loop body as it is written, and each of
 its methods is proved to perform the corresponding transition.
 */
module Barrier {
  import opened Lists
  import opened Bytes

  type Conn = nat
  /** Kernel identity of a process: what a pidfd refers to, never reused. */
  type ProcId = nat

  datatype Message = Message(project: string, pid: int, nativePid: int, retry: int)

  /** Outcome of json.loads plus the key-set check on one complete line. */
  datatype Decoded = Malformed | WrongShape | Arrival(message: Message)

  datatype Error =
    | Unbounded | TrailingBytes | BadJson | BadShape | BadPid
    | PriorBatchLive | NoSuchProcess | TooManyArrivals | SendFailed
    | SeveralRoots | NotChildOfCli | SocketError

  datatype Config = Config(count: nat, release: bool, batch: nat, interrupt: bool,
                           decode: seq<Byte> -> Decoded)
  {
    /** The constructor's `batch or count`. */
    function Batch(): nat { if batch == 0 then count else batch }
  }

  /** The kernel's answers to the system calls made while one event is handled. */
  datatype Kernel = Kernel(handles: map<int, ProcId>,
                           exited: set<ProcId>,
                           parents: map<int, int>,
                           unwritable: set<Conn>)

  /** `released` logs the held slots sent `go`, `signalled` the PIDs sent SIGINT. */
  datatype Server = Server(messages: seq<Message>,
                           pidfds: seq<ProcId>,
                           held: seq<Conn>,
                           pending: map<Conn, seq<Byte>>,
                           cliPid: Option<int>,
                           errors: seq<Error>,
                           running: bool,
                           released: seq<nat>,
                           signalled: seq<int>)

  const LIMIT: nat := 4096

  function Fresh(): Server
  {
    Server([], [], [], map[], None, [], true, [], [])
  }

  /** An exception leaves the loop for good and is recorded. */
  function Fail(s: Server, e: Error): Server
  {
    s.(errors := s.errors + [e], running := false)
  }

  /** First slot of the batch that slot `i` belongs to. */
  function BatchStart(i: nat, batch: nat): (start: nat)
    ensures start <= i
  {
    if batch == 0 then 0 else i - i % batch
  }

  /** Number of arrivals that belong to complete batches. */
  function Completed(cfg: Config, s: Server): nat
  {
    if cfg.release && cfg.Batch() > 0 then BatchStart(|s.messages|, cfg.Batch()) else 0
  }

  /** Slots below this bound belong to a batch older than that of the last arrival. */
  function OldBound(cfg: Config, s: Server): (b: nat)
    ensures b <= |s.messages|
  {
    if |s.messages| == 0 then 0 else BatchStart(|s.messages| - 1, cfg.Batch())
  }

  function Upto(n: nat): (r: seq<nat>)
    ensures |r| == n && forall i :: 0 <= i < n ==> r[i] == i
  {
    seq(n, i => i)
  }

  /** What every reachable server value satisfies, whatever the clients do. */
  ghost predicate Invariant(cfg: Config, s: Server)
  {
    && |s.messages| == |s.held| == |s.pidfds|
    && (s.running ==> s.errors == [])
    && (s.errors == [] ==> |s.messages| <= cfg.count)
    && |s.released| <= Completed(cfg, s)
    && s.released == Upto(|s.released|)
    && (s.errors == [] ==> |s.released| == Completed(cfg, s))
    && |s.signalled| <= 1
    && (s.signalled != [] ==>
        cfg.interrupt && |s.messages| >= cfg.count && |s.messages| > 0 && s.signalled == [s.messages[0].nativePid])
    && (s.errors == [] ==> (s.signalled != [] <==> cfg.interrupt && 0 < |s.messages| == cfg.count))
    && (s.errors == [] && s.signalled != [] ==> OneRoot(s.messages))
  }

  // ----- Transitions -----

  function OnListen(s: Server, conn: Conn): Server
  {
    s.(pending := s.pending[conn := []])
  }

  function OnStop(s: Server): Server
  {
    s.(running := false)
  }

  function OnBroken(s: Server): Server
  {
    Fail(s, SocketError)
  }

  /** Sends `go` to the held connections from slot `from` on; a failed send is an exception. */
  function Release(s: Server, from: nat, k: Kernel): (r: Server)
    requires from <= |s.held|
    ensures r.messages == s.messages && r.signalled == s.signalled && r.cliPid == s.cliPid
    decreases |s.held| - from
  {
    if from == |s.held| then s
    else if s.held[from] !in s.pending || s.held[from] in k.unwritable then Fail(s, SendFailed)
    else Release(s.(released := s.released + [from]), from + 1, k)
  }

  predicate OneRoot(messages: seq<Message>)
  {
    forall i :: 0 <= i < |messages| ==> messages[i].nativePid == messages[0].nativePid
  }

  function Interrupt(s: Server, k: Kernel): Server
    requires |s.messages| > 0
  {
    var root := s.messages[0].nativePid;
    if !OneRoot(s.messages) then Fail(s, SeveralRoots)
    else if root !in k.parents || s.cliPid != Some(k.parents[root]) then Fail(s, NotChildOfCli)
    else s.(signalled := s.signalled + [root])
  }

  /** All processes of the batch just completed have exited. */
  predicate PriorBatchExited(s: Server, batch: nat, k: Kernel)
    requires batch <= |s.pidfds|
  {
    forall i :: |s.pidfds| - batch <= i < |s.pidfds| ==> s.pidfds[i] in k.exited
  }

  /** The release and interrupt duties once an arrival has been stored. */
  function Settle(cfg: Config, s: Server, conn: Conn, k: Kernel): Server
    requires 0 < |s.messages| == |s.held|
  {
    if |s.messages| > cfg.count then Fail(s, TooManyArrivals)
    else
      ModStep(|s.messages|, cfg.Batch());
      var sent := if |s.messages| % cfg.Batch() == 0 && cfg.release
                  then Release(s, |s.held| - cfg.Batch(), k) else s;
      if !sent.running then sent
      else
        var told := if |s.messages| == cfg.count && cfg.interrupt then Interrupt(sent, k) else sent;
        if !told.running then told else told.(pending := told.pending[conn := []])
  }

  /** One more entry in each of the three lists. */
  function Stow(s: Server, conn: Conn, m: Message, handle: ProcId): Server
  {
    s.(pidfds := s.pidfds + [handle], messages := s.messages + [m], held := s.held + [conn])
  }

  function Record(cfg: Config, s: Server, conn: Conn, m: Message, k: Kernel): Server
    requires Invariant(cfg, s) && s.running
  {
    var n := |s.messages|;
    var full := n > 0 && n % cfg.Batch() == 0;
    if full && (ModStep(n, cfg.Batch()); !PriorBatchExited(s, cfg.Batch(), k)) then Fail(s, PriorBatchLive)
    else if m.pid !in k.handles then Fail(s, NoSuchProcess)
    else Settle(cfg, Stow(s, conn, m, k.handles[m.pid]), conn, k)
  }

  function OnBody(cfg: Config, s: Server, conn: Conn, data: seq<Byte>, k: Kernel): Server
    requires Invariant(cfg, s) && s.running && conn in s.pending
  {
    if data == [] then s.(pending := s.pending - {conn})
    else
      var buffer := s.pending[conn] + data;
      var grown := s.(pending := s.pending[conn := buffer]);
      var i := FirstNewline(buffer);
      if |buffer| > LIMIT then Fail(grown, Unbounded)
      else if i == |buffer| then grown
      else if buffer[i + 1..] != [] then Fail(grown, TrailingBytes)
      else
        match cfg.decode(buffer[..i])
        case Malformed => Fail(grown, BadJson)
        case WrongShape => Fail(grown, BadShape)
        case Arrival(m) =>
          if m.pid <= 0 then Fail(grown, BadPid) else Record(cfg, grown, conn, m, k)
  }

  // ----- Every transition keeps the invariant -----

  lemma ModStep(n: nat, b: nat)
    requires b > 0
    ensures (n + 1) % b == if n % b + 1 == b then 0 else n % b + 1
    ensures n > 0 && n % b == 0 ==> n >= b && (n - 1) % b == b - 1
  {
    var q := n / b;
    assert n == q * b + n % b;
    if n % b + 1 == b {
      assert n + 1 == (q + 1) * b;
      ModUnique(n + 1, b, q + 1, 0);
    } else {
      ModUnique(n + 1, b, q, n % b + 1);
    }
    if n > 0 && n % b == 0 {
      assert q >= 1;
      assert n - 1 == (q - 1) * b + (b - 1);
      ModUnique(n - 1, b, q - 1, b - 1);
    }
  }

  lemma ModUnique(n: int, b: int, q: int, r: int)
    requires b > 0 && n == q * b + r && 0 <= r < b
    ensures n % b == r && n / b == q
  {
    var q', r' := n / b, n % b;
    assert (q - q') * b == r' - r;
    assert q - q' >= 1 ==> (q - q') * b >= b;
    assert q - q' <= -1 ==> (q - q') * b <= -b;
  }

  lemma {:induction false} ReleaseEffect(s: Server, from: nat, k: Kernel)
    requires from <= |s.held| && s.running
    requires s.released == Upto(from)
    ensures var r := Release(s, from, k);
            && r == s.(released := r.released, errors := r.errors, running := r.running)
            && from <= |r.released| <= |s.held| && r.released == Upto(|r.released|)
            && (r.running ==> r.errors == s.errors && |r.released| == |s.held|)
            && (!r.running ==> r.errors == s.errors + [SendFailed] && |r.released| < |s.held|)
            && (forall i :: from <= i < |r.released| ==> s.held[i] in s.pending && s.held[i] !in k.unwritable)
            && (!r.running ==> s.held[|r.released|] !in s.pending || s.held[|r.released|] in k.unwritable)
    decreases |s.held| - from
  {
    if from < |s.held| && s.held[from] in s.pending && s.held[from] !in k.unwritable {
      assert s.released + [from] == Upto(from + 1);
      ReleaseEffect(s.(released := s.released + [from]), from + 1, k);
    }
  }

  lemma SettleKeeps(cfg: Config, s: Server, conn: Conn, k: Kernel)
    requires 0 < |s.messages| == |s.held| == |s.pidfds| <= cfg.count + 1
    requires s.running && s.errors == [] && s.signalled == []
    requires s.released == Upto(if cfg.release && cfg.Batch() > 0 then BatchStart(|s.messages| - 1, cfg.Batch()) else 0)
    ensures Invariant(cfg, Settle(cfg, s, conn, k))
  {
    var n := |s.messages|;
    var b := cfg.Batch();
    if b > 0 { ModStep(n - 1, b); }
    if n <= cfg.count && n % b == 0 && cfg.release {
      ModStep(n, b);
      ReleaseEffect(s, n - b, k);
    }
  }

  lemma RecordKeeps(cfg: Config, s: Server, conn: Conn, m: Message, k: Kernel)
    requires Invariant(cfg, s) && s.running
    ensures Invariant(cfg, Record(cfg, s, conn, m, k))
  {
    var n, b := |s.messages|, cfg.Batch();
    if s.signalled == [] {
      if m.pid in k.handles {
        SettleKeeps(cfg, Stow(s, conn, m, k.handles[m.pid]), conn, k);
      }
    } else if m.pid in k.handles {
      // The last expected arrival was already recorded: one more is refused.
      var s1 := Stow(s, conn, m, k.handles[m.pid]);
      assert Settle(cfg, s1, conn, k) == Fail(s1, TooManyArrivals);
      if b > 0 { ModStep(n, b); }
    }
  }

  /** Whatever bytes arrive, handling them keeps `messages`, `held` and `pidfds` aligned
      and the release log exact. */
  lemma OnBodyKeeps(cfg: Config, s: Server, conn: Conn, data: seq<Byte>, k: Kernel)
    requires Invariant(cfg, s) && s.running && conn in s.pending
    ensures Invariant(cfg, OnBody(cfg, s, conn, data, k))
  {
    if data != [] {
      var buffer := s.pending[conn] + data;
      var grown := s.(pending := s.pending[conn := buffer]);
      var i := FirstNewline(buffer);
      if |buffer| <= LIMIT && i < |buffer| && buffer[i + 1..] == [] {
        match cfg.decode(buffer[..i])
        case Arrival(m) => if m.pid > 0 { RecordKeeps(cfg, grown, conn, m, k); }
        case _ =>
      }
    }
  }

  /** `s'` is `s` after one more arrival was stored, possibly followed by an exception. */
  ghost predicate Stored(cfg: Config, s: Server, s': Server, conn: Conn, m: Message, k: Kernel)
    requires |s.messages| == |s.pidfds| && (|s.messages| > 0 ==> cfg.Batch() > 0)
  {
    && m.pid in k.handles
    && s'.messages == s.messages + [m]
    && s'.held == s.held + [conn]
    && s'.pidfds == s.pidfds + [k.handles[m.pid]]
    && s.released <= s'.released
    && s'.pending == (if s'.running then s.pending[conn := []] else s.pending)
    && (|s.messages| > 0 && |s.messages| % cfg.Batch() == 0 ==>
        cfg.Batch() <= |s.messages| && PriorBatchExited(s, cfg.Batch(), k))
  }

  ghost predicate Refused(s: Server, s': Server)
  {
    s' == s.(errors := s'.errors, running := false)
  }

  /** Settling a stored arrival touches only the logs, the buffer of `conn` and the error state. */
  lemma SettleEffect(cfg: Config, s: Server, conn: Conn, k: Kernel)
    requires 0 < |s.messages| == |s.held| && s.running
    requires cfg.release && cfg.Batch() > 0 ==> s.released == Upto(BatchStart(|s.messages| - 1, cfg.Batch()))
    ensures var r := Settle(cfg, s, conn, k);
            && r.messages == s.messages && r.held == s.held && r.pidfds == s.pidfds
            && s.released <= r.released
            && r.pending == (if r.running then s.pending[conn := []] else s.pending)
  {
    var n, b := |s.messages|, cfg.Batch();
    if n <= cfg.count && n % b == 0 && cfg.release {
      ModStep(n - 1, b);
      ModStep(n, b);
      ReleaseEffect(s, n - b, k);
    }
  }

  lemma RecordEffect(cfg: Config, s: Server, conn: Conn, m: Message, k: Kernel)
    requires Invariant(cfg, s) && s.running
    ensures var s' := Record(cfg, s, conn, m, k);
            Refused(s, s') || Stored(cfg, s, s', conn, m, k)
  {
    if m.pid in k.handles {
      var s1 := Stow(s, conn, m, k.handles[m.pid]);
      SettleEffect(cfg, s1, conn, k);
      if |s.messages| > 0 { ModStep(|s.messages|, cfg.Batch()); }
    }
  }

  function Grown(s: Server, conn: Conn, data: seq<Byte>): Server
    requires conn in s.pending
  {
    s.(pending := s.pending[conn := s.pending[conn] + data])
  }

  /** What reading a nonempty chunk amounts to: the buffer grows, and at most the one
      message on a complete line is stored. */
  ghost predicate ChunkEffect(cfg: Config, s: Server, conn: Conn, data: seq<Byte>, k: Kernel, s': Server)
    requires Invariant(cfg, s) && conn in s.pending
  {
    var buffer := s.pending[conn] + data;
    var i := FirstNewline(buffer);
    || (s' == Grown(s, conn, data) && i == |buffer|)
    || Refused(Grown(s, conn, data), s')
    || (&& i < |buffer| && buffer[i + 1..] == [] && cfg.decode(buffer[..i]).Arrival?
        && (|s.messages| > 0 ==> cfg.Batch() > 0)
        && Stored(cfg, Grown(s, conn, data), s', conn, cfg.decode(buffer[..i]).message, k))
  }

  lemma OnBodyEffect(cfg: Config, s: Server, conn: Conn, data: seq<Byte>, k: Kernel)
    requires Invariant(cfg, s) && s.running && conn in s.pending && data != []
    ensures ChunkEffect(cfg, s, conn, data, k, OnBody(cfg, s, conn, data, k))
  {
    var buffer := s.pending[conn] + data;
    var i := FirstNewline(buffer);
    if |buffer| <= LIMIT && i < |buffer| && buffer[i + 1..] == [] {
      match cfg.decode(buffer[..i])
      case Arrival(m) => RecordEffect(cfg, Grown(s, conn, data), conn, m, k);
      case _ =>
    }
  }

  /** `s'` has sent one more SIGINT than `s`, to the root that all arrivals name and that the kernel
      reported as a child of the CLI. */
  ghost predicate Signals(s: Server, k: Kernel, s': Server)
  {
    && s'.messages != [] && OneRoot(s'.messages)
    && s'.signalled == s.signalled + [s'.messages[0].nativePid]
    && s'.messages[0].nativePid in k.parents && s.cliPid == Some(k.parents[s'.messages[0].nativePid])
  }

  /** Handling bytes sends SIGINT to nobody or to the checked root. */
  lemma OnBodySignals(cfg: Config, s: Server, conn: Conn, data: seq<Byte>, k: Kernel)
    requires Invariant(cfg, s) && s.running && conn in s.pending
    ensures var s' := OnBody(cfg, s, conn, data, k);
            s'.cliPid == s.cliPid && (s'.signalled == s.signalled || Signals(s, k, s'))
  {
    if data != [] {
      var buffer := s.pending[conn] + data;
      var i := FirstNewline(buffer);
      if i < |buffer| {
        match cfg.decode(buffer[..i])
        case Arrival(m) => RecordSignals(cfg, Grown(s, conn, data), conn, m, k);
        case _ =>
      }
    }
  }

  lemma RecordSignals(cfg: Config, s: Server, conn: Conn, m: Message, k: Kernel)
    requires Invariant(cfg, s) && s.running
    ensures var s' := Record(cfg, s, conn, m, k);
            s'.cliPid == s.cliPid && (s'.signalled == s.signalled || Signals(s, k, s'))
  {
    if m.pid in k.handles {
      var s1 := Stow(s, conn, m, k.handles[m.pid]);
      SettleSignals(cfg, s1, conn, k);
    }
  }

  lemma SettleSignals(cfg: Config, s: Server, conn: Conn, k: Kernel)
    requires 0 < |s.messages| == |s.held|
    ensures var s' := Settle(cfg, s, conn, k);
            s'.cliPid == s.cliPid && (s'.signalled == s.signalled || Signals(s, k, s'))
  {
  }

  // ----- The event loop as written -----

  /** The checker's `Barrier` object together with the loop's local `pending` and `held`. */
  class EventLoop {
    const cfg: Config
    var messages: seq<Message>
    var pidfds: seq<ProcId>
    var held: seq<Conn>
    var pending: map<Conn, seq<Byte>>
    var cliPid: Option<int>
    var errors: seq<Error>
    var running: bool
    var released: seq<nat>
    var signalled: seq<int>

    ghost function View(): Server
      reads this
    {
      Server(messages, pidfds, held, pending, cliPid, errors, running, released, signalled)
    }

    ghost predicate Valid()
      reads this
    {
      Invariant(cfg, View())
    }

    constructor (cfg: Config)
      ensures this.cfg == cfg && View() == Fresh() && Valid()
    {
      this.cfg := cfg;
      messages, pidfds, held, pending, cliPid, errors := [], [], [], map[], None, [];
      running, released, signalled := true, [], [];
    }

    method Listen(conn: Conn)
      requires Valid() && running
      modifies this`pending
      ensures View() == OnListen(old(View()), conn) && Valid()
    {
      pending := pending[conn := []];
    }

    method Raise(e: Error)
      modifies this`errors, this`running
      ensures View() == Fail(old(View()), e)
    {
      errors := errors + [e];
      running := false;
    }

    /** Polls the handles of the batch just completed, stopping at one that is still live. */
    method PollPriorBatch(k: Kernel) returns (exited: bool)
      requires cfg.Batch() <= |pidfds|
      ensures exited == PriorBatchExited(View(), cfg.Batch(), k)
    {
      var i := |pidfds| - cfg.Batch();
      while i < |pidfds|
        invariant |pidfds| - cfg.Batch() <= i <= |pidfds|
        invariant forall j :: |pidfds| - cfg.Batch() <= j < i ==> pidfds[j] in k.exited
      {
        if pidfds[i] !in k.exited { return false; }
        i := i + 1;
      }
      return true;
    }

    /** Sends `go` to the connections of the batch just completed, in order of arrival. */
    method SendGo(from: nat, k: Kernel)
      requires from <= |held|
      modifies this`released, this`errors, this`running
      ensures View() == Release(old(View()), from, k)
    {
      var i := from;
      while i < |held|
        invariant from <= i <= |held|
        invariant errors == old(errors) && running == old(running)
        invariant Release(View(), i, k) == Release(old(View()), from, k)
      {
        if held[i] !in pending || held[i] in k.unwritable {
          Raise(SendFailed);
          return;
        }
        released := released + [i];
        i := i + 1;
      }
    }

    /** Collects the roots the arrivals name; if there is one and it is a child of the CLI, signals it. */
    method SendInterrupt(k: Kernel)
      requires |messages| > 0
      modifies this`signalled, this`errors, this`running
      ensures View() == Interrupt(old(View()), k)
    {
      var roots := {};
      var i := 0;
      while i < |messages|
        invariant 0 <= i <= |messages|
        invariant forall j :: 0 <= j < i ==> messages[j].nativePid in roots
        invariant forall r :: r in roots ==> exists j :: 0 <= j < i && messages[j].nativePid == r
      {
        roots := roots + {messages[i].nativePid};
        i := i + 1;
      }
      var root := messages[0].nativePid;
      if OneRoot(messages) {
        assert forall r :: r in roots ==> r == root;
        assert roots == {root};
      } else {
        var j :| 0 <= j < |messages| && messages[j].nativePid != root;
        assert messages[j].nativePid in roots;
      }
      if roots != {root} {
        Raise(SeveralRoots);
      } else if root !in k.parents || cliPid != Some(k.parents[root]) {
        Raise(NotChildOfCli);
      } else {
        signalled := signalled + [root];
      }
    }

    method Body(conn: Conn, data: seq<Byte>, k: Kernel)
      requires Valid() && running && conn in pending
      modifies this
      ensures View() == OnBody(cfg, old(View()), conn, data, k) && Valid()
    {
      OnBodyKeeps(cfg, View(), conn, data, k);
      if data == [] {
        pending := pending - {conn};
        return;
      }
      pending := pending[conn := pending[conn] + data];
      if |pending[conn]| > LIMIT { Raise(Unbounded); return; }
      var i := FirstNewline(pending[conn]);
      if i == |pending[conn]| { return; }
      var raw, tail := pending[conn][..i], pending[conn][i + 1..];
      if tail != [] { Raise(TrailingBytes); return; }
      var decoded := cfg.decode(raw);
      if decoded.Malformed? { Raise(BadJson); return; }
      if decoded.WrongShape? { Raise(BadShape); return; }
      if decoded.message.pid <= 0 { Raise(BadPid); return; }
      Arrived(conn, decoded.message, k);
    }

    method Arrived(conn: Conn, message: Message, k: Kernel)
      requires Valid() && running
      modifies this
      ensures View() == Record(cfg, old(View()), conn, message, k)
    {
      var batch := cfg.Batch();
      if |messages| > 0 && |messages| % batch == 0 {
        ModStep(|messages|, batch);
        var exited := PollPriorBatch(k);
        if !exited { Raise(PriorBatchLive); return; }
      }
      if message.pid !in k.handles { Raise(NoSuchProcess); return; }
      pidfds := pidfds + [k.handles[message.pid]];
      messages := messages + [message];
      held := held + [conn];
      SettleArrival(conn, k);
    }

    method SettleArrival(conn: Conn, k: Kernel)
      requires 0 < |messages| == |held| && running
      modifies this
      ensures View() == Settle(cfg, old(View()), conn, k)
    {
      var batch := cfg.Batch();
      if |messages| > cfg.count { Raise(TooManyArrivals); return; }
      if |messages| % batch == 0 && cfg.release {
        ModStep(|messages|, batch);
        SendGo(|held| - batch, k);
        if !running { return; }
      }
      if |messages| == cfg.count && cfg.interrupt {
        SendInterrupt(k);
        if !running { return; }
      }
      pending := pending[conn := []];
    }
  }
}
