/**
 Exactly when the bytes of one read make the server record an arrival, and what
 the server is afterwards.
 */
module Admission {
  import opened Lists
  import opened Bytes
  import opened Barrier

  // ----- Settling a stored arrival -----

  lemma SettleIff(cfg: Config, s: Server, conn: Conn, k: Kernel)
    requires 0 < |s.messages| == |s.held| && s.running && s.errors == []
    requires cfg.release && cfg.Batch() > 0 ==> s.released == Upto(BatchStart(|s.messages| - 1, cfg.Batch()))
    ensures var n, b := |s.messages|, cfg.Batch();
      Settle(cfg, s, conn, k).errors == [] <==>
        && n <= cfg.count
        && (cfg.release && n % b == 0 ==>
              forall i :: 0 <= i < n && n - b <= i ==> s.held[i] in s.pending && s.held[i] !in k.unwritable)
        && (cfg.interrupt && n == cfg.count ==> RootChecked(s, k))
  {
    var n, b := |s.messages|, cfg.Batch();
    if n <= cfg.count && n % b == 0 && cfg.release {
      ModStep(n - 1, b);
      ModStep(n, b);
      ReleaseEffect(s, n - b, k);
    }
  }

  /** All arrivals name one root, and the kernel reports it as a child of the CLI. */
  ghost predicate RootChecked(s: Server, k: Kernel)
    requires |s.messages| > 0
  {
    var root := s.messages[|s.messages| - 1].nativePid;
    && (forall i :: 0 <= i < |s.messages| ==> s.messages[i].nativePid == root)
    && root in k.parents && s.cliPid == Some(k.parents[root])
  }

  /** The server once an arrival has been settled without an error. */
  lemma SettledState(cfg: Config, s: Server, conn: Conn, k: Kernel)
    requires 0 < |s.messages| == |s.held| && s.running && s.errors == []
    requires cfg.release && cfg.Batch() > 0 ==> s.released == Upto(BatchStart(|s.messages| - 1, cfg.Batch()))
    requires Settle(cfg, s, conn, k).errors == []
    ensures var n, b := |s.messages|, cfg.Batch(); var s' := Settle(cfg, s, conn, k);
      && n <= cfg.count
      && s' == s.(pending := s.pending[conn := []], released := s'.released, signalled := s'.signalled)
      && s'.released == (if cfg.release && n % b == 0 then Upto(n) else s.released)
      && s'.signalled ==
           s.signalled + if cfg.interrupt && n == cfg.count then [s.messages[n - 1].nativePid] else []
  {
    var n, b := |s.messages|, cfg.Batch();
    if n <= cfg.count && n % b == 0 && cfg.release {
      ModStep(n - 1, b);
      ModStep(n, b);
      ReleaseEffect(s, n - b, k);
    }
  }

  // ----- From bytes to an arrival -----

  /** The buffer is one line and its newline, nothing more. */
  lemma OneLine(buffer: seq<Byte>)
    ensures FirstNewline(buffer) < |buffer| && buffer[FirstNewline(buffer) + 1..] == [] <==>
            buffer != [] && buffer[|buffer| - 1] == NEWLINE && NEWLINE !in buffer[..|buffer| - 1]
    ensures buffer != [] && buffer[|buffer| - 1] == NEWLINE && NEWLINE !in buffer[..|buffer| - 1] ==>
            FirstNewline(buffer) == |buffer| - 1
    ensures FirstNewline(buffer) == |buffer| <==> NEWLINE !in buffer
  {
    if buffer != [] && buffer[|buffer| - 1] == NEWLINE && NEWLINE !in buffer[..|buffer| - 1] {
      FirstNewlineAt(buffer, |buffer| - 1);
    }
    var i := FirstNewline(buffer);
    assert i == |buffer| ==> buffer[..i] == buffer;
    assert i < |buffer| ==> buffer[i] in buffer;
  }

  /** An arrival is stored in the three lists exactly when the buffer is then one line of at most
      4096 bytes with its newline, it decodes to a message with a positive PID, the processes of a
      batch just completed have all exited, and the PID has a handle. */
  lemma StoredIff(cfg: Config, s: Server, conn: Conn, data: seq<Byte>, k: Kernel, m: Message)
    requires Invariant(cfg, s) && s.running && conn in s.pending
    ensures var s' := OnBody(cfg, s, conn, data, k); var buffer := s.pending[conn] + data;
      var n, b := |s.messages|, if cfg.batch == 0 then cfg.count else cfg.batch;
      s'.messages == s.messages + [m] <==>
        && data != [] && |buffer| <= 4096
        && buffer[|buffer| - 1] == 10 && 10 !in buffer[..|buffer| - 1]
        && cfg.decode(buffer[..|buffer| - 1]) == Arrival(m) && m.pid > 0
        && (n > 0 && n % b == 0 ==> forall i :: 0 <= i < n && n - b <= i ==> s.pidfds[i] in k.exited)
        && m.pid in k.handles
    ensures var s' := OnBody(cfg, s, conn, data, k);
      s'.messages == s.messages + [m] ==>
        s'.held == s.held + [conn] && m.pid in k.handles && s'.pidfds == s.pidfds + [k.handles[m.pid]]
  {
    var buffer := s.pending[conn] + data;
    OneLine(buffer);
    assert |s.messages + [m]| > |s.messages| && (s.messages + [m])[|s.messages|] == m;
    if data != [] && |buffer| <= LIMIT && FirstNewline(buffer) == |buffer| - 1 {
      match cfg.decode(buffer[..|buffer| - 1])
      case Arrival(m') =>
        assert (s.messages + [m'])[|s.messages|] == m';
        RecordStores(cfg, Grown(s, conn, data), conn, m', k);
      case _ =>
    }
  }

  lemma RecordStores(cfg: Config, s: Server, conn: Conn, m: Message, k: Kernel)
    requires Invariant(cfg, s) && s.running
    ensures var s' := Record(cfg, s, conn, m, k);
      var n, b := |s.messages|, if cfg.batch == 0 then cfg.count else cfg.batch;
      if (n > 0 && n % b == 0 ==> forall i :: 0 <= i < n && n - b <= i ==> s.pidfds[i] in k.exited)
         && m.pid in k.handles
      then s'.messages == s.messages + [m] && s'.held == s.held + [conn] && s'.pidfds == s.pidfds + [k.handles[m.pid]]
      else s'.messages == s.messages && |s'.errors| == 1
  {
    var n := |s.messages|;
    if n > 0 { ModStep(n, cfg.Batch()); }
    if m.pid in k.handles { SettleEffect(cfg, Stow(s, conn, m, k.handles[m.pid]), conn, k); }
  }

  lemma RecordSettles(cfg: Config, s: Server, conn: Conn, m: Message, k: Kernel)
    requires Invariant(cfg, s) && s.running && Record(cfg, s, conn, m, k).messages == s.messages + [m]
    ensures m.pid in k.handles
    ensures var stored := Stow(s, conn, m, k.handles[m.pid]);
      && Record(cfg, s, conn, m, k) == Settle(cfg, stored, conn, k)
      && (cfg.release && cfg.Batch() > 0 ==> stored.released == Upto(BatchStart(|stored.messages| - 1, cfg.Batch())))
  {
    assert |s.messages + [m]| > |s.messages|;
  }

  /** A stored arrival leaves the server without an error exactly when it is not one too many, every
      connection of a batch it completes can be sent `go`, and, when it is the last one expected and
      the run is to be interrupted, all arrivals name one root that is a child of the CLI. */
  lemma ErrorFreeIff(cfg: Config, s: Server, conn: Conn, data: seq<Byte>, k: Kernel, m: Message)
    requires Invariant(cfg, s) && s.running && conn in s.pending
    requires OnBody(cfg, s, conn, data, k).messages == s.messages + [m]
    ensures var n, b := |s.messages|, if cfg.batch == 0 then cfg.count else cfg.batch;
      OnBody(cfg, s, conn, data, k).errors == [] <==>
        && n < cfg.count
        && (cfg.release && (n + 1) % b == 0 ==>
              && conn !in k.unwritable
              && forall i :: 0 <= i < n && n + 1 - b <= i ==> s.held[i] in s.pending && s.held[i] !in k.unwritable)
        && (cfg.interrupt && n + 1 == cfg.count ==>
              && (forall i :: 0 <= i < n ==> s.messages[i].nativePid == m.nativePid)
              && m.nativePid in k.parents && s.cliPid == Some(k.parents[m.nativePid]))
  {
    var grown := ArrivesAsRecord(cfg, s, conn, data, k, m);
    RecordSettles(cfg, grown, conn, m, k);
    NewArrivalSettles(cfg, grown, conn, m, k.handles[m.pid], k);
  }

  lemma ArrivesAsRecord(cfg: Config, s: Server, conn: Conn, data: seq<Byte>, k: Kernel, m: Message)
      returns (grown: Server)
    requires Invariant(cfg, s) && s.running && conn in s.pending
    requires OnBody(cfg, s, conn, data, k).messages == s.messages + [m]
    ensures grown == s.(pending := s.pending[conn := s.pending[conn] + data])
    ensures Invariant(cfg, grown) && OnBody(cfg, s, conn, data, k) == Record(cfg, grown, conn, m, k)
  {
    grown := Grown(s, conn, data);
    StoredIff(cfg, s, conn, data, k, m);
    OneLine(s.pending[conn] + data);
  }

  /** Settling the arrival just stored, in terms of the server before it. */
  lemma NewArrivalSettles(cfg: Config, s: Server, conn: Conn, m: Message, handle: ProcId, k: Kernel)
    requires |s.messages| == |s.held| && s.running && s.errors == [] && conn in s.pending
    requires cfg.release && cfg.Batch() > 0 ==> s.released == Upto(BatchStart(|s.messages|, cfg.Batch()))
    ensures var n, b := |s.messages|, cfg.Batch();
      Settle(cfg, Stow(s, conn, m, handle), conn, k).errors == [] <==>
        && n < cfg.count
        && (cfg.release && (n + 1) % b == 0 ==>
              && conn !in k.unwritable
              && forall i :: 0 <= i < n && n + 1 - b <= i ==> s.held[i] in s.pending && s.held[i] !in k.unwritable)
        && (cfg.interrupt && n + 1 == cfg.count ==>
              && (forall i :: 0 <= i < n ==> s.messages[i].nativePid == m.nativePid)
              && m.nativePid in k.parents && s.cliPid == Some(k.parents[m.nativePid]))
  {
    var n, stored := |s.messages|, Stow(s, conn, m, handle);
    SettleIff(cfg, stored, conn, k);
    assert stored.held[n] == conn && stored.messages[n] == m;
    assert forall i :: 0 <= i < n ==> stored.held[i] == s.held[i] && stored.messages[i] == s.messages[i];
    RootOf(s, stored, m, k);
  }

  lemma RootOf(s: Server, stored: Server, m: Message, k: Kernel)
    requires stored.messages == s.messages + [m] && stored.cliPid == s.cliPid
    ensures RootChecked(stored, k) <==>
      && (forall i :: 0 <= i < |s.messages| ==> s.messages[i].nativePid == m.nativePid)
      && m.nativePid in k.parents && s.cliPid == Some(k.parents[m.nativePid])
  {
    assert stored.messages[|s.messages|] == m;
    assert forall i :: 0 <= i < |s.messages| ==> stored.messages[i] == s.messages[i];
  }

  /** An arrival is recorded, and the server goes on, exactly under these conditions. */
  lemma RecordedIff(cfg: Config, s: Server, conn: Conn, data: seq<Byte>, k: Kernel, m: Message)
    requires Invariant(cfg, s) && s.running && conn in s.pending
    ensures var s' := OnBody(cfg, s, conn, data, k); var buffer := s.pending[conn] + data;
      var n, b := |s.messages|, if cfg.batch == 0 then cfg.count else cfg.batch;
      s'.errors == [] && s'.messages == s.messages + [m] <==>
        && data != [] && |buffer| <= 4096
        && buffer[|buffer| - 1] == 10 && 10 !in buffer[..|buffer| - 1]
        && cfg.decode(buffer[..|buffer| - 1]) == Arrival(m) && m.pid > 0
        && (n > 0 && n % b == 0 ==> forall i :: 0 <= i < n && n - b <= i ==> s.pidfds[i] in k.exited)
        && m.pid in k.handles
        && n < cfg.count
        && (cfg.release && (n + 1) % b == 0 ==>
              && conn !in k.unwritable
              && forall i :: 0 <= i < n && n + 1 - b <= i ==> s.held[i] in s.pending && s.held[i] !in k.unwritable)
        && (cfg.interrupt && n + 1 == cfg.count ==>
              && (forall i :: 0 <= i < n ==> s.messages[i].nativePid == m.nativePid)
              && m.nativePid in k.parents && s.cliPid == Some(k.parents[m.nativePid]))
  {
    StoredIff(cfg, s, conn, data, k, m);
    if OnBody(cfg, s, conn, data, k).messages == s.messages + [m] { ErrorFreeIff(cfg, s, conn, data, k, m); }
  }

  /** Recording changes this and nothing else. */
  lemma RecordedState(cfg: Config, s: Server, conn: Conn, data: seq<Byte>, k: Kernel, m: Message)
    requires Invariant(cfg, s) && s.running && conn in s.pending
    requires OnBody(cfg, s, conn, data, k).messages == s.messages + [m] && OnBody(cfg, s, conn, data, k).errors == []
    ensures var n, b := |s.messages| + 1, if cfg.batch == 0 then cfg.count else cfg.batch;
      && m.pid in k.handles && 0 < n <= cfg.count
      && OnBody(cfg, s, conn, data, k) == Server(
           s.messages + [m], s.pidfds + [k.handles[m.pid]], s.held + [conn], s.pending[conn := []], s.cliPid, [], true,
           if cfg.release && n % b == 0 then Upto(n) else s.released,
           if cfg.interrupt && n == cfg.count then [m.nativePid] else [])
  {
    var grown := ArrivesAsRecord(cfg, s, conn, data, k, m);
    RecordSettles(cfg, grown, conn, m, k);
    SettledState(cfg, Stow(grown, conn, m, k.handles[m.pid]), conn, k);
  }

  /** End of file forgets the connection, and a partial line of at most 4096 bytes is kept. */
  lemma NoLineYet(cfg: Config, s: Server, conn: Conn, data: seq<Byte>, k: Kernel)
    requires Invariant(cfg, s) && s.running && conn in s.pending
    ensures var s' := OnBody(cfg, s, conn, data, k); var buffer := s.pending[conn] + data;
      && (data == [] ==> s' == s.(pending := s.pending - {conn}))
      && (data != [] && |buffer| <= 4096 && 10 !in buffer ==> s' == s.(pending := s.pending[conn := buffer]))
  {
    OneLine(s.pending[conn] + data);
  }

  /** A complete line is recorded or refused. */
  lemma OnLine(cfg: Config, s: Server, conn: Conn, data: seq<Byte>, k: Kernel)
    requires Invariant(cfg, s) && s.running && conn in s.pending && data != []
    requires var buffer := s.pending[conn] + data; |buffer| <= LIMIT && NEWLINE in buffer
    ensures var s' := OnBody(cfg, s, conn, data, k);
      |s'.errors| <= 1 && (s'.running <==> s'.errors == []) && (s'.errors == [] ==> s'.messages != s.messages)
  {
    var buffer := s.pending[conn] + data;
    OneLine(buffer);
    var i := FirstNewline(buffer);
    if buffer[i + 1..] == [] && cfg.decode(buffer[..i]).Arrival? {
      RecordOutcome(cfg, Grown(s, conn, data), conn, cfg.decode(buffer[..i]).message, k);
    }
  }

  lemma RecordOutcome(cfg: Config, s: Server, conn: Conn, m: Message, k: Kernel)
    requires Invariant(cfg, s) && s.running
    ensures var s' := Record(cfg, s, conn, m, k);
      |s'.errors| <= 1 && (s'.running <==> s'.errors == []) && (s'.errors == [] ==> s'.messages != s.messages)
  {
    RecordStores(cfg, s, conn, m, k);
    RecordErrors(cfg, s, conn, m, k);
    assert |s.messages + [m]| > |s.messages|;
  }

  /** In these two cases, and by recording an arrival, the server goes on; anything else is one
      error, which stops it. */
  lemma GoesOnIff(cfg: Config, s: Server, conn: Conn, data: seq<Byte>, k: Kernel)
    requires Invariant(cfg, s) && s.running && conn in s.pending
    ensures var s' := OnBody(cfg, s, conn, data, k); var buffer := s.pending[conn] + data;
      && (s'.errors == [] && s'.messages == s.messages <==> data == [] || (|buffer| <= 4096 && 10 !in buffer))
      && |s'.errors| <= 1 && (s'.running <==> s'.errors == [])
  {
    var buffer := s.pending[conn] + data;
    if data != [] && |buffer| <= LIMIT && NEWLINE in buffer {
      OnLine(cfg, s, conn, data, k);
    } else {
      NoLineYet(cfg, s, conn, data, k);
    }
  }

  lemma RecordErrors(cfg: Config, s: Server, conn: Conn, m: Message, k: Kernel)
    requires Invariant(cfg, s) && s.running
    ensures var s' := Record(cfg, s, conn, m, k); |s'.errors| <= 1 && (s'.running <==> s'.errors == [])
  {
    if m.pid in k.handles { SettleErrors(cfg, Stow(s, conn, m, k.handles[m.pid]), conn, k); }
  }

  lemma SettleErrors(cfg: Config, s: Server, conn: Conn, k: Kernel)
    requires 0 < |s.messages| == |s.held| && s.running && s.errors == []
    requires cfg.release && cfg.Batch() > 0 ==> s.released == Upto(BatchStart(|s.messages| - 1, cfg.Batch()))
    ensures var s' := Settle(cfg, s, conn, k); |s'.errors| <= 1 && (s'.running <==> s'.errors == [])
  {
    var n, b := |s.messages|, cfg.Batch();
    if n <= cfg.count && n % b == 0 && cfg.release {
      ModStep(n - 1, b);
      ModStep(n, b);
      ReleaseEffect(s, n - b, k);
    }
  }
}
