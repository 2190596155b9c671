/**
 The staged codec build: an invocation claims its build root through an
 ownership marker, runs the commands of the selected stages in order, and maps
 the outcome to a status and an exit code. Histories of invocations on one root,
 with differing profiles, are at the end.
 */
module CodecBuild {
  import opened Lists

  datatype Identity = Identity(profileSHA256: string, cefVersion: string)
  /** What the marker file holds: an identity, or anything else. */
  datatype Marker = Owner(id: Identity) | Foreign
  /** The build root as far as ownership is concerned. */
  datatype Root = Root(marker: Option<Marker>, empty: bool)

  datatype Stage = Plan | Checkout | Compile | Runtime | Verify | All
  datatype Command = Automate | CreateProjects | Autoninja | MakeDistrib | Configure | BuildBrowser | VerifyRuntime
  /** Conditions tested between commands; a false one raises ValueError. */
  datatype Gate =
    | BootstrapPinned | SourcesPinned(afterCheckout: bool) | ArgsRetained
    | OneDistribution | SdkVersion | LibyuvPinned | SdkEntryBuilt | ProofPasses
  datatype Step = Test(gate: Gate) | Run(cmd: Command)
  /** Opening the new log, or starting the command, may fail: then there is no exit code. */
  datatype Outcome = NotStarted | Exit(code: int)
  datatype World = World(gates: Gate -> bool, outcomes: Command -> Outcome)

  datatype Status = PlanOnly | Failed | BlockedResources | StageComplete | PassRuntime
  datatype Recorded = Recorded(cmd: Command, exitCode: Option<int>)

  /** How creating the marker ends; a failed write may leave something behind. */
  datatype MarkerWrite = NoDirectory | Written | Broken(left: Option<Marker>)
  datatype Place = Elsewhere | InsideRoot | AtMarker
  /** Where `--report` points, whether its new file can be opened and then written, and whether
      directories made on the way are left. Receipts are created exclusively, never replaced. */
  datatype Report = NoReport | ReportAt(place: Place, opens: bool, completes: bool, leaves: bool)

  datatype Invocation = Invocation(stage: Stage, identity: Identity, sufficient: bool, write: MarkerWrite,
                                   world: World, report: Report)
  datatype Result = Result(root: Root, status: Status, commands: seq<Recorded>, exitCode: int)

  // ----- Scripts -----

  function CheckoutScript(): seq<Step>
  {
    [Test(BootstrapPinned), Run(Automate), Test(SourcesPinned(true))]
  }

  function CompileScript(): seq<Step>
  {
    [Test(SourcesPinned(false)), Run(CreateProjects), Test(ArgsRetained), Run(Autoninja), Run(MakeDistrib)]
  }

  function RuntimeScript(): seq<Step>
  {
    [Test(OneDistribution), Test(SdkVersion), Test(LibyuvPinned), Test(SdkEntryBuilt),
     Run(Configure), Run(BuildBrowser)]
  }

  function VerifyScript(): seq<Step>
  {
    [Run(VerifyRuntime), Test(ProofPasses)]
  }

  function Script(stage: Stage): seq<Step>
  {
    match stage
    case Plan => []
    case Checkout => CheckoutScript()
    case Compile => CompileScript()
    case Runtime => RuntimeScript()
    case Verify => VerifyScript()
    case All => CheckoutScript() + (CompileScript() + (RuntimeScript() + VerifyScript()))
  }

  function Commands(script: seq<Step>): seq<Command>
  {
    if script == [] then []
    else (if script[0].Run? then [script[0].cmd] else []) + Commands(script[1..])
  }

  function Record(cmd: Command, o: Outcome): Recorded
  {
    Recorded(cmd, match o case NotStarted => None case Exit(code) => Some(code))
  }

  /** Runs a script until something raises. */
  function RunScript(script: seq<Step>, w: World, before: seq<Recorded>): (bool, seq<Recorded>)
  {
    if script == [] then (true, before)
    else match script[0]
      case Test(g) => if w.gates(g) then RunScript(script[1..], w, before) else (false, before)
      case Run(c) =>
        var after := before + [Record(c, w.outcomes(c))];
        if w.outcomes(c) == Exit(0) then RunScript(script[1..], w, after) else (false, after)
  }

  /** Step `i` of a script. */
  lemma Unfold(script: seq<Step>, i: nat, w: World, before: seq<Recorded>)
    requires i < |script|
    ensures script[i].Test? ==>
      RunScript(script[i..], w, before) ==
        if w.gates(script[i].gate) then RunScript(script[i + 1..], w, before) else (false, before)
    ensures script[i].Run? ==>
      var o := w.outcomes(script[i].cmd);
      var after := before + [Record(script[i].cmd, o)];
      RunScript(script[i..], w, before) == if o == Exit(0) then RunScript(script[i + 1..], w, after) else (false, after)
  {
    assert script[i..][1..] == script[i + 1..];
  }

  predicate AllPass(script: seq<Step>, w: World)
  {
    forall i :: 0 <= i < |script| ==>
      match script[i] case Test(g) => w.gates(g) case Run(c) => w.outcomes(c) == Exit(0)
  }

  /** Recorded commands are a prefix of `planned`, and only the last may not have exited 0. */
  ghost predicate Prefix(recorded: seq<Recorded>, planned: seq<Command>)
  {
    && |recorded| <= |planned|
    && (forall i :: 0 <= i < |recorded| ==> recorded[i].cmd == planned[i])
    && (forall i :: 0 <= i < |recorded| - 1 ==> recorded[i].exitCode == Some(0))
  }

  lemma {:induction false} RunScriptAppend(a: seq<Step>, b: seq<Step>, w: World, before: seq<Recorded>)
    ensures RunScript(a + b, w, before) == var r := RunScript(a, w, before); if r.0 then RunScript(b, w, r.1) else r
  {
    if a == [] {
      assert a + b == b;
    } else {
      assert (a + b)[1..] == a[1..] + b;
      match a[0]
      case Test(_) => RunScriptAppend(a[1..], b, w, before);
      case Run(c) => RunScriptAppend(a[1..], b, w, before + [Record(c, w.outcomes(c))]);
    }
  }

  lemma {:induction false} ScriptSucceeds(script: seq<Step>, w: World, before: seq<Recorded>)
    ensures RunScript(script, w, before).0 <==> AllPass(script, w)
  {
    if script != [] {
      var rest := script[1..];
      assert forall i :: 0 <= i < |rest| ==> script[i + 1] == rest[i];
      assert AllPass(script, w) ==> AllPass(rest, w);
      match script[0]
      case Test(_) => ScriptSucceeds(rest, w, before);
      case Run(c) => ScriptSucceeds(rest, w, before + [Record(c, w.outcomes(c))]);
    }
  }

  ghost predicate AllZero(rs: seq<Recorded>)
  {
    forall i :: 0 <= i < |rs| ==> rs[i].exitCode == Some(0)
  }

  /** What a script adds to the record: a prefix of its commands, complete on success. */
  lemma {:induction false} ScriptRecords(script: seq<Step>, w: World, before: seq<Recorded>)
      returns (added: seq<Recorded>)
    ensures RunScript(script, w, before).1 == before + added
    ensures Prefix(added, Commands(script))
    ensures RunScript(script, w, before).0 ==> |added| == |Commands(script)| && AllZero(added)
  {
    if script == [] {
      added := [];
    } else {
      match script[0]
      case Test(g) =>
        if w.gates(g) { added := ScriptRecords(script[1..], w, before); } else { added := []; }
      case Run(c) =>
        var one := Record(c, w.outcomes(c));
        if w.outcomes(c) == Exit(0) {
          var more := ScriptRecords(script[1..], w, before + [one]);
          added := [one] + more;
          assert before + [one] + more == before + added;
          PrefixStep(one, more, Commands(script[1..]));
        } else {
          added := [one];
        }
    }
  }

  lemma PrefixStep(one: Recorded, more: seq<Recorded>, planned: seq<Command>)
    requires Prefix(more, planned) && one.exitCode == Some(0)
    ensures Prefix([one] + more, [one.cmd] + planned)
    ensures AllZero(more) ==> AllZero([one] + more)
  {
  }

  /** A script succeeds exactly when all its tests hold and all its commands exit 0; what it
      records is a prefix of its commands, complete on success. */
  lemma ScriptMeaning(script: seq<Step>, w: World)
    ensures var r := RunScript(script, w, []);
      && (r.0 <==> AllPass(script, w))
      && Prefix(r.1, Commands(script))
      && (r.0 ==> |r.1| == |Commands(script)| && AllZero(r.1))
  {
    ScriptSucceeds(script, w, []);
    var added := ScriptRecords(script, w, []);
    assert [] + added == added;
  }

  // ----- One invocation -----

  predicate NeedsResources(stage: Stage)
  {
    stage == Checkout || stage == Compile || stage == All
  }

  /** The marker logic: may the invocation go on, and what is the root afterwards. */
  function Claim(root: Root, inv: Invocation): (bool, Root)
  {
    if root.marker.Some? then (root.marker.value == Owner(inv.identity), root)
    else if !root.empty then (false, root)
    else match inv.write
      case NoDirectory => (false, root)
      case Written => (true, Root(Some(Owner(inv.identity)), false))
      case Broken(left) => (false, Root(left, left.None?))
  }

  /** The status once every selected stage has run. */
  function Finished(stage: Stage): Status
  {
    if stage == Verify || stage == All then PassRuntime else StageComplete
  }

  /** Root, status and recorded commands when `execute` is over. */
  function Execute(root: Root, inv: Invocation): (Root, Status, seq<Recorded>)
  {
    if inv.stage.Plan? then (root, PlanOnly, [])
    else if NeedsResources(inv.stage) && !inv.sufficient then (root, BlockedResources, [])
    else
      var (mine, claimed) := Claim(root, inv);
      if !mine then (claimed, Failed, [])
      else
        var (ok, commands) := RunScript(Script(inv.stage), inv.world, []);
        (claimed, if ok then Finished(inv.stage) else Failed, commands)
  }

  /** Writing the receipt afterwards, and whether that succeeds; a file already there makes the
      exclusive open raise, and nothing handles that. */
  function Publish(root: Root, report: Report): (bool, Root)
  {
    match report
    case NoReport => (true, root)
    case ReportAt(place, opens, completes, leaves) =>
      match place
      case Elsewhere => (opens && completes, root)
      case InsideRoot => (opens && completes, root.(empty := root.empty && !opens && !leaves))
      case AtMarker =>
        if root.marker.Some? || !opens then (false, root) else (completes, Root(Some(Foreign), false))
  }

  function ExitCode(s: Status): int
  {
    if s == PlanOnly || s == StageComplete || s == PassRuntime then 0 else 1
  }

  function Invoke(root: Root, inv: Invocation): Result
  {
    var (after, status, commands) := Execute(root, inv);
    var (published, final) := Publish(after, inv.report);
    Result(final, status, commands, if published then ExitCode(status) else 1)
  }

  /** Recorded commands are a prefix of the stage's fixed sequence, at most the last one failed,
      and PASS is reported exactly when the invocation owns the root, has the resources it needs
      and every test and command of its stages, the acceptance proof included, succeeded. */
  lemma InvocationMeaning(root: Root, inv: Invocation)
    ensures var r := Invoke(root, inv);
      && Prefix(r.commands, Commands(Script(inv.stage)))
      && (r.status == PassRuntime <==>
            && (inv.stage == Verify || inv.stage == All)
            && (inv.stage == All ==> inv.sufficient)
            && Claim(root, inv).0 && AllPass(Script(inv.stage), inv.world))
      && (r.status == PassRuntime ==>
            && inv.world.gates(ProofPasses) && inv.world.outcomes(VerifyRuntime) == Exit(0)
            && |r.commands| == |Commands(Script(inv.stage))|)
      && (ExitCode(r.status) == 0 ==> AllZero(r.commands))
      && (r.exitCode == 0 <==> ExitCode(r.status) == 0 && Publish(Execute(root, inv).0, inv.report).0)
      && (inv.report.ReportAt? && inv.report.place == AtMarker && Execute(root, inv).0.marker.Some? ==>
            r.root == Execute(root, inv).0 && r.exitCode == 1)
  {
    ScriptMeaning(Script(inv.stage), inv.world);
    Judged(root, inv, Script(inv.stage), Commands(Script(inv.stage)));
    if (inv.stage == Verify || inv.stage == All) && AllPass(Script(inv.stage), inv.world) {
      ProofIsLast(inv.stage, inv.world);
    }
  }

  lemma ProofIsLast(stage: Stage, w: World)
    requires (stage == Verify || stage == All) && AllPass(Script(stage), w)
    ensures w.gates(ProofPasses) && w.outcomes(VerifyRuntime) == Exit(0)
  {
    var s := Script(stage);
    assert s[|s| - 1] == Test(ProofPasses) && s[|s| - 2] == Run(VerifyRuntime);
  }

  /** The status from the outcome of a script. */
  lemma Judged(root: Root, inv: Invocation, script: seq<Step>, planned: seq<Command>)
    requires script == Script(inv.stage)
    requires var r := RunScript(script, inv.world, []);
             Prefix(r.1, planned) && (r.0 ==> |r.1| == |planned| && AllZero(r.1))
    ensures var r := Invoke(root, inv);
      && Prefix(r.commands, planned)
      && (r.status == PassRuntime <==>
            && (inv.stage == Verify || inv.stage == All)
            && (inv.stage == All ==> inv.sufficient)
            && Claim(root, inv).0 && RunScript(script, inv.world, []).0)
      && (r.status == PassRuntime ==> |r.commands| == |planned|)
      && (ExitCode(r.status) == 0 ==> AllZero(r.commands))
      && (r.exitCode == 0 <==> ExitCode(r.status) == 0 && Publish(Execute(root, inv).0, inv.report).0)
      && (inv.report.ReportAt? && inv.report.place == AtMarker && Execute(root, inv).0.marker.Some? ==>
            r.root == Execute(root, inv).0 && r.exitCode == 1)
  {
  }

  /** The commands of each stage. */
  lemma StageCommands()
    ensures Commands(Script(Plan)) == [] && Commands(Script(Checkout)) == [Automate]
    ensures Commands(Script(Compile)) == [CreateProjects, Autoninja, MakeDistrib]
    ensures Commands(Script(Runtime)) == [Configure, BuildBrowser] && Commands(Script(Verify)) == [VerifyRuntime]
  {
    StageCommandsOne();
  }

  /** All stages run the commands of each, in this order. */
  lemma AllCommands(script: seq<Step>)
    requires script == Script(All)
    ensures Commands(script) ==
      [Automate, CreateProjects, Autoninja, MakeDistrib, Configure, BuildBrowser, VerifyRuntime]
  {
    StageCommandsOne();
    Joined(CheckoutScript(), CompileScript(), RuntimeScript(), VerifyScript());
  }

  lemma Joined(c: seq<Step>, p: seq<Step>, r: seq<Step>, v: seq<Step>)
    requires Commands(c) == [Automate] && Commands(p) == [CreateProjects, Autoninja, MakeDistrib]
    requires Commands(r) == [Configure, BuildBrowser] && Commands(v) == [VerifyRuntime]
    ensures Commands(c + (p + (r + v))) ==
      [Automate, CreateProjects, Autoninja, MakeDistrib, Configure, BuildBrowser, VerifyRuntime]
  {
    AppendThree(c, p, r, v);
  }

  lemma AppendThree(a: seq<Step>, b: seq<Step>, c: seq<Step>, d: seq<Step>)
    ensures Commands(a + (b + (c + d))) == Commands(a) + (Commands(b) + (Commands(c) + Commands(d)))
  {
    CommandsAppend(c, d);
    CommandsAppend(b, c + d);
    CommandsAppend(a, b + (c + d));
  }

  lemma StageCommandsOne()
    ensures Commands(CheckoutScript()) == [Automate]
    ensures Commands(CompileScript()) == [CreateProjects, Autoninja, MakeDistrib]
    ensures Commands(RuntimeScript()) == [Configure, BuildBrowser]
    ensures Commands(VerifyScript()) == [VerifyRuntime]
  {
    var c := CheckoutScript();
    assert c[1..][1..][1..] == [];
    var p := CompileScript();
    assert p[1..][1..][1..][1..][1..] == [];
    var r := RuntimeScript();
    assert r[1..][1..][1..][1..][1..][1..] == [];
    var v := VerifyScript();
    assert v[1..][1..] == [];
    CommandsUnfold(c, 0);
    CommandsUnfold(p, 0);
    CommandsUnfold(r, 0);
    CommandsUnfold(v, 0);
  }

  lemma {:induction false} CommandsUnfold(script: seq<Step>, i: nat)
    requires i <= |script|
    ensures Commands(script[i..]) == CommandsFrom(script, i)
    ensures i == 0 ==> Commands(script) == CommandsFrom(script, 0)
    decreases |script| - i
  {
    assert script[0..] == script;
    if i < |script| {
      assert script[i..][1..] == script[i + 1..];
      CommandsUnfold(script, i + 1);
    }
  }

  function CommandsFrom(script: seq<Step>, i: nat): seq<Command>
    requires i <= |script|
    decreases |script| - i
  {
    if i == |script| then []
    else (if script[i].Run? then [script[i].cmd] else []) + CommandsFrom(script, i + 1)
  }

  lemma {:induction false} CommandsAppend(a: seq<Step>, b: seq<Step>)
    ensures Commands(a + b) == Commands(a) + Commands(b)
  {
    if a == [] {
      assert a + b == b;
    } else {
      var rest := a[1..];
      assert (a + b)[1..] == rest + b && (a + b)[0] == a[0];
      CommandsAppend(rest, b);
      var first := if a[0].Run? then [a[0].cmd] else [];
      assert first + (Commands(rest) + Commands(b)) == first + Commands(rest) + Commands(b);
    }
  }

  /** What each stage tests and runs, all of which must pass. */
  lemma StagePasses(w: World)
    ensures AllPass(Script(Checkout), w) <==>
      w.gates(BootstrapPinned) && w.outcomes(Automate) == Exit(0) && w.gates(SourcesPinned(true))
    ensures AllPass(Script(Compile), w) <==>
      && w.gates(SourcesPinned(false)) && w.outcomes(CreateProjects) == Exit(0) && w.gates(ArgsRetained)
      && w.outcomes(Autoninja) == Exit(0) && w.outcomes(MakeDistrib) == Exit(0)
    ensures AllPass(Script(Runtime), w) <==>
      && w.gates(OneDistribution) && w.gates(SdkVersion) && w.gates(LibyuvPinned) && w.gates(SdkEntryBuilt)
      && w.outcomes(Configure) == Exit(0) && w.outcomes(BuildBrowser) == Exit(0)
    ensures AllPass(Script(Verify), w) <==> w.outcomes(VerifyRuntime) == Exit(0) && w.gates(ProofPasses)
    ensures AllPass(Script(All), w) <==>
      && AllPass(Script(Checkout), w) && AllPass(Script(Compile), w)
      && AllPass(Script(Runtime), w) && AllPass(Script(Verify), w)
  {
    CheckoutPasses(w);
    CompilePasses(w);
    RuntimePasses(w);
    VerifyPasses(w);
    PassAppend(RuntimeScript(), VerifyScript(), w);
    PassAppend(CompileScript(), RuntimeScript() + VerifyScript(), w);
    PassAppend(CheckoutScript(), CompileScript() + (RuntimeScript() + VerifyScript()), w);
  }

  lemma CheckoutPasses(w: World)
    ensures AllPass(CheckoutScript(), w) <==>
      w.gates(BootstrapPinned) && w.outcomes(Automate) == Exit(0) && w.gates(SourcesPinned(true))
  {
    var s := CheckoutScript();
    assert s[0] == Test(BootstrapPinned) && s[1] == Run(Automate) && s[2] == Test(SourcesPinned(true));
  }

  lemma CompilePasses(w: World)
    ensures AllPass(CompileScript(), w) <==>
      && w.gates(SourcesPinned(false)) && w.outcomes(CreateProjects) == Exit(0) && w.gates(ArgsRetained)
      && w.outcomes(Autoninja) == Exit(0) && w.outcomes(MakeDistrib) == Exit(0)
  {
    var s := CompileScript();
    assert s[0] == Test(SourcesPinned(false)) && s[1] == Run(CreateProjects) && s[2] == Test(ArgsRetained);
    assert s[3] == Run(Autoninja) && s[4] == Run(MakeDistrib);
  }

  lemma RuntimePasses(w: World)
    ensures AllPass(RuntimeScript(), w) <==>
      && w.gates(OneDistribution) && w.gates(SdkVersion) && w.gates(LibyuvPinned) && w.gates(SdkEntryBuilt)
      && w.outcomes(Configure) == Exit(0) && w.outcomes(BuildBrowser) == Exit(0)
  {
    var s := RuntimeScript();
    assert s[0] == Test(OneDistribution) && s[1] == Test(SdkVersion) && s[2] == Test(LibyuvPinned);
    assert s[3] == Test(SdkEntryBuilt) && s[4] == Run(Configure) && s[5] == Run(BuildBrowser);
  }

  lemma VerifyPasses(w: World)
    ensures AllPass(VerifyScript(), w) <==> w.outcomes(VerifyRuntime) == Exit(0) && w.gates(ProofPasses)
  {
    var s := VerifyScript();
    assert s[0] == Run(VerifyRuntime) && s[1] == Test(ProofPasses);
  }

  lemma PassAppend(a: seq<Step>, b: seq<Step>, w: World)
    ensures AllPass(a + b, w) <==> AllPass(a, w) && AllPass(b, w)
  {
    assert forall i :: 0 <= i < |a| ==> (a + b)[i] == a[i];
    assert forall i :: 0 <= i < |b| ==> (a + b)[|a| + i] == b[i];
  }

  /** A test that fails stops the commands after it. */
  lemma GatesComeFirst(w: World)
    ensures !w.gates(BootstrapPinned) ==> RunScript(Script(Checkout), w, []).1 == []
    ensures !w.gates(SourcesPinned(false)) ==> RunScript(Script(Compile), w, []).1 == []
    ensures w.gates(SourcesPinned(false)) && w.outcomes(CreateProjects) == Exit(0) && !w.gates(ArgsRetained) ==>
      RunScript(Script(Compile), w, []).1 == [Recorded(CreateProjects, Some(0))]
    ensures !(w.gates(OneDistribution) && w.gates(SdkVersion) && w.gates(LibyuvPinned) && w.gates(SdkEntryBuilt)) ==>
      RunScript(Script(Runtime), w, []).1 == []
  {
    var c, p, r := CheckoutScript(), CompileScript(), RuntimeScript();
    assert c[0..] == c && p[0..] == p && r[0..] == r;
    Unfold(c, 0, w, []);
    Unfold(p, 0, w, []);
    Unfold(p, 1, w, []);
    Unfold(p, 2, w, [Recorded(CreateProjects, Some(0))]);
    Unfold(r, 0, w, []);
    Unfold(r, 1, w, []);
    Unfold(r, 2, w, []);
    Unfold(r, 3, w, []);
  }

  predicate Passed(step: Step, w: World)
  {
    match step case Test(g) => w.gates(g) case Run(c) => w.outcomes(c) == Exit(0)
  }

  /** Commands are recorded up to the first step that fails, that one included. */
  lemma {:induction false} RecordsUntilFailure(script: seq<Step>, w: World, before: seq<Recorded>, f: nat)
    requires f <= |script| && (forall i :: 0 <= i < f ==> Passed(script[i], w))
    requires f < |script| ==> !Passed(script[f], w)
    ensures |RunScript(script, w, before).1| ==
            |before| + |Commands(script[..if f < |script| then f + 1 else f])|
  {
    if script != [] {
      var stop := if f < |script| then f + 1 else f;
      assert script[..stop][1..] == script[1..][..stop - 1];
      if f > 0 {
        var rest := script[1..];
        assert forall i :: 0 <= i < f - 1 ==> rest[i] == script[i + 1];
        assert Passed(script[0], w);
        match script[0]
        case Test(_) => RecordsUntilFailure(rest, w, before, f - 1);
        case Run(c) => RecordsUntilFailure(rest, w, before + [Record(c, w.outcomes(c))], f - 1);
      }
    }
  }

  /** The root may be used if its marker names the invocation's identity, or if it is empty, has no
      marker, and the marker could be written. */
  lemma ClaimIff(root: Root, inv: Invocation)
    ensures Claim(root, inv).0 <==>
      || root.marker == Some(Owner(inv.identity))
      || (root.marker == None && root.empty && inv.write == Written)
    ensures root.marker.Some? || !root.empty ==> Claim(root, inv).1 == root
    ensures Claim(root, inv).0 ==> Claim(root, inv).1.marker == Some(Owner(inv.identity))
  {
  }

  /** A receipt that is asked for is written exactly when its new file opens and completes, which it
      never does at an existing marker; only a receipt at the marker's own path makes a marker, a
      foreign one. */
  lemma ReceiptIff(root: Root, report: Report)
    ensures Publish(root, report).0 <==>
      report == NoReport ||
      (report.opens && report.completes && (report.place == AtMarker ==> root.marker == None))
    ensures var after := Publish(root, report).1;
      && (after.marker != root.marker <==>
            report != NoReport && report.place == AtMarker && report.opens && root.marker == None)
      && (after.marker != root.marker ==> after.marker == Some(Foreign))
      && (after.empty ==> root.empty)
      && (root.empty && !after.empty <==>
            && root.empty && report != NoReport
            && ((report.place == InsideRoot && (report.opens || report.leaves)) ||
                (report.place == AtMarker && report.opens && root.marker == None)))
  {
  }

  /** The status of an invocation, and that a plan or a blocked one touches nothing. */
  lemma StatusIff(root: Root, inv: Invocation)
    ensures var r := Invoke(root, inv); var go := inv.sufficient || inv.stage == Runtime || inv.stage == Verify;
      var done := go && Claim(root, inv).0 && AllPass(Script(inv.stage), inv.world);
      && (r.status == PlanOnly <==> inv.stage == Plan)
      && (r.status == BlockedResources <==> inv.stage != Plan && !go)
      && (r.status == StageComplete <==> inv.stage in {Checkout, Compile, Runtime} && done)
      && (r.status == PassRuntime <==> inv.stage in {Verify, All} && done)
      && (r.status == Failed <==> inv.stage != Plan && go && !done)
      && (inv.stage == Plan || !go ==> r.commands == [] && Execute(root, inv).0 == root)
      && (r.exitCode == 0 ==> r.status in {PlanOnly, StageComplete, PassRuntime})
      && (inv.report == NoReport && r.status in {PlanOnly, StageComplete, PassRuntime} ==> r.exitCode == 0)
  {
    ScriptSucceeds(Script(inv.stage), inv.world, []);
  }

  // ----- Histories -----

  function After(root: Root, invs: seq<Invocation>): Root
  {
    if invs == [] then root else Invoke(After(root, invs[..|invs| - 1]), invs[|invs| - 1]).root
  }

  /** Once there is a marker, nothing the driver does changes it. */
  lemma {:induction false} MarkerIsForever(root: Root, invs: seq<Invocation>, i: nat)
    requires i <= |invs| && After(root, invs[..i]).marker.Some?
    ensures After(root, invs).marker == After(root, invs[..i]).marker
  {
    var n := |invs| - 1;
    if i > n {
      assert invs[..i] == invs;
    } else {
      assert invs[..n][..i] == invs[..i];
      MarkerIsForever(root, invs[..n], i);
    }
  }

  /** Commands are run only by an invocation whose identity is the one in the marker. */
  lemma CommandsOnlyByOwner(root: Root, inv: Invocation)
    requires Invoke(root, inv).commands != []
    ensures Invoke(root, inv).root.marker == Some(Owner(inv.identity))
    ensures root.marker.Some? ==> root.marker == Some(Owner(inv.identity))
  {
  }

  /** In any history, all invocations that ever ran a command on the root have one identity. */
  lemma OneIdentityPerRoot(root: Root, invs: seq<Invocation>, i: nat, j: nat)
    requires i < j < |invs|
    requires Invoke(After(root, invs[..i]), invs[i]).commands != []
    requires Invoke(After(root, invs[..j]), invs[j]).commands != []
    ensures invs[i].identity == invs[j].identity
  {
    CommandsOnlyByOwner(After(root, invs[..i]), invs[i]);
    CommandsOnlyByOwner(After(root, invs[..j]), invs[j]);
    assert invs[..i + 1][..i] == invs[..i];
    assert After(root, invs[..i + 1]).marker == Some(Owner(invs[i].identity));
    assert invs[..j][..i + 1] == invs[..i + 1];
    MarkerIsForever(root, invs[..j], i + 1);
  }

  // ----- The driver as written -----

  class Driver {
    var marker: Option<Marker>
    var empty: bool
    var status: Status
    var commands: seq<Recorded>

    ghost function OnDisk(): Root reads this { Root(marker, empty) }

    constructor (root: Root)
      ensures OnDisk() == root && status == PlanOnly && commands == []
    {
      marker, empty := root.marker, root.empty;
      status, commands := PlanOnly, [];
    }

    /** The inner `run`: the command is recorded before its log is opened. */
    method RunCommand(c: Command, w: World) returns (ok: bool)
      modifies this`commands
      ensures ok == (w.outcomes(c) == Exit(0)) && commands == old(commands) + [Record(c, w.outcomes(c))]
    {
      commands := commands + [Recorded(c, None)];
      match w.outcomes(c)
      case NotStarted => return false;
      case Exit(code) =>
        commands := commands[|commands| - 1 := Recorded(c, Some(code))];
        return code == 0;
    }

    method CheckoutStage(w: World) returns (ok: bool)
      modifies this`commands
      ensures (ok, commands) == RunScript(CheckoutScript(), w, old(commands))
    {
      ghost var script := CheckoutScript();
      assert script[0..] == script;
      Unfold(script, 0, w, commands);
      if !w.gates(BootstrapPinned) { return false; }
      Unfold(script, 1, w, commands);
      ok := RunCommand(Automate, w);
      if !ok { return; }
      Unfold(script, 2, w, commands);
      return w.gates(SourcesPinned(true));
    }

    method CompileStage(w: World) returns (ok: bool)
      modifies this`commands
      ensures (ok, commands) == RunScript(CompileScript(), w, old(commands))
    {
      ghost var script := CompileScript();
      assert script[0..] == script;
      Unfold(script, 0, w, commands);
      if !w.gates(SourcesPinned(false)) { return false; }
      Unfold(script, 1, w, commands);
      ok := RunCommand(CreateProjects, w);
      if !ok { return; }
      Unfold(script, 2, w, commands);
      if !w.gates(ArgsRetained) { return false; }
      Unfold(script, 3, w, commands);
      ok := RunCommand(Autoninja, w);
      if !ok { return; }
      Unfold(script, 4, w, commands);
      ok := RunCommand(MakeDistrib, w);
    }

    method RuntimeStage(w: World) returns (ok: bool)
      modifies this`commands
      ensures (ok, commands) == RunScript(RuntimeScript(), w, old(commands))
    {
      ghost var script := RuntimeScript();
      assert script[0..] == script;
      Unfold(script, 0, w, commands);
      if !w.gates(OneDistribution) { return false; }
      Unfold(script, 1, w, commands);
      if !w.gates(SdkVersion) { return false; }
      Unfold(script, 2, w, commands);
      if !w.gates(LibyuvPinned) { return false; }
      Unfold(script, 3, w, commands);
      if !w.gates(SdkEntryBuilt) { return false; }
      Unfold(script, 4, w, commands);
      ok := RunCommand(Configure, w);
      if !ok { return; }
      Unfold(script, 5, w, commands);
      ok := RunCommand(BuildBrowser, w);
    }

    method VerifyStage(w: World) returns (ok: bool)
      modifies this`commands
      ensures (ok, commands) == RunScript(VerifyScript(), w, old(commands))
    {
      ghost var script := VerifyScript();
      assert script[0..] == script;
      Unfold(script, 0, w, commands);
      ok := RunCommand(VerifyRuntime, w);
      if !ok { return; }
      Unfold(script, 1, w, commands);
      return w.gates(ProofPasses);
    }

    method ClaimRoot(inv: Invocation) returns (mine: bool)
      modifies this`marker, this`empty
      ensures (mine, OnDisk()) == Claim(old(OnDisk()), inv)
    {
      if marker.Some? { return marker.value == Owner(inv.identity); }
      if !empty { return false; }
      match inv.write
      case NoDirectory => return false;
      case Written =>
        marker, empty := Some(Owner(inv.identity)), false;
        return true;
      case Broken(left) =>
        marker, empty := left, left.None?;
        return false;
    }

    /** The selected stages in order. */
    method RunStages(inv: Invocation) returns (ok: bool)
      requires inv.stage != Plan
      modifies this`commands
      ensures (ok, commands) == RunScript(Script(inv.stage), inv.world, old(commands))
    {
      ghost var w := inv.world;
      if inv.stage == All {
        RunScriptAppend(CheckoutScript(), CompileScript() + (RuntimeScript() + VerifyScript()), w, commands);
      }
      ok := true;
      if inv.stage == Checkout || inv.stage == All {
        ok := CheckoutStage(inv.world);
        if !ok { return; }
      }
      if inv.stage == All { RunScriptAppend(CompileScript(), RuntimeScript() + VerifyScript(), w, commands); }
      if inv.stage == Compile || inv.stage == All {
        ok := CompileStage(inv.world);
        if !ok { return; }
      }
      if inv.stage == All { RunScriptAppend(RuntimeScript(), VerifyScript(), w, commands); }
      if inv.stage == Runtime || inv.stage == All {
        ok := RuntimeStage(inv.world);
        if !ok { return; }
      }
      if inv.stage == Verify || inv.stage == All {
        ok := VerifyStage(inv.world);
      }
    }

    /** Exclusive creation and the dump; false when an exception ends the program. */
    method WriteReceipt(report: Report) returns (published: bool)
      modifies this`marker, this`empty
      ensures (published, OnDisk()) == Publish(old(OnDisk()), report)
    {
      match report
      case NoReport => return true;
      case ReportAt(Elsewhere, opens, completes, _) => return opens && completes;
      case ReportAt(InsideRoot, opens, completes, leaves) =>
        if opens || leaves { empty := false; }
        return opens && completes;
      case ReportAt(AtMarker, opens, completes, _) =>
        if marker.Some? || !opens { return false; }
        marker, empty := Some(Foreign), false;
        return completes;
    }

    /** `execute` with its exception handler, the receipt and the exit code. */
    method InvokeOnce(inv: Invocation) returns (exitCode: int)
      requires status == PlanOnly && commands == []
      modifies this
      ensures Result(OnDisk(), status, commands, exitCode) == Invoke(old(OnDisk()), inv)
    {
      if inv.stage != Plan {
        if NeedsResources(inv.stage) && !inv.sufficient {
          status := BlockedResources;
        } else {
          var ok := ClaimRoot(inv);
          if ok { ok := RunStages(inv); }
          status := if ok then Finished(inv.stage) else Failed;
        }
      }
      var published := WriteReceipt(inv.report);
      exitCode := if published then ExitCode(status) else 1;
    }
  }
}
