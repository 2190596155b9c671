/**
 Process-ownership supervision: on every poll of `/proc` the descendants of the
 launched process group are computed by iteration to a fixpoint and added to the
 inventory, and at the end none of the inventoried identities may be left.
 */
module Ownership {

  /** The fields of `/proc/<pid>/stat` that identify and place a process. */
  datatype Row = Row(ppid: int, group: int, start: string)
  type Snapshot = map<int, Row>

  function Grouped(snap: Snapshot, group: int): set<int>
  {
    set pid | pid in snap && snap[pid].group == group
  }

  ghost predicate ChildClosed(snap: Snapshot, s: set<int>)
  {
    forall pid :: pid in snap && snap[pid].ppid in s ==> pid in s
  }

  /** A line of descent inside the snapshot that starts in the process group. */
  ghost predicate Descent(snap: Snapshot, group: int, line: seq<int>)
  {
    && |line| > 0
    && (forall i :: 0 <= i < |line| ==> line[i] in snap)
    && snap[line[0]].group == group
    && (forall i :: 0 < i < |line| ==> snap[line[i]].ppid == line[i - 1])
  }

  ghost predicate Descends(snap: Snapshot, group: int, pid: int)
  {
    exists line :: Descent(snap, group, line) && line[|line| - 1] == pid
  }

  /** The processes the group owns, by lines of descent; `ppid` cycles are allowed. */
  ghost function Owned(snap: Snapshot, group: int): set<int>
  {
    set pid | pid in snap && Descends(snap, group, pid)
  }

  lemma ChildDescends(snap: Snapshot, group: int, pid: int)
    requires pid in snap && snap[pid].ppid in Owned(snap, group)
    ensures pid in Owned(snap, group)
  {
    var line :| Descent(snap, group, line) && line[|line| - 1] == snap[pid].ppid;
    assert Descent(snap, group, line + [pid]);
    assert (line + [pid])[|line|] == pid;
  }

  lemma {:induction false} DescentInside(snap: Snapshot, group: int, line: seq<int>, s: set<int>)
    requires Descent(snap, group, line) && Grouped(snap, group) <= s && ChildClosed(snap, s)
    ensures line[|line| - 1] in s
  {
    var n := |line| - 1;
    if n == 0 {
      assert line[0] in Grouped(snap, group);
    } else {
      assert Descent(snap, group, line[..n]);
      DescentInside(snap, group, line[..n], s);
      assert line[..n][n - 1] == snap[line[n]].ppid;
      var child := line[n];
      assert child in snap && snap[child].ppid in s;
      assert child in s;
    }
  }

  /** The owned processes are the least set that contains the group and all children. */
  lemma OwnedIsLeast(snap: Snapshot, group: int)
    ensures Grouped(snap, group) <= Owned(snap, group) && ChildClosed(snap, Owned(snap, group))
    ensures forall s :: Grouped(snap, group) <= s && ChildClosed(snap, s) ==> Owned(snap, group) <= s
  {
    forall pid | pid in Grouped(snap, group) ensures pid in Owned(snap, group) {
      assert Descent(snap, group, [pid]);
      assert [pid][0] == pid;
    }
    forall pid | pid in snap && snap[pid].ppid in Owned(snap, group) ensures pid in Owned(snap, group) {
      ChildDescends(snap, group, pid);
    }
    forall s | Grouped(snap, group) <= s && ChildClosed(snap, s) ensures Owned(snap, group) <= s {
      forall pid | pid in Owned(snap, group) ensures pid in s {
        var line :| Descent(snap, group, line) && line[|line| - 1] == pid;
        DescentInside(snap, group, line, s);
      }
    }
  }

  /** The inner loop: grow `owned` by children until nothing is added. */
  method Descendants(snap: Snapshot, group: int) returns (owned: set<int>)
    ensures owned == Owned(snap, group)
  {
    OwnedIsLeast(snap, group);
    owned := Grouped(snap, group);
    while true
      invariant Grouped(snap, group) <= owned <= Owned(snap, group)
      decreases snap.Keys - owned
    {
      var descendants := set pid | pid in snap && snap[pid].ppid in owned;
      if descendants <= owned { break; }
      var added :| added in descendants && added !in owned;
      assert added in snap.Keys - owned;
      owned := owned + descendants;
    }
  }

  // ----- Accumulation over polls -----

  function Rows(snap: Snapshot, pids: set<int>): Snapshot
  {
    map pid | pid in pids && pid in snap :: snap[pid]
  }

  ghost function Observed(polls: seq<Snapshot>, group: int): Snapshot
  {
    if polls == [] then map[]
    else
      var last := polls[|polls| - 1];
      Observed(polls[..|polls| - 1], group) + Rows(last, Owned(last, group))
  }

  predicate Present(snap: Snapshot, pid: int, start: string)
  {
    pid in snap && snap[pid].start == start
  }

  /** The identity (pid, start) was inventoried on some poll. */
  ghost predicate EverOwned(polls: seq<Snapshot>, group: int, pid: int, start: string)
  {
    exists i :: 0 <= i < |polls| && pid in Owned(polls[i], group) && polls[i][pid].start == start
  }

  /** A process identity, once gone, does not come back. */
  ghost predicate NoReturn(snaps: seq<Snapshot>)
  {
    forall i, j, k, pid, start ::
      0 <= i < j < k < |snaps| && Present(snaps[i], pid, start) && Present(snaps[k], pid, start) ==>
        Present(snaps[j], pid, start)
  }

  /** `pid` was owned on poll `i`, with row `row`. */
  ghost predicate OwnedAt(polls: seq<Snapshot>, group: int, i: int, pid: int, row: Row)
  {
    0 <= i < |polls| && pid in Owned(polls[i], group) && polls[i][pid] == row
  }

  /** What `observed` holds was owned on some poll. */
  lemma {:induction false} ObservedWasOwned(polls: seq<Snapshot>, group: int, pid: int) returns (i: nat)
    requires pid in Observed(polls, group)
    ensures OwnedAt(polls, group, i, pid, Observed(polls, group)[pid])
  {
    var n := |polls| - 1;
    if pid in Owned(polls[n], group) {
      i := n;
    } else {
      i := ObservedWasOwned(polls[..n], group, pid);
    }
  }

  /** It is the row of the last poll that owned the PID, so a later owner overwrites an earlier one. */
  lemma {:induction false} ObservedIsLatest(polls: seq<Snapshot>, group: int, i: nat, pid: int) returns (j: nat)
    requires i < |polls| && pid in Owned(polls[i], group)
    ensures pid in Observed(polls, group) && i <= j && OwnedAt(polls, group, j, pid, Observed(polls, group)[pid])
    ensures forall l :: j < l < |polls| ==> pid !in Owned(polls[l], group)
  {
    var n := |polls| - 1;
    if pid in Owned(polls[n], group) {
      j := n;
    } else {
      j := ObservedIsLatest(polls[..n], group, i, pid);
    }
  }

  /** `remaining`: inventoried PIDs that still carry the recorded start time. */
  function Remaining(observed: Snapshot, final: Snapshot): set<int>
  {
    set pid | pid in final && pid in observed && final[pid].start == observed[pid].start
  }

  /** The final comparison misses nothing, although a reused PID has overwritten the earlier
      identity in `observed`: nothing remains if and only if no identity that was ever owned
      is present at the end. */
  lemma NothingRemainsIff(polls: seq<Snapshot>, group: int, final: Snapshot)
    requires NoReturn(polls + [final])
    ensures Remaining(Observed(polls, group), final) == {} <==>
            forall pid, start :: EverOwned(polls, group, pid, start) ==> !Present(final, pid, start)
  {
    var o := Observed(polls, group);
    if forall pid :: pid in final && pid in o ==> final[pid].start != o[pid].start {
      forall pid, start | EverOwned(polls, group, pid, start) ensures !Present(final, pid, start) {
        NotMissed(polls, group, final, pid, start);
      }
    } else {
      var pid :| pid in final && pid in o && final[pid].start == o[pid].start;
      assert pid in Remaining(o, final);
      var i := ObservedWasOwned(polls, group, pid);
      assert EverOwned(polls, group, pid, o[pid].start) && Present(final, pid, o[pid].start);
    }
  }

  lemma NotMissed(polls: seq<Snapshot>, group: int, final: Snapshot, pid: int, start: string)
    requires NoReturn(polls + [final]) && EverOwned(polls, group, pid, start)
    requires pid !in Remaining(Observed(polls, group), final)
    ensures !Present(final, pid, start)
  {
    var i :| 0 <= i < |polls| && pid in Owned(polls[i], group) && polls[i][pid].start == start;
    var j := ObservedIsLatest(polls, group, i, pid);
    if Present(final, pid, start) { StillThere(polls, final, i, j, pid, start); }
  }

  lemma StillThere(polls: seq<Snapshot>, final: Snapshot, i: nat, j: nat, pid: int, start: string)
    requires NoReturn(polls + [final]) && i <= j < |polls| && Present(polls[i], pid, start)
        && Present(final, pid, start)
    ensures Present(polls[j], pid, start)
  {
    var all := polls + [final];
    assert all[i] == polls[i] && all[j] == polls[j] && all[|polls|] == final;
  }

  /** Poll `j` is the last one on which the group owned the PID. */
  ghost predicate LastOwned(polls: seq<Snapshot>, group: int, pid: int, j: int)
  {
    0 <= j < |polls| && pid in Owned(polls[j], group) && forall l :: j < l < |polls| ==> pid !in Owned(polls[l], group)
  }

  /** What remains is what has the start time of its PID's last owned row. */
  lemma RemainingIff(polls: seq<Snapshot>, group: int, final: Snapshot)
    ensures var remaining := Remaining(Observed(polls, group), final);
      && (forall pid, j :: LastOwned(polls, group, pid, j) ==>
            (pid in remaining <==> pid in final && final[pid].start == polls[j][pid].start))
      && (forall pid :: pid in remaining ==> exists j :: LastOwned(polls, group, pid, j))
  {
    var o := Observed(polls, group);
    forall pid, j | LastOwned(polls, group, pid, j) ensures pid in o && o[pid] == polls[j][pid] {
      var l := ObservedIsLatest(polls, group, j, pid);
      assert l == j;
    }
    forall pid | pid in o ensures exists j :: LastOwned(polls, group, pid, j) {
      var i := ObservedWasOwned(polls, group, pid);
      var j := ObservedIsLatest(polls, group, i, pid);
      assert LastOwned(polls, group, pid, j);
    }
  }

  /** The supervision loop over the polls taken, and the final inventory. */
  method Supervise(polls: seq<Snapshot>, group: int, final: Snapshot) returns (observed: Snapshot, remaining: set<int>)
    ensures observed == Observed(polls, group) && remaining == Remaining(observed, final)
    ensures forall pid, j :: LastOwned(polls, group, pid, j) ==>
              (pid in remaining <==> pid in final && final[pid].start == polls[j][pid].start)
    ensures forall pid :: pid in remaining ==> exists j :: LastOwned(polls, group, pid, j)
    ensures NoReturn(polls + [final]) ==>
              (remaining == {} <==> forall pid, start :: EverOwned(polls, group, pid, start) ==>
                  !Present(final, pid, start))
  {
    observed := map[];
    for i := 0 to |polls|
      invariant observed == Observed(polls[..i], group)
    {
      var owned := Descendants(polls[i], group);
      observed := observed + Rows(polls[i], owned);
      assert polls[..i + 1][..i] == polls[..i];
    }
    assert polls[..|polls|] == polls;
    remaining := Remaining(observed, final);
    RemainingIff(polls, group, final);
    if NoReturn(polls + [final]) {
      NothingRemainsIff(polls, group, final);
    }
  }
}
