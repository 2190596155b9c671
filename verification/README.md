# Verification models of the runner's checkers

The repository checks a native test runner and a browser build with Python programs that contain
real algorithms: a rendezvous server that many client processes talk to, a patch-bundle checker, a
coalescing map that feeds a sweep, identity and partition validators, a process-ownership fixpoint,
a streaming host driver and a staged build driver. These Dafny files model those algorithms and prove
what the evidence they produce is supposed to mean.

Code that only computes is a function; code that updates state is a method or a class, proved
against a function of its inputs, and the properties are lemmas about that function.

* `Barrier` is the server thread: its transitions as functions on a `Server` value, and
  `Barrier.EventLoop`, the loop body with the mutable fields. `Rendezvous` puts the server among
  processes (spawned, exited, reaped, so PIDs are reused), the authored clients and byte channels that
  deliver in arbitrary chunks. `Overlap` proves what every interleaving guarantees, `Evidence` what an
  accepted barrier shows, with runs in which every call returns true. `Admission` says exactly when bytes
  make the server record an arrival.
* `Paths`, `Bundle`, `Faithful` and `BundleChecker` are the patch-bundle checker: accepted names, the
  shadow run, its relation to full source trees, and the checker as it runs; `BundleReference` says the
  verdict again as relations between trees, pins and patches.
* `Sorting`, `Sweep`, `Receipts`, `Hulls` and `PoolBound` are the host-reservation analysis; `Hulls` says
  acceptance in terms of the rows themselves.
* `FileGroups` and `RepeatMapping` are the two report validators, with `GroupReference` and
  `RepeatReference` saying by positions in the report what they accept; `Gathering` has the positions in
  a concatenation.
* `Ownership` is the descendant closure and its accumulation over polls.
* `Framing`, `Bytes` and `HostControl` are line framing and the host driver; `Chunking` says which streams
  it reads alike in every way.
* `CodecBuild` is the staged codec build; `Stats` the latency summary; `Lists` holds `Option` and the
  sequence helpers, the first-match search among them.

## Assumptions

They appear as parameters, enabling conditions or explicit `requires`:

* a PID belongs to at most one unreaped process, exit is permanent, and a pidfd names a process that
  holds the PID when it is opened (`Rendezvous.Enabled`, `Rendezvous.Truthful`);
* polling reports only exited processes, and `/proc` the parent of a process that holds the PID
  (`Rendezvous.Truthful`);
* a client writes one newline-free JSON line that decodes to its own PID and its parent's, followed by a
  newline (`Rendezvous.Enabled` for `Connect` and `Write`);
* a process identity (pid, start) that has disappeared does not come back (`Ownership.NoReturn`);
* a patch reads and writes only the paths its own statistics list, and is refused when it would put a
  file below a file (`Bundle.Tool`, `Bundle.Apply`);
* commands run by the codec build do not touch the ownership marker (`CodecBuild.Execute`);
* times are real numbers.

## Findings

**Collection rows can hide live hosts.** `physical_receipts` stores a collection row without comparing
its two times and without looking at the row it replaces (lines 65-68), so two things that look like
consequences of an accepted peak are false in general. The conditions below are for given collection rows
and a given pool; "whatever segments follow" is meant throughout.

* A host that only a collection row mentions may have a backwards interval. The sweep counts it as -1
  between its end and its start, and the accepted peak may then be below the number of hosts with a live
  segment row. `PoolBound.OneBackwardsRow` gives such a report for a pool of one, and
  `PoolBound.BackwardsSpanHides` one for every backwards span and every pool that the collection rows fit by
  themselves. `PoolBound.SegmentBoundIff` and `PoolBound.TableBoundIff`: the hosts with a live segment row,
  and the hosts live in the coalesced table, are bounded if and only if no span left by the collection rows
  is backwards, or the sweep of the collection rows alone already exceeds the pool (then no report is
  accepted, because segments never lower the level).
* A second collection row of a host replaces the first, which is then not counted.
  `PoolBound.OneReplacedRow` gives such a report for a pool of one, and `PoolBound.LostRowHides` one for
  every nonempty row that sticks out of its host's final span and every pool that the collection rows fit.
  `PoolBound.RowBoundIff`: the hosts with a live row of either kind are bounded if and only if no span is
  backwards and no nonempty row is lost in this way, or the sweep of the collection rows alone exceeds the
  pool. Ordered rows of distinct hosts lose nothing (`Receipts.DistinctRowsAreKept`).

**Whether a run that raises has answered LOADED depends on the chunking.** The stream bound is tested
before the bytes of a read are framed (`check-native-runner-repeat-contexts.py`, lines 109-114), so a
LOADED line inside the read that crosses the bound is not answered, and the same bytes in smaller reads
are. `Chunking.ReadAlikeIff` says for which streams every way of reading them, in reads of at most 65536
bytes, has the same outcome: no stream exceeds 1048576 bytes; or the control bytes up to that bound do not
call for an answer; or only the control stream exceeds it, and it calls within the first 1048576 - 65536 + 1
bytes. To call is to contain a LOADED line that decodes together with all lines before it.
`Chunking.OneStreamTwoAnswers` gives a stream with two outcomes, `Chunking.AmbiguousDiffers` two readings of
every stream that fails the condition, and `HostControl.AnsweredIff` says when one given run has answered.

**The comparison of file names guards the locality of patches only.** Once the output pins hold,
comparing the names in `check_bundle` tests exactly that nothing was written outside the pinned paths
(`Faithful.NamesDetectStrays`). Under the assumption above that a patch writes only the paths it lists it
therefore does not decide the verdict (`Faithful.NamesNeverDecide`).

## Model

| member | source | states |
|---|---|---|
| `Overlap.TrueMeansBatchRecorded` | scripts/check-native-runner-project-parallel.py:109-151 | In every interleaving, whenever a barrier call has returned true its connection holds a slot of a complete batch, every member of that batch has been recorded, and each record is the message its client wrote. |
| `Overlap.LaterBatchAfterExits` | scripts/check-native-runner-project-parallel.py:144-148 | In every reachable state the client process of every member of every earlier batch, not only of the preceding one, has exited once a later batch has a member, in spite of PID reuse. |
| `Overlap.ReleaseIsExact` | scripts/check-native-runner-project-parallel.py:147-155 | While no error is recorded, messages, held connections and pidfds are aligned and at most `count`; the slots sent `go` are exactly those of complete batches, each once, and none without `release`; SIGINT was sent exactly when the last expected arrival came and `interrupt` is set, to the root that all arrivals name. |
| `Overlap.InterruptGoesToRoot` | scripts/check-native-runner-project-parallel.py:152-155 | If SIGINT was ever sent there is one step at which it went out; the PID was then held by a child of the CLI, and it is the parent PID that every process that had arrived reports. |
| `Overlap.BatchOverlaps` | scripts/check-native-runner-project-parallel.py:109-160 | For every complete batch there is one state of the run in which all members whose calls return true are inside their barrier calls in live processes. |
| `Evidence.AcceptedBarrierOverlapped` | scripts/check-native-runner-project-parallel.py:72-76 | A barrier accepted with no errors and all arrivals, releasing batches that divide the expected number, has sent `go` to every slot once and in order, and every batch overlapped. |
| `Evidence.EveryCallReturns` | scripts/check-native-runner-project-parallel.py:105-160 | For every number of callers, up to 200, and every batch size that divides it there is an error-free run in which every call returns true. |
| `Overlap.AtMostOneBatchAlive` | scripts/check-native-runner-project-parallel.py:144-148 | At no point of a run are more than `batch` of the processes that ever arrived alive. |
| `Overlap.RunSafe` | scripts/check-native-runner-project-parallel.py:105-164 | Every state of every run satisfies the global invariant; in particular the server invariant never blocks a run. |
| `Overlap.StepOnward` | scripts/check-native-runner-project-parallel.py:109-160 | One step adds at most one arrival, adds it only while no call changes state, and never takes a finished call back into the barrier. |
| `Overlap.RunOnward` | scripts/check-native-runner-project-parallel.py:109-160 | Over any number of steps the arrivals only grow and a call that is over stays as it ended. |
| `Overlap.NotReturnedAtCompletion` | scripts/check-native-runner-project-parallel.py:149-151 | At the step that records the last member of a batch no member of it has returned true. |
| `Rendezvous.StepKeeps` | scripts/check-native-runner-project-parallel.py:105-160 | Every enabled action of client, channel, process or server keeps the global invariant: channels hold a prefix of the one frame, slots describe their clients, and older batches have exited. |
| `Rendezvous.DeliverEffect` | scripts/check-native-runner-project-parallel.py:138-142 | However a frame is chunked, a delivery either grows the buffer, refuses, or records exactly the frame's message with nothing left over. |
| `Rendezvous.OlderExited` | scripts/check-native-runner-project-parallel.py:144-146 | The check on the immediately preceding batch is enough: by induction all slots before the new batch refer to exited processes. |
| `Barrier.OnBodyKeeps` | scripts/check-native-runner-project-parallel.py:134-156 | Whatever bytes arrive, handling them keeps the three lists aligned, the release log exact and the signal log correct, with or without an exception. |
| `Barrier.OnBodyEffect` | scripts/check-native-runner-project-parallel.py:134-156 | A nonempty chunk grows the buffer without a complete line, or is refused leaving everything but the error state, or stores the one message on the line after the prior batch was seen exited. `Admission.RecordedIff` has the exact conditions. |
| `Admission.RecordedIff` | scripts/check-native-runner-project-parallel.py:134-156 | A read makes the server record a message without an error if and only if the buffer is then one line of at most 4096 bytes with its newline, it decodes to that message with a positive PID that has a handle, the processes of a batch just completed have all exited, fewer than `count` have arrived, all connections of a batch it completes can be sent `go`, and for the last one of an interrupted run all arrivals name one root that is a child of the CLI. |
| `Admission.StoredIff` | scripts/check-native-runner-project-parallel.py:141-148 | The arrival is stored in the three lists, error or not, exactly under the conditions tested before it is stored. |
| `Admission.ErrorFreeIff` | scripts/check-native-runner-project-parallel.py:149-155 | A stored arrival leaves no error exactly under the conditions tested after it is stored. |
| `Admission.RecordedState` | scripts/check-native-runner-project-parallel.py:147-156 | The whole server after an arrival was recorded without an error. |
| `Admission.NoLineYet` | scripts/check-native-runner-project-parallel.py:135-140 | End of file forgets the connection, and a partial line of at most 4096 bytes is kept; nothing else changes. |
| `Admission.GoesOnIff` | scripts/check-native-runner-project-parallel.py:134-156 | In these two cases only the server goes on without an arrival; anything else but recording is one error, which stops it. |
| `Barrier.OnBodySignals` | scripts/check-native-runner-project-parallel.py:152-155 | Handling bytes signals nobody, or exactly the one root that all arrivals name and that the kernel reported as a child of the CLI. |
| `Barrier.ReleaseEffect` | scripts/check-native-runner-project-parallel.py:150-151 | Sending `go` extends the release log slot by slot in order, to the end exactly when all sends succeed and otherwise up to the first that fails. |
| `Barrier.EventLoop.constructor` | scripts/check-native-runner-project-parallel.py:122-125 | A new server is empty and satisfies the invariant. |
| `Barrier.EventLoop.Listen` | scripts/check-native-runner-project-parallel.py:131-132 | Accepting a connection gives it an empty buffer and changes nothing else. |
| `Barrier.EventLoop.Body` | scripts/check-native-runner-project-parallel.py:134-156 | The body branch performs the `OnBody` transition, all its assertions included, and keeps the invariant. What that is, is `Admission.RecordedIff`, `Admission.RecordedState` and `Admission.GoesOnIff`. |
| `Barrier.EventLoop.Arrived` | scripts/check-native-runner-project-parallel.py:144-156 | Handling a decoded arrival performs the `Record` transition. Its conditions are those of `Admission.StoredIff` and `Admission.ErrorFreeIff`. |
| `Barrier.EventLoop.SettleArrival` | scripts/check-native-runner-project-parallel.py:149-156 | Bound check, release and interrupt perform the `Settle` transition. |
| `Barrier.EventLoop.PollPriorBatch` | scripts/check-native-runner-project-parallel.py:145-146 | True exactly when every pidfd of the last `batch` ones reports exit. |
| `Barrier.EventLoop.SendGo` | scripts/check-native-runner-anonymous-parallel.py:191-192 | The send loop performs the `Release` transition, a failed send being an exception. |
| `Barrier.EventLoop.SendInterrupt` | scripts/check-native-runner-anonymous-parallel.py:193-196 | SIGINT is sent exactly when all arrivals name one root and that root is a child of the CLI. |
| `Faithful.PassHoldsOfCheckouts` | scripts/check-cef-fix-bundle.py:135-199 | If the check passes, the ordered patches apply to every full tree that agrees on the pinned names; the result matches every output pin, its pinned part is the final shadow and all other files are unchanged. `BundleReference.PassMeansOutput` spells out the pins. |
| `Faithful.ShadowRunIsFaithful` | scripts/check-cef-fix-bundle.py:135-187 | Passing or not, the patches apply to the full trees exactly when they apply to the shadows, with the same pinned result and nothing else touched. |
| `Faithful.ApplyFaithful` | scripts/check-cef-fix-bundle.py:180-186 | One patch with pinned paths applies to a full tree exactly when it applies to the shadow, with the same effect on pinned files and none on others. |
| `Faithful.ComponentFaithful` | scripts/check-cef-fix-bundle.py:160-187 | The same for all patches of one component in order. |
| `Faithful.OrderAcrossComponentsIsIrrelevant` | scripts/check-cef-fix-bundle.py:160-187 | Reordering the patch list while keeping the order within each component gives the same success and the same final trees of the patch run. |
| `Faithful.OrderAcrossComponentsKeepsVerdict` | scripts/check-cef-fix-bundle.py:135-199 | Such a reordering gets the same verdict from the whole check. |
| `Faithful.DistinctIsBagProperty` | scripts/check-cef-fix-bundle.py:166-168 | Acceptance of the ids depends on the multiset of entries only. |
| `Faithful.NamesDetectStrays` | scripts/check-cef-fix-bundle.py:196-199 | Of any tree that meets the output pins, the comparison of names holds exactly when nothing lies outside the pinned paths. |
| `Faithful.NamesNeverDecide` | scripts/check-cef-fix-bundle.py:189-199 | Taking patches to write only the paths they list, after any patches that apply the output verdict is that of the pins alone. |
| `Faithful.SameLookup` | scripts/check-cef-fix-bundle.py:50-65 | A pinned path reads the same in a full tree and in its shadow. |
| `Faithful.LookupClear` | scripts/check-cef-fix-bundle.py:50-65 | A supported lookup finds the regular file at the path exactly when there is one and rules out files above and below it. |
| `Bundle.InterleavingProjects` | scripts/check-cef-fix-bundle.py:160-187 | The interleaved loop succeeds exactly when ids are distinct, every entry is in order and each component's own patches apply; each final tree is that of the component's own patches alone. |
| `BundleChecker.CheckBundle` | scripts/check-cef-fix-bundle.py:110-207 | A report is produced exactly when the bundle passes, which `BundleReference.PassesIff` spells out, and it lists every patch id in order. |
| `BundleReference.PassesIff` | scripts/check-cef-fix-bundle.py:110-199 | The bundle passes if and only if there is a sequence of trees that starts with the copies of the pinned files, whose base pins hold, goes on entry by entry with patch files of the bundle that have their digests as pins, distinct ids, and touch pinned names only, each changing the files at its paths as the patch says and nothing else, and ends with trees that meet the output pins. |
| `BundleReference.MatchesIff` | scripts/check-cef-fix-bundle.py:50-65 | The comparison with a pin holds exactly when the pin is the digest of the regular file at the path, or null and nothing is there, and only directories lead to it. |
| `BundleReference.PassMeansBase` | scripts/check-cef-fix-bundle.py:147-153 | If the check passes, a base pin is the digest of the checkout's file at that path, and null exactly when nothing is there. |
| `BundleReference.PassMeansOutput` | scripts/check-cef-fix-bundle.py:189-195 | If the check passes, the patches applied to any full tree that agrees on the pinned names end in a tree of which the output pins say the same. |
| `BundleReference.PassMeansEntries` | scripts/check-cef-fix-bundle.py:160-183 | If the check passes, every entry is a file of the bundle whose pin is the digest of its bytes, with an id of its own, and lists pinned paths only. |
| `BundleReference.ApplyIff` | scripts/check-cef-fix-bundle.py:185-186 | A patch takes one tree to another exactly when its edit of the files at its paths succeeds, the result has these and is otherwise unchanged, and no file lies below another. |
| `BundleReference.CreatingBundlePasses` | scripts/check-cef-fix-bundle.py:110-207 | A bundle that creates one file passes on an empty checkout. |
| `BundleChecker.ApplyPatches` | scripts/check-cef-fix-bundle.py:160-187 | The loop with its identifier set computes the patch run, failing exactly when that does. |
| `BundleChecker.ApplyNext` | scripts/check-cef-fix-bundle.py:165-187 | One iteration with the identifier set extends the patch run by one entry, refusing a repeated id. |
| `BundleChecker.ApplyEntry` | scripts/check-cef-fix-bundle.py:170-186 | One entry: all checks in order, then the application, as one step of the run. |
| `BundleChecker.PrepareShadows` | scripts/check-cef-fix-bundle.py:135-158 | Succeeds exactly when all base pins hold, and the shadows are the pinned parts of the checkouts. |
| `BundleChecker.CopyBase` | scripts/check-cef-fix-bundle.py:141-158 | The same for one component. |
| `BundleChecker.CopyName` | scripts/check-cef-fix-bundle.py:147-158 | One pinned name is accepted exactly when name and pins are valid and the file matches, and then copied. To match is `BundleReference.MatchesIff`. |
| `BundleChecker.CheckOutputs` | scripts/check-cef-fix-bundle.py:189-199 | True exactly when pins and names hold in every component. |
| `BundleChecker.CheckOutput` | scripts/check-cef-fix-bundle.py:191-199 | The same for one component. To match is `BundleReference.MatchesIff`. |
| `BundleChecker.OriginalFile` | scripts/check-cef-fix-bundle.py:50-65 | The component walk agrees with the declarative lookup: symlinks, files on the way and nonempty directories at the end are errors. |
| `BundleChecker.UniqueObject` | scripts/check-cef-fix-bundle.py:22-28 | Succeeds exactly when keys are distinct, and then maps each key to its value and has no other key. |
| `BundleChecker.FailureIsFinal` | scripts/check-cef-fix-bundle.py:160-187 | Once a prefix of the patches fails the whole list fails. |
| `Paths.AcceptsExactly` | scripts/check-cef-fix-bundle.py:31-37 | A value is accepted with given components exactly when it is the slash-join of those components, there is at least one and all are permitted. |
| `Paths.JoinSplit` | scripts/check-cef-fix-bundle.py:31-37 | Joining the components of any string gives it back. |
| `Paths.SplitJoin` | scripts/check-cef-fix-bundle.py:31-37 | Splitting a join of slash-free components gives them back. |
| `Paths.Injective` | scripts/check-cef-fix-bundle.py:31-37 | Distinct accepted names denote distinct paths. |
| `Paths.NeverLeavesRoot` | scripts/check-cef-fix-bundle.py:31-37 | Walking any prefix of an accepted path from any root ends at the root followed by that prefix. |
| `Sweep.OrderedSweep` | scripts/check-native-runner-repeat-each.py:80-85 | For ordered intervals, zero-length ones and ties included, the sweep returns to zero and its peak is the largest number of half-open intervals containing one instant, for both listings of the events. |
| `Sweep.Run` | scripts/check-native-runner-repeat-each.py:81-84 | The loop over the sorted events returns the sum of the deltas and the maximum of the level over all instants. |
| `Sweep.SweepPeak` | scripts/check-native-runner-repeat-each.py:80-85 | The running maximum over the events sorted by (time, delta) is the maximum of the order-free level. |
| `Sweep.ListedLevel` | scripts/check-native-runner-repeat-each.py:80-84 | For all intervals the count ends at zero and the level is the number of intervals containing the instant less the number spanning it backwards. |
| `Sweep.LiveIsCount` | scripts/check-native-runner-repeat-each.py:80-84 | The live count at an instant is the number of intervals with start <= instant < end. |
| `Sweep.InterleavedLevel` | scripts/check-native-runner-directory-parallel.py:50-53 | The same for the event list built pair by pair. |
| `Sweep.CountsLiveIffInOrder` | scripts/check-native-runner-repeat-each.py:80-85 | The sweep counts live intervals at every instant exactly when no interval is backwards. |
| `Sorting.SortSorts` | scripts/check-native-runner-repeat-each.py:82-82 | Sorting orders the values and is a permutation. |
| `Sorting.OrderedUnique` | scripts/check-native-runner-repeat-each.py:82-82 | A multiset has one ordered arrangement, so any correct sort agrees with this one. |
| `Receipts.PhysicalReceipts` | scripts/check-native-runner-repeat-each.py:60-85 | Succeeds exactly when every sourced segment is in order and the maximal level of the coalesced intervals is at most `workers`; it returns that maximum. `Hulls.AcceptedIff` says it of the rows. |
| `Hulls.AcceptedIff` | scripts/check-native-runner-repeat-each.py:60-85 | The report is accepted if and only if every segment is in order and at no instant the hosts whose hull contains it, less those whose hull runs backwards over it, exceed the pool. |
| `Hulls.CoalescedIsHull` | scripts/check-native-runner-repeat-each.py:65-79 | The table has exactly the hosts with rows, and for each the interval from the earliest admission to the latest exit among its last collection row and its segment rows. |
| `Hulls.MergeIsHull` | scripts/check-native-runner-repeat-each.py:75-79 | After merging, a span starts and ends at times of the old span or of rows of its host, and contains them all. |
| `Hulls.OverwriteKeepsLast` | scripts/check-native-runner-repeat-each.py:65-68 | The collection loop keeps exactly the last row of each host. |
| `Hulls.SegmentOkIff` | scripts/check-native-runner-repeat-each.py:69-76 | A segment is in order exactly when the first source with its ID has the same hosts and every row is ordered. |
| `Hulls.CollectionRows` | scripts/check-native-runner-repeat-each.py:65-68 | Collection rows are taken collection by collection. |
| `Hulls.RowsOfSources` | scripts/check-native-runner-repeat-each.py:69-75 | Segment rows are taken segment by segment; `Hulls.RowsOfSource` says which of one segment. |
| `Receipts.Collect` | scripts/check-native-runner-repeat-each.py:65-68 | The collection loops build the overwrite table of all rows. |
| `Receipts.AddSegments` | scripts/check-native-runner-repeat-each.py:69-79 | Succeeds exactly when all segments are in order, and the table is the merge of their rows. |
| `Receipts.AddSegment` | scripts/check-native-runner-repeat-each.py:70-79 | The same for one segment. |
| `Receipts.WidenAll` | scripts/check-native-runner-repeat-each.py:75-79 | Succeeds exactly when every row is ordered, and the table is the merge of the rows. `Hulls.MergeIsHull` says what the merge is. |
| `Receipts.FitsPool` | scripts/check-native-runner-repeat-each.py:80-85 | Returns the peak exactly when it is at most `workers`. |
| `Receipts.AcceptedBoundsSegments` | scripts/check-native-runner-repeat-each.py:60-85 | With ordered collected spans, acceptance bounds by `workers` the hosts that are live in the table and those with a live segment row, at every instant; `PoolBound.SegmentBoundIff` has the converse. |
| `Receipts.AcceptedBoundsCollections` | scripts/check-native-runner-repeat-each.py:65-85 | When the collected spans are ordered and contain every nonempty collection row, the bound covers collection rows as well; `PoolBound.RowBoundIff` has the converse. |
| `Receipts.DistinctRowsAreKept` | scripts/check-native-runner-repeat-each.py:65-68 | Ordered collection rows of distinct hosts leave ordered spans that contain every row. |
| `Receipts.MergeWidens` | scripts/check-native-runner-repeat-each.py:78-79 | Merging ordered rows only widens spans, covers every merged row and keeps ordered spans ordered. `Hulls.MergeIsHull` has the other side. |
| `Receipts.LiveIsHosts` | scripts/check-native-runner-repeat-each.py:60-80 | The intervals swept count each live host once. |
| `Receipts.FreshValues` | scripts/check-native-runner-repeat-each.py:75-80 | Rows of hosts not seen before are added to the swept intervals unchanged and in order. |
| `Receipts.CoalescingIsTransparent` | scripts/check-native-runner-directory-parallel.py:40-54 | On ordered rows of distinct hosts the coalesced sweep and the uncoalesced sweep have the same peak. |
| `PoolBound.RowBoundIff` | scripts/check-native-runner-repeat-each.py:65-85 | For given collection rows and a given pool: acceptance bounds the hosts with a live row of either kind, whatever segments follow, if and only if no collected span is backwards and every nonempty row lies within its host's final span, or the collection rows exceed the pool by themselves. |
| `PoolBound.SegmentBoundIff` | scripts/check-native-runner-repeat-each.py:65-85 | At a given pool it bounds the hosts with a live segment row if and only if no collected span is backwards or the collection rows exceed the pool by themselves. |
| `PoolBound.TableBoundIff` | scripts/check-native-runner-repeat-each.py:65-85 | At a given pool it bounds the hosts live in the coalesced table if and only if no collected span is backwards or the collection rows exceed the pool by themselves. |
| `PoolBound.BackwardsSpanHides` | scripts/check-native-runner-repeat-each.py:65-68 | Every backwards collected span admits, for every pool the collection rows fit, a report that is accepted although at some instant more hosts have a live segment row, and are live in the table, than the pool allows. |
| `PoolBound.OneBackwardsRow` | scripts/check-native-runner-repeat-each.py:65-68 | Such a report with a single collected row, from instant 5 back to instant 0, and a pool of one. |
| `PoolBound.LostRowHides` | scripts/check-native-runner-repeat-each.py:65-68 | Every nonempty collection row that sticks out of its host's final ordered span admits, for every pool the collection rows fit, a report that is accepted although at some instant more hosts have a live row than the pool allows. |
| `PoolBound.OneReplacedRow` | scripts/check-native-runner-repeat-each.py:65-68 | Such a report with one host collected twice and a pool of one. |
| `PoolBound.FillPool` | scripts/check-native-runner-repeat-each.py:60-85 | At any instant the pool can be filled exactly: the report is accepted, and the hosts its segment has live then exceed the pool by the number of spans that are backwards there. |
| `PoolBound.AcceptedMeansCollectedFits` | scripts/check-native-runner-repeat-each.py:69-85 | Segments never lower the level, so a report is accepted only if its collection rows fit the pool by themselves. |
| `RepeatMapping.RepeatMap` | scripts/check-native-runner-repeat-each.py:99-157 | Succeeds exactly when the document is accepted, and returns the logical IDs of all attempts. What is accepted and returned is `RepeatReference.AcceptsIff` and `RepeatReference.SourceIdsIff`. |
| `RepeatReference.AcceptsIff` | scripts/check-native-runner-repeat-each.py:99-157 | The document is accepted if and only if logical IDs, generations and output IDs are used once each, groups have distinct indices and partition their selected slices, and all sources, attempts and rows are lawful. |
| `RepeatReference.SourceIff` | scripts/check-native-runner-repeat-each.py:117-140 | A source is in order exactly when it has a selected slice, its first segment is retired, has its context and group and lists each ID it may attempt once, and every attempt is one of these with exactly one body event, of the right repetition. |
| `RepeatReference.RowIff` | scripts/check-native-runner-repeat-each.py:145-156 | A row is in order exactly when its logical ID is that of the first test with its local ID in the first slice of its context, its group is one of the slice that has the test, and it either was only selected and names no source or names a source with its context and group. |
| `RepeatReference.GroupsIff` | scripts/check-native-runner-repeat-each.py:104-115 | Groups are in order exactly when indices are distinct, slices are selected, and in each selected slice members are distinct and are its local IDs. |
| `RepeatReference.BodiesIff` | scripts/check-native-runner-repeat-each.py:134-136 | The body test of an attempt holds exactly when one event and no other is its body, with the right repetition. |
| `RepeatReference.SourceIdsIff` | scripts/check-native-runner-repeat-each.py:116-140 | The validator returns exactly the logical IDs of the attempted tests. |
| `RepeatMapping.CheckSources` | scripts/check-native-runner-repeat-each.py:117-140 | Succeeds exactly when every source is in order, and returns the accumulated IDs. |
| `RepeatMapping.CheckSource` | scripts/check-native-runner-repeat-each.py:118-140 | The same for one source. |
| `RepeatMapping.CheckRows` | scripts/check-native-runner-repeat-each.py:145-156 | True exactly when every row is in order. What that means is `RepeatReference.RowIff`. |
| `RepeatMapping.MappingIsInjective` | scripts/check-native-runner-repeat-each.py:99-137 | Acceptance makes the first-match map from (context, local ID) to logical ID injective. |
| `RepeatMapping.GroupsPartitionSlice` | scripts/check-native-runner-repeat-each.py:107-115 | Every local ID of a selected slice is in exactly one group of that slice. |
| `RepeatMapping.GroupsStayInSlice` | scripts/check-native-runner-repeat-each.py:107-115 | Every member of a group is a local ID of every selected slice the group names. |
| `RepeatMapping.AttemptInOwnGroup` | scripts/check-native-runner-repeat-each.py:117-137 | Every attempt of a source is in the source's own group and in no other group of its slice. |
| `RepeatMapping.OneTestPerAttempt` | scripts/check-native-runner-repeat-each.py:131-137 | The test an attempt is mapped to is the only one of the whole selection with its logical ID. |
| `FileGroups.ValidateFileGroups` | scripts/check-native-runner-anonymous-parallel.py:213-238 | The accumulator loops return true exactly on well-grouped reports. What those are is `GroupReference.WellGroupedIff`. |
| `GroupReference.WellGroupedIff` | scripts/check-native-runner-anonymous-parallel.py:213-238 | A report is accepted if and only if it has one file, ids and generations are used once, no test or worker is in two groups and they have exactly the selected tests and reported workers, retired groups have a generation and distinct workers known to have exited, other groups have no workers, did not run and have a generation exactly if admitted, every attempt's test and worker are in one group, and every lease agrees with its group and names no lock twice. |
| `FileGroups.CheckGroups` | scripts/check-native-runner-anonymous-parallel.py:220-231 | True exactly when all groups are in order and pairwise disjoint and their unions are the selected tests and all workers. |
| `FileGroups.CheckGroup` | scripts/check-native-runner-anonymous-parallel.py:221-230 | One group: accepted exactly when in order and apart from what was claimed before, and both sets grow by it. |
| `FileGroups.ClaimWorkers` | scripts/check-native-runner-anonymous-parallel.py:226-227 | Succeeds exactly when the indices are distinct, unclaimed, known and exited, and then claims them. |
| `FileGroups.OneHomePerAttempt` | scripts/check-native-runner-anonymous-parallel.py:213-233 | In an accepted report exactly one group has an attempt's test, the same one and no other has its worker, and it is generation-bearing and physically retired. |
| `FileGroups.GroupsCover` | scripts/check-native-runner-anonymous-parallel.py:220-231 | In an accepted report a test is in some group exactly when it is selected, and a worker exactly when it is reported. |
| `FileGroups.GroupsAreApart` | scripts/check-native-runner-anonymous-parallel.py:220-231 | No test and no worker is in two groups, and exactly the physically retired groups have workers. |
| `Ownership.OwnedIsLeast` | scripts/check-native-runner-assertion-deadlines.py:184-190 | The processes reached by lines of descent are the least set containing the group and closed under children, cycles allowed. |
| `Ownership.Descendants` | scripts/check-native-runner-assertion-deadlines.py:184-190 | The fixpoint loop terminates on every snapshot and returns that set. |
| `Ownership.ObservedIsLatest` | scripts/check-native-runner-assertion-deadlines.py:191-191 | The inventory holds for each PID the row of the last poll that owned it, after which none did. |
| `Ownership.NothingRemainsIff` | scripts/check-native-runner-assertion-deadlines.py:183-204 | Over any polls with PID reuse, nothing remains if and only if no identity ever owned is present at the end. |
| `Ownership.RemainingIff` | scripts/check-native-runner-assertion-deadlines.py:191-204 | A PID remains exactly when the final snapshot has it with the start time of the last row in which the group owned it. |
| `Ownership.Supervise` | scripts/check-native-runner-assertion-deadlines.py:182-204 | The poll loop computes the inventory and the remaining PIDs, which are those that have the start time of their last owned row; nothing remains if and only if no identity ever owned is present. |
| `HostControl.Observe` | scripts/check-native-runner-repeat-contexts.py:93-121 | For every chunking and interleaving of the reads: the run raises exactly when a stream is longer than 1048576 bytes or a control line does not decode; otherwise it has seen the lines of the whole control stream and keeps its rest; in every case it has sent exactly when after some number of reads no stream was too long and the control bytes had a LOADED line that decodes with all lines before it, at most once, and as the control stream calls for; end of file is noted exactly for the streams that ended. |
| `HostControl.Chunk` | scripts/check-native-runner-repeat-contexts.py:109-121 | One read keeps the loop variables in agreement with the whole streams, or raises exactly when those do; either way the sends are those of the decodable lines, without the bytes of a read that crosses the bound. When those raise is spelled out by `HostControl.Observe`. |
| `HostControl.Drain` | scripts/check-native-runner-repeat-contexts.py:115-121 | The inner loop appends the complete lines up to the first undecodable one, raises exactly when there is one, otherwise leaves the rest, and in either case has sent at the first LOADED among them only. |
| `HostControl.SendsAreDue` | scripts/check-native-runner-repeat-contexts.py:109-121 | Every run, raising or not, sends at most once, and only what the whole control stream calls for. |
| `HostControl.AnsweredIff` | scripts/check-native-runner-repeat-contexts.py:109-121 | A run, raising or not, has sent exactly when a LOADED line ends before the read that makes a stream too long and it and all lines before it decode. |
| `HostControl.ChunkingIrrelevantIff` | scripts/check-native-runner-repeat-contexts.py:109-121 | Two given ways of reading the same streams raise alike and have the same outcome if and only if both or neither answered, which is so within the bound and in every run that does not raise; `Chunking.ReadAlikeIff` has the condition on the streams. |
| `Chunking.ReadAlikeIff` | scripts/check-native-runner-repeat-contexts.py:102-121 | Streams have the same outcome in every way of reading them, in reads of at most 65536 bytes, if and only if none is too long, or the control bytes up to the bound do not call for an answer, or only control is too long and calls within bound - 65536 + 1 bytes. |
| `Chunking.AmbiguousDiffers` | scripts/check-native-runner-repeat-contexts.py:102-121 | Streams that fail this condition have two readings, one of which answers LOADED and the other not. |
| `Chunking.OneStreamTwoAnswers` | scripts/check-native-runner-repeat-contexts.py:102-121 | One such stream, ASCII throughout. |
| `Chunking.HeardAtLeast` | scripts/check-native-runner-repeat-contexts.py:102-111 | When only control is too long, all but at most one read's length of the bound is framed. |
| `HostControl.SendsAreFinal` | scripts/check-native-runner-repeat-contexts.py:109-121 | What was sent when a read ends the run is what the whole list of reads prescribes. |
| `HostControl.BoundedEnds` | scripts/check-native-runner-repeat-contexts.py:110-111 | The reads that count end exactly before the first one that makes a stream too long. |
| `HostControl.SplitAppend` | scripts/check-native-runner-repeat-contexts.py:114-118 | Splitting a stream may stop anywhere and resume from the unterminated rest. |
| `HostControl.SplitRoundTrip` | scripts/check-native-runner-repeat-contexts.py:114-118 | Lines and rest contain no newline and determine the stream. |
| `HostControl.JoinRoundTrip` | scripts/check-native-runner-repeat-contexts.py:114-118 | Any newline-free lines and rest are what their concatenation splits into. |
| `HostControl.RaiseIsFinal` | scripts/check-native-runner-repeat-contexts.py:109-118 | What has raised once raises for every longer input. |
| `HostControl.SendFollowsFirst` | scripts/check-native-runner-repeat-contexts.py:119-121 | If there is a LOADED line there is exactly one send, right after the first one. |
| `CodecBuild.OneIdentityPerRoot` | scripts/build-cef-codecs.py:97-129 | In any history on one root, all invocations that ever ran a command have the same identity. |
| `CodecBuild.MarkerIsForever` | scripts/build-cef-codecs.py:120-129 | Over any history with differing profiles an established marker never changes. |
| `CodecBuild.CommandsOnlyByOwner` | scripts/build-cef-codecs.py:120-129 | An invocation that runs a command finds its own identity in the marker, before when there was one and afterwards in any case. |
| `CodecBuild.InvocationMeaning` | scripts/build-cef-codecs.py:109-197 | Recorded commands are a prefix of the stage's fixed sequence with at most the last failing; PASS is reported exactly when resources, ownership, every test and every command, the acceptance proof included, are in order; the exit code is 0 exactly when the status is a good one and the receipt, if asked for, was written, so that a receipt aimed at an existing marker leaves it alone and exits nonzero; a good status means all recorded commands exited 0. |
| `CodecBuild.StatusIff` | scripts/build-cef-codecs.py:109-197 | The status of an invocation: when it plans, is blocked, completes a stage, passes or fails, and that a plan or a blocked one runs and touches nothing. |
| `CodecBuild.ClaimIff` | scripts/build-cef-codecs.py:120-129 | The root may be used exactly when its marker names the identity, or it is empty without a marker and the marker could be written. |
| `CodecBuild.StagePasses` | scripts/build-cef-codecs.py:130-183 | The tests and commands of each stage, all of which must pass. |
| `CodecBuild.StageCommands` | scripts/build-cef-codecs.py:130-183 | The command sequence of each stage. |
| `CodecBuild.AllCommands` | scripts/build-cef-codecs.py:130-183 | The command sequence of all stages together. |
| `CodecBuild.GatesComeFirst` | scripts/build-cef-codecs.py:130-173 | Tests that fail before a command keep it from running. |
| `CodecBuild.RecordsUntilFailure` | scripts/build-cef-codecs.py:97-107 | Commands are recorded up to the first step that fails, that one included. |
| `CodecBuild.ReceiptIff` | scripts/build-cef-codecs.py:192-196 | When a receipt is written, and what it leaves in the root. |
| `CodecBuild.ScriptMeaning` | scripts/build-cef-codecs.py:130-183 | A script succeeds exactly when all tests hold and all commands exit 0, and records a prefix of its commands, complete on success. |
| `CodecBuild.Driver.constructor` | scripts/build-cef-codecs.py:92-95 | A driver starts with status PLAN and no commands. |
| `CodecBuild.Driver.RunCommand` | scripts/build-cef-codecs.py:97-107 | The command is recorded in any case, with its exit code if it started, and raises unless that is 0. |
| `CodecBuild.Driver.ClaimRoot` | scripts/build-cef-codecs.py:120-129 | Performs the marker logic, failed writes included. |
| `CodecBuild.Driver.CheckoutStage` | scripts/build-cef-codecs.py:130-143 | Performs the checkout script. |
| `CodecBuild.Driver.CompileStage` | scripts/build-cef-codecs.py:144-155 | Performs the compile script. |
| `CodecBuild.Driver.RuntimeStage` | scripts/build-cef-codecs.py:156-173 | Performs the runtime script. |
| `CodecBuild.Driver.VerifyStage` | scripts/build-cef-codecs.py:174-181 | Performs the verify script. |
| `CodecBuild.Driver.RunStages` | scripts/build-cef-codecs.py:130-183 | Performs the selected stages' scripts in order. |
| `CodecBuild.Driver.InvokeOnce` | scripts/build-cef-codecs.py:109-197 | The whole invocation performs `Invoke`, with the exit code of an uncaught exception when the receipt cannot be written. |
| `CodecBuild.Driver.WriteReceipt` | scripts/build-cef-codecs.py:192-196 | Performs `Publish`: exclusive creation, failing when a file is there, with whatever is left in the root. |
| `Stats.SummaryMeaning` | scripts/analyze-browser-backends.py:12-16 | For every nonempty sample min <= p50 <= p95 <= max, the extremes are samples and bound all, p50 is midway between the lower and the upper median, and p95 is the least sample with at least 95% of the samples at or below it. |
| `Stats.AtMostIsCount` | scripts/analyze-browser-backends.py:12-16 | The counts used are numbers of samples at or below a value. |
| `Stats.PermutationInvariant` | scripts/analyze-browser-backends.py:12-16 | Any reordering of the samples has the same summary. |
| `Stats.Rank95` | scripts/analyze-browser-backends.py:15-15 | The rank is the least integer not below 19n/20, and a valid rank of a nonempty sample. |
| `Stats.RankSurvivesRounding` | scripts/analyze-browser-backends.py:15-15 | For up to 2^48 samples, multiplying by the double nearest to 0.95, rounding to a double and taking the ceiling gives that rank. |

## Left out

- The native runner, the SDK, the browser runtime and the report writers are not part of this model.
- Sockets, `/proc`, pidfds, `git apply`, SHA-256, JSON and UTF-8 decoding and the file system are abstract steps or functions under the assumptions above.
- The one-shot barrier of `scripts/check-native-runner-resource-locks.py` (lines 140-174): it accepts sequentially and would only add an easier member beside the batched one.
- Deadlines, polling intervals, `waitpid` and process termination; leaving a poll loop is a choice of the environment.
- A `go` message is sent in one piece; a client that reads only part of it throws, as its equality test makes it do.
- Overlap.BatchOverlaps: speaks of the members whose calls return true; a member that aborted while its batch was still incomplete is not claimed to overlap.
- BundleChecker.OriginalFile: trees hold files and symlinks, so an empty directory at a pinned path, an error in the source, reads as absent.
- The rest of `physical_receipts`: budget counters, worker exit rows, output receipts and the walk that gathers PIDs are straight-line assertions.
- The directory checker's other timing assertions (metadata and actor times) and its comparison of hosts with collection workers.
- The helper rows and the supervisor's own report in `execute` of the assertion-deadline checker.
- Manifest versions, pins and JSON typing, and the parsing of `--root`, in the bundle checker; patch text screening and the parsing of numstat rows are inside the abstract `numstat`, and permission bits other than executable are ignored.
- Resolving a patch file through symlinks inside the bundle; bundle files are a map from paths to bytes.
- The downloads, copies and receipts between the commands of the codec build are folded into its gates; argument validation is not modelled.
- Stats.Rank95: the exact rational rank; that the source's floating-point product gives the same one is `Stats.RankSurvivesRounding`, up to 2^48 samples. Other rounding in the statistics is not modelled.
- The many scripts that compare one concrete report with one expected outcome.
