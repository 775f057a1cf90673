# Verification model of distconf and of two gateway algorithms

This project models the behaviour of two parts of the repository and proves
properties of the models.

**distconf** is a replicated configuration store. A static leader appends every
write to a log, counts follower acknowledgements, commits on a majority, applies
in index order, answers the waiting proposers, compacts its log window into a
snapshot, and repairs lagging followers with a snapshot and a log suffix.
Commitment follows section 5.3 and compaction section 7 of the Raft paper,
without elections. Every node folds the same log into its tables, keeps a bounded
ring of change events with encoded cursors, and serves watches from that ring and
from bounded live channels.

**gateway** is an HTTP gateway. The model covers its token bucket (the in-process
one and the Redis script) and its sliding-window circuit breaker. Floats are
modelled as reals.

## How the model is laid out

| file | what it holds |
|---|---|
| Types.dfy, StateMachine.dfy | records, the six log operations, the state machine as a function of state, entry and clock reading, and its fold over a log |
| StoreLaws.dfy, TableLaws.dfy, ReadLaws.dfy, OperationLaws.dfy, PanicLaws.dfy | laws of that fold: each operation in the fields of its records, cursors, event replay, compare-and-set, guarded expiry, clock skew, what readers and proposers are told, and exactly when applying an entry panics |
| Snapshots.dfy, Views.dfy, HorizonLaws.dfy | export, wire form and restore; a node's whole store as a value, and the bounded event window against the unbounded history; exactly what the history horizon refuses |
| Store.dfy | the store as a mutable object (maps, event ring in an array, subscriptions), and the sweeper's rounds, each method proved against the functions above |
| Replication.dfy, Leader.dfy | leader operations and the follower's stream as functions, and as a mutable object and a loop proved against them |
| Protocol.dfy, Safety.dfy, CommitRuns.dfy, Progress.dfy | the whole cluster as a transition system, its inductive invariant, the theorems over every run, runs that commit, answer and compact, and that no reachable state is stuck |
| ServerWatch.dfy, WatchSafety.dfy, WatchLimits.dfy, ClusterWatch.dfy, ClientWatch.dfy | the server's watch loop interleaved with everything the store may do, runs that break its guarantee when a condition fails, the loop on a node of a running cluster, and the client's loop across nodes |
| Meter.dfy, RateLimit.dfy | one law of refilling meters, and both token buckets as instances of it |
| CircuitBreaker.dfy | the breaker as a mutable object and over whole call sequences |

Messages in the protocol stay in the network for ever and may be received any
number of times, in any order, or never: this covers loss, duplication and
reordering. `ResetStep`, `ReportStep` and `OpenStreamStep` may happen at any time:
this covers disconnects and reconnects. The fields `ops`, `answered` and
`abandoned` of the system state are history only.

The transition systems and the objects share their steps: the protocol moves by
`Replication.Propose`, `Ack`, `Reset`, `CommitRound`, `Catchup`, `EntriesAfter` and
`Receive`, and `Leaders.Leader`, `Leaders.ApplyStream` and `Stores.Store` are proved
to compute exactly those functions.

## Where the code departs from its documentation

The model follows the code. Each departure is stated as a result.

* **Local clock at apply.** Put, Delete and Heartbeat test liveness with the
  applying node's own clock (distconf/internal/store/store.go:137-139, 163, 194,
  271), while distconf/docs/DESIGN.md:143-144 says that follower skew does not
  matter. `StoreLaws.SkewShowsExactly` gives the exact condition under which two
  readings lead to the same tables, `StoreLaws.SkewShowsOverLog` the same for whole
  logs, `StoreLaws.SkewDiverges` an input on which they do not. The replication
  theorems assume that condition (`Agrees`) of each entry a follower applies, and
  nothing more about clocks.
* **Followers apply before commit** (distconf/internal/repl/stream.go:52), while
  distconf/internal/repl/repl.go:11-12 promises that reads show a committed prefix.
  `Safety.CommittedPrefixExactly` says exactly when a follower's tables and revision
  are those of a committed prefix, `Safety.NewerEntryShows` when a reader can tell that
  they are not, and `Safety.FollowerAheadOfCommit` gives such a run.
* **Restore keeps live watchers**, although the comment at
  distconf/internal/store/helpers.go:113 says that all are dropped.
  `WatchSafety.RestoreSafeExactly` says exactly when a restore keeps the watch
  guarantee, `WatchSafety.LiveRestoreLosesGap` what a client loses otherwise, and
  `WatchLimits.LiveRestoreRun` is a run in which a watcher loses an event this way.
* **The history horizon is sound but not complete**
  (distconf/internal/store/store.go:376-384): `Views.HorizonSound` for the first,
  `HorizonLaws.HorizonCompleteExactly` for exactly which nodes refuse no lossless
  cursor, `HorizonLaws.RefusesLossless` for a reachable node that does. A cursor taken
  from CurrentEventSeq and presented later is accepted exactly as
  `HorizonLaws.LaterWatchExactly` says.
* **The pusher may skip or repeat entries** (distconf/internal/repl/stream.go:180,
  191-211: it moves on to a last index it read at another moment than the entries
  it sent). The protocol lets it; safety rests on the follower's contiguity test alone.
* **A batch expiry is not capped.** The store panics when one log index emits 4096
  events (distconf/internal/store/store.go:332-335) and the sweeper does not limit
  its batch. `PanicLaws.PanicsExactly` gives the exact condition for any entry,
  `PanicLaws.SweepPanicsExactly` for a sweep in terms of the scanned entries that still
  stand, and `PanicLaws.UncappedSweepPanics` logs whose next sweep panics. In the
  transition systems a step that would panic is not enabled.
* **The script's timestamp moves back with the clock** (gateway/ratelimit.py:141),
  unlike that of the in-process bucket (gateway/ratelimit.py:59-63):
  `RateLimit.ScriptBound` bounds what the script grants under any clock,
  `RateLimit.AdvanceBoundsExactly` says for exactly which clock readings the advance of
  the clock is a bound (those that never rise again once they have stepped back), and
  `RateLimit.BackwardClockOvergrants` is an input on which it is not.
* **Key expiry of the script** is invisible exactly when an idle key would have been
  full (`RateLimit.ExpiryUnobservableExactly`), which every refill rate of at least
  0.0001 meets (`RateLimit.UsualRatesFillUp`) and a rate of 0 does not
  (`RateLimit.ZeroRateShows`).
* **A watch may start ahead of its node** (distconf/internal/store/store.go:398-404: a
  subscription keeps no cursor). `WatchLimits.InOrderExactly`: for a positive start cursor
  the loop sends in every run an initial segment of the events after it, exactly when the
  cursor is not ahead of the node; `WatchLimits.AheadRun` is a run for every other cursor.

## Model

| member | source | states |
|---|---|---|
| Safety.ReplicasAgree | distconf/internal/repl/stream.go:40-55 | In every reachable state, under loss, duplication, reordering, reset, reconnect and compaction, each node's tables are the fold of exactly the operations up to its applied index; nodes that applied equally many agree, even at different moments; a follower's retained events are the tail of the global event stream |
| Safety.CommittedStaysHeld | distconf/internal/repl/leader.go:148-185 | An index committed at any moment keeps its operation, stays committed, and is applied by enough followers to make a majority with the leader, in that state and every later one, across resets |
| Safety.CommittedInEveryMajority | distconf/internal/repl/repl.go:11-13 | In every reachable state, any majority of the cluster contains a node that has applied a given committed index, and that node holds the fold of its applied prefix |
| Safety.ProposalsAreSerial | distconf/internal/repl/leader.go:107-195 | Every answer is the outcome of the proposer's own entry in the serial fold of the final log and concerns a committed entry; no index is answered twice; every committed proposal that was not given up is answered |
| Safety.AnsweredPutIsDurable | distconf/docs/DESIGN.md:67-72 | Once a put is acknowledged, every node that has applied it, then or at any later moment, shows the very record the proposer was answered, or a newer one, or has removed it since; a node that has applied exactly up to it shows it |
| Safety.CompactionInvisible | distconf/internal/repl/leader.go:197-212 | In every reachable state the window is the tail of everything proposed, with the index of each slot right; the saved snapshot restores to the fold up to the cut; commit, applied and the leader's revision coincide; every position a pusher holds can be sliced at |
| Safety.ReachableCatchup | distconf/internal/repl/leader.go:232-257 | From any reachable state, what Catchup sends to a follower at its true position brings it to the fold of everything proposed, with no gap |
| Safety.SweepIsSafe | distconf/internal/sweeper/sweeper.go:89-108 | A batch scanned from the leader's store and applied at any later index removes a key exactly when it still holds the value that had lapsed at the scan; whatever was put in between survives |
| Safety.LeaseSweepIsSafe | distconf/internal/sweeper/sweeper.go:110-129 | A batch of leases scanned from the leader's store and applied at any later index removes a lease exactly when it still is the one that had lapsed at the scan; one registered again or heartbeated in between survives |
| Safety.CommittedPrefixExactly | distconf/internal/repl/repl.go:11-13 | A follower's tables and revision are those of some committed prefix exactly when its applied index is at most the commit index |
| Safety.NewerEntryShows | distconf/internal/repl/repl.go:11-13 | A follower that holds an entry or a lease newer than the commit index shows the table of no committed prefix |
| Safety.FollowerAheadOfCommit | distconf/internal/repl/stream.go:52-52 | A run in which a follower of three shows a value while nothing is committed |
| CommitRuns.CommitPossible | distconf/internal/repl/leader.go:148-188 | In every state that satisfies the invariant, a commit round is possible whenever none of the entries it would apply panics |
| CommitRuns.CommittingRun | distconf/internal/repl/leader.go:148-212 | For every n there is a run in which n proposals are committed and answered; from 10001 on the log is compacted away behind a saved snapshot |
| Progress.CanCatchUp | distconf/internal/repl/stream.go:99-241 | From every reachable state in which no proposed entry panics, steps of the protocol alone (report, stream, catch-up, deliveries) can bring any one follower to the end of the log and leave the leader and the other followers as they were |
| Progress.EverythingCanCommit | distconf/internal/repl/leader.go:107-230 | From every such state some continuation without new proposals has the whole log applied by every follower and committed, and every proposer that did not give up answered |
| Progress.CanDeliver | distconf/internal/repl/stream.go:31-60 | Any message in flight can be delivered, and takes the follower at least to its snapshot's index, or to its entry's index if that joins up |
| Safety.RunInv | distconf/internal/repl/leader.go:140-195 | The protocol invariant holds in every state of every run |
| Safety.RunContinues | distconf/internal/repl/leader.go:34-61 | Along a run the log and the answers only grow, and the commit index and every follower's applied index never fall |
| Safety.StepContinues | distconf/internal/repl/stream.go:40-55 | No step shortens the log or the answers, or moves the commit index or a follower back |
| Protocol.InitInv | distconf/internal/repl/leader.go:63-74 | The invariant holds of a fresh cluster |
| Protocol.StepInv | distconf/internal/repl/leader.go:108-257 | Every step keeps the invariant: leader and followers on one log, every message in flight truthful, no recorded ack ahead of its follower, the commit index held by a majority, the answers serial |
| Protocol.ProposeInv | distconf/internal/repl/leader.go:108-136 | Appending an entry keeps the invariant: no node, message, snapshot or answer depends on what is appended later |
| Protocol.SendInv | distconf/internal/repl/stream.go:204-210 | Sending truthful payloads keeps the invariant |
| Protocol.CatchupPayloadsOk | distconf/internal/repl/stream.go:223-241 | Everything sent from any position up to the last index is truthful: entries carry the operation of their index, the snapshot is the state at its own index |
| Protocol.ReceivedOk | distconf/internal/repl/stream.go:40-59 | Whatever truthful message arrives, old, next or too far ahead, the follower stays on the log, never moves back, and acknowledges only what it has applied |
| Protocol.DeliverInv | distconf/internal/repl/stream.go:31-60 | Delivering a message to a follower keeps the invariant |
| Protocol.VotersHold | distconf/internal/repl/leader.go:153-161 | If the vote count reaches the quorum for an index, a real majority holds that index |
| Protocol.CommitLeader | distconf/internal/repl/leader.go:148-188 | On a leader that is on the log, one round commits exactly up to the largest index with a majority, and the leader is on the log afterwards, compacted or not |
| Protocol.CommitAnswers | distconf/internal/repl/leader.go:172-193 | A round's answers extend the serial answers without repeating or missing a waiter |
| Protocol.CommitInv | distconf/internal/repl/leader.go:140-195 | A commit round keeps the invariant |
| Protocol.AckInv | distconf/internal/repl/leader.go:214-230 | Recording an ack or clearing one keeps the invariant |
| Protocol.AbandonInv | distconf/internal/repl/leader.go:126-132 | A proposer that gives up leaves the log and the other answers alone |
| Protocol.PusherInv | distconf/internal/repl/stream.go:163-214 | A pusher opening a stream, reading the last index or moving its position keeps the invariant, even when it skips entries |
| Protocol.ReportInv | distconf/internal/repl/stream.go:26-29 | A follower reporting its position keeps the invariant |
| Protocol.WatchInv | distconf/internal/store/store.go:398-443 | Watchers coming, going and draining channels never affect replication |
| Replication.Quorum | distconf/internal/repl/repl.go:97-98 | The quorum is the least number of nodes that is more than half of them |
| Replication.AckCounts | distconf/internal/repl/leader.go:50-52 | An ack adds its follower's vote to every index it covers and takes no vote away; a reset removes exactly that follower's vote, from every index, so a disconnected node is not counted |
| Replication.VotesFall | distconf/internal/repl/leader.go:152-152 | The number of votes never rises with the index |
| Replication.ScanFindsLargest | distconf/internal/repl/leader.go:153-165 | The backward scan returns the largest index above the commit point with a majority, and every index up to it has one; without any it returns the commit point |
| Replication.ProposeKeeps | distconf/internal/repl/leader.go:113-119 | Proposing keeps the window the tail of the full log, and everything else about the leader |
| Replication.ApplyToFolds | distconf/internal/repl/leader.go:172-176 | Applying a stretch of the window puts the leader's store at the fold of the full log up to that index |
| Replication.SignalsAreSerial | distconf/internal/repl/leader.go:171-186 | The answers of a round are exactly those of the waiting indices it commits, in index order, each with the outcome of its own entry in the serial fold |
| Replication.AdvanceKeeps | distconf/internal/repl/leader.go:172-185 | After applying up to a new commit point commit, applied and revision coincide and no committed index still has a waiter |
| Replication.CompactKeeps | distconf/internal/repl/leader.go:202-212 | Compaction changes neither the last index nor the log the window stands for, and the saved snapshot is the state at the cut |
| Replication.CommitRoundKeeps | distconf/internal/repl/leader.go:148-188 | A round ends at the largest majority index, keeps the leader on the log, and leaves at most 10000 entries in the window or only uncommitted ones |
| Replication.RoundFitsLog | distconf/internal/store/store.go:332-335 | If no entry of a round panics when applied, no entry of the log up to that index does |
| Replication.EntryCatchesUp | distconf/internal/repl/stream.go:43-52 | An entry at most one past the follower's position is applied if it is the next one and skipped if it is old, and leaves the follower on the log |
| Replication.EntriesCatchUp | distconf/internal/repl/stream.go:31-60 | A contiguous run of entries that starts at or before the follower's position brings it exactly to the end of the run, or leaves it where it was if it is already past |
| Replication.RestoreAt | distconf/internal/repl/repl.go:64-66 | Applying a truthful snapshot puts a node at the snapshot's index, or changes nothing if the node is already past it |
| Replication.SnapshotCatchesUp | distconf/internal/repl/stream.go:41-42 | A follower that receives a truthful snapshot on its stream ends at the snapshot's index, or stays where it was if already past it |
| Replication.CatchupEqualsReplay | distconf/internal/repl/leader.go:235-257 | For any follower on the log, applying everything Catchup returns (export, wire round trip, restore, suffix) gives the fold of all entries |
| Replication.CatchupExactly | distconf/internal/repl/leader.go:232-257 | A snapshot goes exactly to a follower at or before the cut of a compacted log, and it is the saved one, taken at the cut; the entries sent are all those after the cut, or without a snapshot exactly those the follower does not have |
| Replication.TailEqualsReplay | distconf/internal/repl/leader.go:283-293 | A position has a tail in the window exactly from the cut on; the tail is every entry after the position, in order; sending it to a follower at or past the position brings it to the fold of all entries |
| Leaders.Leader.constructor | distconf/internal/repl/leader.go:63-74 | A new leader has an empty log and nothing committed |
| Leaders.Leader.Propose | distconf/internal/repl/leader.go:113-119 | Appends the entry under the next index and registers its waiter, as the specification function of the protocol does |
| Leaders.Leader.GiveUp | distconf/internal/repl/leader.go:126-132 | Forgets the waiter and nothing else |
| Leaders.Leader.FollowerAck | distconf/internal/repl/leader.go:214-222 | Records an ack only if it is larger than the recorded one |
| Leaders.Leader.FollowerReset | distconf/internal/repl/leader.go:224-230 | Clears one follower's ack and nothing else |
| Leaders.Leader.CountVotes | distconf/internal/repl/leader.go:155-160 | The loop over the configured nodes counts the leader and exactly the followers whose ack covers the index |
| Leaders.Leader.FindCommitPoint | distconf/internal/repl/leader.go:152-165 | Returns an index between commit and the last one such that exactly the indices above commit and up to it have a majority |
| Leaders.Leader.CommitRound | distconf/internal/repl/leader.go:148-188 | One pass of the commit loop: new leader state and answers are those of the protocol's commit step for a snapshot that is an export of the leader's store after the round |
| Leaders.Leader.CompactLocked | distconf/internal/repl/leader.go:202-212 | Truncates only a window of more than 10000 entries, at the commit point, saving an export of the store |
| Leaders.Leader.Catchup | distconf/internal/repl/leader.go:235-257 | Returns the snapshot and entries the protocol's catch-up step sends, for any position up to the last index; the fallback snapshot is an export of the store |
| Leaders.Leader.EntriesAfter | distconf/internal/repl/leader.go:285-293 | Returns the entries after a position, or says that the position is before the window |
| Leaders.Leader.SendCatchup | distconf/internal/repl/stream.go:223-241 | Sends the snapshot first, if there is one, and then every entry in order |
| Leaders.ApplyStream | distconf/internal/repl/stream.go:18-61 | The follower's loop over any message sequence first reports its applied index, then acknowledges after each snapshot and each awaited entry, once and with the revision reached; reports never fall and the last is the final revision; a snapshot lifts the revision to its index, the awaited entry by one, an older entry leaves it, and the stream ends at the first entry that leaves a hole; the store is that of receiving the messages one by one, as the protocol's delivery step does |
| Leaders.GapEndsStream | distconf/internal/repl/stream.go:49-51 | Nothing after a gap has any effect |
| StateMachine.RunRev | distconf/internal/store/store.go:86-86 | The revision after applying n entries is n |
| StateMachine.FoldOfPrefix | distconf/internal/store/store.go:5-8 | State, history and effects of a log prefix do not depend on what is appended later |
| StateMachine.HistoryGrows | distconf/internal/store/store.go:341-349 | The event history only grows |
| StoreLaws.ApplyWellFormed | distconf/internal/store/store.go:36-50 | Applying keeps versions at 1 or more and revisions among the applied indices |
| StoreLaws.RunWellFormed | distconf/internal/store/store.go:36-50 | So do all reachable tables, and the revision equals the number of applied entries |
| StoreLaws.SkewShowsExactly | distconf/internal/store/store.go:137-139 | Two nodes in one reachable state that apply one entry under two clock readings end in the same state if and only if the readings agree on the liveness of the touched entry wherever the operation depends on it; and then they emit the same events |
| StoreLaws.SkewShowsOverLog | distconf/docs/DESIGN.md:143-144 | Two nodes that fold one log under different clocks hold the same state at every index if and only if their readings agree, at every index, on the liveness of the touched entry wherever the operation depends on it; and then they emit the same events |
| StoreLaws.SkewDiverges | distconf/docs/DESIGN.md:143-144 | Two puts after which nodes with different clocks hold different tables |
| StoreLaws.EventShape | distconf/internal/store/store.go:330-339 | Every event of an entry carries the entry's index and its own position as offset |
| StoreLaws.CursorsIncrease | distconf/internal/store/store.go:21-30 | Event cursors strictly increase over the whole log |
| StoreLaws.CursorDecodes | distconf/docs/DESIGN.md:92-103 | Dividing a cursor by 4096 gives the log index of its event, the remainder its position among the events of that index, so no two events share one |
| StoreLaws.SmallBatchFits | distconf/internal/store/store.go:330-335 | No entry with at most 4095 expiry items panics, whatever the tables hold |
| PanicLaws.OneEventPerRemoval | distconf/internal/store/store.go:225-235 | A batch emits exactly one event per entry it removes |
| PanicLaws.PanicsExactly | distconf/internal/store/store.go:330-335 | Applying an entry panics if and only if it is a batch expiry that guards the current revision of at least 4096 keys |
| PanicLaws.SweepPanicsExactly | distconf/internal/sweeper/sweeper.go:89-101 | A sweep scanned at one index and applied at a later one panics if and only if at least 4096 of the entries it scanned still stand unchanged |
| PanicLaws.UncappedSweepPanics | distconf/internal/sweeper/sweeper.go:94-101 | After n puts that have lapsed, the batch of all n is a scan of the store, and applying it next panics if and only if n is at least 4096 |
| StoreLaws.ReplayEntry | distconf/internal/store/store.go:155-236 | Folding an entry's events over the table before it gives the table after it, also for puts over lapsed keys and partly guarded batches |
| StoreLaws.EventsRebuildTable | distconf/internal/store/store.go:330-349 | Folding the events between any two log indices over the table at the first gives the table at the second: from the empty store or from any snapshot point the events lose nothing |
| TableLaws.VersionCountsWins | distconf/internal/store/store.go:155-183 | A key's version is the number of accepted puts of its current incarnation, which a delete, an expiry or a put over a lapsed entry ends |
| TableLaws.VersionNeverDrops | distconf/internal/store/store.go:38-38 | Within an incarnation a key stays present and its version never falls |
| TableLaws.SingleWinner | distconf/internal/store/store.go:152-183 | Of all puts that expect the same version, zero included, at most one is accepted per incarnation |
| TableLaws.ExpireKvsExact | distconf/internal/store/store.go:219-236 | A batch removes exactly the entries whose current revision it guards, and alters no other |
| TableLaws.ExpireInstsExact | distconf/internal/store/store.go:279-296 | A batch removes exactly the leases whose current revision it guards, and alters no other |
| TableLaws.KvStoodSince | distconf/internal/store/store.go:215-218 | An entry has stood unchanged in every state since the index its revision names |
| TableLaws.InstStoodSince | distconf/internal/store/store.go:49-49 | A lease has stood unchanged since the register or heartbeat its revision names |
| TableLaws.KvSweepExact | distconf/internal/store/store.go:219-236 | A batch scanned after any m entries and applied at any later index removes a key exactly when it still holds the value that had lapsed at the scan |
| TableLaws.InstSweepExact | distconf/internal/store/store.go:279-300 | A batch of leases scanned earlier removes a lease exactly when it still is the one that had lapsed at the scan; one registered again or heartbeated in between survives |
| TableLaws.KvSweepOnce | distconf/internal/store/store.go:227-230 | The same batch applied again, however much later, changes only the revision and emits nothing |
| TableLaws.InstSweepOnce | distconf/internal/store/store.go:286-291 | The same batch of leases applied again changes only the revision |
| ReadLaws.CasExactly | distconf/internal/store/store.go:309-322 | A put is accepted exactly when it checks nothing or names the live version (0 for an absent or lapsed key); a delete of a live key removes it exactly when it checks nothing or names its version |
| OperationLaws.PutExactly | distconf/internal/store/store.go:152-183 | At its index in any log a put that checks nothing or names the version a client sees writes the record with that version plus 1, its own index, value, TTL and expiry, emits that record once as PUT and answers it; any other put changes neither table, emits nothing and answers a CAS conflict |
| OperationLaws.DeleteExactly | distconf/internal/store/store.go:185-213 | A delete that names another version than the one seen, also for an absent key, or demands absence of a key that is there, answers a CAS conflict; otherwise it removes the key if it is there, emits it once as DELETE under its own index and answers found, or answers not found without error; no lease is touched |
| OperationLaws.RegisterExactly | distconf/internal/store/store.go:238-259 | A register replaces the lease under its key by the registered one, with its own index as revision, answers it, and changes nothing else |
| OperationLaws.HeartbeatExactly | distconf/internal/store/store.go:261-277 | A heartbeat on a lease that stands, has not lapsed and carries the named revision (or any, if 0) moves its expiry and revision and nothing else; any other answers instance not found and changes nothing |
| OperationLaws.ExpireKeysExactly | distconf/internal/store/store.go:215-236 | A batch removes a key exactly if it lists the key with its current revision, reports each removal exactly once as EXPIRED with the record that was there, alters no other key and no lease |
| OperationLaws.ExpireServicesExactly | distconf/internal/store/store.go:279-300 | A batch removes a lease exactly if it lists the lease with its current revision, and alters no other lease and no key |
| OperationLaws.KvScanExactly | distconf/internal/store/helpers.go:168-180 | A scan lists exactly the keys in the table that a reader no longer sees, which are those with an expiry that has come |
| OperationLaws.InstScanExactly | distconf/internal/store/helpers.go:182-194 | A scan lists exactly the leases with an expiry that has come |
| OperationLaws.SweepNeedsExpiry | distconf/internal/sweeper/sweeper.go:89-108 | Over any log, a sweep removes a key if and only if the put that wrote it is no later than the scan and gave it an expiry that had come then; a key put without expiry survives every sweep |
| OperationLaws.LeaseSweepNeedsExpiry | distconf/internal/sweeper/sweeper.go:110-129 | The same of a lease and the expiry its register or latest heartbeat gave |
| ReadLaws.KvProvenance | distconf/internal/store/store.go:171-178 | Every entry in the table is what the accepted put at its revision asked for |
| ReadLaws.LeaseProvenance | distconf/internal/store/store.go:239-277 | Every lease is what the register, or the accepted and guarded heartbeat on a live lease, at its revision left; a heartbeat changes only expiry and revision |
| ReadLaws.ReadsLatestPut | distconf/internal/store/store.go:141-150 | A reader sees the value of the put whose entry stands, exactly until its expiry |
| ReadLaws.EventsTellTruth | distconf/internal/store/store.go:180-232 | A PUT event shows the new entry; a DELETE or EXPIRED event shows the entry that was there and is gone, stamped with the index of the removal |
| Snapshots.ExportExists | distconf/internal/store/helpers.go:97-110 | Every state has an export |
| Snapshots.WireRoundTrip | distconf/internal/store/helpers.go:203-225 | Converting a snapshot to its wire form and back gives the same snapshot |
| Snapshots.RestoreGivesExported | distconf/internal/store/helpers.go:97-142 | Restoring an export, in whatever order the maps were walked, gives exactly the exported tables and revision |
| Snapshots.RestoreKvsExactly | distconf/internal/store/helpers.go:122-131 | Restoring any list of records, well formed or not: a key is there exactly if some record has it, and holds what the last such record says |
| Snapshots.SnapshotRoundTrip | distconf/internal/store/helpers.go:97-225 | Export, wire form, and restore give back exactly the exported tables |
| Views.PushIsAppend | distconf/internal/store/store.go:341-349 | Pushing into the bounded window is appending to the unbounded stream and keeping its last 100000 events |
| Views.EmitAllWindow | distconf/internal/store/store.go:330-349 | The window after emitting any events is the last 100000 of the stream with those events appended |
| HorizonLaws.RetainsLatest | distconf/internal/store/store.go:17-19 | A node retains exactly the events since its last restore that fewer than 100000 later ones follow |
| Views.ApplyKeepsNode | distconf/internal/repl/stream.go:45-52 | Applying the next entry, under any local clock that agrees where it matters, keeps the node on the global log with its window the tail of the history since its last restore |
| Views.RestoreKeepsNode | distconf/internal/store/helpers.go:112-151 | Restoring an export of the same log puts a node at the snapshot's index with an empty window and the right baseline, and an older one changes nothing |
| Views.NodeOnLongerLog | distconf/internal/repl/leader.go:118-118 | A node on a log is on every extension of it |
| Views.WindowIsTail | distconf/internal/store/store.go:376-384 | What the window does not show lies at or below the horizon, and the window is the rest of the history |
| Views.HorizonSound | distconf/internal/store/store.go:370-396 | If a watch from a positive cursor is accepted, its backlog is every matching event after that cursor: nothing after it was evicted or hidden by a restore |
| Views.SelectByFields | distconf/internal/store/store.go:359-364 | An event is selected if and only if it is there, lies after the cursor, is of the asked namespace, and of the asked key if one is asked |
| Views.HorizonGap | distconf/internal/store/store.go:374-384 | Nothing after a positive cursor is lost exactly from the newest hidden cursor on; of those cursors the ones below the horizon are refused |
| HorizonLaws.HorizonCompleteExactly | distconf/internal/store/store.go:374-384 | A node refuses no lossless cursor if and only if it has had neither event nor restore, or its window was cut inside a batch; every other node refuses one |
| HorizonLaws.LaterWatchExactly | distconf/internal/store/store.go:126-135 | A current cursor taken from a node and presented later, there or on another node of the same log, is accepted if and only if what is hidden by then is less than what the first node had seen (or, for a restore baseline, ends right where the cursor does); the backlog is then every matching event in between and nothing else |
| HorizonLaws.RefusesLossless | distconf/internal/store/store.go:127-127 | A node that restores a snapshot, hands out its current cursor and applies one more entry: nothing was ever lost, and it refuses that cursor |
| Views.CurrentSeqResumes | distconf/internal/store/store.go:126-135 | The current event cursor is at or above every event of the node; a watch opened from it before anything else happens is accepted with an empty backlog |
| Stores.RingAppend | distconf/internal/store/store.go:342-344 | Writing after the newest slot of a ring that is not full appends to the window, also across the wrap |
| Stores.RingOverwrite | distconf/internal/store/store.go:345-348 | Writing over the oldest slot of a full ring and moving the head drops the oldest event and appends the new one |
| Stores.Store.constructor | distconf/internal/store/store.go:105-114 | A new store is empty |
| Stores.Store.AppendEvent | distconf/internal/store/store.go:341-349 | The array ring refines the bounded window |
| Stores.Store.FanoutKv | distconf/internal/store/store.go:428-443 | Whatever order the map yields: a subscription of another namespace or key is unchanged; an open one of the event's namespace and key (or of the whole namespace) gets the event, or is closed if 256 events are waiting |
| Stores.Store.EmitKv | distconf/internal/store/store.go:328-339 | Window and subscriptions both receive the event, under the cursor of the entry's index and offset |
| Stores.Store.ApplyPut | distconf/internal/store/store.go:152-183 | The object's new state, events and answer are those of the state machine for this entry and clock reading |
| Stores.Store.ApplyDelete | distconf/internal/store/store.go:185-213 | A delete leaves the object in the state, and with the events and answer, that the state machine gives it, an absent or lapsed key included |
| Stores.Store.ApplyExpireKeys | distconf/internal/store/store.go:215-236 | The loop over a guarded batch removes, stamps, records and fans out exactly what the state machine says |
| Stores.Store.ApplyRegister | distconf/internal/store/store.go:238-259 | A register leaves the object in the state and with the answer the state machine gives it |
| Stores.Store.ApplyHeartbeat | distconf/internal/store/store.go:261-277 | A heartbeat renews or is refused as the state machine says, and touches no other lease |
| Stores.Store.ApplyExpireServices | distconf/internal/store/store.go:279-300 | The loop over a guarded batch removes exactly the leases the state machine says |
| Stores.Store.ApplyOne | distconf/internal/repl/repl.go:68-87 | One dispatch for leader and follower: state, events, fan-out and answer of any entry are those of the state machine |
| Stores.Store.Get | distconf/internal/store/store.go:141-150 | A lapsed entry reads as absent although it is still in the table |
| Stores.Store.WatchKV | distconf/internal/store/store.go:366-406 | Refuses a cursor before the horizon and changes nothing; otherwise returns exactly the retained events after the cursor whose namespace is the asked one and whose key is the asked one (any, if none is asked), and registers a fresh empty subscription |
| Stores.Store.Backlog | distconf/internal/store/store.go:386-396 | The loop over the ring collects exactly those events, across the wrap |
| Stores.Store.CloseKVWatcher | distconf/internal/store/store.go:418-426 | The subscription is closed with its queue as it was, and no other changes; closing twice is harmless |
| Views.ClosedIsSilent | distconf/internal/store/store.go:418-426 | Whatever is emitted after a close, the closed subscription is not fed and every other one is fed as it would have been |
| Stores.Store.CurrentEventSeq | distconf/internal/store/store.go:126-135 | Returns the newest retained cursor, or the baseline |
| Stores.Store.ExportSnapshot | distconf/internal/store/helpers.go:97-110 | Lists each entry of both tables exactly once, with the revision |
| Stores.Store.ExportKvs | distconf/internal/store/helpers.go:103-105 | The loop over the configuration table lists each entry exactly once, in any order |
| Stores.Store.ExportInsts | distconf/internal/store/helpers.go:106-108 | The loop over the lease table lists each entry exactly once, in any order |
| Stores.Store.RestoreSnapshot | distconf/internal/store/helpers.go:112-151 | An older snapshot is ignored; otherwise tables, revision and baseline are the snapshot's, the ring is empty and subscriptions are untouched |
| Stores.Store.ScanExpiredKVs | distconf/internal/store/helpers.go:168-180 | Lists exactly the keys with an expiry that has come, each once, guarded by its current revision; a key without expiry is never listed |
| Stores.Store.ScanExpiredInstances | distconf/internal/store/helpers.go:182-194 | Lists exactly the leases with an expiry that has come, each once, guarded by its current revision |
| Stores.Store.SweepKVs | distconf/internal/sweeper/sweeper.go:89-101 | Proposes nothing exactly when every key is without expiry or before it; otherwise proposes a batch that is a scan of the store |
| Stores.Store.SweepInstances | distconf/internal/sweeper/sweeper.go:110-123 | Proposes nothing exactly when every lease is without expiry or before it; otherwise proposes a batch that is a scan of the store |
| Stores.SnapshotToProto | distconf/internal/store/helpers.go:203-213 | The wire form carries the revision as last included index, term 1, and every record in order |
| Stores.SnapshotFromProto | distconf/internal/store/helpers.go:215-225 | The loops undo it |
| ServerWatch.SelectFrom | distconf/internal/store/store.go:386-396 | Resuming after a cursor selects the matching events beyond those at or below it |
| ServerWatch.RestAfterLast | distconf/internal/server/watch.go:64-71 | After sending a non-empty initial segment of the matching events, exactly the rest of them lies after the last cursor sent |
| WatchSafety.EmitAllFeeds | distconf/internal/store/store.go:428-443 | Whatever a node emits, a subscription that stays open receives all its matching events in order, one that is dropped a prefix of them, and none is dropped while its channel has room for all |
| WatchSafety.ApplyInv | distconf/internal/store/store.go:330-349 | The store applying an entry keeps the loop on target: sent, queued and buffered events are an initial segment of the matching stream, and all of it while subscribed |
| WatchSafety.RestoreInv | distconf/internal/store/helpers.go:112-151 | So does a restore that is safe for the loop |
| WatchSafety.SubscribeInv | distconf/internal/server/watch.go:64-71 | Re-subscribing with the last cursor sent leaves nothing out and repeats nothing |
| WatchSafety.OtherInv | distconf/internal/store/store.go:398-426 | Other watchers never affect the loop |
| WatchSafety.LocalInv | distconf/internal/server/watch.go:26-64 | The loop's own sending, receiving, closing and stopping keep it on target |
| WatchSafety.StepKeeps | distconf/internal/server/watch.go:19-73 | Every step of the loop or of its surroundings keeps the watch invariant |
| WatchSafety.WatchRunInv | distconf/internal/server/watch.go:19-73 | The watch invariant holds in every state of every run |
| WatchSafety.WatchExactlyOnce | distconf/internal/server/watch.go:9-73 | For a positive start cursor not ahead of the node, over any run of applies, overflow, detachment, re-subscription and safe restores: what was sent is in increasing order, is of the asked namespace and key and after the cursor, and everything of that kind before a sent event was sent before it; a loop waiting on a drained live channel has sent all of it |
| WatchSafety.WatchHasNoHoles | distconf/internal/server/watch.go:9-73 | For any start cursor what was sent is a contiguous stretch of the matching events that starts at or before the first unseen one |
| WatchSafety.RestoreSafeExactly | distconf/internal/store/helpers.go:112-151 | A restore keeps the watch invariant if and only if it does not take effect, the loop's subscription is not live, or no matching event is jumped over |
| WatchSafety.LiveRestoreLosesGap | distconf/internal/store/helpers.go:112-114 | After any other restore the next matching event is queued right behind what was there before: the events of the gap are silently lost |
| WatchLimits.LiveRestoreRun | distconf/internal/store/helpers.go:112-114 | A run from a new node: subscribe, restore a snapshot that holds the first put, apply the second; the watcher is sent the second event and never the first, although both match and lie after its cursor |
| WatchLimits.InOrderExactly | distconf/internal/store/store.go:398-404 | For a positive start cursor, what the loop sends is an initial segment of the matching events after the cursor in every run from a node, whatever is proposed later, if and only if the cursor is not ahead of the node |
| WatchLimits.AheadRun | distconf/internal/store/store.go:428-433 | From any node and any cursor ahead of it, a run in which the loop sends an event at or before the cursor |
| WatchLimits.DroppedLoopResumes | distconf/internal/server/watch.go:46-71 | A loop whose subscription was dropped, once it has drained the channel, subscribes again: it ends exactly if its last cursor lies before the horizon, and otherwise what it has sent and is about to send is everything owed so far, with a fresh live subscription for the rest |
| WatchLimits.GoneMeansSubscribing | distconf/internal/server/watch.go:36-44 | A loop whose subscription is gone when its backlog is sent goes back to subscribing, with nothing else changed |
| WatchLimits.StoppingCloses | distconf/internal/server/watch.go:28-60 | A loop that stops leaves its subscription closed and the data of the node as they were |
| ClusterWatch.ClusterWatchExactlyOnce | distconf/internal/server/watch.go:9-73 | The watch guarantee on a node of a running cluster, leader or follower: for a positive start cursor not ahead of the node, what was sent is an initial segment of the matching events after it of everything the cluster proposed and the node applied, and all of them when the loop waits on a drained live channel |
| ClusterWatch.ClusterRunInv | distconf/internal/server/watch.go:19-73 | In every state of cluster and loop together, the invariants of both hold and the loop sees the node's own store |
| ClusterWatch.ClusterIsRun | distconf/internal/server/watch.go:19-73 | The cluster under a watch loop takes only steps of the protocol, so all its safety theorems hold there |
| ClusterWatch.CommitFeeds | distconf/internal/repl/leader.go:172-176 | A commit round moves the leader's watch loop as a stretch of applied entries does |
| ClusterWatch.DeliveryFeeds | distconf/internal/repl/stream.go:40-55 | A message delivered to a follower moves its watch loop as an applied entry, a restore, or nothing |
| ClientWatch.PumpWatch | distconf/client/client.go:374-387 | Forwards a stream in order; the cursor is that of its last event, or unchanged if it had none |
| ClientWatch.WatchLoop | distconf/client/client.go:323-372 | Delivers the streams one after another; each is asked with the start cursor or that of the last event any earlier stream yielded |
| ClientWatch.FlattenExactly | distconf/client/client.go:338-349 | Every stream is delivered in full, right after those before it, and nothing else |
| ClientWatch.ServedIsIncreasing | distconf/client/client.go:348-348 | One stream is increasing, matching, and skips no matching event between its start and any of its events |
| ClientWatch.NextStream | distconf/client/client.go:338-349 | One more stream, from any node, opens no hole, even when it repeats events and moves the cursor back |
| ClientWatch.ClientHasNoHoles | distconf/client/client.go:310-372 | For a positive start cursor, however far behind each serving node is and wherever each stream breaks, every matching event between the start cursor and a delivered event was delivered before it |
| ClientWatch.NodeServes | distconf/internal/server/watch.go:19-73 | Any prefix of what a node's watch loop has sent at any moment of any run is such a stream of the log that eventually exists |
| ClientWatch.ClientAcrossNodes | distconf/client/client.go:310-387 | End to end: over any sequence of sessions, each a watch run of some node anywhere on one log, cut off at any moment and opened with the cursor the earlier ones reached, every received event is of the asked namespace and key, and every such event between the start cursor and a received one was received before it |
| Meter.LevelIsLeastSlack | gateway/ratelimit.py:56-68 | The level of a refilling meter is the least, over all runs of draws ending now, of what that run leaves of the capacity and the refill during it |
| Meter.NeverOvergrants | gateway/ratelimit.py:56-68 | No run of draws is granted more than the capacity and what refills during it |
| Meter.GrantsExactly | gateway/ratelimit.py:64-68 | A draw is granted exactly when no run of draws ending with it would exceed that bound |
| RateLimit.TokenBucket.constructor | gateway/ratelimit.py:50-54 | A bucket starts full |
| RateLimit.TokenBucket.Take | gateway/ratelimit.py:56-68 | Refills only for forward clock movement, then grants and subtracts or refuses and leaves the level: the step whose runs are characterised below |
| RateLimit.BucketIsMeter | gateway/ratelimit.py:56-68 | Under any clock readings the bucket is a meter credited with the rises of the running maximum of the clock |
| RateLimit.LatestIsMax | gateway/ratelimit.py:58-63 | The reading a bucket counts from is the greatest of all readings so far |
| RateLimit.BucketBound | gateway/ratelimit.py:56-68 | Over any run and sub-run of calls, with any clock readings, granted tokens never exceed the capacity plus the rate times the clock's advance during them |
| RateLimit.BucketGrantsExactly | gateway/ratelimit.py:56-68 | A call is granted exactly when no run of calls ending with it exceeds that bound |
| RateLimit.ScriptIsBucket | gateway/ratelimit.py:118-144 | On every non-decreasing call sequence the script decides as the in-process bucket does and stores its level |
| RateLimit.ScriptIsMeter | gateway/ratelimit.py:132-141 | Under any clock the script is a meter credited with every upward movement of the clock |
| RateLimit.ScriptBound | gateway/ratelimit.py:132-141 | It grants at most the capacity plus the rate times all upward movements, which for a non-decreasing clock is its advance |
| RateLimit.AdvanceBoundsExactly | gateway/ratelimit.py:132-141 | For given clock readings, grants stay within the capacity plus the rate times the clock's advance, for every limit, all amounts and every run of calls, if and only if the clock never rises again once it has stepped back |
| RateLimit.RisesArePeak | gateway/ratelimit.py:132-135 | Under such a clock the upward movements credited to a run of calls add up to exactly its advance |
| RateLimit.BackwardClockOvergrants | gateway/ratelimit.py:141-141 | Three calls under a clock that steps back get twice the capacity with no net advance |
| RateLimit.ExpiryInvisible | gateway/ratelimit.py:142-142 | If an idle key is full before it expires, expiry changes neither what is stored nor any decision |
| RateLimit.ExpiryUnobservableExactly | gateway/ratelimit.py:142-142 | Key expiry changes no decision on any non-decreasing sequence if and only if the rate times the time to live is at least the capacity |
| RateLimit.TtlExactly | gateway/ratelimit.py:142-142 | The time to live is the milliseconds a drained bucket takes to fill at no less than 0.0001 per second, rounded up, plus 5000 |
| RateLimit.ExpiryShows | gateway/ratelimit.py:142-142 | Otherwise draining the bucket and returning at expiry shows the difference |
| RateLimit.UsualRatesFillUp | gateway/ratelimit.py:142-142 | Every refill rate of at least 0.0001 per second meets the condition |
| RateLimit.ZeroRateShows | gateway/ratelimit.py:142-142 | A bucket that never refills does not, and there key expiry changes a decision |
| CircuitBreakers.CircuitBreaker.constructor | gateway/circuitbreaker.py:43-50 | A new breaker is CLOSED with no samples |
| CircuitBreakers.CircuitBreaker.PruneAndRate | gateway/circuitbreaker.py:56-63 | Keeps the samples within the window in order and returns their number and a rate which, times that number, is the number of failed ones among them; 0 for none |
| CircuitBreakers.CircuitBreaker.Allow | gateway/circuitbreaker.py:65-81 | The admission step whose runs are characterised below |
| CircuitBreakers.CircuitBreaker.RecordSuccess | gateway/circuitbreaker.py:83-94 | The success step of those runs |
| CircuitBreakers.CircuitBreaker.RecordFailure | gateway/circuitbreaker.py:96-113 | The failure step of those runs |
| CircuitBreakers.PruneTwice | gateway/circuitbreaker.py:57-58 | Pruning to an earlier cutoff first changes nothing for a later one |
| CircuitBreakers.EventsAreWindow | gateway/circuitbreaker.py:56-58 | The pruned list is exactly the window of all outcomes recorded outside HALF_OPEN since the last recovery |
| CircuitBreakers.KeepsRecentExactly | gateway/circuitbreaker.py:56-58 | The kept samples are the recent end of that record: every dropped one is older than the window, counted from the newest, and every kept one is not |
| CircuitBreakers.FailuresCounts | gateway/circuitbreaker.py:62-62 | The failure count is the number of failed samples |
| CircuitBreakers.RateIsShare | gateway/circuitbreaker.py:60-63 | The rate times the number of samples is the number of failed ones, and 0 for no samples |
| CircuitBreakers.TripsExactly | gateway/circuitbreaker.py:103-112 | CLOSED trips exactly on a failure whose window, itself included, holds at least min_requests samples of which the failed ones number at least failure_rate times all, and leaves CLOSED in no other way |
| CircuitBreakers.ClosedAdmits | gateway/circuitbreaker.py:69-70 | A closed breaker admits every request and stays as it is |
| CircuitBreakers.OpenHolds | gateway/circuitbreaker.py:71-77 | OPEN lasts and admits nothing while less than open_seconds have passed, whatever results come in |
| CircuitBreakers.FirstProbe | gateway/circuitbreaker.py:71-81 | After tripping, the first request that comes open_seconds or later is admitted as a probe and opens the HALF_OPEN episode, and no request before it is admitted |
| CircuitBreakers.RecoveryForgets | gateway/circuitbreaker.py:86-90 | Samples from before a recovery never trip the breaker again: after a successful probe it takes at least min_requests further calls |
| CircuitBreakers.IntoHalfOpen | gateway/circuitbreaker.py:71-81 | Only an allow leads to or stays in HALF_OPEN, and it takes a slot exactly when one is left |
| CircuitBreakers.EpisodeAdmits | gateway/circuitbreaker.py:78-81 | One HALF_OPEN episode admits at most half_open_max_calls requests: late results of earlier episodes free no slot in it |
| CircuitBreakers.EpisodeRefusesWhenFull | gateway/circuitbreaker.py:78-81 | Within an episode a request is refused only once that many have been admitted |

## Left out

- Process restart of leader or follower: all state is in memory, and a follower ahead of an empty leader breaks the slice bounds of Catchup (distconf/internal/repl/leader.go:240-242). Follower positions are at most the last index.
- Liveness: that commits eventually happen, that a HALF_OPEN breaker eventually leaves that state, that a watch eventually delivers. Progress.EverythingCanCommit and WatchLimits.DroppedLoopResumes say only that the steps for it exist.
- Service-watch snapshots, increments and fan-out (distconf/internal/store/store.go:255-257, 297-299, 471-519): the increments do not in general rebuild the live set, since a re-register over a lapsed lease emits nothing.
- Stores.Store.ApplyRegister: does not model the Added notification to service watchers (distconf/internal/store/store.go:255-257).
- Stores.Store.ApplyExpireServices: does not model the Removed notification to service watchers (distconf/internal/store/store.go:285-299).
- Discover and GetInstance: filters over the lease table.
- gRPC wiring, generated protobuf code, tokens, node assembly, leader hints, the command line and the client's Put, Get and Register retries: plumbing.
- distconf/internal/repl/broadcaster.go and follower.go: wake-up signals and a reconnect timer; steps may happen at any time instead.
- The push goroutines and receive goroutine of HandleStreamWithInitial and the server's watchLoop run concurrently with the store, so they are steps of transition systems (with the position, cursor, backlog and phase as their state), not loops; the `peers` map, which only decides whether an ending stream clears the acks, is covered by letting ResetStep happen at any time.
- The lock of each object: every method is one atomic step.
- Live channels are bounded sequences inside the subscription record. The code deletes a dropped subscription from its map while the consumer drains the closed channel; here the record stays, marked closed, and is fed nothing more.
- What a process does after a panic: a step that would emit 4096 events in one log index is not enabled in the transition systems, and the methods require that it does not happen; PanicLaws.PanicsExactly says when it would.
- Clock readings are parameters of the operations. The leader's reading at each index is an arbitrary function of the index.
- Machine integers: indices, revisions, cursors and times are unbounded.
- Floats: amounts, rates and times of the gateway are reals. Token amounts are at least 0, capacity is positive and the rate is not negative, as gateway/config.py:167 demands; half_open_max_calls is at least 1, as gateway/config.py:149 demands.
- Redis: a key is gone once its time to live has passed on the clock the callers use; the script is one atomic step.
- Log entries without an operation, the term (always 1), and a leader without a snapshot exporter (every node sets one).
- Deep copies of values and maps (cloneKV, cloneInstance, cloneMap): values are immutable here.
- gateway/proxy.py, app.py, config.py, logging_setup.py, loadbalancer.py, retry.py, statistics and snapshots of the limiters and breakers, mock upstreams, scripts and container files.
- Safety.ReachableCatchup: assumes that no entry of the log panics and that the follower's clock agrees wherever it matters, as the code needs.
- WatchSafety.WatchExactlyOnce: assumes that restores are safe for the loop (exact by WatchSafety.RestoreSafeExactly) and that the start cursor is positive and not ahead of the node (exact by WatchLimits.InOrderExactly); WatchSafety.WatchHasNoHoles drops the assumption about the cursor.
- ClusterWatch.ClusterWatchExactlyOnce: makes the same two assumptions.
