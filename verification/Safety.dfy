/** What the replication protocol guarantees over every run. */
module Safety {
  import opened Types
  import opened StateMachine
  import opened StoreLaws
  import opened TableLaws
  import opened ReadLaws
  import opened Snapshots
  import opened Views
  import opened Replication
  import opened Protocol

  ghost predicate IsRun(cfg: Config, clk: Clock, run: seq<Sys>, steps: seq<Step>) {
    && |run| == |steps| + 1 && Init(cfg, run[0])
    && forall i :: 0 <= i < |steps| ==>
         Enabled(cfg, clk, run[i], steps[i]) && run[i + 1] == Next(cfg, clk, run[i], steps[i])
  }

  lemma {:induction false} RunInv(cfg: Config, clk: Clock, run: seq<Sys>, steps: seq<Step>, i: nat)
    requires IsRun(cfg, clk, run, steps) && i < |run|
    ensures Inv(cfg, clk, run[i])
  {
    hide Init, Inv, Enabled, Next;
    if i == 0 {
      InitInv(cfg, clk, run[0]);
    } else {
      RunInv(cfg, clk, run, steps, i - 1);
      assert Enabled(cfg, clk, run[i - 1], steps[i - 1]) && run[i] == Next(cfg, clk, run[i - 1], steps[i - 1]);
      StepInv(cfg, clk, run[i - 1], steps[i - 1]);
    }
  }

  /** What later states keep of earlier ones. */
  ghost predicate Continues(s: Sys, s': Sys) {
    && s.ops <= s'.ops && s.leader.commit <= s'.leader.commit && s.answered <= s'.answered
    && s.nodes.Keys == s'.nodes.Keys
    && forall id :: id in s.nodes ==> s.nodes[id].st.rev <= s'.nodes[id].st.rev
  }

  lemma StepContinues(cfg: Config, clk: Clock, s: Sys, step: Step)
    requires Inv(cfg, clk, s) && Enabled(cfg, clk, s, step)
    ensures Continues(s, Next(cfg, clk, s, step))
  {
    hide Apply, NodeOk, EffectAt, MajorityHolds, SnapshotAt, Received, PayloadOk, CommitRound, ApplyTo, SignalsTo;
    match step {
      case DeliverStep(id, p, now) =>
        assert MsgOk(ToFollower(id, p), s, clk);
        ReceivedOk(s.ops, clk, s.nodes[id], p, now);
      case CommitStep(snap) =>
        CommitLeader(cfg, clk, s.leader, s.ops, snap);
      case _ =>
    }
  }

  lemma {:induction false} RunContinues(cfg: Config, clk: Clock, run: seq<Sys>, steps: seq<Step>, i: nat, j: nat)
    requires IsRun(cfg, clk, run, steps) && i <= j < |run|
    ensures Continues(run[i], run[j])
    decreases j
  {
    hide Init, Inv, Enabled, Next;
    if i < j {
      RunContinues(cfg, clk, run, steps, i, j - 1);
      RunInv(cfg, clk, run, steps, j - 1);
      assert Enabled(cfg, clk, run[j - 1], steps[j - 1]) && run[j] == Next(cfg, clk, run[j - 1], steps[j - 1]);
      StepContinues(cfg, clk, run[j - 1], steps[j - 1]);
    }
  }

  /** The tables and revision of the leader (`id == cfg.self`) or of a follower. */
  function StoreOf(cfg: Config, s: Sys, id: NodeId): State
    requires id == cfg.self || id in s.nodes
  {
    if id == cfg.self then s.leader.view.st else s.nodes[id].st
  }

  /** Under loss, duplication, reordering, resets, reconnects and compaction, every
      node at every moment holds the fold of exactly the operations it has applied;
      nodes that have applied equally many hold the same tables, even at different
      moments; and the retained events are the tail of the global event stream. */
  lemma ReplicasAgree(cfg: Config, clk: Clock, run: seq<Sys>, steps: seq<Step>, i: nat, id: NodeId, j: nat, id': NodeId)
    requires IsRun(cfg, clk, run, steps) && i <= j < |run|
    requires (id == cfg.self || id in run[i].nodes) && (id' == cfg.self || id' in run[j].nodes)
    ensures var a, b := StoreOf(cfg, run[i], id), StoreOf(cfg, run[j], id');
            && 0 <= a.rev <= |run[i].ops| && a == RunTo(run[i].ops, clk, a.rev)
            && (a.rev == b.rev ==> a == b)
    ensures id in run[i].nodes ==> NodeOk(run[i].nodes[id], run[i].ops, clk)
  {
    hide Apply, NodeOk, EffectAt;
    RunInv(cfg, clk, run, steps, i);
    RunInv(cfg, clk, run, steps, j);
    RunContinues(cfg, clk, run, steps, i, j);
    var a, b := StoreOf(cfg, run[i], id), StoreOf(cfg, run[j], id');
    NodeAt(if id == cfg.self then run[i].leader.view else run[i].nodes[id], run[i].ops, clk);
    NodeAt(if id' == cfg.self then run[j].leader.view else run[j].nodes[id'], run[j].ops, clk);
    FoldOfPrefix(run[i].ops, run[j].ops, clk, a.rev);
  }

  /** Whatever index is committed at some moment is, from then on, the same
      operation, held by the leader and applied by enough followers for a majority. */
  lemma CommittedStaysHeld(cfg: Config, clk: Clock, run: seq<Sys>, steps: seq<Step>, i: nat, j: nat, idx: nat)
    requires IsRun(cfg, clk, run, steps) && i <= j < |run| && 1 <= idx <= run[i].leader.commit
    ensures idx <= |run[i].ops| <= |run[j].ops| && run[j].ops[idx - 1] == run[i].ops[idx - 1]
    ensures idx <= run[j].leader.commit && idx <= LastIndex(run[j].leader)
    ensures MajorityHolds(cfg, run[j].nodes, idx)
  {
    hide Apply, NodeOk, EffectAt, SnapshotAt;
    RunInv(cfg, clk, run, steps, i);
    RunInv(cfg, clk, run, steps, j);
    RunContinues(cfg, clk, run, steps, i, j);
    SubsetSize(Holders(cfg, run[j].nodes, run[j].leader.commit), Holders(cfg, run[j].nodes, idx));
  }

  /** Any two majorities of one cluster share a node. */
  lemma MajoritiesMeet<T>(nodes: set<T>, a: set<T>, b: set<T>)
    requires a <= nodes && b <= nodes && |a| >= Quorum(|nodes|) && |b| >= Quorum(|nodes|)
    ensures a * b != {}
  {
    if a * b == {} {
      SubsetSize(a + b, nodes);
    }
  }

  /** A committed index is visible in every majority: any quorum of nodes has one that has
      applied it. */
  lemma CommittedInEveryMajority(
    cfg: Config, clk: Clock, run: seq<Sys>, steps: seq<Step>, i: nat, idx: nat, q: set<NodeId>) returns (id: NodeId)
    requires IsRun(cfg, clk, run, steps) && i < |run| && 1 <= idx <= run[i].leader.commit
    requires cfg.self in cfg.nodes && q <= cfg.nodes && |q| >= Quorum(|cfg.nodes|)
    ensures id in q && (id == cfg.self || id in run[i].nodes)
    ensures idx <= StoreOf(cfg, run[i], id).rev <= |run[i].ops|
    ensures StoreOf(cfg, run[i], id) == RunTo(run[i].ops, clk, StoreOf(cfg, run[i], id).rev)
  {
    hide Apply, NodeOk, EffectAt, MajorityHolds;
    var s := run[i];
    CommittedStaysHeld(cfg, clk, run, steps, i, i, idx);
    RunInv(cfg, clk, run, steps, i);
    var holders := Holders(cfg, s.nodes, idx);
    assert |holders + {cfg.self}| >= Quorum(|cfg.nodes|) by { MajorityAsSet(cfg, s.nodes, idx); }
    MajoritiesMeet(cfg.nodes, holders + {cfg.self}, q);
    id :| id in (holders + {cfg.self}) * q;
    ReplicasAgree(cfg, clk, run, steps, i, id, i, id);
  }

  lemma MajorityAsSet(cfg: Config, nodes: map<NodeId, View>, idx: int)
    requires MajorityHolds(cfg, nodes, idx)
    ensures |Holders(cfg, nodes, idx) + {cfg.self}| >= Quorum(|cfg.nodes|)
  {
    assert cfg.self !in Holders(cfg, nodes, idx);
  }

  /** Proposals are serial: an answer, once given, is the outcome of the proposer's
      own entry in the serial fold of the final log, concerns a committed entry, and
      is given once; and every committed proposal that was not given up is answered. */
  lemma ProposalsAreSerial(cfg: Config, clk: Clock, run: seq<Sys>, steps: seq<Step>, i: nat, j: nat)
    requires IsRun(cfg, clk, run, steps) && i <= j < |run|
    ensures forall a :: 0 <= a < |run[i].answered| ==>
              && 1 <= run[i].answered[a].index <= run[i].leader.commit <= |run[j].ops|
              && run[i].answered[a].outcome == EffectAt(run[j].ops, clk, run[i].answered[a].index).outcome
    ensures forall a, b :: 0 <= a < b < |run[i].answered| ==> run[i].answered[a].index < run[i].answered[b].index
    ensures forall idx :: 1 <= idx <= run[i].leader.commit && idx !in run[i].abandoned ==>
              exists a :: 0 <= a < |run[i].answered| && run[i].answered[a].index == idx
  {
    hide Apply, NodeOk, EffectAt, SnapshotAt;
    RunInv(cfg, clk, run, steps, i);
    RunInv(cfg, clk, run, steps, j);
    RunContinues(cfg, clk, run, steps, i, j);
    forall a | 0 <= a < |run[i].answered|
      ensures run[i].answered[a].outcome == EffectAt(run[j].ops, clk, run[i].answered[a].index).outcome
    {
      FoldOfPrefix(run[i].ops, run[j].ops, clk, run[i].answered[a].index);
    }
  }

  /** An acknowledged put is durable: every node that has applied it, then or later, shows the
      very record the proposer was answered, or a newer one, or has removed it since; and a
      node that has applied exactly up to it shows it. */
  lemma AnsweredPutIsDurable(
    cfg: Config, clk: Clock, run: seq<Sys>, steps: seq<Step>, i: nat, j: nat, a: nat, id: NodeId)
    requires IsRun(cfg, clk, run, steps) && i <= j < |run| && a < |run[i].answered|
    requires id == cfg.self || id in run[j].nodes
    requires 1 <= run[i].answered[a].index <= |run[i].ops|
    requires run[i].ops[run[i].answered[a].index - 1].Put? && run[i].answered[a].outcome.err.None?
    requires StoreOf(cfg, run[j], id).rev >= run[i].answered[a].index
    ensures var idx, out, st := run[i].answered[a].index, run[i].answered[a].outcome, StoreOf(cfg, run[j], id);
            var k := run[i].ops[idx - 1].k;
            && out.kv.Some? && out.kv.value.revision == idx
            && (k in st.kvs && st.kvs[k].revision <= idx ==> KvToWire(k, st.kvs[k]) == out.kv.value)
            && (st.rev == idx ==> k in st.kvs && KvToWire(k, st.kvs[k]) == out.kv.value)
  {
    hide Apply, NodeOk, EffectAt, RunTo, IsRun;
    ProposalsAreSerial(cfg, clk, run, steps, i, j);
    ReplicasAgree(cfg, clk, run, steps, j, id, j, id);
    RunContinues(cfg, clk, run, steps, i, j);
    var idx, st, ops := run[i].answered[a].index, StoreOf(cfg, run[j], id), run[j].ops;
    var k := ops[idx - 1].k;
    AnswersTellTruth(ops, clk, idx);
    if k in st.kvs && st.kvs[k].revision <= idx { KvStoodSince(ops, clk, st.rev, k, idx); }
  }

  /** Compaction is invisible: the window is always the tail of everything proposed,
      the saved snapshot restores to the state at the cut, commit, applied and the
      leader's revision coincide, and every position a push goroutine can hold is
      one that Catchup and EntriesAfter can slice at. */
  lemma CompactionInvisible(cfg: Config, clk: Clock, run: seq<Sys>, steps: seq<Step>, i: nat)
    requires IsRun(cfg, clk, run, steps) && i < |run|
    ensures var s := run[i];
            && WindowHolds(s.leader, s.ops)
            && s.leader.compactIndex <= s.leader.commit == s.leader.applied == s.leader.view.st.rev <= |s.ops|
            && (s.leader.savedSnap.Some? ==>
                  Restored(FromWire(s.leader.savedSnap.value)) == RunTo(s.ops, clk, s.leader.compactIndex))
            && (forall sid :: sid in s.pushers ==> s.pushers[sid].last <= LastIndex(s.leader))
            && InWindow(s.leader, CommitPoint(cfg, s.leader))
  {
    hide Apply, NodeOk, EffectAt;
    RunInv(cfg, clk, run, steps, i);
    var l := run[i].leader;
    ScanFindsLargest(cfg, l.acked, l.commit, LastIndex(l));
    if l.savedSnap.Some? {
      var snap :| l.savedSnap.value == ToWire(snap) && IsExport(snap, RunTo(run[i].ops, clk, l.compactIndex));
      SnapshotRoundTrip(snap, RunTo(run[i].ops, clk, l.compactIndex));
    }
  }

  /** From any reachable state, an undisturbed catch-up brings any follower to the
      fold of everything proposed. */
  lemma ReachableCatchup(
    cfg: Config, clk: Clock, run: seq<Sys>, steps: seq<Step>, i: nat, id: NodeId, now: Clock, spare: WireSnapshot)
    requires IsRun(cfg, clk, run, steps) && i < |run| && id in run[i].nodes
    requires FitsTo(run[i].ops, clk, |run[i].ops|) && Synchronous(run[i].ops, clk, now)
    requires ExportedFrom(spare, run[i].leader.view.st)
    ensures var v := run[i].nodes[id];
            && v.st.rev <= LastIndex(run[i].leader)
            && var f := StreamFrom(v, CatchupPayloads(run[i].leader, v.st.rev, spare), now);
               !f.gap && f.view.st == RunTo(run[i].ops, clk, |run[i].ops|)
  {
    hide Apply, NodeOk, EffectAt, ReceiveAll, Synchronous;
    RunInv(cfg, clk, run, steps, i);
    NodeAt(run[i].nodes[id], run[i].ops, clk);
    NodeAt(run[i].leader.view, run[i].ops, clk);
    assert SnapshotAt(spare, run[i].ops, clk, run[i].leader.commit);
    CatchupEqualsReplay(run[i].leader, run[i].ops, clk, run[i].nodes[id], now, spare);
  }

  /** A sweep batch scanned from the leader's store at one moment and applied at a later
      index, by whichever node, removes a key exactly when it still holds the value that
      had lapsed at the scan: whatever was put in between survives. */
  lemma SweepIsSafe(
    cfg: Config, clk: Clock, run: seq<Sys>, steps: seq<Step>, i: nat, j: nat, n: nat, now: int, k: MapKey)
    requires IsRun(cfg, clk, run, steps) && i <= j < |run| && run[i].leader.commit < n <= |run[j].ops|
    requires run[j].ops[n - 1].ExpireKeys? && IsKvScan(run[j].ops[n - 1].keys, run[i].leader.view.st, now)
    requires k in RunTo(run[j].ops, clk, n - 1).kvs
    ensures var scanned, before := run[i].leader.view.st.kvs, RunTo(run[j].ops, clk, n - 1).kvs;
            && (k !in RunTo(run[j].ops, clk, n).kvs
                <==> k in scanned && scanned[k].expireAtMs != 0 && scanned[k].expireAtMs <= now && before[k] == scanned[k])
            && (before[k].revision > run[i].leader.commit ==> k in RunTo(run[j].ops, clk, n).kvs)
  {
    hide Apply, NodeOk, RunTo, IsKvScan;
    RunInv(cfg, clk, run, steps, i);
    RunContinues(cfg, clk, run, steps, i, j);
    NodeAt(run[i].leader.view, run[i].ops, clk);
    FoldOfPrefix(run[i].ops, run[j].ops, clk, run[i].leader.commit);
    KvSweepExact(run[j].ops, clk, run[i].leader.commit, n, now, k);
  }

  /** The same for leases: whatever was registered again or heartbeated in between survives. */
  lemma LeaseSweepIsSafe(
    cfg: Config, clk: Clock, run: seq<Sys>, steps: seq<Step>, i: nat, j: nat, n: nat, now: int, k: SvcKey)
    requires IsRun(cfg, clk, run, steps) && i <= j < |run| && run[i].leader.commit < n <= |run[j].ops|
    requires run[j].ops[n - 1].ExpireServices? && IsInstScan(run[j].ops[n - 1].services, run[i].leader.view.st, now)
    requires k in RunTo(run[j].ops, clk, n - 1).instances
    ensures var scanned, before := run[i].leader.view.st.instances, RunTo(run[j].ops, clk, n - 1).instances;
            && (k !in RunTo(run[j].ops, clk, n).instances
                <==> k in scanned && scanned[k].expireAtMs != 0 && scanned[k].expireAtMs <= now && before[k] == scanned[k])
            && (before[k].revision > run[i].leader.commit ==> k in RunTo(run[j].ops, clk, n).instances)
  {
    hide Apply, NodeOk, RunTo, IsInstScan;
    RunInv(cfg, clk, run, steps, i);
    RunContinues(cfg, clk, run, steps, i, j);
    NodeAt(run[i].leader.view, run[i].ops, clk);
    FoldOfPrefix(run[i].ops, run[j].ops, clk, run[i].leader.commit);
    InstSweepExact(run[j].ops, clk, run[i].leader.commit, n, now, k);
  }

  // ------------------------------------------------------------------
  // Followers apply before commit
  // ------------------------------------------------------------------

  /** A follower's tables and revision are those of some committed prefix exactly when it
      has not run ahead of the commit point. */
  lemma CommittedPrefixExactly(cfg: Config, clk: Clock, run: seq<Sys>, steps: seq<Step>, i: nat, id: NodeId)
    requires IsRun(cfg, clk, run, steps) && i < |run| && id in run[i].nodes
    ensures var s := run[i];
            s.leader.commit <= |s.ops| &&
            ((exists c: nat :: c <= s.leader.commit && s.nodes[id].st == RunTo(s.ops, clk, c))
             <==> s.nodes[id].st.rev <= s.leader.commit)
  {
    hide Apply, NodeOk, EffectAt;
    RunInv(cfg, clk, run, steps, i);
    var s := run[i];
    NodeAt(s.nodes[id], s.ops, clk);
    forall c: nat | c <= s.leader.commit ensures RunTo(s.ops, clk, c).rev == c { RunRev(s.ops, clk, c); }
    if s.nodes[id].st.rev <= s.leader.commit {
      assert s.nodes[id].st == RunTo(s.ops, clk, s.nodes[id].st.rev);
    }
  }

  /** And what a reader sees gives it away: a follower that holds an entry newer than the
      commit point shows the tables of no committed prefix. */
  lemma NewerEntryShows(
    cfg: Config, clk: Clock, run: seq<Sys>, steps: seq<Step>, i: nat, id: NodeId, c: nat, k: MapKey, sk: SvcKey)
    requires IsRun(cfg, clk, run, steps) && i < |run| && id in run[i].nodes && c <= run[i].leader.commit
    ensures c <= |run[i].ops|
    ensures var s, st := run[i], run[i].nodes[id].st;
            && (k in st.kvs && st.kvs[k].revision > s.leader.commit ==> RunTo(s.ops, clk, c).kvs != st.kvs)
            && (sk in st.instances && st.instances[sk].revision > s.leader.commit ==>
                  RunTo(s.ops, clk, c).instances != st.instances)
  {
    hide Apply, NodeOk, EffectAt;
    RunInv(cfg, clk, run, steps, i);
    RunWellFormed(run[i].ops, clk, c);
  }

  const THREE_NODES := Config({NodeId(1), NodeId(2), NodeId(3)}, NodeId(1))

  lemma RunGrows(cfg: Config, clk: Clock, run: seq<Sys>, steps: seq<Step>, step: Step)
    requires IsRun(cfg, clk, run, steps) && Enabled(cfg, clk, run[|steps|], step)
    ensures IsRun(cfg, clk, run + [Next(cfg, clk, run[|steps|], step)], steps + [step])
  {
    hide Init, Enabled, Next;
  }

  lemma FirstDelivery(clk: Clock, s: Sys, e: LogEntry)
    requires e.index == 1 && e.op.Put? && e.op.expectedVersion == -1
    requires NodeId(2) in s.nodes && s.nodes[NodeId(2)] == NEW_VIEW && ToFollower(NodeId(2), EntryPayload(e)) in s.net
    ensures Enabled(THREE_NODES, clk, s, DeliverStep(NodeId(2), EntryPayload(e), 0))
    ensures var s' := Next(THREE_NODES, clk, s, DeliverStep(NodeId(2), EntryPayload(e), 0));
            NodeId(2) in s'.nodes && e.op.k in s'.nodes[NodeId(2)].st.kvs && s'.leader == s.leader
  {
    assert Apply(EMPTY_STATE, e, 0).state.kvs == map[e.op.k := KvEntry(e.op.value, 1, 1, e.op.ttlMs, e.op.expireAtMs)];
    assert !ClockMatters(EMPTY_STATE, e.op);
  }

  lemma OpenedStream(clk: Clock, op: Op) returns (run: seq<Sys>, steps: seq<Step>)
    ensures IsRun(THREE_NODES, clk, run, steps)
    ensures var s := run[|steps|];
            && s.leader.log == [LogEntry(1, op)] && s.leader.compactIndex == 0 && s.leader.commit == 0
            && s.ops == [op] && s.leader.acked == map[] && s.answered == [] && s.abandoned == {}
            && 0 in s.pushers && s.pushers[0] == Pusher(NodeId(2), 0, 0)
            && NodeId(2) in s.nodes && s.nodes[NodeId(2)] == NEW_VIEW
  {
    hide Apply, IsRun, Receive;
    var cfg := THREE_NODES;
    var s0 := Sys(NEW_LEADER, map id | id in Followers(cfg) :: NEW_VIEW, map[], {}, [], [], {});
    assert NodeId(2) in Followers(cfg);
    FirstState(cfg, clk, s0);
    run, steps := [s0], [];
    var s1 := Next(cfg, clk, s0, ProposeStep(op));
    RunGrows(cfg, clk, run, steps, ProposeStep(op));
    run, steps := run + [s1], steps + [ProposeStep(op)];
    var s2 := Next(cfg, clk, s1, ReportStep(NodeId(2)));
    RunGrows(cfg, clk, run, steps, ReportStep(NodeId(2)));
    run, steps := run + [s2], steps + [ReportStep(NodeId(2))];
    assert FromFollower(NodeId(2), 0) in s2.net;
    var s3 := Next(cfg, clk, s2, OpenStreamStep(0, NodeId(2), 0));
    RunGrows(cfg, clk, run, steps, OpenStreamStep(0, NodeId(2), 0));
    run, steps := run + [s3], steps + [OpenStreamStep(0, NodeId(2), 0)];
  }

  /** And it can run ahead: a follower of three shows a value nobody else has
      acknowledged, so "a read is always some committed prefix" fails. */
  lemma FollowerAheadOfCommit(clk: Clock, k: MapKey, v: seq<byte>) returns (run: seq<Sys>, steps: seq<Step>)
    ensures IsRun(THREE_NODES, clk, run, steps)
    ensures var s := run[|run| - 1];
            NodeId(2) in s.nodes && k in s.nodes[NodeId(2)].st.kvs && s.leader.commit == 0
  {
    hide Apply, Receive, Init;
    var e := LogEntry(1, Put(k, v, 0, 0, -1));
    run, steps := OpenedStream(clk, e.op);
    var s3 := run[|steps|];
    assert Enabled(THREE_NODES, clk, s3, TailStep(0));
    var s4 := Next(THREE_NODES, clk, s3, TailStep(0));
    RunGrows(THREE_NODES, clk, run, steps, TailStep(0));
    run, steps := run + [s4], steps + [TailStep(0)];
    assert Payloads(EntriesAfter(s3.leader, 0).value)[0] == EntryPayload(e);
    assert ToFollower(NodeId(2), EntryPayload(e)) in s4.net;
    FirstDelivery(clk, s4, e);
    var last := DeliverStep(NodeId(2), EntryPayload(e), 0);
    RunGrows(THREE_NODES, clk, run, steps, last);
    run, steps := run + [Next(THREE_NODES, clk, s4, last)], steps + [last];
  }

  lemma FirstState(cfg: Config, clk: Clock, s: Sys)
    requires Init(cfg, s)
    ensures IsRun(cfg, clk, [s], [])
  {
  }
}
