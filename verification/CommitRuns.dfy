/** The protocol's guarantees are not idle: from every reachable state whose next round
    panics nowhere a commit can happen, and there are runs that commit, answer and compact. */
module CommitRuns {
  import opened Types
  import opened StateMachine
  import opened StoreLaws
  import opened Snapshots
  import opened Views
  import opened Replication
  import opened Protocol
  import opened Safety

  /** A commit round is possible whenever none of the entries it would apply panics. */
  lemma CommitPossible(cfg: Config, clk: Clock, s: Sys) returns (snap: WireSnapshot)
    requires Inv(cfg, clk, s)
    ensures InWindow(s.leader, CommitPoint(cfg, s.leader))
    ensures RoundFits(s.leader, clk, CommitPoint(cfg, s.leader)) ==> Enabled(cfg, clk, s, CommitStep(snap))
  {
    hide Apply, NodeOk, SnapshotAt, IsExport, ApplyTo, RoundFits;
    ScanFindsLargest(cfg, s.leader.acked, s.leader.commit, LastIndex(s.leader));
    var all := ExportExists(ApplyTo(s.leader, clk, CommitPoint(cfg, s.leader)).st);
    snap := ToWire(all);
  }

  // ------------------------------------------------------------------
  // n proposals, all delivered to one follower, acknowledged and committed
  // ------------------------------------------------------------------

  const FOLLOWER := NodeId(2)

  /** An operation that is always accepted and never panics. */
  predicate Simple(op: Op) { op.Put? && op.expectedVersion == -1 }

  /** `n` times `op` proposed, nothing acknowledged, and a push goroutine at position 0. */
  ghost predicate Idle(s: Sys, op: Op, n: nat) {
    && |s.ops| == n && (forall i :: 0 <= i < n ==> s.ops[i] == op)
    && s.leader.compactIndex == 0 && s.leader.commit == 0 && s.leader.acked == map[]
    && s.answered == [] && s.abandoned == {}
    && 0 in s.pushers && s.pushers[0].to == FOLLOWER && s.pushers[0].last == 0
  }

  /** The follower has applied `i` entries and every entry is in flight. */
  ghost predicate Fed(s: Sys, op: Op, n: nat, i: nat) {
    && Idle(s, op, n) && FOLLOWER in s.nodes && s.nodes[FOLLOWER].st.rev == i
    && (forall j: nat :: 1 <= j <= n ==> InFlight(s, op, j))
    && (i > 0 ==> FromFollower(FOLLOWER, i) in s.net)
  }

  ghost predicate InFlight(s: Sys, op: Op, j: nat) { ToFollower(FOLLOWER, EntryPayload(LogEntry(j, op))) in s.net }

  ghost predicate IsAnswered(s: Sys, i: int) { exists a :: 0 <= a < |s.answered| && s.answered[a].index == i }

  lemma SimpleFits(s: State, i: int, op: Op, now: int)
    requires Simple(op)
    ensures Fits(Apply(s, LogEntry(i, op), now)) && Agrees(s, op, now, now)
  {
  }

  lemma {:induction false} Proposed(clk: Clock, op: Op, n: nat) returns (run: seq<Sys>, steps: seq<Step>)
    requires n >= 1
    ensures IsRun(THREE_NODES, clk, run, steps) && Idle(run[|steps|], op, n)
    ensures FOLLOWER in run[|steps|].nodes && run[|steps|].nodes[FOLLOWER] == NEW_VIEW
  {
    if n == 1 {
      run, steps := OpenedStream(clk, op);
    } else {
      run, steps := Proposed(clk, op, n - 1);
      var s := run[|steps|];
      hide IsRun;
      RunGrows(THREE_NODES, clk, run, steps, ProposeStep(op));
      run, steps := run + [Next(THREE_NODES, clk, s, ProposeStep(op))], steps + [ProposeStep(op)];
    }
  }

  lemma Tailed(clk: Clock, op: Op, n: nat) returns (run: seq<Sys>, steps: seq<Step>)
    requires n >= 1
    ensures IsRun(THREE_NODES, clk, run, steps) && Fed(run[|steps|], op, n, 0)
  {
    hide Apply, NodeOk, SnapshotAt, EffectAt;
    run, steps := Proposed(clk, op, n);
    var s := run[|steps|];
    RunInv(THREE_NODES, clk, run, steps, |steps|);
    assert Enabled(THREE_NODES, clk, s, TailStep(0));
    hide IsRun;
    RunGrows(THREE_NODES, clk, run, steps, TailStep(0));
    var s' := Next(THREE_NODES, clk, s, TailStep(0));
    forall j: nat | 1 <= j <= n ensures InFlight(s', op, j) {
      var ps := Payloads(EntriesAfter(s.leader, 0).value);
      assert s.leader.log[j - 1] == LogEntry(j, op);
      assert ps[j - 1] == EntryPayload(LogEntry(j, op));
    }
    run, steps := run + [s'], steps + [TailStep(0)];
  }

  lemma DeliverNext(clk: Clock, s: Sys, op: Op, n: nat, i: nat)
    requires Inv(THREE_NODES, clk, s) && Simple(op) && Fed(s, op, n, i) && i < n
    ensures var step := DeliverStep(FOLLOWER, EntryPayload(LogEntry(i + 1, op)), clk(i + 1));
            && Enabled(THREE_NODES, clk, s, step) && Fed(Next(THREE_NODES, clk, s, step), op, n, i + 1)
  {
    hide Apply, NodeOk, LeaderOk, NetOk, AnswersOk, EmitAll, Inv;
    var e := LogEntry(i + 1, op);
    assert InFlight(s, op, i + 1);
    SimpleFits(s.nodes[FOLLOWER].st, i + 1, op, clk(i + 1));
    SimpleMoves(s.nodes[FOLLOWER].st, i + 1, op, clk(i + 1));
    var step := DeliverStep(FOLLOWER, EntryPayload(e), clk(i + 1));
    var s' := Next(THREE_NODES, clk, s, step);
    assert Received(s.nodes[FOLLOWER], EntryPayload(e), clk(i + 1)).acks == [i + 1];
    assert FromFollower(FOLLOWER, i + 1) in s'.net;
    forall j: nat | 1 <= j <= n ensures InFlight(s', op, j) { assert InFlight(s, op, j); }
  }

  lemma SimpleMoves(s: State, i: int, op: Op, now: int)
    requires Simple(op)
    ensures Apply(s, LogEntry(i, op), now).state.rev == i
  {
  }

  lemma {:induction false} Delivered(clk: Clock, op: Op, n: nat, i: nat) returns (run: seq<Sys>, steps: seq<Step>)
    requires i <= n && n >= 1 && Simple(op)
    ensures IsRun(THREE_NODES, clk, run, steps) && Fed(run[|steps|], op, n, i)
  {
    hide IsRun, Enabled, Next, Inv, Fed, Simple;
    if i == 0 {
      run, steps := Tailed(clk, op, n);
    } else {
      var run0, steps0 := Delivered(clk, op, n, i - 1);
      run, steps := DeliverOne(clk, op, n, i - 1, run0, steps0);
    }
  }

  lemma DeliverOne(clk: Clock, op: Op, n: nat, i: nat, run0: seq<Sys>, steps0: seq<Step>)
    returns (run: seq<Sys>, steps: seq<Step>)
    requires i < n && Simple(op) && IsRun(THREE_NODES, clk, run0, steps0) && Fed(run0[|steps0|], op, n, i)
    ensures IsRun(THREE_NODES, clk, run, steps) && Fed(run[|steps|], op, n, i + 1)
  {
    hide IsRun, Enabled, Next, Inv, Fed, Simple;
    LastInv(THREE_NODES, clk, run0, steps0);
    var s := run0[|steps0|];
    DeliverNext(clk, s, op, n, i);
    var step := DeliverStep(FOLLOWER, EntryPayload(LogEntry(i + 1, op)), clk(i + 1));
    RunGrows(THREE_NODES, clk, run0, steps0, step);
    run, steps := run0 + [Next(THREE_NODES, clk, s, step)], steps0 + [step];
    LastInv(THREE_NODES, clk, run, steps);
  }

  lemma AckedIsPoint(clk: Clock, s: Sys, n: nat)
    requires Inv(THREE_NODES, clk, s) && |s.ops| == n && s.leader.acked == map[FOLLOWER := n] && s.leader.commit == 0 < n
    ensures CommitPoint(THREE_NODES, s.leader) == n
  {
    hide Apply, NodeOk, SnapshotAt, EffectAt;
    ScanFindsLargest(THREE_NODES, s.leader.acked, 0, n);
    assert FOLLOWER in Voters(THREE_NODES, s.leader.acked, n);
    SubsetSize({FOLLOWER}, Voters(THREE_NODES, s.leader.acked, n));
    assert |THREE_NODES.nodes| == 3;
    assert HasQuorum(THREE_NODES, s.leader.acked, n);
  }

  lemma SimpleRoundFits(clk: Clock, s: Sys, op: Op, n: nat)
    requires Inv(THREE_NODES, clk, s) && Simple(op) && |s.ops| == n && (forall i :: 0 <= i < n ==> s.ops[i] == op)
    requires InWindow(s.leader, n)
    ensures RoundFits(s.leader, clk, n)
  {
    hide Apply, NodeOk, SnapshotAt, EffectAt, Fits, ApplyTo;
    var l := s.leader;
    forall i | l.commit < i <= n ensures EntryFits(l, clk, i) {
      assert l.log[i - 1 - l.compactIndex] == LogEntry(i, op);
      SimpleFits(ApplyTo(l, clk, i - 1).st, i, op, clk(i));
    }
  }

  lemma Acked(clk: Clock, op: Op, n: nat) returns (run: seq<Sys>, steps: seq<Step>)
    requires n >= 1 && Simple(op)
    ensures IsRun(THREE_NODES, clk, run, steps)
    ensures var s := run[|steps|];
            && |s.ops| == n && (forall i :: 0 <= i < n ==> s.ops[i] == op)
            && s.leader.acked == map[FOLLOWER := n] && s.leader.commit == 0 && s.leader.compactIndex == 0 && s.abandoned == {}
  {
    run, steps := Delivered(clk, op, n, n);
    hide IsRun;
    var s := run[|steps|];
    RunGrows(THREE_NODES, clk, run, steps, AckStep(FOLLOWER, n));
    run, steps := run + [Next(THREE_NODES, clk, s, AckStep(FOLLOWER, n))], steps + [AckStep(FOLLOWER, n)];
  }

  /** For every `n` there is a run in which `n` proposals are committed and answered, and
      beyond 10000 of them the log is compacted away entirely. */
  lemma CommittingRun(clk: Clock, op: Op, n: nat) returns (run: seq<Sys>, steps: seq<Step>)
    requires n >= 1 && Simple(op)
    ensures IsRun(THREE_NODES, clk, run, steps)
    ensures var s := run[|steps|];
            && |s.ops| == n && s.leader.commit == n
            && (forall i :: 1 <= i <= n ==> IsAnswered(s, i))
            && s.leader.compactIndex == (if n > 10_000 then n else 0)
            && (n > 10_000 ==> s.leader.savedSnap.Some? && s.leader.log == [])
  {
    hide Apply, IsRun, Enabled, NodeOk, SnapshotAt, EffectAt, SignalsTo, CommitPoint, ApplyTo, Inv;
    run, steps := Acked(clk, op, n);
    LastInv(THREE_NODES, clk, run, steps);
    var s := run[|steps|];
    AckedIsPoint(clk, s, n);
    var snap := CommitPossible(THREE_NODES, clk, s);
    SimpleRoundFits(clk, s, op, n);
    RunGrows(THREE_NODES, clk, run, steps, CommitStep(snap));
    var s' := Next(THREE_NODES, clk, s, CommitStep(snap));
    run, steps := run + [s'], steps + [CommitStep(snap)];
    LastInv(THREE_NODES, clk, run, steps);
    EveryoneAnswered(THREE_NODES, clk, run, steps);
    RoundResult(THREE_NODES, clk, s, snap, n);
  }

  lemma LastInv(cfg: Config, clk: Clock, run: seq<Sys>, steps: seq<Step>)
    requires IsRun(cfg, clk, run, steps)
    ensures |run| == |steps| + 1 && Inv(cfg, clk, run[|steps|])
  {
    hide Init, Inv, Enabled, Next;
    RunInv(cfg, clk, run, steps, |steps|);
  }

  lemma EveryoneAnswered(cfg: Config, clk: Clock, run: seq<Sys>, steps: seq<Step>)
    requires IsRun(cfg, clk, run, steps)
    ensures |run| == |steps| + 1
    ensures var s := run[|steps|];
            forall i :: 1 <= i <= s.leader.commit && i !in s.abandoned ==> IsAnswered(s, i)
  {
    hide Init, Enabled, Next;
    ProposalsAreSerial(cfg, clk, run, steps, |steps|, |steps|);
  }

  lemma RoundResult(cfg: Config, clk: Clock, s: Sys, snap: WireSnapshot, n: nat)
    requires Inv(cfg, clk, s) && Enabled(cfg, clk, s, CommitStep(snap)) && |s.ops| == n
    requires CommitPoint(cfg, s.leader) == n > 0 == s.leader.commit == s.leader.compactIndex
    ensures var s' := Next(cfg, clk, s, CommitStep(snap));
            && s'.ops == s.ops && s'.abandoned == s.abandoned && s'.leader.commit == n
            && s'.leader.compactIndex == (if n > RETAIN_ENTRIES then n else 0)
            && (n > RETAIN_ENTRIES ==> s'.leader.savedSnap.Some? && s'.leader.log == [])
  {
    hide Apply, NodeOk, SnapshotAt, EffectAt, SignalsTo, ApplyTo, CommitPoint, RoundFits;
    LeaderOf(cfg, clk, s);
    LeaderHolds(s.leader, s.ops, clk);
  }
}
