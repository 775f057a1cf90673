/** A watch loop on one node of a running cluster. The node's store is moved by the
    replication protocol, the loop by its own steps; the theorems of both systems hold of
    the two together. */
module ClusterWatch {
  import opened Types
  import opened StateMachine
  import opened StoreLaws
  import opened Snapshots
  import opened Views
  import opened Replication
  import P = Protocol
  import opened Safety
  import opened ServerWatch
  import opened WatchSafety

  /** The node that serves the watch, and the request. */
  datatype Place = Place(cfg: Config, clk: Clock, id: NodeId, rq: Request)

  datatype Cluster = Cluster(sys: P.Sys, watch: Watch)

  datatype ClusterStep = SystemStep(p: P.Step) | LoopStep(l: WatchStep)

  function ViewOf(at: Place, s: P.Sys): View
    requires at.id == at.cfg.self || at.id in s.nodes
  {
    if at.id == at.cfg.self then s.leader.view else s.nodes[at.id]
  }

  ghost predicate Joined(at: Place, c: Cluster) {
    (at.id == at.cfg.self || at.id in c.sys.nodes) && c.watch.view == ViewOf(at, c.sys)
  }

  /** A restore that is delivered to the node must be safe for the loop. */
  ghost predicate SafeDelivery(at: Place, c: Cluster, p: P.Step) {
    p.DeliverStep? && p.id == at.id && p.p.SnapshotPayload? ==>
      RestoreSafe(c.watch, at.rq, c.sys.ops, at.clk, p.p.snap.lastIncludedIndex)
  }

  ghost predicate MayStep(at: Place, c: Cluster, step: ClusterStep) {
    match step
    case SystemStep(p) =>
      P.Enabled(at.cfg, at.clk, c.sys, p) && !(p.WatchStep? && p.id == at.id) && SafeDelivery(at, c, p)
    case LoopStep(l) =>
      !l.ApplyStep? && !l.RestoreStep? && NodeOk(c.watch.view, c.sys.ops, at.clk) && Possible(c.watch, c.sys.ops, at.clk, l)
  }

  /** A step of the protocol moves the node under the loop; a step of the loop changes
      nothing of the cluster but the node's subscriptions. */
  ghost predicate StepTo(at: Place, c: Cluster, step: ClusterStep, c': Cluster)
    requires MayStep(at, c, step)
  {
    match step
    case SystemStep(p) =>
      && c'.sys == P.Next(at.cfg, at.clk, c.sys, p)
      && (at.id == at.cfg.self || at.id in c'.sys.nodes)
      && c'.watch == c.watch.(view := ViewOf(at, c'.sys))
    case LoopStep(l) =>
      && c'.watch == Next(c.watch, at.rq, c.sys.ops, at.clk, l)
      && P.Enabled(at.cfg, at.clk, c.sys, SubsStep(at, c'))
      && c'.sys == P.Next(at.cfg, at.clk, c.sys, SubsStep(at, c'))
  }

  function SubsStep(at: Place, c': Cluster): P.Step {
    P.WatchStep(at.id, c'.watch.view.subs, c'.watch.view.nextId)
  }

  // ------------------------------------------------------------------
  // A protocol step under the loop
  // ------------------------------------------------------------------

  /** What is proposed later does not matter to the loop. */
  lemma LoopOnLongerLog(w: Watch, rq: Request, ops: seq<Op>, more: seq<Op>, clk: Clock, r0: int)
    requires WInv(w, rq, ops, clk, r0) && ops <= more
    ensures WInv(w, rq, more, clk, r0)
  {
    hide Apply, RunTo, HistoryTo, Select, OnTarget, StartOk;
    NodeOnLongerLog(w.view, ops, more, clk);
    NodeAt(w.view, ops, clk);
    FoldOfPrefix(ops, more, clk, w.view.st.rev);
    assert Target(w, rq, more, clk) == Target(w, rq, ops, clk);
  }

  lemma SameReadingAgrees(s: State, op: Op, now: int)
    ensures Agrees(s, op, now, now)
  {
  }

  lemma ApplyNext(w: Watch, rq: Request, ops: seq<Op>, clk: Clock, r0: int, now: int)
    requires WInv(w, rq, ops, clk, r0) && 0 <= w.view.st.rev < |ops|
    requires Agrees(w.view.st, ops[w.view.st.rev], now, clk(w.view.st.rev + 1))
    requires Fits(Apply(w.view.st, LogEntry(w.view.st.rev + 1, ops[w.view.st.rev]), now))
    ensures WInv(w.(view := ApplyView(w.view, LogEntry(w.view.st.rev + 1, ops[w.view.st.rev]), now)), rq, ops, clk, r0)
  {
    hide WInv, Apply, Fits, Agrees, ApplyView, NodeOk;
    assert Enabled(w, rq, ops, clk, ApplyStep(now));
    assert NodeOk(w.view, ops, clk) by { LoopNode(w, rq, ops, clk, r0); }
    ApplyInv(w, rq, ops, clk, r0, now);
  }

  lemma LoopNode(w: Watch, rq: Request, ops: seq<Op>, clk: Clock, r0: int)
    requires WInv(w, rq, ops, clk, r0)
    ensures NodeOk(w.view, ops, clk) && r0 <= w.view.st.rev
  {
  }

  /** A commit round is a stretch of applied entries. */
  lemma {:induction false} CommitFeeds(
    w: Watch, rq: Request, l: LeaderState, ops: seq<Op>, clk: Clock, r0: int, idx: nat)
    requires LeaderOk(l, ops, clk) && InWindow(l, idx) && FitsTo(ops, clk, idx)
    requires WInv(w, rq, ops, clk, r0) && w.view == l.view
    ensures WInv(w.(view := ApplyTo(l, clk, idx)), rq, ops, clk, r0)
    decreases idx
  {
    hide Apply, NodeOk, WInv, Fits, Agrees, ApplyView, RunTo, SnapshotAt;
    if idx == l.commit {
      assert w.(view := l.view) == w;
    } else {
      ShorterFits(ops, clk, idx - 1, idx);
      CommitFeeds(w, rq, l, ops, clk, r0, idx - 1);
      var v := ApplyTo(l, clk, idx - 1);
      ApplyToFolds(l, ops, clk, idx - 1);
      NodeAt(v, ops, clk);
      assert l.log[idx - 1 - l.compactIndex] == LogEntry(idx, ops[idx - 1]);
      SameReadingAgrees(v.st, ops[idx - 1], clk(idx));
      assert Fits(EffectAt(ops, clk, idx));
      ApplyNext(w.(view := v), rq, ops, clk, r0, clk(idx));
      assert w.(view := v).(view := ApplyTo(l, clk, idx)) == w.(view := ApplyTo(l, clk, idx));
    }
  }

  /** A delivered message is an applied entry, a restore, or nothing. */
  lemma DeliveryFeeds(w: Watch, rq: Request, ops: seq<Op>, clk: Clock, r0: int, p: Payload, now: int)
    requires WInv(w, rq, ops, clk, r0) && P.PayloadOk(p, ops, clk)
    requires p.EntryPayload? && p.e.index == w.view.st.rev + 1 ==>
               Agrees(w.view.st, p.e.op, now, clk(p.e.index)) && Fits(Apply(w.view.st, p.e, now))
    requires p.SnapshotPayload? ==> RestoreSafe(w, rq, ops, clk, p.snap.lastIncludedIndex)
    ensures WInv(w.(view := P.Received(w.view, p, now).view), rq, ops, clk, r0)
  {
    hide Apply, NodeOk, WInv, Fits, Agrees, ApplyView, RestoreView, FromWire, RestoreSafe, SnapshotAt;
    LoopNode(w, rq, ops, clk, r0);
    NodeAt(w.view, ops, clk);
    assert w.(view := w.view) == w;
    match p {
      case SnapshotPayload(snap) =>
        assert Enabled(w, rq, ops, clk, RestoreStep(snap));
        RestoreInv(w, rq, ops, clk, r0, snap);
      case EntryPayload(e) =>
        if e.index == w.view.st.rev + 1 {
          assert e == LogEntry(e.index, ops[e.index - 1]);
          ApplyNext(w, rq, ops, clk, r0, now);
        }
    }
  }

  ghost predicate ClusterInv(at: Place, c: Cluster, r0: int) {
    P.Inv(at.cfg, at.clk, c.sys) && Joined(at, c) && WInv(c.watch, at.rq, c.sys.ops, at.clk, r0)
  }

  lemma CommitUnderLoop(at: Place, c: Cluster, snap: WireSnapshot, r0: int)
    requires ClusterInv(at, c, r0) && at.id == at.cfg.self && MayStep(at, c, SystemStep(P.CommitStep(snap)))
    ensures var s' := P.Next(at.cfg, at.clk, c.sys, P.CommitStep(snap));
            WInv(c.watch.(view := s'.leader.view), at.rq, c.sys.ops, at.clk, r0)
  {
    hide Apply, NodeOk, WInv, SnapshotAt, EffectAt, ApplyTo, SignalsTo, RoundFits, CommitPoint, P.NodesOk, P.NetOk;
    var l, n := c.sys.leader, CommitPoint(at.cfg, c.sys.leader);
    assert c.watch.(view := l.view) == c.watch;
    if n > l.commit {
      RoundFitsLog(l, c.sys.ops, at.clk, n);
      CommitFeeds(c.watch, at.rq, l, c.sys.ops, at.clk, r0, n);
    }
  }

  lemma DeliverUnderLoop(at: Place, c: Cluster, p: P.Step, r0: int)
    requires ClusterInv(at, c, r0) && p.DeliverStep? && p.id == at.id != at.cfg.self && MayStep(at, c, SystemStep(p))
    ensures var s' := P.Next(at.cfg, at.clk, c.sys, p);
            WInv(c.watch.(view := s'.nodes[at.id]), at.rq, c.sys.ops, at.clk, r0)
  {
    hide Apply, NodeOk, WInv, Fits, Agrees, RestoreSafe, P.PayloadOk, P.Received, P.NodesOk, P.AnswersOk, LeaderOk;
    assert P.MsgOk(P.ToFollower(p.id, p.p), c.sys, at.clk);
    DeliveryFeeds(c.watch, at.rq, c.sys.ops, at.clk, r0, p.p, p.now);
  }

  /** The node under the loop moves only when it delivers, commits or changes subscriptions. */
  lemma OthersLeaveNode(at: Place, c: Cluster, p: P.Step)
    requires P.Inv(at.cfg, at.clk, c.sys) && Joined(at, c) && MayStep(at, c, SystemStep(p))
    requires !(p.DeliverStep? && p.id == at.id) && !(p.CommitStep? && at.id == at.cfg.self)
    ensures var s' := P.Next(at.cfg, at.clk, c.sys, p);
            (at.id == at.cfg.self || at.id in s'.nodes) && ViewOf(at, s') == c.watch.view && c.sys.ops <= s'.ops
  {
    hide Apply, NodeOk, P.Received, CommitPoint, SignalsTo, CommitRound, EntriesAfter, CatchupPayloads, Payloads;
  }

  lemma SystemStepKeeps(at: Place, c: Cluster, p: P.Step, c': Cluster, r0: int)
    requires ClusterInv(at, c, r0) && MayStep(at, c, SystemStep(p)) && StepTo(at, c, SystemStep(p), c')
    ensures ClusterInv(at, c', r0)
  {
    hide P.Inv, WInv, P.Enabled, P.Next, SafeDelivery;
    P.StepInv(at.cfg, at.clk, c.sys, p);
    if p.CommitStep? && at.id == at.cfg.self {
      CommitUnderLoop(at, c, p.snap, r0);
      SameOps(at, c, p);
    } else if p.DeliverStep? && p.id == at.id {
      FollowerOnly(at, c, p);
      DeliverUnderLoop(at, c, p, r0);
      SameOps(at, c, p);
    } else {
      OthersLeaveNode(at, c, p);
      assert c'.watch == c.watch;
      LoopOnLongerLog(c.watch, at.rq, c.sys.ops, c'.sys.ops, at.clk, r0);
    }
  }

  lemma SameOps(at: Place, c: Cluster, p: P.Step)
    requires MayStep(at, c, SystemStep(p)) && (p.CommitStep? || p.DeliverStep?)
    ensures P.Next(at.cfg, at.clk, c.sys, p).ops == c.sys.ops
  {
    hide Apply, P.Received, CommitRound, SignalsTo, CommitPoint;
  }

  lemma FollowerOnly(at: Place, c: Cluster, p: P.Step)
    requires P.Inv(at.cfg, at.clk, c.sys) && MayStep(at, c, SystemStep(p)) && p.DeliverStep?
    ensures p.id != at.cfg.self
  {
    hide Apply, NodeOk, LeaderOk, P.NetOk, P.AnswersOk, P.AcksOk, P.PushersOk, P.MajorityHolds;
  }

  lemma LoopStepKeeps(at: Place, c: Cluster, l: WatchStep, c': Cluster, r0: int)
    requires ClusterInv(at, c, r0) && MayStep(at, c, LoopStep(l)) && StepTo(at, c, LoopStep(l), c')
    ensures ClusterInv(at, c', r0)
  {
    hide P.Inv, WInv, Possible, Next;
    assert Enabled(c.watch, at.rq, c.sys.ops, at.clk, l);
    StepKeeps(c.watch, at.rq, c.sys.ops, at.clk, r0, l);
    P.StepInv(at.cfg, at.clk, c.sys, SubsStep(at, c'));
    LoopTouchesSubs(c.watch, at.rq, c.sys.ops, at.clk, l);
  }

  lemma LoopTouchesSubs(w: Watch, rq: Request, ops: seq<Op>, clk: Clock, l: WatchStep)
    requires NodeOk(w.view, ops, clk) && Possible(w, ops, clk, l) && !l.ApplyStep? && !l.RestoreStep?
    ensures var v' := Next(w, rq, ops, clk, l).view;
            v' == w.view.(subs := v'.subs, nextId := v'.nextId)
  {
    hide NodeOk, Select, Horizon, StartAt;
  }

  // ------------------------------------------------------------------
  // Whole runs
  // ------------------------------------------------------------------

  /** The loop starts in a state that the cluster reached by `past`. */
  ghost predicate IsClusterRun(
    at: Place, past: seq<P.Sys>, pastSteps: seq<P.Step>, run: seq<Cluster>, steps: seq<ClusterStep>)
  {
    && IsRun(at.cfg, at.clk, past, pastSteps)
    && |run| == |steps| + 1 && run[0].sys == past[|pastSteps|] && Joined(at, run[0])
    && Init(run[0].watch, at.rq, run[0].sys.ops, at.clk)
    && forall i :: 0 <= i < |steps| ==> MayStep(at, run[i], steps[i]) && StepTo(at, run[i], steps[i], run[i + 1])
  }

  lemma {:induction false} ClusterRunInv(
    at: Place, past: seq<P.Sys>, pastSteps: seq<P.Step>, run: seq<Cluster>, steps: seq<ClusterStep>, i: nat)
    requires IsClusterRun(at, past, pastSteps, run, steps) && i < |run|
    ensures ClusterInv(at, run[i], run[0].watch.view.st.rev)
  {
    hide P.Inv, P.Init, P.Enabled, P.Next, MayStep, StepTo, Joined, WInv;
    var r0 := run[0].watch.view.st.rev;
    if i == 0 {
      RunInv(at.cfg, at.clk, past, pastSteps, |pastSteps|);
      FreshLoop(run[0].watch, at.rq, run[0].sys.ops, at.clk);
    } else {
      ClusterRunInv(at, past, pastSteps, run, steps, i - 1);
      assert MayStep(at, run[i - 1], steps[i - 1]) && StepTo(at, run[i - 1], steps[i - 1], run[i]);
      match steps[i - 1] {
        case SystemStep(p) => SystemStepKeeps(at, run[i - 1], p, run[i], r0);
        case LoopStep(l) => LoopStepKeeps(at, run[i - 1], l, run[i], r0);
      }
    }
  }

  lemma FreshLoop(w: Watch, rq: Request, ops: seq<Op>, clk: Clock)
    requires Init(w, rq, ops, clk)
    ensures WInv(w, rq, ops, clk, w.view.st.rev)
  {
    hide NodeOk, HistoryTo, Select;
    NodeAt(w.view, ops, clk);
  }

  /** In a running cluster, for a positive start cursor not ahead of the serving node: what
      the loop has sent is an initial segment of the matching events, after the cursor, of
      everything the cluster has proposed and the node has applied; and a loop that waits on
      a drained live channel has sent them all. */
  lemma ClusterWatchExactlyOnce(
    at: Place, past: seq<P.Sys>, pastSteps: seq<P.Step>, run: seq<Cluster>, steps: seq<ClusterStep>, i: nat)
    requires IsClusterRun(at, past, pastSteps, run, steps) && i < |run|
    requires 0 < at.rq.fromRevision < Cursor(run[0].watch.view.st.rev + 1, 0)
    ensures var w, s := run[i].watch, run[i].sys;
            && Joined(at, run[i]) && 0 <= w.view.st.rev <= |s.ops|
            && w.sent <= Select(HistoryTo(s.ops, at.clk, w.view.st.rev), at.rq.ns, at.rq.key, at.rq.fromRevision)
            && Increasing(w.sent)
            && (w.phase.Listening? && Live(w) && w.view.subs[w.id].buf == [] ==>
                  w.sent == Select(HistoryTo(s.ops, at.clk, w.view.st.rev), at.rq.ns, at.rq.key, at.rq.fromRevision))
            && SentByFields(HistoryTo(s.ops, at.clk, w.view.st.rev), at.rq, w.sent)
  {
    hide P.Inv, IsClusterRun, WInv, NodeOk, HistoryTo, Select;
    ClusterRunInv(at, past, pastSteps, run, steps, i);
    var w, s := run[i].watch, run[i].sys;
    LoopNode(w, at.rq, s.ops, at.clk, run[0].watch.view.st.rev);
    NodeAt(w.view, s.ops, at.clk);
    InvExactlyOnce(w, at.rq, s.ops, at.clk, run[0].watch.view.st.rev);
  }

  /** The cluster under the loop takes only steps of the protocol. */
  lemma {:induction false} ClusterIsRun(
    at: Place, past: seq<P.Sys>, pastSteps: seq<P.Step>, run: seq<Cluster>, steps: seq<ClusterStep>, i: nat)
    returns (sysRun: seq<P.Sys>, sysSteps: seq<P.Step>)
    requires IsClusterRun(at, past, pastSteps, run, steps) && i < |run|
    ensures IsRun(at.cfg, at.clk, sysRun, sysSteps) && past <= sysRun
    ensures |sysSteps| == |pastSteps| + i && sysRun[|sysSteps|] == run[i].sys
  {
    hide P.Next, P.Enabled, Possible, SafeDelivery, NodeOk, Next, P.Init, Init;
    if i == 0 {
      sysRun, sysSteps := past, pastSteps;
    } else {
      sysRun, sysSteps := ClusterIsRun(at, past, pastSteps, run, steps, i - 1);
      assert MayStep(at, run[i - 1], steps[i - 1]) && StepTo(at, run[i - 1], steps[i - 1], run[i]);
      var p := if steps[i - 1].SystemStep? then steps[i - 1].p else SubsStep(at, run[i]);
      RunGrows(at.cfg, at.clk, sysRun, sysSteps, p);
      sysRun, sysSteps := sysRun + [run[i].sys], sysSteps + [p];
    }
  }
}
