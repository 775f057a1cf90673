/** The replication protocol as one transition system: a static leader, its
    followers, its push goroutines, and a network that may lose, duplicate and
    reorder messages (a message once sent may be received any number of times,
    at any time, or never). Disconnects and reconnects are Reset and OpenStream. */
module Protocol {
  import opened Types
  import opened StateMachine
  import opened StoreLaws
  import opened Snapshots
  import opened Views
  import opened Replication

  datatype Msg = ToFollower(id: NodeId, p: Payload) | FromFollower(id: NodeId, ackIndex: int)

  /** One push goroutine: the position it believes its follower has been sent up to,
      and the leader's last index it most recently read. */
  datatype Pusher = Pusher(to: NodeId, last: int, seen: int)

  /** `ops` (every operation ever proposed), `answered` and `abandoned` are history. */
  datatype Sys = Sys(
    leader: LeaderState, nodes: map<NodeId, View>, pushers: map<int, Pusher>, net: set<Msg>,
    ops: seq<Op>, answered: seq<Signal>, abandoned: set<int>)

  datatype Step =
    | ProposeStep(op: Op)
    | AbandonStep(index: int)
    | ReportStep(id: NodeId)
    | OpenStreamStep(sid: int, id: NodeId, ackIndex: int)
    | CatchupStep(sid: int, spare: WireSnapshot)
    | TailStep(sid: int)
    | ReadLastStep(sid: int)
    | MoveLastStep(sid: int)
    | DeliverStep(id: NodeId, p: Payload, now: int)
    | AckStep(id: NodeId, ackIndex: int)
    | ResetStep(id: NodeId)
    | CommitStep(snap: WireSnapshot)
    | WatchStep(id: NodeId, subs: map<SubId, Sub>, nextId: int)

  ghost predicate Init(cfg: Config, s: Sys) {
    && s.leader == NEW_LEADER && s.net == {} && s.ops == [] && s.answered == [] && s.abandoned == {}
    && s.pushers == map[]
    && s.nodes == map id | id in Followers(cfg) :: NEW_VIEW
  }

  ghost function Received(v: View, p: Payload, now: int): FollowerState {
    Receive(FollowerState(v, [], false), p, _ => now)
  }

  ghost function Sent(to: NodeId, ps: seq<Payload>): set<Msg> {
    set p | p in ps :: ToFollower(to, p)
  }

  /** When a step can happen. A node never applies an entry that panics, and a
      follower's clock reading agrees with the leader's where it matters. */
  ghost predicate Enabled(cfg: Config, clk: Clock, s: Sys, step: Step) {
    match step
    case ProposeStep(_) => true
    case AbandonStep(i) => i in s.leader.waiters
    case ReportStep(id) => id in s.nodes
    case OpenStreamStep(sid, id, a) => sid !in s.pushers && FromFollower(id, a) in s.net
    case CatchupStep(sid, spare) =>
      sid in s.pushers && s.pushers[sid].last <= LastIndex(s.leader) && ExportedFrom(spare, s.leader.view.st)
    case TailStep(sid) =>
      && sid in s.pushers && s.pushers[sid].last <= LastIndex(s.leader)
      && EntriesAfter(s.leader, s.pushers[sid].last).Some?
    case ReadLastStep(sid) => sid in s.pushers
    case MoveLastStep(sid) => sid in s.pushers
    case DeliverStep(id, p, now) =>
      && id in s.nodes && ToFollower(id, p) in s.net
      && (p.EntryPayload? && p.e.index == s.nodes[id].st.rev + 1 ==>
            && Agrees(s.nodes[id].st, p.e.op, now, clk(p.e.index))
            && Fits(Apply(s.nodes[id].st, p.e, now)))
    case AckStep(id, a) => FromFollower(id, a) in s.net
    case ResetStep(_) => true
    case CommitStep(snap) =>
      && InWindow(s.leader, CommitPoint(cfg, s.leader))
      && RoundFits(s.leader, clk, CommitPoint(cfg, s.leader))
      && ExportedFrom(snap, ApplyTo(s.leader, clk, CommitPoint(cfg, s.leader)).st)
    case WatchStep(id, _, _) => id == cfg.self || id in s.nodes
  }

  ghost function Next(cfg: Config, clk: Clock, s: Sys, step: Step): Sys
    requires Enabled(cfg, clk, s, step)
  {
    match step
    case ProposeStep(op) => s.(leader := Propose(s.leader, op), ops := s.ops + [op])
    case AbandonStep(i) => s.(leader := Abandon(s.leader, i), abandoned := s.abandoned + {i})
    case ReportStep(id) => s.(net := s.net + {FromFollower(id, s.nodes[id].st.rev)})
    case OpenStreamStep(sid, id, a) => s.(pushers := s.pushers[sid := Pusher(id, a, a)])
    case CatchupStep(sid, spare) =>
      var ps := s.pushers[sid];
      s.(net := s.net + Sent(ps.to, CatchupPayloads(s.leader, ps.last, spare)))
    case TailStep(sid) =>
      var ps := s.pushers[sid];
      s.(net := s.net + Sent(ps.to, Payloads(EntriesAfter(s.leader, ps.last).value)))
    case ReadLastStep(sid) =>
      s.(pushers := s.pushers[sid := s.pushers[sid].(seen := LastIndex(s.leader))])
    case MoveLastStep(sid) =>
      s.(pushers := s.pushers[sid := s.pushers[sid].(last := s.pushers[sid].seen)])
    case DeliverStep(id, p, now) =>
      var f := Received(s.nodes[id], p, now);
      s.(nodes := s.nodes[id := f.view], net := s.net + set a | a in f.acks :: FromFollower(id, a))
    case AckStep(id, a) => s.(leader := Ack(s.leader, id, a))
    case ResetStep(id) => s.(leader := Reset(s.leader, id))
    case CommitStep(snap) =>
      s.(leader := CommitRound(cfg, s.leader, clk, snap),
         answered := s.answered + SignalsTo(s.leader, clk, CommitPoint(cfg, s.leader)))
    case WatchStep(id, subs, nextId) =>
      if id == cfg.self then s.(leader := s.leader.(view := s.leader.view.(subs := subs, nextId := nextId)))
      else s.(nodes := s.nodes[id := s.nodes[id].(subs := subs, nextId := nextId)])
  }

  // ------------------------------------------------------------------
  // The invariant
  // ------------------------------------------------------------------

  ghost function Holders(cfg: Config, nodes: map<NodeId, View>, i: int): set<NodeId> {
    set id | id in Followers(cfg) && id in nodes && nodes[id].st.rev >= i
  }

  /** The leader and enough followers to make a majority have applied or hold index `i`. */
  ghost predicate MajorityHolds(cfg: Config, nodes: map<NodeId, View>, i: int) {
    1 + |Holders(cfg, nodes, i)| >= Quorum(|cfg.nodes|)
  }

  ghost predicate NodesOk(cfg: Config, s: Sys, clk: Clock) {
    && s.nodes.Keys == Followers(cfg)
    && forall id :: id in s.nodes ==> NodeOk(s.nodes[id], s.ops, clk)
  }

  ghost predicate PayloadOk(p: Payload, ops: seq<Op>, clk: Clock) {
    match p
    case EntryPayload(e) => 1 <= e.index <= |ops| && e.op == ops[e.index - 1]
    case SnapshotPayload(w) => SnapshotAt(w, ops, clk, w.lastIncludedIndex)
  }

  ghost predicate MsgOk(m: Msg, s: Sys, clk: Clock) {
    match m
    case ToFollower(_, p) => PayloadOk(p, s.ops, clk)
    case FromFollower(id, a) => id in s.nodes && a <= s.nodes[id].st.rev
  }

  ghost predicate NetOk(s: Sys, clk: Clock) {
    forall m :: m in s.net ==> MsgOk(m, s, clk)
  }

  /** No recorded ack exceeds what its follower has applied. */
  ghost predicate AcksOk(s: Sys) {
    forall id :: id in s.nodes ==> AckOf(s.leader.acked, id) <= s.nodes[id].st.rev
  }

  ghost predicate PushersOk(s: Sys) {
    forall sid :: sid in s.pushers ==> s.pushers[sid].last <= |s.ops| && s.pushers[sid].seen <= |s.ops|
  }

  /** Answers come once each, in index order, only for committed entries, and
      carry the entry's own outcome; whoever still waits has not been committed. */
  ghost predicate AnswersOk(s: Sys, clk: Clock) {
    && s.leader.commit <= |s.ops|
    && (forall a :: 0 <= a < |s.answered| ==>
          && 1 <= s.answered[a].index <= s.leader.commit
          && s.answered[a].outcome == EffectAt(s.ops, clk, s.answered[a].index).outcome)
    && (forall a, b :: 0 <= a < b < |s.answered| ==> s.answered[a].index < s.answered[b].index)
    && (forall i :: 1 <= i <= |s.ops| && i !in s.abandoned && i !in s.leader.waiters ==>
          exists a :: 0 <= a < |s.answered| && s.answered[a].index == i)
  }

  ghost predicate Inv(cfg: Config, clk: Clock, s: Sys) {
    && LeaderOk(s.leader, s.ops, clk)
    && NodesOk(cfg, s, clk)
    && NetOk(s, clk)
    && AcksOk(s)
    && PushersOk(s)
    && (s.leader.commit > 0 ==> MajorityHolds(cfg, s.nodes, s.leader.commit))
    && AnswersOk(s, clk)
  }

  lemma InitInv(cfg: Config, clk: Clock, s: Sys)
    requires Init(cfg, s)
    ensures Inv(cfg, clk, s)
  {
    hide Apply;
    assert NodeOk(NEW_VIEW, [], clk);
  }

  // ------------------------------------------------------------------
  // Steps that append to the log
  // ------------------------------------------------------------------

  lemma ProposeInv(cfg: Config, clk: Clock, s: Sys, op: Op)
    requires Inv(cfg, clk, s)
    ensures Inv(cfg, clk, Next(cfg, clk, s, ProposeStep(op)))
  {
    hide Apply, NodeOk, SnapshotAt, EffectAt, LeaderOk;
    var s' := Next(cfg, clk, s, ProposeStep(op));
    ProposeKeeps(s.leader, s.ops, clk, op);
    LeaderHolds(s.leader, s.ops, clk);
    forall id | id in s'.nodes ensures NodeOk(s'.nodes[id], s'.ops, clk) {
      NodeOnLongerLog(s.nodes[id], s.ops, s'.ops, clk);
    }
    forall m | m in s'.net ensures MsgOk(m, s', clk) {
      if m.ToFollower? && m.p.SnapshotPayload? {
        SnapshotOnLongerLog(m.p.snap, s.ops, s'.ops, clk, m.p.snap.lastIncludedIndex);
      }
    }
    AnswersOnLongerLog(s, s', clk, op);
  }

  lemma LeaderHolds(l: LeaderState, ops: seq<Op>, clk: Clock)
    requires LeaderOk(l, ops, clk)
    ensures WindowHolds(l, ops)
  {
  }

  lemma AnswersOnLongerLog(s: Sys, s': Sys, clk: Clock, op: Op)
    requires AnswersOk(s, clk) && LastIndex(s.leader) == |s.ops|
    requires s' == s.(leader := Propose(s.leader, op), ops := s.ops + [op])
    ensures AnswersOk(s', clk)
  {
    hide Apply, EffectAt;
    forall a | 0 <= a < |s'.answered|
      ensures s'.answered[a].outcome == EffectAt(s'.ops, clk, s'.answered[a].index).outcome
    {
      FoldOfPrefix(s.ops, s'.ops, clk, s.answered[a].index);
    }
  }

  // ------------------------------------------------------------------
  // Steps that send
  // ------------------------------------------------------------------

  lemma EntriesOk(l: LeaderState, ops: seq<Op>, clk: Clock, es: seq<LogEntry>)
    requires WindowHolds(l, ops) && forall e :: e in es ==> e in l.log
    ensures forall p :: p in Payloads(es) ==> PayloadOk(p, ops, clk)
  {
    forall p | p in Payloads(es) ensures PayloadOk(p, ops, clk) {
      var i :| 0 <= i < |es| && p == EntryPayload(es[i]);
      assert es[i] in l.log;
      var k :| 0 <= k < |l.log| && l.log[k] == es[i];
    }
  }

  lemma CatchupPayloadsOk(l: LeaderState, ops: seq<Op>, clk: Clock, f: int, spare: WireSnapshot)
    requires LeaderOk(l, ops, clk) && f <= LastIndex(l) && ExportedFrom(spare, l.view.st)
    ensures forall p :: p in CatchupPayloads(l, f, spare) ==> PayloadOk(p, ops, clk)
  {
    hide Apply, NodeOk;
    var (snap, es) := Catchup(l, f, spare);
    EntriesOk(l, ops, clk, es);
    NodeAt(l.view, ops, clk);
    RunRev(ops, clk, l.compactIndex);
    assert SnapshotAt(spare, ops, clk, l.commit);
  }

  lemma SendInv(cfg: Config, clk: Clock, s: Sys, to: NodeId, ps: seq<Payload>)
    requires Inv(cfg, clk, s) && forall p :: p in ps ==> PayloadOk(p, s.ops, clk)
    ensures Inv(cfg, clk, s.(net := s.net + Sent(to, ps)))
  {
    hide Apply, NodeOk, LeaderOk, PayloadOk, EffectAt;
    var s' := s.(net := s.net + Sent(to, ps));
    forall m | m in s'.net ensures MsgOk(m, s', clk) {
      if m in s.net { assert MsgOk(m, s, clk); }
    }
  }

  // ------------------------------------------------------------------
  // Delivery
  // ------------------------------------------------------------------

  /** Whatever arrives, the follower stays on the log, never moves back, and
      acknowledges only what it has applied. */
  lemma ReceivedOk(ops: seq<Op>, clk: Clock, v: View, p: Payload, now: int)
    requires NodeOk(v, ops, clk) && PayloadOk(p, ops, clk)
    requires p.EntryPayload? && p.e.index == v.st.rev + 1 ==>
               Agrees(v.st, p.e.op, now, clk(p.e.index)) && Fits(Apply(v.st, p.e, now))
    ensures var f := Received(v, p, now);
            && NodeOk(f.view, ops, clk) && f.view.st.rev >= v.st.rev
            && forall a :: a in f.acks ==> a <= f.view.st.rev
  {
    hide Apply, NodeOk;
    var f := FollowerState(v, [], false);
    match p {
      case SnapshotPayload(w) => SnapshotCatchesUp(f, ops, clk, w, w.lastIncludedIndex, _ => now);
      case EntryPayload(e) =>
        if e.index == v.st.rev + 1 {
          NodeAt(v, ops, clk);
          RunWellFormed(ops, clk, v.st.rev);
          SkewShowsExactly(v.st, e, now, clk(e.index));
          assert e == LogEntry(e.index, ops[e.index - 1]);
          EntryCatchesUp(f, ops, clk, _ => now, e.index);
        }
    }
  }

  lemma HoldersGrow(cfg: Config, nodes: map<NodeId, View>, nodes': map<NodeId, View>, i: int)
    requires forall id :: id in nodes ==> id in nodes' && nodes'[id].st.rev >= nodes[id].st.rev
    requires MajorityHolds(cfg, nodes, i)
    ensures MajorityHolds(cfg, nodes', i)
  {
    forall id | id in Holders(cfg, nodes, i) ensures id in Holders(cfg, nodes', i) {
      assert id in nodes && nodes'[id].st.rev >= nodes[id].st.rev;
    }
    SubsetSize(Holders(cfg, nodes, i), Holders(cfg, nodes', i));
  }

  lemma DeliverInv(cfg: Config, clk: Clock, s: Sys, step: Step)
    requires Inv(cfg, clk, s) && step.DeliverStep? && Enabled(cfg, clk, s, step)
    ensures Inv(cfg, clk, Next(cfg, clk, s, step))
  {
    hide Apply, NodeOk, LeaderOk, PayloadOk, EffectAt, Received, MajorityHolds;
    var s' := Next(cfg, clk, s, step);
    assert MsgOk(ToFollower(step.id, step.p), s, clk);
    ReceivedOk(s.ops, clk, s.nodes[step.id], step.p, step.now);
    forall m | m in s'.net ensures MsgOk(m, s', clk) {
      if m in s.net { assert MsgOk(m, s, clk); }
    }
    if s.leader.commit > 0 { HoldersGrow(cfg, s.nodes, s'.nodes, s.leader.commit); }
  }

  // ------------------------------------------------------------------
  // Acks and commits
  // ------------------------------------------------------------------

  /** Every vote counted is a follower that really holds the index. */
  lemma VotersHold(cfg: Config, s: Sys, i: int)
    requires s.nodes.Keys == Followers(cfg) && AcksOk(s) && HasQuorum(cfg, s.leader.acked, i)
    ensures MajorityHolds(cfg, s.nodes, i)
  {
    SubsetSize(Voters(cfg, s.leader.acked, i), Holders(cfg, s.nodes, i));
  }

  lemma CommitAnswers(cfg: Config, clk: Clock, s: Sys, s': Sys)
    requires LeaderOk(s.leader, s.ops, clk) && AnswersOk(s, clk)
    requires var n := CommitPoint(cfg, s.leader);
             && InWindow(s.leader, n) && FitsTo(s.ops, clk, n)
             && s'.answered == s.answered + SignalsTo(s.leader, clk, n)
             && s'.leader.commit == n && s'.ops == s.ops && s'.abandoned == s.abandoned
             && s'.leader.waiters == set i | i in s.leader.waiters && !(s.leader.commit < i <= n)
    ensures AnswersOk(s', clk)
  {
    hide Apply, EffectAt, LeaderOk, FitsTo, CommitPoint, SignalsTo;
    var n := CommitPoint(cfg, s.leader);
    LeaderHolds(s.leader, s.ops, clk);
    SignalsAreSerial(s.leader, s.ops, clk, n);
    var earlier, later := s.answered, SignalsTo(s.leader, clk, n);
    forall i | 1 <= i <= |s.ops| && i !in s'.abandoned && i !in s'.leader.waiters
      ensures exists a :: 0 <= a < |s'.answered| && s'.answered[a].index == i
    {
      if i in s.leader.waiters {
        var a :| 0 <= a < |later| && later[a].index == i;
        assert s'.answered[|earlier| + a].index == i;
      } else {
        var a :| 0 <= a < |earlier| && earlier[a].index == i;
        assert s'.answered[a].index == i;
      }
    }
  }

  lemma CommitLeader(cfg: Config, clk: Clock, l: LeaderState, ops: seq<Op>, snap: WireSnapshot)
    requires LeaderOk(l, ops, clk)
    requires var n := CommitPoint(cfg, l);
             InWindow(l, n) && RoundFits(l, clk, n) && ExportedFrom(snap, ApplyTo(l, clk, n).st)
    ensures var l' := CommitRound(cfg, l, clk, snap);
            && LeaderOk(l', ops, clk) && l'.commit == CommitPoint(cfg, l) >= l.commit
            && FitsTo(ops, clk, l'.commit)
            && (forall j :: l.commit < j <= |ops| ==> (HasQuorum(cfg, l.acked, j) <==> j <= l'.commit))
  {
    hide Apply, NodeOk, EffectAt, HasQuorum, CommitPoint, CommitRound;
    var n := CommitPoint(cfg, l);
    RoundFitsLog(l, ops, clk, n);
    ApplyToFolds(l, ops, clk, n);
    NodeAt(ApplyTo(l, clk, n), ops, clk);
    assert SnapshotAt(snap, ops, clk, n);
    CommitRoundKeeps(cfg, l, ops, clk, snap);
  }

  lemma CommitInv(cfg: Config, clk: Clock, s: Sys, snap: WireSnapshot)
    requires Inv(cfg, clk, s) && Enabled(cfg, clk, s, CommitStep(snap))
    ensures Inv(cfg, clk, Next(cfg, clk, s, CommitStep(snap)))
  {
    hide Apply, NodeOk, EffectAt, MajorityHolds, FitsTo, HasQuorum, LeaderOk, CommitPoint, CommitRound, ApplyTo, SignalsTo;
    var s', n := Next(cfg, clk, s, CommitStep(snap)), CommitPoint(cfg, s.leader);
    CommitLeader(cfg, clk, s.leader, s.ops, snap);
    if n > s.leader.commit {
      LeaderHolds(s.leader, s.ops, clk);
      VotersHold(cfg, s, n);
    }
    RoundWaiters(cfg, s.leader, clk, snap);
    CommitAnswers(cfg, clk, s, s');
    forall m | m in s'.net ensures MsgOk(m, s', clk) { assert MsgOk(m, s, clk); }
  }

  lemma RoundWaiters(cfg: Config, l: LeaderState, clk: Clock, snap: WireSnapshot)
    requires InWindow(l, CommitPoint(cfg, l))
    ensures var l', n := CommitRound(cfg, l, clk, snap), CommitPoint(cfg, l);
            l'.acked == l.acked && l'.waiters == set i | i in l.waiters && !(l.commit < i <= n)
  {
    hide Apply, ApplyTo;
  }

  // ------------------------------------------------------------------
  // Every step
  // ------------------------------------------------------------------

  lemma SameNet(s: Sys, s': Sys, clk: Clock)
    requires NetOk(s, clk) && s'.net == s.net && s'.ops == s.ops
    requires s'.nodes.Keys == s.nodes.Keys && forall id :: id in s.nodes ==> s'.nodes[id].st.rev >= s.nodes[id].st.rev
    ensures NetOk(s', clk)
  {
    hide PayloadOk;
    forall m | m in s'.net ensures MsgOk(m, s', clk) { assert MsgOk(m, s, clk); }
  }

  /** Steps of the push goroutines that send nothing. */
  lemma PusherInv(cfg: Config, clk: Clock, s: Sys, step: Step)
    requires Inv(cfg, clk, s) && Enabled(cfg, clk, s, step)
    requires step.OpenStreamStep? || step.ReadLastStep? || step.MoveLastStep?
    ensures Inv(cfg, clk, Next(cfg, clk, s, step))
  {
    hide Apply, NodeOk, EffectAt, MajorityHolds, LeaderOk, PayloadOk, AnswersOk, AcksOk;
    var s' := Next(cfg, clk, s, step);
    LeaderHolds(s.leader, s.ops, clk);
    if step.OpenStreamStep? {
      assert MsgOk(FromFollower(step.id, step.ackIndex), s, clk);
      NodeAt(s.nodes[step.id], s.ops, clk);
    }
    SameNet(s, s', clk);
    SameAnswers(s, s', clk);
    assert AcksOk(s') by { SameAcks(s, s'); }
  }

  lemma SameAcks(s: Sys, s': Sys)
    requires AcksOk(s) && s'.nodes == s.nodes && s'.leader.acked == s.leader.acked
    ensures AcksOk(s')
  {
  }

  lemma SameAnswers(s: Sys, s': Sys, clk: Clock)
    requires AnswersOk(s, clk) && s'.ops == s.ops && s'.answered == s.answered && s'.abandoned == s.abandoned
    requires s'.leader.commit == s.leader.commit && s'.leader.waiters == s.leader.waiters
    ensures AnswersOk(s', clk)
  {
    hide EffectAt;
  }

  /** Recording or clearing an ack. */
  lemma AckInv(cfg: Config, clk: Clock, s: Sys, step: Step)
    requires Inv(cfg, clk, s) && Enabled(cfg, clk, s, step) && (step.AckStep? || step.ResetStep?)
    ensures Inv(cfg, clk, Next(cfg, clk, s, step))
  {
    hide Apply, NodeOk, EffectAt, MajorityHolds, SnapshotAt, PayloadOk, AnswersOk, WindowHolds;
    var s' := Next(cfg, clk, s, step);
    if step.AckStep? { assert MsgOk(FromFollower(step.id, step.ackIndex), s, clk); }
    if step.id in s.nodes { NodeAt(s.nodes[step.id], s.ops, clk); }
    assert WindowHolds(s'.leader, s.ops) by { SameWindow(s.leader, s'.leader, s.ops); }
    SameNet(s, s', clk);
    SameAnswers(s, s', clk);
  }

  lemma SameWindow(l: LeaderState, l': LeaderState, ops: seq<Op>)
    requires WindowHolds(l, ops) && l'.log == l.log && l'.compactIndex == l.compactIndex
    ensures WindowHolds(l', ops)
  {
  }

  lemma AbandonInv(cfg: Config, clk: Clock, s: Sys, i: int)
    requires Inv(cfg, clk, s) && Enabled(cfg, clk, s, AbandonStep(i))
    ensures Inv(cfg, clk, Next(cfg, clk, s, AbandonStep(i)))
  {
    hide Apply, NodeOk, EffectAt, MajorityHolds, SnapshotAt, PayloadOk, WindowHolds;
    var s' := Next(cfg, clk, s, AbandonStep(i));
    assert WindowHolds(s'.leader, s.ops) by { SameWindow(s.leader, s'.leader, s.ops); }
    SameNet(s, s', clk);
  }

  lemma ReportInv(cfg: Config, clk: Clock, s: Sys, id: NodeId)
    requires Inv(cfg, clk, s) && id in s.nodes
    ensures Inv(cfg, clk, Next(cfg, clk, s, ReportStep(id)))
  {
    hide Apply, NodeOk, EffectAt, MajorityHolds, LeaderOk, PayloadOk;
    var s' := Next(cfg, clk, s, ReportStep(id));
    forall m | m in s'.net ensures MsgOk(m, s', clk) {
      if m in s.net { assert MsgOk(m, s, clk); }
    }
  }

  lemma WatchLeader(l: LeaderState, ops: seq<Op>, clk: Clock, subs: map<SubId, Sub>, nextId: int)
    requires LeaderOk(l, ops, clk)
    ensures LeaderOk(l.(view := l.view.(subs := subs, nextId := nextId)), ops, clk)
  {
    hide NodeOk, SnapshotAt;
    SubsKeepNode(l.view, ops, clk, subs, nextId);
  }

  lemma WatchNodes(cfg: Config, s: Sys, s': Sys, clk: Clock)
    requires NodesOk(cfg, s, clk) && s'.ops == s.ops && s'.nodes.Keys == s.nodes.Keys
    requires forall id :: id in s.nodes ==>
               s'.nodes[id] == s.nodes[id].(subs := s'.nodes[id].subs, nextId := s'.nodes[id].nextId)
    ensures NodesOk(cfg, s', clk)
  {
    hide NodeOk;
    forall id | id in s.nodes ensures NodeOk(s'.nodes[id], s'.ops, clk) {
      SubsKeepNode(s.nodes[id], s.ops, clk, s'.nodes[id].subs, s'.nodes[id].nextId);
    }
  }

  /** A state that differs in subscriptions only. */
  ghost predicate SameButSubs(s: Sys, s': Sys) {
    && s' == s.(leader := s'.leader, nodes := s'.nodes)
    && s'.leader == s.leader.(view := s.leader.view.(subs := s'.leader.view.subs, nextId := s'.leader.view.nextId))
    && s'.nodes.Keys == s.nodes.Keys
    && forall id :: id in s.nodes ==>
         s'.nodes[id] == s.nodes[id].(subs := s'.nodes[id].subs, nextId := s'.nodes[id].nextId)
  }

  lemma SubsInv(cfg: Config, clk: Clock, s: Sys, s': Sys)
    requires Inv(cfg, clk, s) && SameButSubs(s, s')
    ensures Inv(cfg, clk, s')
  {
    hide Apply, NodeOk, EffectAt, MajorityHolds, LeaderOk, NodesOk, NetOk, AnswersOk;
    WatchLeader(s.leader, s.ops, clk, s'.leader.view.subs, s'.leader.view.nextId);
    WatchNodes(cfg, s, s', clk);
    if s.leader.commit > 0 { HoldersGrow(cfg, s.nodes, s'.nodes, s.leader.commit); }
    SameNet(s, s', clk);
    SameAnswers(s, s', clk);
  }

  lemma WatchInv(cfg: Config, clk: Clock, s: Sys, step: Step)
    requires Inv(cfg, clk, s) && Enabled(cfg, clk, s, step) && step.WatchStep?
    ensures Inv(cfg, clk, Next(cfg, clk, s, step))
  {
    hide Inv, Apply, Propose, CommitRound, CommitPoint, Receive, Catchup, EntriesAfter;
    SubsInv(cfg, clk, s, Next(cfg, clk, s, step));
  }

  lemma StepInv(cfg: Config, clk: Clock, s: Sys, step: Step)
    requires Inv(cfg, clk, s) && Enabled(cfg, clk, s, step)
    ensures Inv(cfg, clk, Next(cfg, clk, s, step))
  {
    hide Inv, Apply;
    match step {
      case ProposeStep(op) => ProposeInv(cfg, clk, s, op);
      case CatchupStep(sid, spare) =>
        LeaderOf(cfg, clk, s);
        CatchupPayloadsOk(s.leader, s.ops, clk, s.pushers[sid].last, spare);
        SendInv(cfg, clk, s, s.pushers[sid].to, CatchupPayloads(s.leader, s.pushers[sid].last, spare));
      case TailStep(sid) =>
        LeaderOf(cfg, clk, s);
        var es := EntriesAfter(s.leader, s.pushers[sid].last).value;
        EntriesOk(s.leader, s.ops, clk, es);
        SendInv(cfg, clk, s, s.pushers[sid].to, Payloads(es));
      case DeliverStep(_, _, _) => DeliverInv(cfg, clk, s, step);
      case CommitStep(snap) => CommitInv(cfg, clk, s, snap);
      case WatchStep(_, _, _) => WatchInv(cfg, clk, s, step);
      case ReportStep(id) =>
        ReportInv(cfg, clk, s, id);
      case AbandonStep(i) => AbandonInv(cfg, clk, s, i);
      case AckStep(_, _) => AckInv(cfg, clk, s, step);
      case ResetStep(_) => AckInv(cfg, clk, s, step);
      case _ => PusherInv(cfg, clk, s, step);
    }
  }

  lemma LeaderOf(cfg: Config, clk: Clock, s: Sys)
    requires Inv(cfg, clk, s)
    ensures LeaderOk(s.leader, s.ops, clk)
  {
  }
}
