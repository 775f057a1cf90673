/** No reachable state of the protocol is stuck: as long as no proposed entry panics, the
    protocol's own steps can bring any follower, and then the commit point, to the end of
    the log. (That they do happen is not claimed.) */
module Progress {
  import opened Types
  import opened StateMachine
  import opened StoreLaws
  import opened Snapshots
  import opened Views
  import opened Replication
  import opened Protocol
  import opened Safety
  import opened CommitRuns

  /** What catching up one follower leaves as it was. */
  ghost predicate OnlyFollower(s: Sys, s': Sys, id: NodeId) {
    && s'.ops == s.ops && s'.leader == s.leader && s'.answered == s.answered && s'.abandoned == s.abandoned
    && s.net <= s'.net && s'.nodes.Keys == s.nodes.Keys
    && (forall other :: other in s.nodes && other != id ==> s'.nodes[other] == s.nodes[other])
    && (id in s.nodes ==> s'.nodes[id].st.rev >= s.nodes[id].st.rev)
  }

  lemma OnlyFollowerTwice(s: Sys, s1: Sys, s2: Sys, id: NodeId)
    requires OnlyFollower(s, s1, id) && OnlyFollower(s1, s2, id)
    ensures OnlyFollower(s, s2, id)
  {
  }

  lemma FollowerStep(
    cfg: Config, clk: Clock, run: seq<Sys>, steps: seq<Step>, step: Step, id: NodeId) returns (longer: seq<Sys>)
    requires IsRun(cfg, clk, run, steps) && Enabled(cfg, clk, run[|steps|], step)
    requires OnlyFollower(run[|steps|], Next(cfg, clk, run[|steps|], step), id)
    ensures IsRun(cfg, clk, longer, steps + [step]) && run <= longer
    ensures longer[|steps| + 1] == Next(cfg, clk, run[|steps|], step)
  {
    hide Init, Enabled, Next, OnlyFollower;
    RunGrows(cfg, clk, run, steps, step);
    longer := run + [Next(cfg, clk, run[|steps|], step)];
  }

  lemma SelfAgrees(s: State, op: Op, now: int)
    ensures Agrees(s, op, now, now)
  {
  }

  /** A message in flight can be delivered, and takes the follower at least as far as it goes. */
  lemma CanDeliver(cfg: Config, clk: Clock, s: Sys, id: NodeId, p: Payload) returns (now: int)
    requires Inv(cfg, clk, s) && id in s.nodes && ToFollower(id, p) in s.net && FitsTo(s.ops, clk, |s.ops|)
    ensures Enabled(cfg, clk, s, DeliverStep(id, p, now))
    ensures var s' := Next(cfg, clk, s, DeliverStep(id, p, now));
            && OnlyFollower(s, s', id) && id in s'.nodes
            && (p.EntryPayload? && p.e.index <= s.nodes[id].st.rev + 1 ==> s'.nodes[id].st.rev >= p.e.index)
            && (p.SnapshotPayload? ==> s'.nodes[id].st.rev >= p.snap.lastIncludedIndex)
  {
    hide Apply, NodeOk, LeaderOk, EffectAt, AnswersOk, Agrees, SnapshotAt, RestoreView, ApplyView;
    assert MsgOk(ToFollower(id, p), s, clk);
    var v := s.nodes[id];
    NodeAt(v, s.ops, clk);
    now := if p.EntryPayload? then clk(p.e.index) else 0;
    if p.EntryPayload? && p.e.index == v.st.rev + 1 {
      SelfAgrees(v.st, p.e.op, now);
      EntryIsEffect(s.ops, clk, v, p.e);
    }
    ReceivedOk(s.ops, clk, v, p, now);
    if p.SnapshotPayload? {
      SnapshotIndex(p.snap, s.ops, clk);
      SnapshotCatchesUp(FollowerState(v, [], false), s.ops, clk, p.snap, p.snap.lastIncludedIndex, _ => now);
    } else if p.e.index == v.st.rev + 1 {
      EntryCatchesUp(FollowerState(v, [], false), s.ops, clk, _ => now, p.e.index);
    }
  }

  lemma SnapshotIndex(w: WireSnapshot, ops: seq<Op>, clk: Clock)
    requires SnapshotAt(w, ops, clk, w.lastIncludedIndex)
    ensures 0 <= w.lastIncludedIndex <= |ops|
  {
  }

  lemma EntryIsEffect(ops: seq<Op>, clk: Clock, v: View, e: LogEntry)
    requires NodeOk(v, ops, clk) && FitsTo(ops, clk, |ops|)
    requires 1 <= e.index == v.st.rev + 1 <= |ops| && e.op == ops[e.index - 1]
    ensures Fits(Apply(v.st, e, clk(e.index))) && Fits(EffectAt(ops, clk, e.index)) && e == LogEntry(e.index, ops[e.index - 1])
  {
    hide Apply, Fits;
    NodeAt(v, ops, clk);
    assert EffectAt(ops, clk, e.index) == Apply(v.st, e, clk(e.index));
  }

  lemma DeliverMore(cfg: Config, clk: Clock, run: seq<Sys>, steps: seq<Step>, id: NodeId, p: Payload)
    returns (longer: seq<Sys>, more: seq<Step>)
    requires IsRun(cfg, clk, run, steps)
    requires var s := run[|steps|]; id in s.nodes && ToFollower(id, p) in s.net && FitsTo(s.ops, clk, |s.ops|)
    ensures IsRun(cfg, clk, longer, more) && run <= longer
    ensures var s, s' := run[|steps|], longer[|more|];
            && OnlyFollower(s, s', id) && id in s'.nodes
            && (p.EntryPayload? && p.e.index <= s.nodes[id].st.rev + 1 ==> s'.nodes[id].st.rev >= p.e.index)
            && (p.SnapshotPayload? ==> s'.nodes[id].st.rev >= p.snap.lastIncludedIndex)
  {
    hide IsRun, Inv, Enabled, Next, OnlyFollower, FitsTo;
    LastInv(cfg, clk, run, steps);
    var s := run[|steps|];
    var now := CanDeliver(cfg, clk, s, id, p);
    longer := FollowerStep(cfg, clk, run, steps, DeliverStep(id, p, now), id);
    more := steps + [DeliverStep(id, p, now)];
    LastInv(cfg, clk, longer, more);
  }

  /** Entries in flight that join up with what the follower has can all be delivered. */
  lemma {:induction false} DeliverEntries(
    cfg: Config, clk: Clock, run: seq<Sys>, steps: seq<Step>, id: NodeId, es: seq<LogEntry>, from: int)
    returns (longer: seq<Sys>, more: seq<Step>)
    requires IsRun(cfg, clk, run, steps)
    requires var s := run[|steps|];
             && id in s.nodes && FitsTo(s.ops, clk, |s.ops|) && from <= s.nodes[id].st.rev
             && forall k :: 0 <= k < |es| ==> es[k].index == from + 1 + k && ToFollower(id, EntryPayload(es[k])) in s.net
    ensures IsRun(cfg, clk, longer, more) && run <= longer
    ensures var s, s' := run[|steps|], longer[|more|];
            OnlyFollower(s, s', id) && id in s'.nodes && s'.nodes[id].st.rev >= from + |es|
    decreases |es|
  {
    LastInv(cfg, clk, run, steps);
    hide IsRun, Inv, FitsTo;
    if es == [] {
      longer, more := run, steps;
    } else {
      var e := es[0];
      var run1, steps1 := DeliverMore(cfg, clk, run, steps, id, EntryPayload(e));
      LastInv(cfg, clk, run1, steps1);
      longer, more := DeliverEntries(cfg, clk, run1, steps1, id, es[1..], from + 1);
      LastInv(cfg, clk, longer, more);
      OnlyFollowerTwice(run[|steps|], run1[|steps1|], longer[|more|], id);
    }
  }

  lemma {:induction false} FullRange(s: set<int>, n: nat)
    requires forall x :: 0 <= x < n ==> x in s
    ensures |s| >= n
    decreases n
  {
    if n > 0 { FullRange(s - {n - 1}, n - 1); }
  }

  lemma Unused(s: set<int>)
    ensures exists x: int :: 0 <= x <= |s| && x !in s
  {
    if forall x: int :: 0 <= x <= |s| ==> x in s { FullRange(s, |s| + 1); }
  }

  lemma ReportReaches(cfg: Config, clk: Clock, s: Sys, id: NodeId)
    requires id in s.nodes
    ensures Enabled(cfg, clk, s, ReportStep(id))
    ensures var s' := Next(cfg, clk, s, ReportStep(id));
            && OnlyFollower(s, s', id) && s'.nodes == s.nodes && s'.pushers == s.pushers
            && FromFollower(id, s.nodes[id].st.rev) in s'.net
  {
    hide Apply;
  }

  lemma OpenReaches(cfg: Config, clk: Clock, s: Sys, sid: int, id: NodeId, rev: int)
    requires sid !in s.pushers && FromFollower(id, rev) in s.net
    ensures Enabled(cfg, clk, s, OpenStreamStep(sid, id, rev))
    ensures var s' := Next(cfg, clk, s, OpenStreamStep(sid, id, rev));
            && OnlyFollower(s, s', id) && s'.nodes == s.nodes
            && sid in s'.pushers && s'.pushers[sid].to == id && s'.pushers[sid].last == rev
  {
    hide Apply;
  }

  lemma CatchupReaches(cfg: Config, clk: Clock, s: Sys, sid: int, id: NodeId, rev: int, spare: WireSnapshot)
    requires sid in s.pushers && s.pushers[sid].to == id && s.pushers[sid].last == rev <= LastIndex(s.leader)
    requires ExportedFrom(spare, s.leader.view.st)
    ensures Enabled(cfg, clk, s, CatchupStep(sid, spare))
    ensures var s' := Next(cfg, clk, s, CatchupStep(sid, spare));
            && OnlyFollower(s, s', id) && s'.nodes == s.nodes
            && forall p :: p in CatchupPayloads(s.leader, rev, spare) ==> ToFollower(id, p) in s'.net
  {
    hide Apply, CatchupPayloads, ExportedFrom;
  }

  lemma AckReaches(cfg: Config, clk: Clock, s: Sys, id: NodeId, n: int)
    requires FromFollower(id, n) in s.net && AckOf(s.leader.acked, id) <= n
    ensures Enabled(cfg, clk, s, AckStep(id, n))
    ensures var s' := Next(cfg, clk, s, AckStep(id, n));
            && SameLog(s, s') && s'.nodes == s.nodes && AckOf(s'.leader.acked, id) == n
            && forall other :: other != id ==> AckOf(s'.leader.acked, other) == AckOf(s.leader.acked, other)
  {
    hide Apply;
  }

  lemma SomeSpare(s: State) returns (spare: WireSnapshot)
    ensures ExportedFrom(spare, s)
  {
    hide IsExport;
    var all := ExportExists(s);
    spare := ToWire(all);
  }

  /** The follower reports its position, a stream is opened, and the leader sends the catch-up. */
  lemma StreamOpens(cfg: Config, clk: Clock, run: seq<Sys>, steps: seq<Step>, id: NodeId)
    returns (longer: seq<Sys>, more: seq<Step>, spare: WireSnapshot)
    requires IsRun(cfg, clk, run, steps) && id in run[|steps|].nodes
    ensures IsRun(cfg, clk, longer, more) && run <= longer
    ensures var s, s' := run[|steps|], longer[|more|];
            && OnlyFollower(s, s', id) && s'.nodes == s.nodes && ExportedFrom(spare, s.leader.view.st)
            && s.nodes[id].st.rev <= LastIndex(s.leader)
            && forall p :: p in CatchupPayloads(s.leader, s.nodes[id].st.rev, spare) ==> ToFollower(id, p) in s'.net
  {
    hide IsRun, Inv, CatchupPayloads, ExportedFrom, Enabled, Next, OnlyFollower, LeaderOk;
    LastInv(cfg, clk, run, steps);
    var s := run[|steps|];
    PositionKnown(cfg, clk, s, id);
    var rev := s.nodes[id].st.rev;
    ReportReaches(cfg, clk, s, id);
    var run1 := FollowerStep(cfg, clk, run, steps, ReportStep(id), id);
    var s1, steps1 := Next(cfg, clk, s, ReportStep(id)), steps + [ReportStep(id)];
    LastInv(cfg, clk, run1, steps1);
    Unused(s1.pushers.Keys);
    var sid: int :| 0 <= sid <= |s1.pushers.Keys| && sid !in s1.pushers.Keys;
    OpenReaches(cfg, clk, s1, sid, id, rev);
    var run2 := FollowerStep(cfg, clk, run1, steps1, OpenStreamStep(sid, id, rev), id);
    var s2, steps2 := Next(cfg, clk, s1, OpenStreamStep(sid, id, rev)), steps1 + [OpenStreamStep(sid, id, rev)];
    LastInv(cfg, clk, run2, steps2);
    OnlyFollowerTwice(s, s1, s2, id);
    SameLeader(s, s2, id);
    spare := SomeSpare(s.leader.view.st);
    CatchupReaches(cfg, clk, s2, sid, id, rev, spare);
    longer := FollowerStep(cfg, clk, run2, steps2, CatchupStep(sid, spare), id);
    more := steps2 + [CatchupStep(sid, spare)];
    LastInv(cfg, clk, longer, more);
    OnlyFollowerTwice(s, s2, longer[|more|], id);
  }

  lemma SameLeader(s: Sys, s': Sys, id: NodeId)
    requires OnlyFollower(s, s', id)
    ensures s'.leader == s.leader && s'.ops == s.ops && s.net <= s'.net
  {
  }

  lemma PositionKnown(cfg: Config, clk: Clock, s: Sys, id: NodeId)
    requires Inv(cfg, clk, s) && id in s.nodes
    ensures 0 <= s.nodes[id].st.rev <= |s.ops| == LastIndex(s.leader) && LeaderOk(s.leader, s.ops, clk)
    ensures id in Followers(cfg) && s.nodes.Keys == Followers(cfg)
    ensures AckOf(s.leader.acked, id) <= s.nodes[id].st.rev
  {
    hide Apply, NodeOk, SnapshotAt, NetOk, AnswersOk, MajorityHolds;
    NodeAt(s.nodes[id], s.ops, clk);
  }

  lemma InFlightGrows(s: Sys, s': Sys, id: NodeId, es: seq<LogEntry>)
    requires OnlyFollower(s, s', id) && forall k :: 0 <= k < |es| ==> ToFollower(id, EntryPayload(es[k])) in s.net
    ensures forall k :: 0 <= k < |es| ==> ToFollower(id, EntryPayload(es[k])) in s'.net
    ensures s'.ops == s.ops && s'.leader == s.leader && s'.nodes.Keys == s.nodes.Keys
    ensures id in s.nodes ==> s'.nodes[id].st.rev >= s.nodes[id].st.rev
  {
  }

  /** The catch-up as sent: a snapshot at or after the follower's position, or none, and the
      entries from there to the end of the log. */
  lemma CatchupParts(cfg: Config, clk: Clock, s: Sys, id: NodeId, spare: WireSnapshot)
    requires Inv(cfg, clk, s) && id in s.nodes && ExportedFrom(spare, s.leader.view.st)
    ensures 0 <= s.nodes[id].st.rev <= LastIndex(s.leader) == |s.ops|
    ensures var (snap, es) := Catchup(s.leader, s.nodes[id].st.rev, spare);
            var from := if snap.Some? then s.leader.compactIndex else s.nodes[id].st.rev;
            && |es| == |s.ops| - from && (forall k :: 0 <= k < |es| ==> es[k].index == from + 1 + k)
            && (snap.Some? ==> snap.value.lastIncludedIndex >= s.leader.compactIndex)
  {
    hide Inv, LeaderOk, ExportedFrom, Catchup;
    PositionKnown(cfg, clk, s, id);
    CatchupExactly(s.leader, s.ops, clk, s.nodes[id].st.rev, spare);
    SparePosition(cfg, clk, s, spare);
  }

  /** Any follower, in any reachable state, can be brought to the end of the log. */
  lemma CanCatchUp(cfg: Config, clk: Clock, run: seq<Sys>, steps: seq<Step>, id: NodeId)
    returns (longer: seq<Sys>, more: seq<Step>)
    requires IsRun(cfg, clk, run, steps)
    requires var s := run[|steps|]; id in s.nodes && FitsTo(s.ops, clk, |s.ops|)
    ensures IsRun(cfg, clk, longer, more) && run <= longer
    ensures var s, s' := run[|steps|], longer[|more|];
            OnlyFollower(s, s', id) && id in s'.nodes && s'.nodes[id].st.rev == |s.ops|
  {
    hide IsRun, Inv, FitsTo, LeaderOk, OnlyFollower, CatchupPayloads, Catchup, ExportedFrom;
    LastInv(cfg, clk, run, steps);
    var s := run[|steps|];
    var run1, steps1, spare := StreamOpens(cfg, clk, run, steps, id);
    LastInv(cfg, clk, run1, steps1);
    CatchupParts(cfg, clk, s, id, spare);
    var (snap, es) := Catchup(s.leader, s.nodes[id].st.rev, spare);
    SentParts(s.leader, s.nodes[id].st.rev, spare);
    SameLeader(s, run1[|steps1|], id);
    if snap.Some? {
      var run2, steps2 := DeliverMore(cfg, clk, run1, steps1, id, SnapshotPayload(snap.value));
      LastInv(cfg, clk, run2, steps2);
      InFlightGrows(run1[|steps1|], run2[|steps2|], id, es);
      longer, more := DeliverEntries(cfg, clk, run2, steps2, id, es, s.leader.compactIndex);
      LastInv(cfg, clk, longer, more);
      OnlyFollowerTwice(run1[|steps1|], run2[|steps2|], longer[|more|], id);
    } else {
      longer, more := DeliverEntries(cfg, clk, run1, steps1, id, es, s.nodes[id].st.rev);
      LastInv(cfg, clk, longer, more);
    }
    OnlyFollowerTwice(s, run1[|steps1|], longer[|more|], id);
    SameLeader(s, longer[|more|], id);
    PositionKnown(cfg, clk, longer[|more|], id);
  }

  lemma SparePosition(cfg: Config, clk: Clock, s: Sys, spare: WireSnapshot)
    requires Inv(cfg, clk, s) && ExportedFrom(spare, s.leader.view.st)
    ensures spare.lastIncludedIndex == s.leader.commit >= s.leader.compactIndex
  {
    hide Apply, NodeOk, SnapshotAt, NetOk, AnswersOk, MajorityHolds;
  }

  lemma SentParts(l: LeaderState, f: int, spare: WireSnapshot)
    requires f <= LastIndex(l)
    ensures var (snap, es) := Catchup(l, f, spare);
            var ps := CatchupPayloads(l, f, spare);
            && (snap.Some? ==> SnapshotPayload(snap.value) in ps)
            && forall k :: 0 <= k < |es| ==> EntryPayload(es[k]) in ps
  {
    var (snap, es) := Catchup(l, f, spare);
    var ps := CatchupPayloads(l, f, spare);
    if snap.Some? { assert ps[0] == SnapshotPayload(snap.value); }
    forall k | 0 <= k < |es| ensures EntryPayload(es[k]) in ps {
      assert ps[k + if snap.Some? then 1 else 0] == EntryPayload(es[k]);
    }
  }

  // ------------------------------------------------------------------
  // Committing everything
  // ------------------------------------------------------------------

  /** Everything but the followers' stores, the streams and the acks is as before. */
  ghost predicate SameLog(s: Sys, s': Sys) {
    && s'.ops == s.ops && s'.leader == s.leader.(acked := s'.leader.acked) && s'.nodes.Keys == s.nodes.Keys
    && s'.answered == s.answered && s'.abandoned == s.abandoned
  }

  ghost predicate AllAcked(s: Sys, ids: set<NodeId>) {
    forall id :: id in ids ==> id in s.nodes && s.nodes[id].st.rev == |s.ops| == AckOf(s.leader.acked, id)
  }

  lemma AllAckedGrows(s: Sys, s1: Sys, s2: Sys, s3: Sys, done: set<NodeId>, id: NodeId)
    requires AllAcked(s, done) && id !in done && id in s.nodes
    requires OnlyFollower(s, s1, id) && s1.nodes[id].st.rev == |s.ops|
    requires OnlyFollower(s1, s2, id) && s2.nodes == s1.nodes
    requires SameLog(s2, s3) && s3.nodes == s2.nodes && AckOf(s3.leader.acked, id) == |s.ops|
    requires forall other :: other != id ==> AckOf(s3.leader.acked, other) == AckOf(s2.leader.acked, other)
    ensures SameLog(s, s3) && AllAcked(s3, done + {id})
  {
    forall other | other in done + {id}
      ensures other in s3.nodes && s3.nodes[other].st.rev == |s3.ops| == AckOf(s3.leader.acked, other)
    {
      if other != id { assert other in done && AckOf(s.leader.acked, other) == |s.ops|; }
    }
  }

  lemma CanAck(cfg: Config, clk: Clock, run: seq<Sys>, steps: seq<Step>, done: set<NodeId>, id: NodeId)
    returns (longer: seq<Sys>, more: seq<Step>)
    requires IsRun(cfg, clk, run, steps)
    requires var s := run[|steps|];
             id in s.nodes && id !in done && FitsTo(s.ops, clk, |s.ops|) && AllAcked(s, done)
    ensures IsRun(cfg, clk, longer, more) && run <= longer
    ensures SameLog(run[|steps|], longer[|more|]) && AllAcked(longer[|more|], done + {id})
  {
    hide IsRun, Inv, FitsTo, Enabled, Next, LeaderOk, OnlyFollower, SameLog, AllAcked;
    LastInv(cfg, clk, run, steps);
    var run1, steps1 := CanCatchUp(cfg, clk, run, steps, id);
    LastInv(cfg, clk, run1, steps1);
    var s, s1 := run[|steps|], run1[|steps1|];
    PositionKnown(cfg, clk, s1, id);
    SameLeader(s, s1, id);
    var n := |s.ops|;
    ReportReaches(cfg, clk, s1, id);
    var run2 := FollowerStep(cfg, clk, run1, steps1, ReportStep(id), id);
    var s2, steps2 := Next(cfg, clk, s1, ReportStep(id)), steps1 + [ReportStep(id)];
    LastInv(cfg, clk, run2, steps2);
    SameLeader(s1, s2, id);
    AckReaches(cfg, clk, s2, id, n);
    RunGrows(cfg, clk, run2, steps2, AckStep(id, n));
    var s3 := Next(cfg, clk, s2, AckStep(id, n));
    longer, more := run2 + [s3], steps2 + [AckStep(id, n)];
    LastInv(cfg, clk, longer, more);
    AllAckedGrows(s, s1, s2, s3, done, id);
  }

  lemma SameLogTwice(s: Sys, s1: Sys, s2: Sys)
    requires SameLog(s, s1) && SameLog(s1, s2)
    ensures SameLog(s, s2)
  {
  }

  lemma SameLogKeeps(s: Sys, s': Sys)
    requires SameLog(s, s')
    ensures s'.ops == s.ops && s'.nodes.Keys == s.nodes.Keys && s'.abandoned == s.abandoned
  {
  }

  lemma {:induction false} CanAckAll(
    cfg: Config, clk: Clock, run: seq<Sys>, steps: seq<Step>, done: set<NodeId>, todo: set<NodeId>)
    returns (longer: seq<Sys>, more: seq<Step>)
    requires IsRun(cfg, clk, run, steps)
    requires var s := run[|steps|];
             done !! todo && todo <= s.nodes.Keys && FitsTo(s.ops, clk, |s.ops|) && AllAcked(s, done)
    ensures IsRun(cfg, clk, longer, more) && run <= longer
    ensures SameLog(run[|steps|], longer[|more|]) && AllAcked(longer[|more|], done + todo)
    decreases |todo|
  {
    hide IsRun, Inv, FitsTo, AllAcked, SameLog;
    LastInv(cfg, clk, run, steps);
    if todo == {} {
      longer, more := run, steps;
      assert done + todo == done;
      assert SameLog(run[|steps|], run[|steps|]) by { SameLogSelf(run[|steps|]); }
    } else {
      var id :| id in todo;
      var run1, steps1 := CanAck(cfg, clk, run, steps, done, id);
      LastInv(cfg, clk, run1, steps1);
      SameLogKeeps(run[|steps|], run1[|steps1|]);
      longer, more := CanAckAll(cfg, clk, run1, steps1, done + {id}, todo - {id});
      LastInv(cfg, clk, longer, more);
      assert done + {id} + (todo - {id}) == done + todo;
      SameLogTwice(run[|steps|], run1[|steps1|], longer[|more|]);
    }
  }

  lemma SameLogSelf(s: Sys)
    ensures SameLog(s, s)
  {
  }

  lemma {:induction false} LogFitsRound(l: LeaderState, ops: seq<Op>, clk: Clock, idx: nat)
    requires LeaderOk(l, ops, clk) && InWindow(l, idx) && FitsTo(ops, clk, |ops|)
    ensures RoundFits(l, clk, idx)
  {
    hide Apply, Fits, NodeOk, ApplyTo, SnapshotAt;
    forall i | l.commit < i <= idx ensures EntryFits(l, clk, i) {
      ShorterFits(ops, clk, i - 1, |ops|);
      ApplyToFolds(l, ops, clk, i - 1);
      NodeAt(ApplyTo(l, clk, i - 1), ops, clk);
      assert l.log[i - 1 - l.compactIndex] == LogEntry(i, ops[i - 1]);
      assert Fits(EffectAt(ops, clk, i));
    }
  }

  lemma EveryoneIsQuorum(cfg: Config, clk: Clock, s: Sys)
    requires Inv(cfg, clk, s) && cfg.self in cfg.nodes && AllAcked(s, s.nodes.Keys)
    ensures CommitPoint(cfg, s.leader) == |s.ops| && InWindow(s.leader, |s.ops|)
  {
    hide Apply, NodeOk, SnapshotAt, NetOk, AnswersOk, MajorityHolds;
    var l, n := s.leader, |s.ops|;
    ScanFindsLargest(cfg, l.acked, l.commit, n);
    assert Voters(cfg, l.acked, n) == Followers(cfg);
    assert cfg.nodes == Followers(cfg) + {cfg.self};
    assert HasQuorum(cfg, l.acked, n);
  }

  lemma RoundToEnd(cfg: Config, clk: Clock, s: Sys, snap: WireSnapshot)
    requires Inv(cfg, clk, s) && Enabled(cfg, clk, s, CommitStep(snap)) && CommitPoint(cfg, s.leader) == |s.ops|
    ensures var s' := Next(cfg, clk, s, CommitStep(snap));
            s'.ops == s.ops && s'.abandoned == s.abandoned && s'.nodes == s.nodes && s'.leader.commit == |s.ops|
  {
    hide Apply, NodeOk, SnapshotAt, EffectAt, SignalsTo, ApplyTo, CommitPoint, RoundFits, CommitRound;
    LeaderOf(cfg, clk, s);
    CommitLeader(cfg, clk, s.leader, s.ops, snap);
  }

  /** From every reachable state in which no proposed entry panics there is a continuation,
      without new proposals, in which every follower has applied the whole log, all of it is
      committed, and every proposer that did not give up is answered. */
  lemma EverythingCanCommit(cfg: Config, clk: Clock, run: seq<Sys>, steps: seq<Step>)
    returns (longer: seq<Sys>, more: seq<Step>)
    requires IsRun(cfg, clk, run, steps) && cfg.self in cfg.nodes
    requires FitsTo(run[|steps|].ops, clk, |run[|steps|].ops|)
    ensures IsRun(cfg, clk, longer, more) && run <= longer
    ensures var s, s' := run[|steps|], longer[|more|];
            && s'.ops == s.ops && s'.abandoned == s.abandoned && s'.nodes.Keys == s.nodes.Keys
            && s'.leader.commit == |s.ops|
            && (forall id :: id in s'.nodes ==> s'.nodes[id].st.rev == |s.ops|)
            && (forall i :: 1 <= i <= |s.ops| && i !in s.abandoned ==> IsAnswered(s', i))
  {
    LastInv(cfg, clk, run, steps);
    hide IsRun, Inv, FitsTo, Enabled, CommitPoint, RoundFits, InWindow, LeaderOk, Next, IsAnswered;
    var s := run[|steps|];
    assert AllAcked(s, {});
    var run1, steps1 := CanAckAll(cfg, clk, run, steps, {}, s.nodes.Keys);
    LastInv(cfg, clk, run1, steps1);
    var s1 := run1[|steps1|];
    assert {} + s.nodes.Keys == s1.nodes.Keys;
    EveryoneIsQuorum(cfg, clk, s1);
    LeaderOf(cfg, clk, s1);
    LogFitsRound(s1.leader, s1.ops, clk, |s1.ops|);
    var snap := CommitPossible(cfg, clk, s1);
    RunGrows(cfg, clk, run1, steps1, CommitStep(snap));
    RoundToEnd(cfg, clk, s1, snap);
    longer, more := run1 + [Next(cfg, clk, s1, CommitStep(snap))], steps1 + [CommitStep(snap)];
    LastInv(cfg, clk, longer, more);
    EveryoneAnswered(cfg, clk, longer, more);
  }
}
