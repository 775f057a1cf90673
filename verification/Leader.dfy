/** The leader's replicator and the follower's stream loop as the objects and loops
    they are, each method proved against the functions of Replication. */
module Leaders {
  import opened Types
  import opened StateMachine
  import opened Snapshots
  import opened Views
  import opened Stores
  import R = Replication
  import opened Replication

  class Leader {
    const cfg: Config
    const st: Store

    // The log window: log[0] carries index compactIndex + 1.
    var log: seq<LogEntry>
    var compactIndex: nat
    var savedSnap: Option<WireSnapshot>
    var waiters: set<int>
    var commit: nat
    var applied: nat
    var acked: map<NodeId, int>

    ghost predicate Valid()
      reads this, st
    {
      st.Valid() && compactIndex <= commit == applied <= compactIndex + |log|
    }

    ghost function Model(): LeaderState
      reads this, st, st.history
      requires st.Valid()
    {
      LeaderState(log, compactIndex, savedSnap, waiters, commit, applied, acked, st.Model())
    }

    constructor (cfg: Config, st: Store)
      requires st.Valid() && st.Model() == NEW_VIEW
      ensures Valid() && this.cfg == cfg && this.st == st && Model() == NEW_LEADER
    {
      this.cfg, this.st := cfg, st;
      log, compactIndex, savedSnap := [], 0, None;
      waiters, commit, applied, acked := {}, 0, 0, map[];
    }

    /** Appends the entry and registers who waits for it. */
    method Propose(op: Op) returns (index: int)
      requires Valid()
      modifies this`log, this`waiters
      ensures Valid() && Model() == R.Propose(old(Model()), op) && index == LastIndex(Model())
      ensures index == compactIndex + |old(log)| + 1 && log == old(log) + [LogEntry(index, op)]
      ensures waiters == old(waiters) + {index}
    {
      index := compactIndex + |log| + 1;
      waiters := waiters + {index};
      log := log + [LogEntry(index, op)];
    }

    /** A proposer that gave up is forgotten; its entry stays in the log. */
    method GiveUp(index: int)
      requires Valid()
      modifies this`waiters
      ensures Valid() && Model() == Abandon(old(Model()), index)
      ensures waiters == old(waiters) - {index}
    {
      waiters := waiters - {index};
    }

    method FollowerAck(id: NodeId, index: int)
      requires Valid()
      modifies this`acked
      ensures Valid() && Model() == Ack(old(Model()), id, index)
      ensures index > (if id in old(acked) then old(acked)[id] else 0) ==> acked == old(acked)[id := index]
      ensures index <= (if id in old(acked) then old(acked)[id] else 0) ==> acked == old(acked)
    {
      if index > AckOf(acked, id) {
        acked := acked[id := index];
      }
    }

    method FollowerReset(id: NodeId)
      requires Valid()
      modifies this`acked
      ensures Valid() && Model() == Reset(old(Model()), id)
      ensures acked == old(acked)[id := 0]
    {
      acked := acked[id := 0];
    }

    method CountVotes(i: int) returns (votes: nat)
      ensures votes == Votes(cfg, acked, i)
    {
      votes := 1;
      var todo := cfg.nodes;
      ghost var counted: set<NodeId> := {};
      while todo != {}
        invariant todo <= cfg.nodes
        invariant counted == set id | id in Voters(cfg, acked, i) && id !in todo
        invariant votes == 1 + |counted|
        decreases |todo|
      {
        var id :| id in todo;
        todo := todo - {id};
        if id != cfg.self && AckOf(acked, id) >= i {
          votes := votes + 1;
          counted := counted + {id};
        }
      }
      assert counted == Voters(cfg, acked, i);
    }

    /** Scans from the newest index back for the largest one a majority has acknowledged. */
    method FindCommitPoint() returns (newCommit: nat)
      requires Valid()
      ensures newCommit == CommitPoint(cfg, Model())
      ensures commit <= newCommit <= compactIndex + |log|
      ensures forall j :: commit < j <= compactIndex + |log| ==> (HasQuorum(cfg, acked, j) <==> j <= newCommit)
    {
      ScanFindsLargest(cfg, acked, commit, compactIndex + |log|);
      var need := Quorum(|cfg.nodes|);
      var i := compactIndex + |log|;
      while i > commit
        invariant commit <= i <= compactIndex + |log|
        invariant ScanBack(cfg, acked, commit, i) == CommitPoint(cfg, Model())
      {
        var votes := CountVotes(i);
        if votes >= need {
          return i;
        }
        i := i - 1;
      }
      return commit;
    }

    /** One pass of the commit loop: find the commit point, apply everything up to
        it in order, collect the answers, compact. `snap` is an export of the store after the round,
        and the one saved if the log was compacted. */
    method CommitRound(now: Clock) returns (signals: seq<Signal>, ghost snap: WireSnapshot)
      requires Valid()
      requires InWindow(Model(), CommitPoint(cfg, Model())) && RoundFits(Model(), now, CommitPoint(cfg, Model()))
      modifies this, st, st.history
      ensures Valid()
      ensures Model() == R.CommitRound(cfg, old(Model()), now, snap)
      ensures signals == SignalsTo(old(Model()), now, CommitPoint(cfg, old(Model())))
      ensures ExportedFrom(snap, st.Tables())
    {
      hide Apply, ApplyTo, SignalsTo, ApplyView, RoundFits, CommitPoint;
      ghost var before := Model();
      RoundStart(before, now);
      signals := [];
      var newCommit := FindCommitPoint();
      snap := SomeExport(st.Tables());
      if newCommit > commit {
        var idx := commit + 1;
        while idx <= newCommit
          invariant commit < idx <= newCommit + 1
          invariant st.Valid() && st.Model() == ApplyTo(before, now, idx - 1)
          invariant signals == SignalsTo(before, now, idx - 1)
          invariant log == before.log && compactIndex == before.compactIndex && savedSnap == before.savedSnap
          invariant commit == before.commit && acked == before.acked
          invariant applied == idx - 1
          invariant waiters == set i | i in before.waiters && !(commit < i < idx)
        {
          var e := log[idx - 1 - compactIndex];
          RoundStep(before, now, idx, newCommit);
          var out := st.ApplyOne(e, now(idx));
          applied := idx;
          if idx in waiters {
            signals := signals + [Signal(idx, out)];
            waiters := waiters - {idx};
          }
          idx := idx + 1;
        }
        commit := newCommit;
        assert Model() == Advance(before, now, newCommit);
        snap := CompactLocked();
      }
    }

    method CompactLocked() returns (ghost snap: WireSnapshot)
      requires Valid()
      modifies this`log, this`savedSnap, this`compactIndex
      ensures Valid() && Model() == Compact(old(Model()), snap)
      ensures ExportedFrom(snap, st.Tables())
    {
      snap := SomeExport(st.Tables());
      if |log| <= RETAIN_ENTRIES || commit <= compactIndex {
        return;
      }
      var exported := st.ExportSnapshot();
      var w := SnapshotToProto(exported);
      savedSnap := Some(w);
      snap := w;
      log := log[commit - compactIndex..];
      compactIndex := commit;
    }

    /** What to send a follower that reports `followerLast`. */
    method Catchup(followerLast: int) returns (snap: Option<WireSnapshot>, entries: seq<LogEntry>, ghost spare: WireSnapshot)
      requires Valid() && followerLast <= LastIndex(Model())
      ensures (snap, entries) == R.Catchup(Model(), followerLast, spare)
      ensures ExportedFrom(spare, st.Tables())
    {
      spare := SomeExport(st.Tables());
      snap := None;
      var firstKept := compactIndex + 1;
      if followerLast >= firstKept {
        entries := log[followerLast - compactIndex..];
        return;
      }
      entries := log;
      if compactIndex == 0 {
        return;
      }
      snap := savedSnap;
      if snap.None? {
        var exported := st.ExportSnapshot();
        var w := SnapshotToProto(exported);
        snap := Some(w);
        spare := w;
      }
    }

    method EntriesAfter(followerLast: int) returns (entries: seq<LogEntry>, ok: bool)
      requires Valid() && followerLast <= LastIndex(Model())
      ensures R.EntriesAfter(Model(), followerLast) == if ok then Some(entries) else None
    {
      if followerLast < compactIndex {
        return [], false;
      }
      return log[followerLast - compactIndex..], true;
    }

    /** Sends the snapshot, if any, and then every entry, in order. */
    method SendCatchup(followerLast: int) returns (sent: seq<Payload>, ghost spare: WireSnapshot)
      requires Valid() && followerLast <= LastIndex(Model())
      ensures sent == CatchupPayloads(Model(), followerLast, spare)
      ensures ExportedFrom(spare, st.Tables())
    {
      var snap, entries;
      snap, entries, spare := Catchup(followerLast);
      sent := [];
      if snap.Some? {
        sent := sent + [SnapshotPayload(snap.value)];
      }
      ghost var head := sent;
      for i := 0 to |entries|
        invariant sent == head + Payloads(entries)[..i]
      {
        sent := sent + [EntryPayload(entries[i])];
      }
    }
  }

  lemma SomeExport(s: State) returns (w: WireSnapshot)
    ensures ExportedFrom(w, s)
  {
    var snap := ExportExists(s);
    w := ToWire(snap);
  }

  lemma RoundStart(l: LeaderState, now: Clock)
    requires InWindow(l, l.commit)
    ensures ApplyTo(l, now, l.commit) == l.view && SignalsTo(l, now, l.commit) == []
  {
  }

  lemma RoundStep(l: LeaderState, now: Clock, idx: nat, last: nat)
    requires InWindow(l, last) && l.commit < idx <= last && RoundFits(l, now, last)
    ensures var e, v := l.log[idx - 1 - l.compactIndex], ApplyTo(l, now, idx - 1);
            && Fits(Apply(v.st, e, now(idx)))
            && ApplyTo(l, now, idx) == ApplyView(v, e, now(idx))
            && SignalsTo(l, now, idx) == SignalsTo(l, now, idx - 1)
                 + if idx in l.waiters then [Signal(idx, Apply(v.st, e, now(idx)).outcome)] else []
  {
    hide Apply, ApplyView, Fits;
    assert EntryFits(l, now, idx);
  }

  /** No entry the stream will apply panics. */
  ghost predicate StreamFits(v: View, ps: seq<Payload>, now: Clock) {
    forall k :: 0 <= k < |ps| && ps[k].EntryPayload? ==>
      var s := ReceiveAll(FollowerState(v, [v.st.rev], false), ps[..k], now).view.st;
      ps[k].e.index == s.rev + 1 ==> Fits(Apply(s, ps[k].e, now(ps[k].e.index)))
  }

  /** The follower acts on a message: every snapshot, and the entry it waits for at revision `rev`. */
  predicate ActedOn(p: Payload, rev: int) { p.SnapshotPayload? || p.e.index == rev + 1 }

  /** The revision after a message that does not end the stream: a snapshot lifts it to its
      own index if that is higher, the awaited entry by one, and an older entry leaves it. */
  predicate MovesTo(p: Payload, rev: int, rev': int) {
    match p
    case SnapshotPayload(w) => rev' == if w.lastIncludedIndex < rev then rev else w.lastIncludedIndex
    case EntryPayload(e) => e.index <= rev + 1 && rev' == if e.index == rev + 1 then rev + 1 else rev
  }

  /** One report when the stream opens, and one after each of the first `m` messages that was
      acted on: always the revision reached. */
  function Reports(ps: seq<Payload>, revs: seq<int>, m: nat): seq<int>
    requires m <= |ps| && m < |revs|
  {
    if m == 0 then [revs[0]]
    else Reports(ps, revs, m - 1) + if ActedOn(ps[m - 1], revs[m - 1]) then [revs[m]] else []
  }

  /** `revs` are the revisions before each message and at the end; the stream goes through all
      messages, or ends at the first entry that leaves a hole. */
  predicate StreamTrace(ps: seq<Payload>, revs: seq<int>, acks: seq<int>, gap: bool) {
    && 1 <= |revs| <= |ps| + 1 && (gap <==> |revs| <= |ps|)
    && (forall k :: 0 <= k < |revs| - 1 ==> MovesTo(ps[k], revs[k], revs[k + 1]))
    && (gap ==> ps[|revs| - 1].EntryPayload? && ps[|revs| - 1].e.index > revs[|revs| - 1] + 1)
    && acks == Reports(ps, revs, |revs| - 1)
  }

  lemma {:induction false} ReportsFollow(ps: seq<Payload>, revs: seq<int>, m: nat)
    requires m <= |ps| && m < |revs| && forall k :: 0 <= k < m ==> MovesTo(ps[k], revs[k], revs[k + 1])
    ensures var acks := Reports(ps, revs, m);
            && |acks| >= 1 && acks[0] == revs[0] && acks[|acks| - 1] == revs[m]
            && (forall i, j :: 0 <= i <= j < |acks| ==> acks[i] <= acks[j])
  {
    if m > 0 {
      ReportsFollow(ps, revs, m - 1);
      var acks := Reports(ps, revs, m - 1);
      assert forall i :: 0 <= i < |acks| ==> acks[i] <= acks[|acks| - 1];
      assert MovesTo(ps[m - 1], revs[m - 1], revs[m]);
    }
  }

  lemma {:induction false} SameReports(ps: seq<Payload>, revs: seq<int>, more: seq<int>, m: nat)
    requires m <= |ps| && m < |revs| && revs <= more
    ensures Reports(ps, more, m) == Reports(ps, revs, m)
  {
    if m > 0 { SameReports(ps, revs, more, m - 1); }
  }

  /** The trace of the first `i` messages of a stream that has not ended. */
  predicate Tracing(ps: seq<Payload>, revs: seq<int>, acks: seq<int>, i: nat) {
    && |revs| == i + 1 <= |ps| + 1 && acks == Reports(ps, revs, i)
    && forall k :: 0 <= k < i ==> MovesTo(ps[k], revs[k], revs[k + 1])
  }

  lemma NextReport(ps: seq<Payload>, revs: seq<int>, acks: seq<int>, i: nat, rev: int)
    requires i < |ps| && Tracing(ps, revs, acks, i) && MovesTo(ps[i], revs[i], rev)
    ensures Tracing(ps, revs + [rev], acks + if ActedOn(ps[i], revs[i]) then [rev] else [], i + 1)
  {
    SameReports(ps, revs, revs + [rev], i);
  }

  lemma TraceEnds(ps: seq<Payload>, revs: seq<int>, acks: seq<int>, i: nat, gap: bool)
    requires Tracing(ps, revs, acks, i) && (gap <==> i < |ps|)
    requires gap ==> ps[i].EntryPayload? && ps[i].e.index > revs[i] + 1
    ensures StreamTrace(ps, revs, acks, gap) && |acks| >= 1 && acks[0] == revs[0] && acks[|acks| - 1] == revs[i]
    ensures forall i, j :: 0 <= i <= j < |acks| ==> acks[i] <= acks[j]
  {
    ReportsFollow(ps, revs, i);
  }

  lemma StreamNext(first: FollowerState, ps: seq<Payload>, i: nat, now: Clock)
    requires i < |ps|
    ensures ReceiveAll(first, ps[..i + 1], now) == Receive(ReceiveAll(first, ps[..i], now), ps[i], now)
    ensures ReceiveAll(first, [], now) == first
  {
    hide Receive;
    assert ps[..i + 1][..i] == ps[..i] && ps[..i + 1][i] == ps[i];
  }

  lemma StreamFitsAt(v: View, ps: seq<Payload>, now: Clock, i: nat, f: FollowerState)
    requires StreamFits(v, ps, now) && i < |ps| && ps[i].EntryPayload?
    requires f == ReceiveAll(FollowerState(v, [v.st.rev], false), ps[..i], now) && ps[i].e.index == f.view.st.rev + 1
    ensures Fits(Apply(f.view.st, ps[i].e, now(ps[i].e.index)))
  {
    hide Apply, Fits, ReceiveAll;
  }

  /** The follower's loop over one stream: restore snapshots, skip old entries, apply
      the wanted one, give up on a gap; acknowledge after every message acted on. */
  method ApplyStream(st: Store, ps: seq<Payload>, now: Clock) returns (acks: seq<int>, gap: bool, ghost revs: seq<int>)
    requires st.Valid() && StreamFits(st.Model(), ps, now)
    modifies st, st.history
    ensures st.Valid()
    ensures FollowerState(st.Model(), acks, gap) == StreamFrom(old(st.Model()), ps, now)
    ensures StreamTrace(ps, revs, acks, gap) && revs[0] == old(st.rev) && revs[|revs| - 1] == st.rev
    ensures |acks| >= 1 && acks[0] == old(st.rev) && acks[|acks| - 1] == st.rev
    ensures forall i, j :: 0 <= i <= j < |acks| ==> acks[i] <= acks[j]
  {
    hide Apply, Fits, ApplyView, RestoreView, FromWire, MovesTo, ActedOn, Reports, Tracing, ReceiveAll, StreamFits;
    ghost var first := FollowerState(st.Model(), [st.rev], false);
    acks, gap, revs := [st.rev], false, [st.rev];
    assert ps[..0] == [] && ReceiveAll(first, [], now) == first by { StreamStarts(first, now); }
    assert Tracing(ps, revs, acks, 0) by { TraceStarts(ps, st.rev); }
    var i := 0;
    while i < |ps|
      invariant 0 <= i <= |ps| && st.Valid() && !gap
      invariant FollowerState(st.Model(), acks, gap) == ReceiveAll(first, ps[..i], now)
      invariant |revs| == i + 1 && revs[0] == old(st.rev) && revs[i] == st.rev && Tracing(ps, revs, acks, i)
    {
      StreamNext(first, ps, i, now);
      ghost var before := st.Model();
      match ps[i] {
        case SnapshotPayload(w) =>
          var snap := SnapshotFromProto(w);
          st.RestoreSnapshot(snap);
          SnapshotMoves(before, w);
        case EntryPayload(e) =>
          var want := st.rev + 1;
          if e.index < want {
            OldEntryMoves(e, st.rev);
            NextReport(ps, revs, acks, i, st.rev);
            assert acks + [] == acks;
            revs, i := revs + [st.rev], i + 1;
            continue;
          }
          if e.index != want {
            gap := true;
            GapEndsStream(first, ps, i + 1, now);
            TraceEnds(ps, revs, acks, i, gap);
            return;
          }
          StreamFitsAt(old(st.Model()), ps, now, i, FollowerState(before, acks, gap));
          var _ := st.ApplyOne(e, now(e.index));
          EntryMoves(before, e, now(e.index));
      }
      NextReport(ps, revs, acks, i, st.rev);
      acks, revs, i := acks + [st.rev], revs + [st.rev], i + 1;
    }
    assert ps[..|ps|] == ps;
    TraceEnds(ps, revs, acks, i, gap);
  }

  lemma StreamStarts(first: FollowerState, now: Clock)
    ensures ReceiveAll(first, [], now) == first
  {
  }

  lemma TraceStarts(ps: seq<Payload>, rev: int)
    ensures Tracing(ps, [rev], [rev], 0)
  {
  }

  lemma SnapshotMoves(v: View, w: WireSnapshot)
    ensures MovesTo(SnapshotPayload(w), v.st.rev, RestoreView(v, FromWire(w)).st.rev)
    ensures ActedOn(SnapshotPayload(w), v.st.rev)
  {
  }

  lemma OldEntryMoves(e: LogEntry, rev: int)
    requires e.index <= rev
    ensures MovesTo(EntryPayload(e), rev, rev) && !ActedOn(EntryPayload(e), rev)
  {
  }

  lemma EntryMoves(v: View, e: LogEntry, now: int)
    requires e.index == v.st.rev + 1
    ensures MovesTo(EntryPayload(e), v.st.rev, ApplyView(v, e, now).st.rev)
    ensures ActedOn(EntryPayload(e), v.st.rev)
  {
  }

  /** Nothing after a gap has any effect: the stream is over. */
  lemma {:induction false} GapEndsStream(f: FollowerState, ps: seq<Payload>, n: nat, now: Clock)
    requires n <= |ps| && ReceiveAll(f, ps[..n], now).gap
    ensures ReceiveAll(f, ps, now) == ReceiveAll(f, ps[..n], now)
    decreases |ps|
  {
    if n < |ps| {
      assert ps[..|ps| - 1][..n] == ps[..n];
      GapEndsStream(f, ps[..|ps| - 1], n, now);
    } else {
      assert ps[..n] == ps;
    }
  }
}
