/** The leader's replicator and the follower's stream as functions on values:
    the specification the imperative classes meet and the protocol is built from. */
module Replication {
  import opened Types
  import opened StateMachine
  import opened StoreLaws
  import opened Snapshots
  import opened Views

  const RETAIN_ENTRIES := 10_000

  datatype Config = Config(nodes: set<NodeId>, self: NodeId)

  /** The answer handed to the proposer waiting for `index`. */
  datatype Signal = Signal(index: int, outcome: Outcome)

  datatype LeaderState = LeaderState(
    log: seq<LogEntry>, compactIndex: nat, savedSnap: Option<WireSnapshot>,
    waiters: set<int>, commit: nat, applied: nat, acked: map<NodeId, int>, view: View)

  const NEW_LEADER := LeaderState([], 0, None, {}, 0, 0, map[], NEW_VIEW)

  /** The least number of nodes that is more than half of them. */
  function Quorum(n: nat): (q: nat)
    ensures n < 2 * q <= n + 2
  {
    n / 2 + 1
  }

  function Followers(cfg: Config): set<NodeId> { cfg.nodes - {cfg.self} }

  function LastIndex(l: LeaderState): nat { l.compactIndex + |l.log| }

  function AckOf(acked: map<NodeId, int>, id: NodeId): int { if id in acked then acked[id] else 0 }

  // ------------------------------------------------------------------
  // Counting votes
  // ------------------------------------------------------------------

  function Voters(cfg: Config, acked: map<NodeId, int>, i: int): set<NodeId> {
    set id | id in Followers(cfg) && AckOf(acked, id) >= i
  }

  function Votes(cfg: Config, acked: map<NodeId, int>, i: int): nat { 1 + |Voters(cfg, acked, i)| }

  predicate HasQuorum(cfg: Config, acked: map<NodeId, int>, i: int) {
    Votes(cfg, acked, i) >= Quorum(|cfg.nodes|)
  }

  /** The scan from the newest index back to the current commit point. */
  function ScanBack(cfg: Config, acked: map<NodeId, int>, commit: nat, i: nat): nat
    decreases i
  {
    if i <= commit then commit
    else if HasQuorum(cfg, acked, i) then i
    else ScanBack(cfg, acked, commit, i - 1)
  }

  lemma SubsetSize<T>(a: set<T>, b: set<T>)
    requires a <= b
    ensures |a| <= |b|
  {
    assert a + (b - a) == b;
  }

  /** An ack adds its follower to the support of every index it covers and takes nobody away;
      a reset takes exactly that follower's support away, from every index. */
  lemma AckCounts(cfg: Config, l: LeaderState, id: NodeId, index: int, i: int)
    requires i >= 1
    ensures Voters(cfg, Ack(l, id, index).acked, i)
            == Voters(cfg, l.acked, i) + if id in Followers(cfg) && i <= index then {id} else {}
    ensures Voters(cfg, Reset(l, id).acked, i) == Voters(cfg, l.acked, i) - {id}
  {
  }

  /** Acks cover prefixes, so support only falls as the index grows. */
  lemma VotesFall(cfg: Config, acked: map<NodeId, int>, i: int, j: int)
    requires i <= j
    ensures Votes(cfg, acked, j) <= Votes(cfg, acked, i)
  {
    SubsetSize(Voters(cfg, acked, j), Voters(cfg, acked, i));
  }

  /** The scan stops at the largest index with a majority, or does not move. */
  lemma {:induction false} ScanFindsLargest(cfg: Config, acked: map<NodeId, int>, commit: nat, last: nat)
    requires commit <= last
    ensures var r := ScanBack(cfg, acked, commit, last);
            && commit <= r <= last
            && (forall j :: commit < j <= last ==> (HasQuorum(cfg, acked, j) <==> j <= r))
    decreases last
  {
    if commit < last {
      if HasQuorum(cfg, acked, last) {
        forall j | commit < j <= last ensures HasQuorum(cfg, acked, j) { VotesFall(cfg, acked, j, last); }
      } else {
        ScanFindsLargest(cfg, acked, commit, last - 1);
      }
    }
  }

  // ------------------------------------------------------------------
  // Leader operations
  // ------------------------------------------------------------------

  function Propose(l: LeaderState, op: Op): LeaderState {
    var i := LastIndex(l) + 1;
    l.(log := l.log + [LogEntry(i, op)], waiters := l.waiters + {i})
  }

  function Abandon(l: LeaderState, index: int): LeaderState { l.(waiters := l.waiters - {index}) }

  function Ack(l: LeaderState, id: NodeId, index: int): LeaderState {
    if index > AckOf(l.acked, id) then l.(acked := l.acked[id := index]) else l
  }

  function Reset(l: LeaderState, id: NodeId): LeaderState { l.(acked := l.acked[id := 0]) }

  predicate InWindow(l: LeaderState, idx: int) { l.compactIndex <= l.commit <= idx <= LastIndex(l) }

  /** The leader's store after applying the log from the commit point up to `idx`. */
  function ApplyTo(l: LeaderState, clk: Clock, idx: nat): (v: View)
    requires InWindow(l, idx)
    decreases idx
  {
    if idx == l.commit then l.view
    else ApplyView(ApplyTo(l, clk, idx - 1), l.log[idx - 1 - l.compactIndex], clk(idx))
  }

  function SignalsTo(l: LeaderState, clk: Clock, idx: nat): (s: seq<Signal>)
    requires InWindow(l, idx)
    decreases idx
  {
    if idx == l.commit then []
    else
      var out := Apply(ApplyTo(l, clk, idx - 1).st, l.log[idx - 1 - l.compactIndex], clk(idx)).outcome;
      SignalsTo(l, clk, idx - 1) + (if idx in l.waiters then [Signal(idx, out)] else [])
  }

  /** Everything one round does before compacting. */
  function Advance(l: LeaderState, clk: Clock, idx: nat): LeaderState
    requires InWindow(l, idx)
  {
    l.(view := ApplyTo(l, clk, idx), applied := if idx > l.commit then idx else l.applied, commit := idx,
       waiters := set i | i in l.waiters && !(l.commit < i <= idx))
  }

  /** Once the window is too long, keep only what the snapshot does not cover. */
  function Compact(l: LeaderState, snap: WireSnapshot): LeaderState
    requires InWindow(l, l.commit)
  {
    if |l.log| <= RETAIN_ENTRIES || l.commit <= l.compactIndex then l
    else l.(savedSnap := Some(snap), log := l.log[l.commit - l.compactIndex..], compactIndex := l.commit)
  }

  function CommitPoint(cfg: Config, l: LeaderState): nat {
    ScanBack(cfg, l.acked, l.commit, LastIndex(l))
  }

  /** One pass of the commit loop; `snap` is the export taken if the log is compacted. */
  function CommitRound(cfg: Config, l: LeaderState, clk: Clock, snap: WireSnapshot): LeaderState
    requires InWindow(l, CommitPoint(cfg, l))
  {
    var n := CommitPoint(cfg, l);
    if n > l.commit then Compact(Advance(l, clk, n), snap) else l
  }

  /** What a follower that reports position `f` is sent; `spare` is the fallback export. */
  function Catchup(l: LeaderState, f: int, spare: WireSnapshot): (Option<WireSnapshot>, seq<LogEntry>)
    requires f <= LastIndex(l)
  {
    if f >= l.compactIndex + 1 then (None, l.log[f - l.compactIndex..])
    else if l.compactIndex == 0 then (None, l.log)
    else (Some(if l.savedSnap.Some? then l.savedSnap.value else spare), l.log)
  }

  function EntriesAfter(l: LeaderState, f: int): Option<seq<LogEntry>>
    requires f <= LastIndex(l)
  {
    if f < l.compactIndex then None else Some(l.log[f - l.compactIndex..])
  }

  // ------------------------------------------------------------------
  // Follower stream
  // ------------------------------------------------------------------

  datatype Payload = SnapshotPayload(snap: WireSnapshot) | EntryPayload(e: LogEntry)

  /** The follower after part of a stream: its store, the acks it sent, and
      whether it gave up on a gap in the indices. */
  datatype FollowerState = FollowerState(view: View, acks: seq<int>, gap: bool)

  function Receive(f: FollowerState, p: Payload, now: Clock): FollowerState {
    if f.gap then f
    else
      match p
      case SnapshotPayload(snap) =>
        var v := RestoreView(f.view, FromWire(snap));
        FollowerState(v, f.acks + [v.st.rev], false)
      case EntryPayload(e) =>
        var want := f.view.st.rev + 1;
        if e.index < want then f
        else if e.index != want then f.(gap := true)
        else
          var v := ApplyView(f.view, e, now(e.index));
          FollowerState(v, f.acks + [v.st.rev], false)
  }

  function ReceiveAll(f: FollowerState, ps: seq<Payload>, now: Clock): FollowerState {
    if ps == [] then f else Receive(ReceiveAll(f, ps[..|ps| - 1], now), ps[|ps| - 1], now)
  }

  /** A new stream starts by reporting the applied position. */
  function StreamFrom(v: View, ps: seq<Payload>, now: Clock): FollowerState {
    ReceiveAll(FollowerState(v, [v.st.rev], false), ps, now)
  }

  function Payloads(es: seq<LogEntry>): seq<Payload> {
    seq(|es|, i requires 0 <= i < |es| => EntryPayload(es[i]))
  }

  function CatchupPayloads(l: LeaderState, f: int, spare: WireSnapshot): seq<Payload>
    requires f <= LastIndex(l)
  {
    var (snap, es) := Catchup(l, f, spare);
    (if snap.Some? then [SnapshotPayload(snap.value)] else []) + Payloads(es)
  }

  // ------------------------------------------------------------------
  // The leader against the full log
  // ------------------------------------------------------------------

  /** `w` is the wire form of an export of `s`. */
  ghost predicate ExportedFrom(w: WireSnapshot, s: State) {
    exists snap :: w == ToWire(snap) && IsExport(snap, s)
  }

  /** `w` was exported from the state after `n` operations. */
  ghost predicate SnapshotAt(w: WireSnapshot, ops: seq<Op>, clk: Clock, n: int) {
    0 <= n <= |ops| && FitsTo(ops, clk, n) && ExportedFrom(w, RunTo(ops, clk, n))
  }

  /** Every log slot holds the operation of its index: the window is the tail of the full log. */
  ghost predicate WindowHolds(l: LeaderState, ops: seq<Op>) {
    && LastIndex(l) == |ops|
    && forall k :: 0 <= k < |l.log| ==>
         l.log[k] == LogEntry(l.compactIndex + 1 + k, ops[l.compactIndex + k])
  }

  ghost predicate LeaderOk(l: LeaderState, ops: seq<Op>, clk: Clock) {
    && WindowHolds(l, ops)
    && l.compactIndex <= l.commit == l.applied == l.view.st.rev <= |ops|
    && NodeOk(l.view, ops, clk)
    && (l.savedSnap.Some? ==> SnapshotAt(l.savedSnap.value, ops, clk, l.compactIndex))
    && (forall i :: i in l.waiters ==> l.commit < i <= |ops|)
  }

  lemma NodeAt(v: View, ops: seq<Op>, clk: Clock)
    requires NodeOk(v, ops, clk)
    ensures 0 <= v.st.rev <= |ops| && v.st == RunTo(ops, clk, v.st.rev) && FitsTo(ops, clk, v.st.rev)
  {
    hide Apply;
  }

  lemma SnapshotOnLongerLog(w: WireSnapshot, ops: seq<Op>, more: seq<Op>, clk: Clock, n: int)
    requires SnapshotAt(w, ops, clk, n) && ops <= more
    ensures SnapshotAt(w, more, clk, n)
  {
    hide Apply;
    FoldOfPrefix(ops, more, clk, n);
  }

  lemma ProposeKeeps(l: LeaderState, ops: seq<Op>, clk: Clock, op: Op)
    requires LeaderOk(l, ops, clk)
    ensures LeaderOk(Propose(l, op), ops + [op], clk)
  {
    hide Apply;
    NodeOnLongerLog(l.view, ops, ops + [op], clk);
    if l.savedSnap.Some? { SnapshotOnLongerLog(l.savedSnap.value, ops, ops + [op], clk, l.compactIndex); }
  }

  /** Applying a stretch of the window is folding the full log. */
  lemma {:induction false} ApplyToFolds(l: LeaderState, ops: seq<Op>, clk: Clock, idx: nat)
    requires LeaderOk(l, ops, clk) && InWindow(l, idx) && FitsTo(ops, clk, idx)
    ensures NodeOk(ApplyTo(l, clk, idx), ops, clk) && ApplyTo(l, clk, idx).st.rev == idx
    decreases idx
  {
    hide Apply, NodeOk, RunTo, HistoryTo, ApplyView, SnapshotAt;
    if idx > l.commit {
      assert FitsTo(ops, clk, idx - 1);
      ApplyToFolds(l, ops, clk, idx - 1);
      assert l.log[idx - 1 - l.compactIndex] == LogEntry(idx, ops[idx - 1]);
      ApplyKeepsNode(ApplyTo(l, clk, idx - 1), ops, clk, clk(idx));
    }
  }

  lemma NextSignal(l: LeaderState, ops: seq<Op>, clk: Clock, idx: nat)
    requires LeaderOk(l, ops, clk) && InWindow(l, idx) && FitsTo(ops, clk, idx) && l.commit < idx
    ensures SignalsTo(l, clk, idx) == SignalsTo(l, clk, idx - 1)
              + if idx in l.waiters then [Signal(idx, EffectAt(ops, clk, idx).outcome)] else []
  {
    hide Apply;
    assert FitsTo(ops, clk, idx - 1);
    ApplyToFolds(l, ops, clk, idx - 1);
    assert l.log[idx - 1 - l.compactIndex] == LogEntry(idx, ops[idx - 1]);
    assert ApplyTo(l, clk, idx - 1).st == RunTo(ops, clk, idx - 1);
  }

  /** `s` answers exactly the indices of `waiters` in `(from, to]`, in index order,
      each with the outcome of its own entry in the serial fold. */
  ghost predicate Serial(s: seq<Signal>, waiters: set<int>, ops: seq<Op>, clk: Clock, from: int, to: int)
    requires 0 <= from <= to <= |ops|
  {
    && (forall a :: 0 <= a < |s| ==>
          from < s[a].index <= to && s[a].index in waiters && s[a].outcome == EffectAt(ops, clk, s[a].index).outcome)
    && (forall a, b :: 0 <= a < b < |s| ==> s[a].index < s[b].index)
    && (forall i :: i in waiters && from < i <= to ==> exists a :: 0 <= a < |s| && s[a].index == i)
  }

  lemma SerialGrows(s: seq<Signal>, x: Signal, waiters: set<int>, ops: seq<Op>, clk: Clock, from: int, to: int)
    requires 0 <= from < to <= |ops| && Serial(s, waiters, ops, clk, from, to - 1)
    requires x == Signal(to, EffectAt(ops, clk, to).outcome)
    ensures Serial(s + if to in waiters then [x] else [], waiters, ops, clk, from, to)
  {
    hide EffectAt;
    var s' := s + if to in waiters then [x] else [];
    forall i | i in waiters && from < i <= to ensures exists a :: 0 <= a < |s'| && s'[a].index == i {
      if i < to {
        var a :| 0 <= a < |s| && s[a].index == i;
        assert s'[a].index == i;
      } else {
        assert s'[|s|].index == i;
      }
    }
  }

  lemma {:induction false} SignalsAreSerial(l: LeaderState, ops: seq<Op>, clk: Clock, idx: nat)
    requires LeaderOk(l, ops, clk) && InWindow(l, idx) && FitsTo(ops, clk, idx)
    ensures Serial(SignalsTo(l, clk, idx), l.waiters, ops, clk, l.commit, idx)
    decreases idx
  {
    hide Apply, EffectAt, NodeOk, FitsTo, SnapshotAt;
    if idx > l.commit {
      assert FitsTo(ops, clk, idx - 1) by { ShorterFits(ops, clk, idx - 1, idx); }
      hide Serial;
      SignalsAreSerial(l, ops, clk, idx - 1);
      NextSignal(l, ops, clk, idx);
      SerialGrows(SignalsTo(l, clk, idx - 1), Signal(idx, EffectAt(ops, clk, idx).outcome), l.waiters, ops, clk, l.commit, idx);
    }
  }

  lemma ShorterFits(ops: seq<Op>, clk: Clock, m: nat, n: nat)
    requires m <= n <= |ops| && FitsTo(ops, clk, n)
    ensures FitsTo(ops, clk, m)
  {
    hide EffectAt;
  }

  /** Applying index `i` in this round does not panic. */
  ghost predicate EntryFits(l: LeaderState, clk: Clock, i: int)
    requires l.commit < i && InWindow(l, i)
  {
    Fits(Apply(ApplyTo(l, clk, i - 1).st, l.log[i - 1 - l.compactIndex], clk(i)))
  }

  /** No entry between the commit point and `idx` panics when applied. */
  ghost predicate RoundFits(l: LeaderState, clk: Clock, idx: int)
    requires InWindow(l, idx)
  {
    forall i :: l.commit < i <= idx ==> EntryFits(l, clk, i)
  }

  lemma {:induction false} RoundFitsLog(l: LeaderState, ops: seq<Op>, clk: Clock, idx: nat)
    requires LeaderOk(l, ops, clk) && InWindow(l, idx) && RoundFits(l, clk, idx)
    ensures FitsTo(ops, clk, idx)
    decreases idx
  {
    hide Apply, Fits, NodeOk, ApplyTo, SnapshotAt;
    if idx > l.commit {
      var last := LogEntry(idx, ops[idx - 1]);
      assert RoundFits(l, clk, idx - 1);
      RoundFitsLog(l, ops, clk, idx - 1);
      ApplyToFolds(l, ops, clk, idx - 1);
      NodeAt(ApplyTo(l, clk, idx - 1), ops, clk);
      assert l.log[idx - 1 - l.compactIndex] == last;
      assert EntryFits(l, clk, idx);
      assert EffectAt(ops, clk, idx) == Apply(ApplyTo(l, clk, idx - 1).st, last, clk(idx));
    } else {
      NodeAt(l.view, ops, clk);
    }
  }

  lemma AdvanceKeeps(l: LeaderState, ops: seq<Op>, clk: Clock, idx: nat)
    requires LeaderOk(l, ops, clk) && InWindow(l, idx) && FitsTo(ops, clk, idx)
    ensures LeaderOk(Advance(l, clk, idx), ops, clk)
  {
    hide Apply;
    ApplyToFolds(l, ops, clk, idx);
  }

  /** Truncation does not change the full log the window stands for. */
  lemma CompactKeeps(l: LeaderState, ops: seq<Op>, clk: Clock, snap: WireSnapshot)
    requires LeaderOk(l, ops, clk) && SnapshotAt(snap, ops, clk, l.commit)
    ensures LeaderOk(Compact(l, snap), ops, clk)
    ensures LastIndex(Compact(l, snap)) == LastIndex(l)
  {
    hide Apply;
  }

  /** A commit round moves to the largest majority index, keeps the leader on the
      log, leaves commit, applied and store revision equal, and keeps the window short
      unless what it holds is uncommitted. */
  lemma CommitRoundKeeps(cfg: Config, l: LeaderState, ops: seq<Op>, clk: Clock, snap: WireSnapshot)
    requires LeaderOk(l, ops, clk)
    requires CommitPoint(cfg, l) <= |ops| && FitsTo(ops, clk, CommitPoint(cfg, l)) && SnapshotAt(snap, ops, clk, CommitPoint(cfg, l))
    ensures InWindow(l, CommitPoint(cfg, l))
    ensures var l' := CommitRound(cfg, l, clk, snap);
            && LeaderOk(l', ops, clk)
            && l'.commit == CommitPoint(cfg, l) >= l.commit
            && (forall j :: l.commit < j <= |ops| ==> (HasQuorum(cfg, l.acked, j) <==> j <= l'.commit))
            && (l'.commit > l.commit ==> |l'.log| <= RETAIN_ENTRIES || l'.compactIndex == l'.commit)
  {
    hide Apply;
    ScanFindsLargest(cfg, l.acked, l.commit, LastIndex(l));
    var n := CommitPoint(cfg, l);
    AdvanceKeeps(l, ops, clk, n);
    CompactKeeps(Advance(l, clk, n), ops, clk, snap);
  }

  // ------------------------------------------------------------------
  // Catch-up equals replay
  // ------------------------------------------------------------------

  /** The follower's own readings agree with the leader's wherever it matters. */
  ghost predicate Synchronous(ops: seq<Op>, clk: Clock, now: Clock) {
    forall i {:trigger now(i)} :: 1 <= i <= |ops| ==> Agrees(RunTo(ops, clk, i - 1), ops[i - 1], now(i), clk(i))
  }

  /** One entry no further than the next wanted index: applied if wanted, skipped if old. */
  lemma EntryCatchesUp(f: FollowerState, ops: seq<Op>, clk: Clock, now: Clock, i: nat)
    requires NodeOk(f.view, ops, clk) && !f.gap
    requires 1 <= i <= |ops| && i <= f.view.st.rev + 1
    requires i == f.view.st.rev + 1 ==> Agrees(f.view.st, ops[i - 1], now(i), clk(i)) && Fits(EffectAt(ops, clk, i))
    ensures var f' := Receive(f, EntryPayload(LogEntry(i, ops[i - 1])), now);
            && NodeOk(f'.view, ops, clk) && !f'.gap
            && f'.view.st.rev == if f.view.st.rev < i then i else f.view.st.rev
  {
    hide Apply;
    if i == f.view.st.rev + 1 { ApplyKeepsNode(f.view, ops, clk, now(i)); }
  }

  lemma {:induction false} EntriesCatchUp(
    f: FollowerState, ops: seq<Op>, clk: Clock, now: Clock, from: nat, es: seq<LogEntry>)
    requires NodeOk(f.view, ops, clk) && !f.gap && Synchronous(ops, clk, now)
    requires from <= f.view.st.rev && from + |es| <= |ops| && FitsTo(ops, clk, |ops|)
    requires forall k :: 0 <= k < |es| ==> es[k] == LogEntry(from + 1 + k, ops[from + k])
    ensures var f' := ReceiveAll(f, Payloads(es), now);
            && NodeOk(f'.view, ops, clk) && !f'.gap
            && f'.view.st.rev == if f.view.st.rev < from + |es| then from + |es| else f.view.st.rev
    decreases |es|
  {
    hide Apply, NodeOk, Receive;
    if es != [] {
      var front := es[..|es| - 1];
      EntriesCatchUp(f, ops, clk, now, from, front);
      assert Payloads(es)[..|es| - 1] == Payloads(front);
      var mid, i := ReceiveAll(f, Payloads(front), now), from + |es|;
      NodeAt(mid.view, ops, clk);
      assert Agrees(RunTo(ops, clk, i - 1), ops[i - 1], now(i), clk(i));
      EntryCatchesUp(mid, ops, clk, now, i);
    }
  }

  lemma {:induction false} ReceiveAllConcat(f: FollowerState, a: seq<Payload>, b: seq<Payload>, now: Clock)
    ensures ReceiveAll(f, a + b, now) == ReceiveAll(ReceiveAll(f, a, now), b, now)
    decreases |b|
  {
    if b == [] {
      assert a + b == a;
    } else {
      assert (a + b)[..|a + b| - 1] == a + b[..|b| - 1];
      ReceiveAllConcat(f, a, b[..|b| - 1], now);
    }
  }

  /** Whatever position a follower reports, the snapshot-plus-suffix it is sent
      leaves it with the fold of the leader's whole log. */
  lemma CatchupEqualsReplay(
    l: LeaderState, ops: seq<Op>, clk: Clock, v: View, now: Clock, spare: WireSnapshot)
    requires LeaderOk(l, ops, clk) && NodeOk(v, ops, clk)
    requires FitsTo(ops, clk, |ops|) && Synchronous(ops, clk, now)
    requires SnapshotAt(spare, ops, clk, l.commit)
    ensures var f := StreamFrom(v, CatchupPayloads(l, v.st.rev, spare), now);
            !f.gap && f.view.st == RunTo(ops, clk, |ops|) && NodeOk(f.view, ops, clk)
  {
    hide Apply, NodeOk, Receive, ReceiveAll, SnapshotAt, Synchronous;
    NodeAt(v, ops, clk);
    var (snap, es) := Catchup(l, v.st.rev, spare);
    var f := FollowerState(v, [v.st.rev], false);
    if snap.None? {
      assert CatchupPayloads(l, v.st.rev, spare) == Payloads(es);
      EntriesCatchUp(f, ops, clk, now, |ops| - |es|, es);
    } else {
      var f1 := Receive(f, SnapshotPayload(snap.value), now);
      SnapshotCatchesUp(f, ops, clk, snap.value, if l.savedSnap.Some? then l.compactIndex else l.commit, now);
      ReceiveCons(f, SnapshotPayload(snap.value), Payloads(es), now);
      EntriesCatchUp(f1, ops, clk, now, l.compactIndex, es);
    }
    NodeAt(StreamFrom(v, CatchupPayloads(l, v.st.rev, spare), now).view, ops, clk);
  }

  /** `es` are the entries of the log after index `from`, all of them, in order. */
  ghost predicate ListsFrom(es: seq<LogEntry>, ops: seq<Op>, from: int) {
    && 0 <= from <= |ops| && |es| == |ops| - from
    && forall k :: 0 <= k < |es| ==> es[k].index == from + 1 + k && es[k].op == ops[from + k]
  }

  lemma SavedAtCut(l: LeaderState, ops: seq<Op>, clk: Clock)
    requires LeaderOk(l, ops, clk) && l.savedSnap.Some?
    ensures l.savedSnap.value.lastIncludedIndex == l.compactIndex
  {
    hide Apply, NodeOk, FitsTo;
    RunRev(ops, clk, l.compactIndex);
  }

  /** Nothing is sent in vain: a snapshot only to a follower at or before the cut of a
      compacted log, and otherwise exactly the entries the follower does not have. */
  lemma CatchupExactly(l: LeaderState, ops: seq<Op>, clk: Clock, f: nat, spare: WireSnapshot)
    requires LeaderOk(l, ops, clk) && f <= |ops|
    ensures var (snap, es) := Catchup(l, f, spare);
            && (snap.Some? <==> 0 < l.compactIndex && f <= l.compactIndex)
            && ListsFrom(es, ops, if snap.Some? then l.compactIndex else f)
            && (snap.Some? ==> snap.value == if l.savedSnap.Some? then l.savedSnap.value else spare)
            && (l.savedSnap.Some? ==> l.savedSnap.value.lastIncludedIndex == l.compactIndex)
  {
    hide Apply, NodeOk, SnapshotAt;
    if l.savedSnap.Some? { SavedAtCut(l, ops, clk); }
    WindowListsFrom(l, ops, if 0 < l.compactIndex && f <= l.compactIndex then l.compactIndex else f);
    assert l.log[0..] == l.log;
  }

  lemma WindowListsFrom(l: LeaderState, ops: seq<Op>, from: nat)
    requires WindowHolds(l, ops) && l.compactIndex <= from <= |ops|
    ensures ListsFrom(l.log[from - l.compactIndex..], ops, from)
  {
  }

  /** Tailing: a position has a tail in the window exactly from the cut on, and the tail
      brings a follower that is at least there to the fold of the leader's whole log. */
  lemma TailEqualsReplay(l: LeaderState, ops: seq<Op>, clk: Clock, f: FollowerState, from: nat, now: Clock)
    requires LeaderOk(l, ops, clk) && NodeOk(f.view, ops, clk) && !f.gap && from <= LastIndex(l)
    requires FitsTo(ops, clk, |ops|) && Synchronous(ops, clk, now)
    ensures EntriesAfter(l, from).Some? <==> l.compactIndex <= from
    ensures EntriesAfter(l, from).Some? ==> ListsFrom(EntriesAfter(l, from).value, ops, from)
    ensures EntriesAfter(l, from).Some? && from <= f.view.st.rev ==>
              var f' := ReceiveAll(f, Payloads(EntriesAfter(l, from).value), now);
              !f'.gap && f'.view.st == RunTo(ops, clk, |ops|) && NodeOk(f'.view, ops, clk)
  {
    hide Apply, NodeOk, Receive, ReceiveAll, SnapshotAt, Synchronous;
    NodeAt(f.view, ops, clk);
    if l.compactIndex <= from <= f.view.st.rev {
      var es := EntriesAfter(l, from).value;
      EntriesCatchUp(f, ops, clk, now, from, es);
      NodeAt(ReceiveAll(f, Payloads(es), now).view, ops, clk);
    }
  }

  lemma RestoreAt(v: View, ops: seq<Op>, clk: Clock, w: WireSnapshot, n: nat)
    requires NodeOk(v, ops, clk) && SnapshotAt(w, ops, clk, n)
    ensures var v' := RestoreView(v, FromWire(w));
            && NodeOk(v', ops, clk) && v'.st.rev == (if v.st.rev < n then n else v.st.rev)
            && w.lastIncludedIndex == n
  {
    hide Apply, NodeOk, RestoreView, FromWire;
    var s :| w == ToWire(s) && IsExport(s, RunTo(ops, clk, n));
    RunRev(ops, clk, n);
    RestoreKeepsNode(v, ops, clk, s);
  }

  lemma SnapshotCatchesUp(f: FollowerState, ops: seq<Op>, clk: Clock, w: WireSnapshot, n: nat, now: Clock)
    requires NodeOk(f.view, ops, clk) && !f.gap && SnapshotAt(w, ops, clk, n)
    ensures var f' := Receive(f, SnapshotPayload(w), now);
            && NodeOk(f'.view, ops, clk) && !f'.gap
            && f'.view.st.rev == if f.view.st.rev < n then n else f.view.st.rev
  {
    hide Apply, NodeOk, RestoreView, SnapshotAt;
    RestoreAt(f.view, ops, clk, w, n);
  }

  lemma ReceiveCons(f: FollowerState, p: Payload, ps: seq<Payload>, now: Clock)
    ensures ReceiveAll(f, [p] + ps, now) == ReceiveAll(Receive(f, p, now), ps, now)
  {
    hide Receive;
    assert [p][..0] == [];
    assert ReceiveAll(f, [p], now) == Receive(ReceiveAll(f, [p][..0], now), p, now);
    ReceiveAllConcat(f, [p], ps, now);
  }
}
