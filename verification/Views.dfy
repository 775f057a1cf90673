/** A node's whole store as a value: tables, retained event window, snapshot
    baseline and watch subscriptions; and what ties it to the global log. */
module Views {
  import opened Types
  import opened StateMachine
  import opened StoreLaws
  import opened Snapshots

  const HISTORY_CAPACITY := 100_000
  const WATCHER_BUFFER := 256

  /** A subscription and its channel. A dropped subscription is no longer fed,
      but its channel can still be drained by the consumer that holds it. */
  datatype Sub = Sub(ns: string, key: string, buf: seq<Event>, open: bool)

  datatype View = View(st: State, window: seq<Event>, baseline: int, subs: map<SubId, Sub>, nextId: int)

  const NEW_VIEW := View(EMPTY_STATE, [], 0, map[], 0)

  predicate Matches(ns: string, key: string, ev: Event) {
    ev.kv.ns == ns && (key == "" || ev.kv.key == key)
  }

  // ------------------------------------------------------------------
  // Emitting events
  // ------------------------------------------------------------------

  function PushWindow(w: seq<Event>, ev: Event): seq<Event> {
    if |w| < HISTORY_CAPACITY then w + [ev] else w[1..] + [ev]
  }

  /** Feeding one subscription: a full channel gets the subscription dropped. */
  function Offer(s: Sub, ev: Event): Sub {
    if !s.open || !Matches(s.ns, s.key, ev) then s
    else if |s.buf| < WATCHER_BUFFER then s.(buf := s.buf + [ev])
    else s.(open := false)
  }

  function Fanout(subs: map<SubId, Sub>, ev: Event): map<SubId, Sub> {
    map id | id in subs :: Offer(subs[id], ev)
  }

  function Emit(v: View, ev: Event): View {
    v.(window := PushWindow(v.window, ev), subs := Fanout(v.subs, ev))
  }

  function EmitAll(v: View, evs: seq<Event>): (r: View)
    ensures r.st == v.st && r.baseline == v.baseline && r.nextId == v.nextId && r.subs.Keys == v.subs.Keys
  {
    if evs == [] then v else Emit(EmitAll(v, evs[..|evs| - 1]), evs[|evs| - 1])
  }

  function ApplyView(v: View, e: LogEntry, now: int): View {
    var eff := Apply(v.st, e, now);
    EmitAll(v.(st := eff.state), eff.events)
  }

  /** Restoring an older snapshot is ignored; otherwise the event window is lost
      and subscriptions stay as they are. */
  function RestoreView(v: View, snap: Snapshot): View {
    if snap.revision < v.st.rev then v
    else v.(st := Restored(snap), window := [], baseline := Cursor(snap.revision, SUB_LIMIT - 1))
  }

  // ------------------------------------------------------------------
  // Watching
  // ------------------------------------------------------------------

  datatype WatchResult = Compacted | Watching(id: SubId, backlog: seq<Event>, view: View)

  function Select(evs: seq<Event>, ns: string, key: string, from: int): (r: seq<Event>) {
    if evs == [] then []
    else
      var r := Select(evs[..|evs| - 1], ns, key, from);
      var ev := evs[|evs| - 1];
      if ev.cursor > from && Matches(ns, key, ev) then r + [ev] else r
  }

  /** A backlog holds exactly the events of the asked namespace and key (every key if none is
      given) with a larger cursor. */
  lemma {:induction false} SelectByFields(evs: seq<Event>, ns: string, key: string, from: int)
    ensures forall e :: e in Select(evs, ns, key, from)
                        <==> e in evs && e.cursor > from && e.kv.ns == ns && (key == "" || e.kv.key == key)
  {
    if evs != [] {
      SelectByFields(evs[..|evs| - 1], ns, key, from);
      assert evs == evs[..|evs| - 1] + [evs[|evs| - 1]];
    }
  }

  /** The oldest cursor a resuming watcher may present. */
  function Horizon(v: View): int {
    if v.window != [] then v.window[0].cursor - 1 else v.baseline
  }

  function WatchKv(v: View, ns: string, key: string, from: int): WatchResult {
    if from > 0 && from < Horizon(v) then Compacted
    else
      var id := SubId(v.nextId + 1);
      Watching(id, Select(v.window, ns, key, from),
               v.(subs := v.subs[id := Sub(ns, key, [], true)], nextId := id.n))
  }

  /** The newest event cursor, or the baseline when no event is retained. */
  function CurrentSeq(v: View): int {
    if v.window != [] then v.window[|v.window| - 1].cursor else v.baseline
  }

  function CloseKv(v: View, id: SubId): View {
    if id in v.subs && v.subs[id].open then v.(subs := v.subs[id := v.subs[id].(open := false)]) else v
  }

  /** A closed subscription keeps what was queued and is never fed again; no other changes. */
  lemma {:induction false} ClosedIsSilent(v: View, id: SubId, evs: seq<Event>, other: SubId)
    requires id in v.subs
    ensures var v' := CloseKv(v, id);
            && v'.subs.Keys == v.subs.Keys && v' == v.(subs := v'.subs)
            && EmitAll(v', evs).subs[id] == Sub(v.subs[id].ns, v.subs[id].key, v.subs[id].buf, false)
            && (other in v.subs && other != id ==> EmitAll(v', evs).subs[other] == EmitAll(v, evs).subs[other])
  {
    hide Matches;
    if evs != [] { ClosedIsSilent(v, id, evs[..|evs| - 1], other); }
  }

  // ------------------------------------------------------------------
  // A view against the global log
  // ------------------------------------------------------------------

  function Last(evs: seq<Event>, n: nat): seq<Event> {
    if |evs| <= n then evs else evs[|evs| - n..]
  }

  /** Index of the snapshot the node last restored, 0 if none. */
  function BaseOf(v: View): int { v.baseline / SUB_LIMIT }

  /** The node holds the fold of the first `rev` operations, and its window is the
      last HISTORY_CAPACITY of the events since its last restore. */
  ghost predicate NodeOk(v: View, ops: seq<Op>, clk: Clock) {
    && 0 <= BaseOf(v) <= v.st.rev <= |ops|
    && v.st == RunTo(ops, clk, v.st.rev)
    && FitsTo(ops, clk, v.st.rev)
    && (v.baseline == 0 || v.baseline == Cursor(BaseOf(v), SUB_LIMIT - 1))
    && HistoryTo(ops, clk, BaseOf(v)) <= HistoryTo(ops, clk, v.st.rev)
    && v.window == Last(HistoryTo(ops, clk, v.st.rev)[|HistoryTo(ops, clk, BaseOf(v))|..], HISTORY_CAPACITY)
  }

  /** Pushing into the bounded window is appending to the unbounded stream. */
  lemma PushIsAppend(evs: seq<Event>, ev: Event)
    ensures PushWindow(Last(evs, HISTORY_CAPACITY), ev) == Last(evs + [ev], HISTORY_CAPACITY)
  {
  }

  lemma {:induction false} EmitAllWindow(v: View, evs: seq<Event>, stream: seq<Event>)
    requires v.window == Last(stream, HISTORY_CAPACITY)
    ensures EmitAll(v, evs).window == Last(stream + evs, HISTORY_CAPACITY)
  {
    if evs == [] {
      assert stream + evs == stream;
    } else {
      var front, ev := evs[..|evs| - 1], evs[|evs| - 1];
      EmitAllWindow(v, front, stream);
      PushIsAppend(stream + front, ev);
      assert stream + evs == stream + front + [ev];
    }
  }

  /** Applying the next entry keeps a node on the global log, whatever its own
      clock says, as long as the reading agrees where it matters. */
  lemma ApplyKeepsNode(v: View, ops: seq<Op>, clk: Clock, now: int)
    requires NodeOk(v, ops, clk) && v.st.rev < |ops|
    requires Agrees(v.st, ops[v.st.rev], now, clk(v.st.rev + 1))
    requires Fits(EffectAt(ops, clk, v.st.rev + 1))
    ensures var v' := ApplyView(v, LogEntry(v.st.rev + 1, ops[v.st.rev]), now);
            NodeOk(v', ops, clk) && v'.st.rev == v.st.rev + 1
  {
    hide Apply;
    var n := v.st.rev + 1;
    var e := LogEntry(n, ops[n - 1]);
    var eff := Apply(v.st, e, now);
    var h, h' := HistoryTo(ops, clk, n - 1), HistoryTo(ops, clk, n);
    RunWellFormed(ops, clk, n - 1);
    SkewShowsExactly(v.st, e, now, clk(n));
    assert EffectAt(ops, clk, n) == Apply(v.st, e, clk(n));
    assert eff.state == RunTo(ops, clk, n) && eff.events == EffectAt(ops, clk, n).events;
    RunRev(ops, clk, n);
    var b := |HistoryTo(ops, clk, BaseOf(v))|;
    EmitAllWindow(v.(st := eff.state), eff.events, h[b..]);
    assert h'[b..] == h[b..] + eff.events;
    assert FitsTo(ops, clk, n);
  }

  /** Subscriptions come and go without moving the node on the log. */
  lemma SubsKeepNode(v: View, ops: seq<Op>, clk: Clock, subs: map<SubId, Sub>, nextId: int)
    requires NodeOk(v, ops, clk)
    ensures NodeOk(v.(subs := subs, nextId := nextId), ops, clk)
  {
    hide Apply, RunTo, HistoryTo, FitsTo, Last;
  }

  /** Restoring a newer snapshot of the same log puts the node at the snapshot point. */
  lemma RestoreKeepsNode(v: View, ops: seq<Op>, clk: Clock, snap: Snapshot)
    requires NodeOk(v, ops, clk)
    requires 0 <= snap.revision <= |ops| && IsExport(snap, RunTo(ops, clk, snap.revision))
    requires FitsTo(ops, clk, snap.revision)
    ensures var v' := RestoreView(v, FromWire(ToWire(snap)));
            && NodeOk(v', ops, clk)
            && v'.st.rev == if snap.revision < v.st.rev then v.st.rev else snap.revision
  {
    hide Apply;
    SnapshotRoundTrip(snap, RunTo(ops, clk, snap.revision));
    DivMod(snap.revision, SUB_LIMIT - 1);
    HistoryGrows(ops, clk, snap.revision, snap.revision);
    var h := HistoryTo(ops, clk, snap.revision);
    assert h[|h|..] == [];
  }

  /** A node on a log is on every extension of it. */
  lemma NodeOnLongerLog(v: View, ops: seq<Op>, more: seq<Op>, clk: Clock)
    requires NodeOk(v, ops, clk) && ops <= more
    ensures NodeOk(v, more, clk)
  {
    hide Apply;
    FoldOfPrefix(ops, more, clk, v.st.rev);
    FoldOfPrefix(ops, more, clk, BaseOf(v));
  }

  // ------------------------------------------------------------------
  // The history horizon
  // ------------------------------------------------------------------

  /** What the node's window no longer shows: evicted, or hidden by a restore. */
  ghost function Hidden(v: View, ops: seq<Op>, clk: Clock): seq<Event>
    requires NodeOk(v, ops, clk)
  {
    var h := HistoryTo(ops, clk, v.st.rev);
    h[..|h| - |v.window|]
  }

  /** The window is the tail of the history, everything hidden has a smaller cursor,
      and with an empty window everything is at or below the baseline. */
  lemma WindowIsTail(v: View, ops: seq<Op>, clk: Clock)
    requires NodeOk(v, ops, clk)
    ensures Hidden(v, ops, clk) + v.window == HistoryTo(ops, clk, v.st.rev)
    ensures Increasing(HistoryTo(ops, clk, v.st.rev))
    ensures forall e :: e in Hidden(v, ops, clk) ==> e.cursor <= Horizon(v)
  {
    hide Apply;
    var h := HistoryTo(ops, clk, v.st.rev);
    CursorsIncrease(ops, clk, v.st.rev);
    var b := HistoryTo(ops, clk, BaseOf(v));
    assert h == h[..|h| - |v.window|] + h[|h| - |v.window|..];
    assert v.window == h[|h| - |v.window|..];
    forall e | e in Hidden(v, ops, clk) ensures e.cursor <= Horizon(v) {
      var i :| 0 <= i < |h| - |v.window| && h[i] == e;
      if v.window != [] {
        assert v.window[0] == h[|h| - |v.window|];
      } else {
        assert h[|b|..] == [];
        assert e in b;
        assert FitsTo(ops, clk, BaseOf(v));
        CursorsIncrease(ops, clk, BaseOf(v));
      }
    }
  }

  /** If WatchKV accepts a cursor, nothing after that cursor is hidden: the backlog
      is every matching event after it. */
  lemma HorizonSound(v: View, ops: seq<Op>, clk: Clock, ns: string, key: string, from: int)
    requires NodeOk(v, ops, clk) && from > 0 && WatchKv(v, ns, key, from).Watching?
    ensures WatchKv(v, ns, key, from).backlog == Select(HistoryTo(ops, clk, v.st.rev), ns, key, from)
  {
    hide Apply;
    WindowIsTail(v, ops, clk);
    SelectSkips(Hidden(v, ops, clk), v.window, ns, key, from);
  }

  lemma {:induction false} SelectSkips(a: seq<Event>, b: seq<Event>, ns: string, key: string, from: int)
    requires forall e :: e in a ==> e.cursor <= from
    ensures Select(a + b, ns, key, from) == Select(b, ns, key, from)
    decreases |a| + |b|
  {
    if b != [] {
      assert (a + b)[..|a + b| - 1] == a + b[..|b| - 1];
      SelectSkips(a, b[..|b| - 1], ns, key, from);
    } else if a != [] {
      assert a + b == a;
      assert a[..|a| - 1] + [] == a[..|a| - 1];
      assert a[|a| - 1] in a;
      SelectSkips(a[..|a| - 1], [], ns, key, from);
    }
  }

  lemma {:induction false} SameSelection(evs: seq<Event>, ns: string, key: string, a: int, b: int)
    requires forall e :: e in evs ==> (e.cursor > a <==> e.cursor > b)
    ensures Select(evs, ns, key, a) == Select(evs, ns, key, b)
  {
    if evs != [] {
      assert evs[|evs| - 1] in evs;
      SameSelection(evs[..|evs| - 1], ns, key, a, b);
    }
  }

  /** In an increasing sequence the last cursor bounds them all. */
  lemma LastBounds(evs: seq<Event>, from: int)
    requires Increasing(evs)
    ensures (forall e :: e in evs ==> e.cursor <= from) <==> evs == [] || evs[|evs| - 1].cursor <= from
  {
    if evs != [] { assert evs[|evs| - 1] in evs; }
  }

  /** Exactly which resumable cursors are refused although they lost nothing. */
  lemma HorizonGap(v: View, ops: seq<Op>, clk: Clock, ns: string, key: string, from: int)
    requires NodeOk(v, ops, clk) && from > 0
    ensures var hidden := Hidden(v, ops, clk);
            var nothingLost := forall e :: e in hidden ==> e.cursor <= from;
            && (nothingLost <==> hidden == [] || hidden[|hidden| - 1].cursor <= from)
            && (WatchKv(v, ns, key, from).Compacted? && nothingLost <==>
                (hidden == [] || hidden[|hidden| - 1].cursor <= from) && from < Horizon(v))
  {
    hide Apply, RunTo, HistoryTo, FitsTo, Last, Select, Horizon;
    WindowIsTail(v, ops, clk);
    var hidden := Hidden(v, ops, clk);
    assert HistoryTo(ops, clk, v.st.rev)[..|hidden|] == hidden;
    LastBounds(hidden, from);
  }

  /** A client that takes the current cursor and watches before anything else happens is
      not refused and has nothing to catch up on. What happens later is in HorizonLaws. */
  lemma CurrentSeqResumes(v: View, ops: seq<Op>, clk: Clock, ns: string, key: string)
    requires NodeOk(v, ops, clk)
    ensures WatchKv(v, ns, key, CurrentSeq(v)).Watching?
    ensures WatchKv(v, ns, key, CurrentSeq(v)).backlog == []
    ensures forall e :: e in HistoryTo(ops, clk, v.st.rev) ==> e.cursor <= CurrentSeq(v)
  {
    hide Apply, RunTo, FitsTo, Last, Select, HistoryTo;
    CurrentSeqBounds(v, ops, clk);
    SelectNothing(v.window, ns, key, CurrentSeq(v));
  }

  /** Nothing on the node lies beyond its current cursor, and its horizon does not either. */
  lemma CurrentSeqBounds(v: View, ops: seq<Op>, clk: Clock)
    requires NodeOk(v, ops, clk)
    ensures Horizon(v) <= CurrentSeq(v)
    ensures forall e :: e in HistoryTo(ops, clk, v.st.rev) ==> e.cursor <= CurrentSeq(v)
    ensures forall e :: e in v.window ==> e.cursor <= CurrentSeq(v)
  {
    hide Apply, RunTo, FitsTo, Last, HistoryTo, Hidden;
    WindowIsTail(v, ops, clk);
    var h, hidden := HistoryTo(ops, clk, v.st.rev), Hidden(v, ops, clk);
    if v.window == [] {
      assert h == hidden;
    } else {
      NewestBounds(h, hidden, v.window);
    }
  }

  lemma NewestBounds(h: seq<Event>, hidden: seq<Event>, w: seq<Event>)
    requires Increasing(h) && h == hidden + w && w != []
    ensures w[0].cursor <= w[|w| - 1].cursor
    ensures forall e :: e in h ==> e.cursor <= w[|w| - 1].cursor
    ensures forall e :: e in w ==> e in h
  {
    assert h[|h| - 1] == w[|w| - 1] && h[|hidden|] == w[0];
    LastBounds(h, w[|w| - 1].cursor);
  }

  lemma {:induction false} SelectNothing(evs: seq<Event>, ns: string, key: string, from: int)
    requires forall e :: e in evs ==> e.cursor <= from
    ensures Select(evs, ns, key, from) == []
  {
    if evs != [] { SelectNothing(evs[..|evs| - 1], ns, key, from); }
  }
}
