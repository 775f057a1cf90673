/** How far the history horizon misses: exactly when it refuses a cursor after which
    nothing was lost, and what becomes of a cursor taken now and presented later. */
module HorizonLaws {
  import opened Types
  import opened StateMachine
  import opened StoreLaws
  import opened Snapshots
  import opened Views

  /** Every event after `from` is still in the window. */
  ghost predicate NothingLost(v: View, ops: seq<Op>, clk: Clock, from: int)
    requires NodeOk(v, ops, clk)
  {
    forall e :: e in Hidden(v, ops, clk) ==> e.cursor <= from
  }

  /** The node accepts every positive cursor after which it has lost nothing. */
  ghost predicate HorizonComplete(v: View, ops: seq<Op>, clk: Clock, ns: string, key: string)
    requires NodeOk(v, ops, clk)
  {
    forall from :: from > 0 && NothingLost(v, ops, clk, from) ==> WatchKv(v, ns, key, from).Watching?
  }

  /** The oldest retained event follows the newest hidden one within one batch. */
  ghost predicate CutInsideBatch(hidden: seq<Event>, window: seq<Event>) {
    hidden != [] && window != [] && window[0].cursor == hidden[|hidden| - 1].cursor + 1
  }

  lemma AcceptedFrom(v: View, ns: string, key: string, from: int)
    ensures WatchKv(v, ns, key, from).Watching? <==> from <= 0 || from >= Horizon(v)
  {
    hide Select, Horizon;
  }

  /** A node retains an event exactly if it came after the last restore and fewer than
      100000 events have come after it. */
  lemma RetainsLatest(v: View, ops: seq<Op>, clk: Clock)
    requires NodeOk(v, ops, clk)
    ensures var h, restored := HistoryTo(ops, clk, v.st.rev), |HistoryTo(ops, clk, BaseOf(v))|;
            restored <= |h| && v.window == h[if |h| - 100_000 > restored then |h| - 100_000 else restored..]
  {
    hide Apply, RunTo, FitsTo;
  }

  /** Bounds on both sides of the cut. */
  lemma AroundTheCut(v: View, ops: seq<Op>, clk: Clock)
    requires NodeOk(v, ops, clk)
    ensures var hidden := Hidden(v, ops, clk);
            && (v.window != [] ==> v.window[0].cursor >= SUB_LIMIT)
            && (hidden != [] ==> SUB_LIMIT <= hidden[|hidden| - 1].cursor)
            && (hidden != [] && v.window != [] ==> hidden[|hidden| - 1].cursor < v.window[0].cursor)
            && (v.window == [] && v.baseline != 0 ==>
                  v.baseline >= SUB_LIMIT - 1 && (hidden != [] ==> hidden[|hidden| - 1].cursor < v.baseline))
            && (v.window == [] && v.baseline == 0 ==> hidden == [])
  {
    hide Apply, RunTo, HistoryTo, FitsTo;
    WindowIsTail(v, ops, clk);
    CursorsIncrease(ops, clk, v.st.rev);
    var h, hidden := HistoryTo(ops, clk, v.st.rev), Hidden(v, ops, clk);
    assert v.window != [] ==> h[|hidden|] == v.window[0] && v.window[0] in h;
    assert hidden != [] ==> h[|hidden| - 1] == hidden[|hidden| - 1] && hidden[|hidden| - 1] in h;
    if v.window == [] { EmptyWindow(v, ops, clk); }
  }

  /** A node with an empty window has seen no event since its last restore. */
  lemma EmptyWindow(v: View, ops: seq<Op>, clk: Clock)
    requires NodeOk(v, ops, clk) && v.window == []
    ensures BaseOf(v) >= 0
    ensures HistoryTo(ops, clk, v.st.rev) == HistoryTo(ops, clk, BaseOf(v)) == Hidden(v, ops, clk)
    ensures v.baseline != 0 ==>
              v.baseline == Cursor(BaseOf(v), SUB_LIMIT - 1)
              && forall e :: e in HistoryTo(ops, clk, BaseOf(v)) ==> e.cursor < v.baseline
    ensures v.baseline == 0 ==> HistoryTo(ops, clk, v.st.rev) == []
  {
    hide Apply, RunTo, EffectAt;
    var h, b := HistoryTo(ops, clk, v.st.rev), HistoryTo(ops, clk, BaseOf(v));
    assert h[|b|..] == [];
    assert h == b;
    assert FitsTo(ops, clk, BaseOf(v));
    CursorsIncrease(ops, clk, BaseOf(v));
  }

  /** The least positive cursor after which nothing was lost. */
  ghost function LeastLossless(v: View, ops: seq<Op>, clk: Clock): int
    requires NodeOk(v, ops, clk)
  {
    var hidden := Hidden(v, ops, clk);
    if hidden == [] then 1 else hidden[|hidden| - 1].cursor
  }

  lemma HiddenIncreases(v: View, ops: seq<Op>, clk: Clock)
    requires NodeOk(v, ops, clk)
    ensures Increasing(Hidden(v, ops, clk))
  {
    hide Apply, RunTo, HistoryTo, FitsTo, Last;
    WindowIsTail(v, ops, clk);
    assert HistoryTo(ops, clk, v.st.rev)[..|Hidden(v, ops, clk)|] == Hidden(v, ops, clk);
  }

  lemma LosslessFrom(v: View, ops: seq<Op>, clk: Clock, from: int)
    requires NodeOk(v, ops, clk) && from > 0
    ensures NothingLost(v, ops, clk, from) <==> from >= LeastLossless(v, ops, clk)
    ensures LeastLossless(v, ops, clk) > 0
  {
    hide NodeOk, Hidden;
    AroundTheCut(v, ops, clk);
    HiddenIncreases(v, ops, clk);
    LastBounds(Hidden(v, ops, clk), from);
  }

  lemma CompleteFromLeast(v: View, ops: seq<Op>, clk: Clock, ns: string, key: string)
    requires NodeOk(v, ops, clk)
    ensures HorizonComplete(v, ops, clk, ns, key) <==> LeastLossless(v, ops, clk) >= Horizon(v)
  {
    hide NodeOk, NothingLost, LeastLossless, Horizon, WatchKv;
    LosslessFrom(v, ops, clk, 1);
    var least := LeastLossless(v, ops, clk);
    LosslessFrom(v, ops, clk, least);
    AcceptedFrom(v, ns, key, least);
    if least >= Horizon(v) {
      forall from | from > 0 && NothingLost(v, ops, clk, from) ensures WatchKv(v, ns, key, from).Watching? {
        LosslessFrom(v, ops, clk, from);
        AcceptedFrom(v, ns, key, from);
      }
    }
  }

  /** The horizon refuses no lossless cursor exactly on a node that has had neither event
      nor restore, and on one whose window was cut inside a batch. */
  lemma HorizonCompleteExactly(v: View, ops: seq<Op>, clk: Clock, ns: string, key: string)
    requires NodeOk(v, ops, clk)
    ensures HorizonComplete(v, ops, clk, ns, key)
            <==> (v.window == [] && v.baseline == 0) || CutInsideBatch(Hidden(v, ops, clk), v.window)
  {
    hide NodeOk, HorizonComplete, Hidden;
    CompleteFromLeast(v, ops, clk, ns, key);
    AroundTheCut(v, ops, clk);
  }

  // ------------------------------------------------------------------
  // A cursor taken now and presented later
  // ------------------------------------------------------------------

  /** What node state `v'` of the same log hides is at most what `v` had seen, or, for
      a cursor that is a restore baseline, ends right where the cursor does. */
  ghost predicate StillServes(v: View, v': View, ops: seq<Op>, clk: Clock)
    requires NodeOk(v, ops, clk) && NodeOk(v', ops, clk)
  {
    var seen, hidden := |HistoryTo(ops, clk, v.st.rev)|, |Hidden(v', ops, clk)|;
    || CurrentSeq(v) == 0
    || hidden < seen
    || (&& v.window == [] && hidden == seen
        && if v'.window == [] then BaseOf(v') <= BaseOf(v) else v'.window[0].cursor == Cursor(BaseOf(v) + 1, 0))
  }

  /** Where a window that starts at position `k` stands against the newest event of `h`. */
  lemma CutAgainstNewest(h: seq<Event>, h': seq<Event>, k: nat, window: seq<Event>)
    requires h != [] && h <= h' && Increasing(h') && k <= |h'| && window == h'[k..] && window != []
    requires forall i :: |h| <= i < |h'| ==> h'[i].cursor > h[|h| - 1].cursor + 1
    ensures h[|h| - 1].cursor >= window[0].cursor - 1 <==> k < |h|
  {
    assert window[0] == h'[k] && h'[|h| - 1] == h[|h| - 1];
  }

  lemma LaterWithEvents(v: View, v': View, ops: seq<Op>, clk: Clock)
    requires NodeOk(v, ops, clk) && NodeOk(v', ops, clk) && v.st.rev <= v'.st.rev && v.window != []
    ensures CurrentSeq(v) >= Horizon(v') <==> |Hidden(v', ops, clk)| < |HistoryTo(ops, clk, v.st.rev)|
    ensures CurrentSeq(v) >= SUB_LIMIT
  {
    hide Apply, RunTo, HistoryTo, FitsTo, Last;
    NewestOf(v, ops, clk);
    WindowIsTail(v', ops, clk);
    NewEventsBeyond(ops, clk, v.st.rev, v'.st.rev);
    var h, h', k := HistoryTo(ops, clk, v.st.rev), HistoryTo(ops, clk, v'.st.rev), |Hidden(v', ops, clk)|;
    if v'.window != [] {
      assert v'.window == h'[k..];
      hide Hidden, NodeOk, Increasing;
      CutAgainstNewest(h, h', k, v'.window);
    } else {
      EmptyWindow(v', ops, clk);
      assert h'[|h| - 1] == h[|h| - 1] && h[|h| - 1] in h';
    }
  }

  lemma NewestOf(v: View, ops: seq<Op>, clk: Clock)
    requires NodeOk(v, ops, clk) && v.window != []
    ensures var h := HistoryTo(ops, clk, v.st.rev);
            h != [] && h[|h| - 1].cursor == CurrentSeq(v) && SUB_LIMIT <= CurrentSeq(v) < Cursor(v.st.rev, SUB_LIMIT - 1)
  {
    hide Apply, RunTo, HistoryTo, FitsTo, Last;
    WindowIsTail(v, ops, clk);
    CursorsIncrease(ops, clk, v.st.rev);
    var h := HistoryTo(ops, clk, v.st.rev);
    assert h[|h| - 1] == v.window[|v.window| - 1] && h[|h| - 1] in h;
  }

  lemma LaterWithoutEvents(v: View, v': View, ops: seq<Op>, clk: Clock)
    requires NodeOk(v, ops, clk) && NodeOk(v', ops, clk) && v.st.rev <= v'.st.rev && v.window == [] && v.baseline != 0
    ensures CurrentSeq(v) >= Horizon(v') <==> StillServes(v, v', ops, clk)
    ensures CurrentSeq(v) >= SUB_LIMIT - 1
  {
    hide Apply, RunTo, HistoryTo, FitsTo;
    EmptyWindow(v, ops, clk);
    WindowIsTail(v', ops, clk);
    NewEventsBeyond(ops, clk, BaseOf(v), v'.st.rev);
    var h, h', k := HistoryTo(ops, clk, v.st.rev), HistoryTo(ops, clk, v'.st.rev), |Hidden(v', ops, clk)|;
    if v'.window != [] {
      assert v'.window[0] == h'[k];
      if k < |h| { assert h'[k] == h[k] && h[k] in h; }
      if k > |h| { assert h'[|h|].cursor < h'[k].cursor; }
    } else {
      EmptyWindow(v', ops, clk);
      BaselinesOrdered(v, v', ops, clk);
    }
  }

  lemma BaselinesOrdered(v: View, v': View, ops: seq<Op>, clk: Clock)
    requires NodeOk(v, ops, clk) && NodeOk(v', ops, clk) && v.st.rev <= v'.st.rev
    requires v.window == [] && v'.window == [] && v.baseline != 0
    ensures v.baseline >= v'.baseline <==>
            |HistoryTo(ops, clk, v'.st.rev)| == |HistoryTo(ops, clk, v.st.rev)| && BaseOf(v') <= BaseOf(v)
  {
    hide Apply, RunTo, FitsTo;
    EmptyWindow(v, ops, clk);
    EmptyWindow(v', ops, clk);
    HistoryGrows(ops, clk, v.st.rev, v'.st.rev);
    if BaseOf(v') <= BaseOf(v) { HistoryGrows(ops, clk, BaseOf(v'), BaseOf(v)); }
  }

  /** A client that takes the current cursor and watches from it later, on this or another
      node of the same log, is accepted exactly when the node still serves it; and is then
      sent every matching event in between, and nothing else. */
  lemma LaterWatchExactly(v: View, v': View, ops: seq<Op>, clk: Clock, ns: string, key: string)
    requires NodeOk(v, ops, clk) && NodeOk(v', ops, clk) && v.st.rev <= v'.st.rev
    ensures |HistoryTo(ops, clk, v.st.rev)| <= |HistoryTo(ops, clk, v'.st.rev)|
    ensures var r := WatchKv(v', ns, key, CurrentSeq(v));
            && (r.Watching? <==> StillServes(v, v', ops, clk))
            && (r.Watching? && CurrentSeq(v) > 0 ==>
                  r.backlog == Select(HistoryTo(ops, clk, v'.st.rev)[|HistoryTo(ops, clk, v.st.rev)|..], ns, key, 0))
  {
    hide Apply, RunTo, HistoryTo, FitsTo, Select, WatchKv, Horizon;
    HistoryGrows(ops, clk, v.st.rev, v'.st.rev);
    AcceptedFrom(v', ns, key, CurrentSeq(v));
    if v.window != [] {
      LaterWithEvents(v, v', ops, clk);
    } else if v.baseline != 0 {
      LaterWithoutEvents(v, v', ops, clk);
    }
    if WatchKv(v', ns, key, CurrentSeq(v)).Watching? && CurrentSeq(v) > 0 {
      InBetween(v, v', ops, clk, ns, key);
    }
  }

  lemma InBetween(v: View, v': View, ops: seq<Op>, clk: Clock, ns: string, key: string)
    requires NodeOk(v, ops, clk) && NodeOk(v', ops, clk) && v.st.rev <= v'.st.rev && CurrentSeq(v) > 0
    requires WatchKv(v', ns, key, CurrentSeq(v)).Watching?
    ensures |HistoryTo(ops, clk, v.st.rev)| <= |HistoryTo(ops, clk, v'.st.rev)|
    ensures WatchKv(v', ns, key, CurrentSeq(v)).backlog
            == Select(HistoryTo(ops, clk, v'.st.rev)[|HistoryTo(ops, clk, v.st.rev)|..], ns, key, 0)
  {
    hide Apply, RunTo, HistoryTo, FitsTo, Select, WatchKv, Horizon;
    var from, h, h' := CurrentSeq(v), HistoryTo(ops, clk, v.st.rev), HistoryTo(ops, clk, v'.st.rev);
    HistoryGrows(ops, clk, v.st.rev, v'.st.rev);
    HorizonSound(v', ops, clk, ns, key, from);
    CurrentSeqBounds(v, ops, clk);
    assert h' == h + h'[|h|..];
    SelectSkips(h, h'[|h|..], ns, key, from);
    BeyondCurrent(v, v', ops, clk);
    SameSelection(h'[|h|..], ns, key, from, 0);
  }

  lemma BeyondCurrent(v: View, v': View, ops: seq<Op>, clk: Clock)
    requires NodeOk(v, ops, clk) && NodeOk(v', ops, clk) && v.st.rev <= v'.st.rev && CurrentSeq(v) > 0
    ensures |HistoryTo(ops, clk, v.st.rev)| <= |HistoryTo(ops, clk, v'.st.rev)|
    ensures forall e :: e in HistoryTo(ops, clk, v'.st.rev)[|HistoryTo(ops, clk, v.st.rev)|..] ==> e.cursor > CurrentSeq(v)
  {
    hide Apply, RunTo, HistoryTo, FitsTo;
    NewEventsBeyond(ops, clk, v.st.rev, v'.st.rev);
    WindowIsTail(v, ops, clk);
    CursorsIncrease(ops, clk, v.st.rev);
    var h, h' := HistoryTo(ops, clk, v.st.rev), HistoryTo(ops, clk, v'.st.rev);
    if v.window != [] { assert h[|h| - 1] == v.window[|v.window| - 1]; }
    forall e | e in h'[|h|..] ensures e.cursor > CurrentSeq(v) {
      var i :| |h| <= i < |h'| && h'[i] == e;
      assert e.cursor >= Cursor(v.st.rev + 1, 0);
    }
  }

  // ------------------------------------------------------------------
  // A reachable node that refuses a lossless cursor
  // ------------------------------------------------------------------

  const LEASE := SvcKey("ns", "svc", "a")

  /** A lease, the lease again, and a first configuration value. */
  function QuietOps(k: MapKey): seq<Op> {
    [Register(LEASE, "addr", map[], 0, 0), Register(LEASE, "addr", map[], 0, 0), Put(k, [], 0, 0, -1)]
  }

  lemma QuietFold(k: MapKey, clk: Clock)
    ensures RunTo(QuietOps(k), clk, 1) == State(map[], map[LEASE := InstEntry("addr", map[], 0, 0, 1)], 1)
    ensures RunTo(QuietOps(k), clk, 2) == State(map[], map[LEASE := InstEntry("addr", map[], 0, 0, 2)], 2)
    ensures HistoryTo(QuietOps(k), clk, 1) == [] && HistoryTo(QuietOps(k), clk, 2) == []
    ensures EffectAt(QuietOps(k), clk, 3).events == [Event(Cursor(3, 0), PUT, KeyValue(k.ns, k.key, [], 1, 3, 0, 0))]
  {
    var ops := QuietOps(k);
    assert RunTo(ops, clk, 0) == EMPTY_STATE && HistoryTo(ops, clk, 0) == [];
    assert EffectAt(ops, clk, 1).events == [];
    assert RunTo(ops, clk, 1) == State(map[], map[LEASE := InstEntry("addr", map[], 0, 0, 1)], 1);
    assert EffectAt(ops, clk, 2).events == [];
  }

  /** A new node restores the snapshot at index 1, applies index 2, hands out its current
      cursor and applies index 3. It has never lost an event, and refuses that cursor. */
  lemma RefusesLossless(k: MapKey, clk: Clock) returns (ops: seq<Op>, snap: Snapshot)
    ensures |ops| == 3 && IsExport(snap, RunTo(ops, clk, 1))
    ensures var v := ApplyView(RestoreView(NEW_VIEW, FromWire(ToWire(snap))), LogEntry(2, ops[1]), clk(2));
            var v' := ApplyView(v, LogEntry(3, ops[2]), clk(3));
            && NodeOk(v, ops, clk) && NodeOk(v', ops, clk) && CurrentSeq(v) == 8191
            && |v'.window| == 1 && Hidden(v', ops, clk) == []
            && WatchKv(v', k.ns, k.key, CurrentSeq(v)).Compacted?
  {
    hide Apply, Select, RunTo, HistoryTo;
    ops := QuietOps(k);
    QuietFold(k, clk);
    snap := Snapshot(1, [], [Instance("ns", "svc", "a", "addr", map[], 0, 0, 1)]);
    assert snap.instances[0] == InstToWire(LEASE, InstEntry("addr", map[], 0, 0, 1)) && SvcKeyOf(snap.instances[0]) == LEASE;
    QuietNode(ops, snap, k, clk);
    var v := ApplyView(RestoreView(NEW_VIEW, FromWire(ToWire(snap))), LogEntry(2, ops[1]), clk(2));
    var v' := ApplyView(v, LogEntry(3, ops[2]), clk(3));
    assert v'.window == EffectAt(ops, clk, 3).events;
    AcceptedFrom(v', k.ns, k.key, CurrentSeq(v));
  }

  lemma QuietNode(ops: seq<Op>, snap: Snapshot, k: MapKey, clk: Clock)
    requires ops == QuietOps(k) && snap.revision == 1 && IsExport(snap, RunTo(ops, clk, 1))
    ensures var v := ApplyView(RestoreView(NEW_VIEW, FromWire(ToWire(snap))), LogEntry(2, ops[1]), clk(2));
            var v' := ApplyView(v, LogEntry(3, ops[2]), clk(3));
            && NodeOk(v, ops, clk) && v.st.rev == 2 && v.window == [] && v.baseline == 8191
            && NodeOk(v', ops, clk) && v'.st.rev == 3 && v'.window == EffectAt(ops, clk, 3).events
            && HistoryTo(ops, clk, 3) == EffectAt(ops, clk, 3).events
  {
    hide RunTo, IsExport;
    QuietFold(k, clk);
    assert NodeOk(NEW_VIEW, ops, clk) by { NewNode(ops, clk); }
    assert FitsTo(ops, clk, 1);
    RestoreKeepsNode(NEW_VIEW, ops, clk, snap);
    var v0 := RestoreView(NEW_VIEW, FromWire(ToWire(snap)));
    ApplyKeepsNode(v0, ops, clk, clk(2));
    var v := ApplyView(v0, LogEntry(2, ops[1]), clk(2));
    assert v.baseline == v0.baseline;
    ApplyKeepsNode(v, ops, clk, clk(3));
    var v' := ApplyView(v, LogEntry(3, ops[2]), clk(3));
    assert v'.baseline == v.baseline;
    assert HistoryTo(ops, clk, 3) == HistoryTo(ops, clk, 2) + EffectAt(ops, clk, 3).events;
  }

  lemma NewNode(ops: seq<Op>, clk: Clock)
    ensures NodeOk(NEW_VIEW, ops, clk)
  {
    hide Apply;
    assert HistoryTo(ops, clk, 0) == [];
  }
}
