/** What a client of the server's watch loop receives, over every run. */
module WatchSafety {
  import opened Types
  import opened StateMachine
  import opened StoreLaws
  import opened Snapshots
  import opened Views
  import opened Replication
  import opened ServerWatch

  /** The matching events from the stream's start on. */
  ghost function Target(w: Watch, rq: Request, ops: seq<Op>, clk: Clock): seq<Event>
    requires NodeOk(w.view, ops, clk)
  {
    if w.start <= |Stream(w.view, ops, clk)| then Matching(Stream(w.view, ops, clk)[w.start..], rq) else []
  }

  /** What was sent, is queued to be sent and is buffered is an initial segment of the
      target, and all of it while the subscription is live. */
  ghost predicate OnTarget(w: Watch, rq: Request, t: seq<Event>) {
    && w.sent + Pending(w) <= t
    && (Attached(w) ==>
          && w.id in w.view.subs && w.id.n <= w.view.nextId
          && w.view.subs[w.id].ns == rq.ns && w.view.subs[w.id].key == rq.key
          && w.sent + Pending(w) + w.view.subs[w.id].buf <= t
          && (w.view.subs[w.id].open ==> w.sent + Pending(w) + w.view.subs[w.id].buf == t))
  }

  ghost predicate CursorOk(w: Watch, rq: Request) {
    w.cursor == if w.sent == [] then rq.fromRevision else w.sent[|w.sent| - 1].cursor
  }

  /** The stream never begins after the first event the client has not seen; and a
      request not ahead of the node at revision `r0` begins exactly there. */
  ghost predicate StartOk(w: Watch, rq: Request, h: seq<Event>, r0: int) {
    && w.start <= |h|
    && (rq.fromRevision > 0 ==> forall i :: 0 <= i < w.start && i < |h| ==> h[i].cursor <= rq.fromRevision)
    && (0 < rq.fromRevision < Cursor(r0 + 1, 0) && (Attached(w) || w.sent != []) ==>
          forall i :: w.start <= i < |h| ==> h[i].cursor > rq.fromRevision)
  }

  ghost predicate WInv(w: Watch, rq: Request, ops: seq<Op>, clk: Clock, r0: int) {
    && NodeOk(w.view, ops, clk) && r0 <= w.view.st.rev
    && OnTarget(w, rq, Target(w, rq, ops, clk))
    && CursorOk(w, rq)
    && StartOk(w, rq, Stream(w.view, ops, clk), r0)
  }

  // ------------------------------------------------------------------
  // Feeding
  // ------------------------------------------------------------------

  /** A subscription that stayed open got all of `m`, one that was dropped got a prefix, and
      none is dropped while its channel can hold everything. */
  ghost predicate Fed(s: Sub, s': Sub, m: seq<Event>) {
    && s'.ns == s.ns && s'.key == s.key
    && (s'.open ==> s.open && s'.buf == s.buf + m)
    && (s.open ==> s'.buf <= s.buf + m)
    && (!s.open ==> s' == s)
    && (s.open && |s.buf| + |m| <= WATCHER_BUFFER ==> s'.open)
  }

  lemma FedTwice(s: Sub, s1: Sub, s2: Sub, m1: seq<Event>, m2: seq<Event>)
    requires Fed(s, s1, m1) && Fed(s1, s2, m2)
    ensures Fed(s, s2, m1 + m2)
  {
    assert s.buf + (m1 + m2) == s.buf + m1 + m2;
  }

  lemma OfferFeeds(s: Sub, ev: Event)
    requires ev.cursor > 0
    ensures Fed(s, Offer(s, ev), if Matches(s.ns, s.key, ev) then [ev] else [])
  {
    hide Matches;
    assert s.buf + [] == s.buf;
  }

  /** Whatever a node emits, each subscription is fed its matching events, in order. */
  lemma {:induction false} EmitAllFeeds(v: View, evs: seq<Event>, id: SubId)
    requires id in v.subs && forall e :: e in evs ==> e.cursor > 0
    ensures Fed(v.subs[id], EmitAll(v, evs).subs[id], Select(evs, v.subs[id].ns, v.subs[id].key, 0))
  {
    hide Matches, Offer;
    if evs != [] {
      var front, ev, s := evs[..|evs| - 1], evs[|evs| - 1], v.subs[id];
      EmitAllFeeds(v, front, id);
      assert ev in evs;
      var s1, m := EmitAll(v, front).subs[id], if Matches(s.ns, s.key, ev) then [ev] else [];
      OfferFeeds(s1, ev);
      FedTwice(s, s1, Offer(s1, ev), Select(front, s.ns, s.key, 0), m);
      assert Select(evs, s.ns, s.key, 0) == Select(front, s.ns, s.key, 0) + m;
    } else {
      assert v.subs[id].buf + [] == v.subs[id].buf;
    }
  }

  /** When the node's log grows by `extra` events and the subscription is fed them,
      the loop stays on target. */
  lemma GrowKeeps(w: Watch, v': View, rq: Request, ops: seq<Op>, clk: Clock, r0: int, extra: seq<Event>)
    requires WInv(w, rq, ops, clk, r0) && NodeOk(v', ops, clk) && v'.st.rev >= w.view.st.rev
    requires Stream(v', ops, clk) == Stream(w.view, ops, clk) + extra
    requires forall e :: e in extra ==> e.cursor >= Cursor(w.view.st.rev + 1, 0)
    requires v'.nextId == w.view.nextId
    requires Attached(w) ==> w.id in v'.subs && Fed(w.view.subs[w.id], v'.subs[w.id], Matching(extra, rq))
    ensures WInv(w.(view := v'), rq, ops, clk, r0)
  {
    hide Apply, NodeOk, RunTo, HistoryTo, Select;
    NodeAt(w.view, ops, clk);
    NodeAt(v', ops, clk);
    var h := Stream(w.view, ops, clk);
    assert (h + extra)[w.start..] == h[w.start..] + extra;
    SelectConcat(h[w.start..], extra, rq.ns, rq.key, 0);
    assert Target(w.(view := v'), rq, ops, clk) == Target(w, rq, ops, clk) + Matching(extra, rq);
    forall i | |h| <= i < |h + extra| ensures (h + extra)[i].cursor >= Cursor(w.view.st.rev + 1, 0) {
      assert (h + extra)[i] == extra[i - |h|];
    }
  }

  /** What applying the next entry emits is the next stretch of the global stream. */
  lemma ApplyGrows(v: View, ops: seq<Op>, clk: Clock, now: int)
    requires NodeOk(v, ops, clk) && v.st.rev < |ops|
    requires Agrees(v.st, ops[v.st.rev], now, clk(v.st.rev + 1))
    requires Fits(Apply(v.st, LogEntry(v.st.rev + 1, ops[v.st.rev]), now))
    ensures var v' := ApplyView(v, LogEntry(v.st.rev + 1, ops[v.st.rev]), now);
            var evs := Apply(v.st, LogEntry(v.st.rev + 1, ops[v.st.rev]), now).events;
            && NodeOk(v', ops, clk) && v'.st.rev == v.st.rev + 1
            && Stream(v', ops, clk) == Stream(v, ops, clk) + evs
            && forall e :: e in evs ==> e.cursor >= Cursor(v.st.rev + 1, 0)
  {
    hide Apply, RunTo, NodeOk, ApplyView;
    NodeAt(v, ops, clk);
    var n := v.st.rev + 1;
    var e := LogEntry(n, ops[n - 1]);
    RunWellFormed(ops, clk, n - 1);
    SkewShowsExactly(v.st, e, now, clk(n));
    assert Apply(v.st, e, now).events == EffectAt(ops, clk, n).events;
    ApplyKeepsNode(v, ops, clk, now);
    EventShape(v.st, e, now);
  }

  lemma ApplyInv(w: Watch, rq: Request, ops: seq<Op>, clk: Clock, r0: int, now: int)
    requires WInv(w, rq, ops, clk, r0) && Enabled(w, rq, ops, clk, ApplyStep(now))
    ensures WInv(Next(w, rq, ops, clk, ApplyStep(now)), rq, ops, clk, r0)
  {
    hide Apply, RunTo, NodeOk, HistoryTo, EmitAll, StartOk, Target, Select, Agrees, Fits;
    var v, e := w.view, LogEntry(w.view.st.rev + 1, ops[w.view.st.rev]);
    var eff := Apply(v.st, e, now);
    ApplyGrows(v, ops, clk, now);
    if Attached(w) { EmitAllFeeds(v.(st := eff.state), eff.events, w.id); }
    GrowKeeps(w, ApplyView(v, e, now), rq, ops, clk, r0, eff.events);
  }

  /** A restore moves the node over the events of the gap without emitting them. */
  lemma RestoreGrows(v: View, ops: seq<Op>, clk: Clock, snap: WireSnapshot)
    requires NodeOk(v, ops, clk) && SnapshotAt(snap, ops, clk, snap.lastIncludedIndex)
    ensures var v', r := RestoreView(v, FromWire(snap)), snap.lastIncludedIndex;
            && NodeOk(v', ops, clk) && v'.subs == v.subs && v'.nextId == v.nextId
            && (r < v.st.rev ==> v' == v)
            && (r >= v.st.rev ==>
                  && Stream(v', ops, clk) == Stream(v, ops, clk) + Gap(v, ops, clk, r) && v'.st.rev == r
                  && forall e :: e in Gap(v, ops, clk, r) ==> e.cursor >= Cursor(v.st.rev + 1, 0))
  {
    hide Apply, RunTo, NodeOk, Restored, SnapshotAt;
    var r := snap.lastIncludedIndex;
    NodeAt(v, ops, clk);
    SnapshotInLog(snap, ops, clk);
    RestoreAt(v, ops, clk, snap, r);
    if r >= v.st.rev { NewEventsBeyond(ops, clk, v.st.rev, r); }
  }

  lemma RestoreInv(w: Watch, rq: Request, ops: seq<Op>, clk: Clock, r0: int, snap: WireSnapshot)
    requires WInv(w, rq, ops, clk, r0) && Enabled(w, rq, ops, clk, RestoreStep(snap))
    ensures WInv(Next(w, rq, ops, clk, RestoreStep(snap)), rq, ops, clk, r0)
  {
    hide Apply, RunTo, OnTarget, StartOk, NodeOk, RestoreView, Gap, FromWire, RestoreSafe, CursorOk, SnapshotAt;
    var v, r := w.view, snap.lastIncludedIndex;
    NodeAt(v, ops, clk);
    RestoreGrows(v, ops, clk, snap);
    if r >= v.st.rev {
      assert r <= |ops| by { SnapshotInLog(snap, ops, clk); }
      GapFeeds(w, rq, ops, clk, r);
      GrowKeeps(w, RestoreView(v, FromWire(snap)), rq, ops, clk, r0, Gap(v, ops, clk, r));
    }
  }

  lemma SnapshotInLog(snap: WireSnapshot, ops: seq<Op>, clk: Clock)
    requires SnapshotAt(snap, ops, clk, snap.lastIncludedIndex)
    ensures 0 <= snap.lastIncludedIndex <= |ops| && FitsTo(ops, clk, snap.lastIncludedIndex)
  {
  }

  lemma GapFeeds(w: Watch, rq: Request, ops: seq<Op>, clk: Clock, r: int)
    requires NodeOk(w.view, ops, clk) && OnTarget(w, rq, Target(w, rq, ops, clk))
    requires 0 <= w.view.st.rev <= r <= |ops| && RestoreSafe(w, rq, ops, clk, r)
    ensures Attached(w) ==>
              w.id in w.view.subs && Fed(w.view.subs[w.id], w.view.subs[w.id], Matching(Gap(w.view, ops, clk, r), rq))
  {
    hide HistoryTo, Apply, RunTo;
  }

  // ------------------------------------------------------------------
  // The loop's own steps
  // ------------------------------------------------------------------

  lemma Resume(w: Watch, rq: Request, ops: seq<Op>, clk: Clock, r0: int)
    requires WInv(w, rq, ops, clk, r0) && w.sent != [] && WatchKv(w.view, rq.ns, rq.key, w.cursor).Watching?
    ensures w.sent + WatchKv(w.view, rq.ns, rq.key, w.cursor).backlog == Target(w, rq, ops, clk)
  {
    hide Apply, RunTo, HistoryTo, NodeOk, Select;
    NodeAt(w.view, ops, clk);
    var h := Stream(w.view, ops, clk);
    WindowIsTail(w.view, ops, clk);
    assert w.sent + Pending(w) <= Matching(h[w.start..], rq);
    RestOfTailPositive(h[w.start..], rq, w.sent);
    HorizonSound(w.view, ops, clk, rq.ns, rq.key, w.cursor);
    RestAfterLast(h, rq, w.start, w.sent);
  }

  lemma RestOfTailPositive(evs: seq<Event>, rq: Request, sent: seq<Event>)
    requires Increasing(evs) && sent != [] && sent <= Matching(evs, rq)
    ensures sent[|sent| - 1].cursor > 0
  {
    RestOfTail(evs, rq, sent);
  }

  lemma SubscribeInv(w: Watch, rq: Request, ops: seq<Op>, clk: Clock, r0: int)
    requires WInv(w, rq, ops, clk, r0) && Enabled(w, rq, ops, clk, SubscribeStep)
    ensures WInv(Next(w, rq, ops, clk, SubscribeStep), rq, ops, clk, r0)
  {
    hide Apply, RunTo, HistoryTo, NodeOk, Select, StartAt, Horizon;
    NodeAt(w.view, ops, clk);
    var w' := Next(w, rq, ops, clk, SubscribeStep);
    if w'.phase.Sending? {
      SubsKeepNode(w.view, ops, clk, w'.view.subs, w'.view.nextId);
      if w.sent != [] { Resume(w, rq, ops, clk, r0); } else { FreshStart(w.view, rq, ops, clk); }
      assert w'.sent + Pending(w') == Target(w', rq, ops, clk);
      assert w'.sent + Pending(w') + [] == w'.sent + Pending(w');
    }
  }

  lemma PositiveCursors(v: View, ops: seq<Op>, clk: Clock)
    requires NodeOk(v, ops, clk)
    ensures forall e :: e in Stream(v, ops, clk) ==> SUB_LIMIT <= e.cursor < Cursor(v.st.rev + 1, 0)
  {
    hide Apply, RunTo;
    CursorsIncrease(ops, clk, v.st.rev);
  }

  /** A subscription before anything was sent takes every matching event from its start. */
  lemma FreshStart(v: View, rq: Request, ops: seq<Op>, clk: Clock)
    requires NodeOk(v, ops, clk) && WatchKv(v, rq.ns, rq.key, rq.fromRevision).Watching?
    ensures var k, h := StartAt(v, rq, ops, clk), Stream(v, ops, clk);
            && k <= |h|
            && WatchKv(v, rq.ns, rq.key, rq.fromRevision).backlog == Matching(h[k..], rq)
            && (rq.fromRevision > 0 ==> forall i :: 0 <= i < |h| ==> (h[i].cursor <= rq.fromRevision <==> i < k))
  {
    hide Apply, RunTo, HistoryTo, NodeOk, Select, Below;
    NodeAt(v, ops, clk);
    var h := Stream(v, ops, clk);
    WindowIsTail(v, ops, clk);
    PositiveCursors(v, ops, clk);
    if rq.fromRevision > 0 {
      HorizonSound(v, ops, clk, rq.ns, rq.key, rq.fromRevision);
      BelowSplits(h, rq.fromRevision);
      SelectFrom(h, rq, rq.fromRevision);
    } else {
      assert h[|Hidden(v, ops, clk)|..] == v.window;
      forall e | e in v.window ensures e.cursor > 0 { assert e in h; }
      SameSelection(v.window, rq.ns, rq.key, rq.fromRevision, 0);
    }
  }

  /** Steps of other watchers leave the loop's subscription alone. */
  lemma OtherInv(w: Watch, rq: Request, ops: seq<Op>, clk: Clock, r0: int, step: WatchStep)
    requires WInv(w, rq, ops, clk, r0) && Enabled(w, rq, ops, clk, step)
    requires step.OtherWatchStep? || step.OtherCloseStep? || step.OtherReceiveStep?
    ensures WInv(Next(w, rq, ops, clk, step), rq, ops, clk, r0)
  {
    hide Apply, RunTo, HistoryTo, NodeOk, Select, StartOk, Horizon;
    NodeAt(w.view, ops, clk);
    var w' := Next(w, rq, ops, clk, step);
    SubsKeepNode(w.view, ops, clk, w'.view.subs, w'.view.nextId);
    assert Target(w', rq, ops, clk) == Target(w, rq, ops, clk);
    assert StartOk(w', rq, Stream(w.view, ops, clk), r0) by { SameStart(w, w', rq, Stream(w.view, ops, clk), r0); }
  }

  lemma SameStart(w: Watch, w': Watch, rq: Request, h: seq<Event>, r0: int)
    requires StartOk(w, rq, h, r0) && w'.start == w.start
    requires Attached(w') || w'.sent != [] ==> Attached(w) || w.sent != []
    ensures StartOk(w', rq, h, r0)
  {
  }

  /** Steps of the loop that only move events along. */
  lemma LocalInv(w: Watch, rq: Request, ops: seq<Op>, clk: Clock, r0: int, step: WatchStep)
    requires WInv(w, rq, ops, clk, r0) && Enabled(w, rq, ops, clk, step)
    requires step.SendStep? || step.ListenStep? || step.ReceiveStep? || step.ClosedStep? || step.StopStep?
    ensures WInv(Next(w, rq, ops, clk, step), rq, ops, clk, r0)
  {
    hide Apply, RunTo, HistoryTo, NodeOk, Select, StartOk;
    NodeAt(w.view, ops, clk);
    var w' := Next(w, rq, ops, clk, step);
    SubsKeepNode(w.view, ops, clk, w'.view.subs, w'.view.nextId);
    assert Target(w', rq, ops, clk) == Target(w, rq, ops, clk);
    if step.SendStep? {
      var p := w.phase.pending;
      assert w.sent + p == w.sent + [p[0]] + p[1..];
    }
    if step.ReceiveStep? {
      var b := w.view.subs[w.id].buf;
      assert w.sent + [] + b == w.sent + [b[0]] + [] + b[1..];
    }
    assert StartOk(w', rq, Stream(w.view, ops, clk), r0) by { SameStart(w, w', rq, Stream(w.view, ops, clk), r0); }
  }

  lemma StepKeeps(w: Watch, rq: Request, ops: seq<Op>, clk: Clock, r0: int, step: WatchStep)
    requires WInv(w, rq, ops, clk, r0) && Enabled(w, rq, ops, clk, step)
    ensures WInv(Next(w, rq, ops, clk, step), rq, ops, clk, r0)
  {
    hide WInv, Enabled, Next;
    match step {
      case ApplyStep(now) => ApplyInv(w, rq, ops, clk, r0, now);
      case RestoreStep(snap) => RestoreInv(w, rq, ops, clk, r0, snap);
      case SubscribeStep => SubscribeInv(w, rq, ops, clk, r0);
      case OtherWatchStep(_, _, _) => OtherInv(w, rq, ops, clk, r0, step);
      case OtherCloseStep(_) => OtherInv(w, rq, ops, clk, r0, step);
      case OtherReceiveStep(_) => OtherInv(w, rq, ops, clk, r0, step);
      case _ => LocalInv(w, rq, ops, clk, r0, step);
    }
  }

  // ------------------------------------------------------------------
  // Whole runs
  // ------------------------------------------------------------------

  ghost predicate IsWatchRun(run: seq<Watch>, steps: seq<WatchStep>, rq: Request, ops: seq<Op>, clk: Clock) {
    && |run| == |steps| + 1 && Init(run[0], rq, ops, clk)
    && forall i :: 0 <= i < |steps| ==>
         && NodeOk(run[i].view, ops, clk) && Enabled(run[i], rq, ops, clk, steps[i])
         && run[i + 1] == Next(run[i], rq, ops, clk, steps[i])
  }

  lemma {:induction false} WatchRunInv(
    run: seq<Watch>, steps: seq<WatchStep>, rq: Request, ops: seq<Op>, clk: Clock, i: nat)
    requires IsWatchRun(run, steps, rq, ops, clk) && i < |run|
    ensures WInv(run[i], rq, ops, clk, run[0].view.st.rev)
  {
    hide Possible, RestoreSafe, Next, NodeOk, Apply;
    if i == 0 {
      NodeAt(run[0].view, ops, clk);
    } else {
      WatchRunInv(run, steps, rq, ops, clk, i - 1);
      assert run[i] == Next(run[i - 1], rq, ops, clk, steps[i - 1]);
      StepKeeps(run[i - 1], rq, ops, clk, run[0].view.st.rev, steps[i - 1]);
    }
  }

  /** What the invariant says of a request not ahead of the node. */
  lemma InvExactlyOnce(w: Watch, rq: Request, ops: seq<Op>, clk: Clock, r0: int)
    requires WInv(w, rq, ops, clk, r0) && 0 < rq.fromRevision < Cursor(r0 + 1, 0)
    ensures NodeOk(w.view, ops, clk)
    ensures w.sent <= Select(Stream(w.view, ops, clk), rq.ns, rq.key, rq.fromRevision)
    ensures w.sent != [] || Attached(w) ==>
              Target(w, rq, ops, clk) == Select(Stream(w.view, ops, clk), rq.ns, rq.key, rq.fromRevision)
    ensures Increasing(w.sent)
    ensures w.phase.Listening? && Live(w) && w.view.subs[w.id].buf == [] ==>
              w.sent == Select(Stream(w.view, ops, clk), rq.ns, rq.key, rq.fromRevision)
    ensures SentByFields(Stream(w.view, ops, clk), rq, w.sent)
    ensures w.phase.Listening? && Live(w) && w.view.subs[w.id].buf == [] ==>
              forall e :: (e in Stream(w.view, ops, clk) && e.cursor > rq.fromRevision
                           && e.kv.ns == rq.ns && (rq.key == "" || e.kv.key == rq.key)) ==> e in w.sent
  {
    hide Apply, RunTo, HistoryTo, NodeOk, Select, Below;
    NodeAt(w.view, ops, clk);
    var h := Stream(w.view, ops, clk);
    WindowIsTail(w.view, ops, clk);
    PositiveCursors(w.view, ops, clk);
    SelectIncreasing(h, rq.ns, rq.key, rq.fromRevision);
    if w.sent != [] || Attached(w) {
      BelowIs(h, rq.fromRevision, w.start);
      SelectFrom(h, rq, rq.fromRevision);
    }
    SelectByFields(h, rq.ns, rq.key, rq.fromRevision);
    PrefixByFields(h, rq, w.sent);
  }

  /** Every event sent is one of the history, after the start cursor, of the asked namespace and
      key; and whatever of that kind lies before an event sent was sent before it. */
  ghost predicate SentByFields(h: seq<Event>, rq: Request, sent: seq<Event>) {
    forall k :: 0 <= k < |sent| ==>
      && sent[k] in h && sent[k].cursor > rq.fromRevision
      && sent[k].kv.ns == rq.ns && (rq.key == "" || sent[k].kv.key == rq.key)
      && forall e :: (e in h && rq.fromRevision < e.cursor < sent[k].cursor
                      && e.kv.ns == rq.ns && (rq.key == "" || e.kv.key == rq.key)) ==> e in sent[..k]
  }

  lemma PrefixByFields(h: seq<Event>, rq: Request, sent: seq<Event>)
    requires Increasing(h) && sent <= Select(h, rq.ns, rq.key, rq.fromRevision)
    ensures SentByFields(h, rq, sent)
  {
    hide Select, Matches;
    var t := Select(h, rq.ns, rq.key, rq.fromRevision);
    SelectIncreasing(h, rq.ns, rq.key, rq.fromRevision);
    SelectByFields(h, rq.ns, rq.key, rq.fromRevision);
    forall k | 0 <= k < |sent|
      ensures sent[k] in t
      ensures forall e :: e in t && e.cursor < sent[k].cursor ==> e in sent[..k]
    {
      assert sent[k] == t[k];
      forall e | e in t && e.cursor < sent[k].cursor ensures e in sent[..k] {
        var j :| 0 <= j < |t| && t[j] == e;
        assert j < k;
        assert sent[..k][j] == e;
      }
    }
  }

  /** Exactly once and in order: for a positive start cursor not ahead of the node,
      whatever happens in between (overflow, detachment, re-subscription, restore while
      detached), what has been sent is an initial segment of all matching events after
      the cursor; and a loop that waits on a drained live channel has sent them all. */
  lemma WatchExactlyOnce(
    run: seq<Watch>, steps: seq<WatchStep>, rq: Request, ops: seq<Op>, clk: Clock, i: nat)
    requires IsWatchRun(run, steps, rq, ops, clk) && i < |run|
    requires 0 < rq.fromRevision < Cursor(run[0].view.st.rev + 1, 0)
    ensures NodeOk(run[i].view, ops, clk)
    ensures run[i].sent <= Select(Stream(run[i].view, ops, clk), rq.ns, rq.key, rq.fromRevision)
    ensures Increasing(run[i].sent)
    ensures run[i].phase.Listening? && Live(run[i]) && run[i].view.subs[run[i].id].buf == [] ==>
              run[i].sent == Select(Stream(run[i].view, ops, clk), rq.ns, rq.key, rq.fromRevision)
    ensures SentByFields(Stream(run[i].view, ops, clk), rq, run[i].sent)
    ensures run[i].phase.Listening? && Live(run[i]) && run[i].view.subs[run[i].id].buf == [] ==>
              forall e :: (e in Stream(run[i].view, ops, clk) && e.cursor > rq.fromRevision
                           && e.kv.ns == rq.ns && (rq.key == "" || e.kv.key == rq.key)) ==> e in run[i].sent
  {
    hide NodeOk, Select, HistoryTo, WInv;
    WatchRunInv(run, steps, rq, ops, clk, i);
    InvExactlyOnce(run[i], rq, ops, clk, run[0].view.st.rev);
  }

  /** Without the assumption, a request ahead of a lagging node may see events again,
      but still no holes: the stream starts at or before the first unseen event. */
  ghost predicate ServedFrom(h: seq<Event>, rq: Request, sent: seq<Event>) {
    exists start: nat ::
      && start <= |h| && sent <= Matching(h[start..], rq)
      && (rq.fromRevision > 0 ==> forall i :: 0 <= i < start ==> h[i].cursor <= rq.fromRevision)
  }

  lemma WatchHasNoHoles(
    run: seq<Watch>, steps: seq<WatchStep>, rq: Request, ops: seq<Op>, clk: Clock, i: nat)
    requires IsWatchRun(run, steps, rq, ops, clk) && i < |run|
    ensures NodeOk(run[i].view, ops, clk)
    ensures ServedFrom(Stream(run[i].view, ops, clk), rq, run[i].sent)
  {
    hide Apply, RunTo, HistoryTo, NodeOk, Select, Below, Enabled, Next;
    WatchRunInv(run, steps, rq, ops, clk, i);
    NodeAt(run[i].view, ops, clk);
    assert run[i].sent + Pending(run[i]) <= Target(run[i], rq, ops, clk);
  }

  // ------------------------------------------------------------------
  // Restoring under a live subscription
  // ------------------------------------------------------------------

  /** A restore keeps the loop on target exactly when it is safe: the subscription is
      not live, or the restore jumps over no matching event. */
  lemma RestoreSafeExactly(w: Watch, rq: Request, ops: seq<Op>, clk: Clock, r0: int, snap: WireSnapshot)
    requires WInv(w, rq, ops, clk, r0) && SnapshotAt(snap, ops, clk, snap.lastIncludedIndex)
    ensures WInv(w.(view := RestoreView(w.view, FromWire(snap))), rq, ops, clk, r0)
            <==> RestoreSafe(w, rq, ops, clk, snap.lastIncludedIndex)
  {
    hide Apply, RunTo, NodeOk, RestoreView, FromWire, SnapshotAt, Select, HistoryTo, Gap;
    var w', r := w.(view := RestoreView(w.view, FromWire(snap))), snap.lastIncludedIndex;
    if RestoreSafe(w, rq, ops, clk, r) {
      RestoreInv(w, rq, ops, clk, r0, snap);
    } else {
      NodeAt(w.view, ops, clk);
      RestoreGrows(w.view, ops, clk, snap);
      var h, gap := Stream(w.view, ops, clk), Gap(w.view, ops, clk, r);
      assert (h + gap)[w.start..] == h[w.start..] + gap;
      SelectConcat(h[w.start..], gap, rq.ns, rq.key, 0);
      assert |Target(w', rq, ops, clk)| > |Target(w, rq, ops, clk)|;
    }
  }

  /** After an unsafe restore the client silently loses the gap: the next matching event
      is queued right behind what was there before it. */
  lemma LiveRestoreLosesGap(
    w: Watch, rq: Request, ops: seq<Op>, clk: Clock, r0: int, snap: WireSnapshot, ev: Event)
    requires WInv(w, rq, ops, clk, r0) && SnapshotAt(snap, ops, clk, snap.lastIncludedIndex)
    requires !RestoreSafe(w, rq, ops, clk, snap.lastIncludedIndex) && |w.view.subs[w.id].buf| < WATCHER_BUFFER
    requires Matches(rq.ns, rq.key, ev) && ev.cursor >= Cursor(snap.lastIncludedIndex + 1, 0)
    ensures var v', gap := Emit(RestoreView(w.view, FromWire(snap)), ev), Gap(w.view, ops, clk, snap.lastIncludedIndex);
            && v'.subs[w.id].open && v'.subs[w.id].buf == w.view.subs[w.id].buf + [ev]
            && !(w.sent + Pending(w) + v'.subs[w.id].buf <= Target(w, rq, ops, clk) + Matching(gap, rq) + [ev])
  {
    hide Apply, RunTo, NodeOk, SnapshotAt, Select, HistoryTo, Restored;
    var r := snap.lastIncludedIndex;
    NodeAt(w.view, ops, clk);
    RestoreGrows(w.view, ops, clk, snap);
    var gap, t := Gap(w.view, ops, clk, r), Target(w, rq, ops, clk);
    var s := w.sent + Pending(w) + w.view.subs[w.id].buf;
    assert w.sent + Pending(w) + (w.view.subs[w.id].buf + [ev]) == s + [ev];
    assert s == t;
    SnapshotInLog(snap, ops, clk);
    GapBefore(ops, clk, w.view, r, rq);
    assert (t + Matching(gap, rq) + [ev])[|t|] == Matching(gap, rq)[0];
    assert (s + [ev])[|t|] == ev;
  }

  lemma GapBefore(ops: seq<Op>, clk: Clock, v: View, r: int, rq: Request)
    requires NodeOk(v, ops, clk) && 0 <= v.st.rev <= r <= |ops| && FitsTo(ops, clk, r)
    ensures forall e :: e in Matching(Gap(v, ops, clk, r), rq) ==> e.cursor < Cursor(r + 1, 0)
  {
    hide Apply, RunTo, NodeOk, Select;
    CursorsIncrease(ops, clk, r);
    var h := HistoryTo(ops, clk, r);
    var gap := Gap(v, ops, clk, r);
    assert forall i, j :: 0 <= i < j < |gap| ==> gap[i].cursor < gap[j].cursor;
    SelectIncreasing(gap, rq.ns, rq.key, 0);
    assert forall e :: e in gap ==> e in h;
  }
}
