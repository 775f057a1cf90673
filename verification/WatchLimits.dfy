/** The conditions of the watch guarantees are not idle: reachable runs of the watch
    loop that break the guarantee when a condition fails. */
module WatchLimits {
  import opened Types
  import opened StateMachine
  import opened StoreLaws
  import opened Snapshots
  import opened Views
  import opened HorizonLaws
  import opened Replication
  import opened ServerWatch
  import opened WatchSafety

  /** A run of what the code can do, unsafe restores included. */
  ghost predicate IsPossibleRun(run: seq<Watch>, steps: seq<WatchStep>, rq: Request, ops: seq<Op>, clk: Clock) {
    && |run| == |steps| + 1 && Init(run[0], rq, ops, clk)
    && (forall i :: 0 <= i < |run| ==> NodeOk(run[i].view, ops, clk))
    && forall i :: 0 <= i < |steps| ==>
         Possible(run[i], ops, clk, steps[i]) && run[i + 1] == Next(run[i], rq, ops, clk, steps[i])
  }

  lemma OneMore(run: seq<Watch>, steps: seq<WatchStep>, rq: Request, ops: seq<Op>, clk: Clock, step: WatchStep)
    requires IsPossibleRun(run, steps, rq, ops, clk) && Possible(run[|steps|], ops, clk, step)
    requires NodeOk(Next(run[|steps|], rq, ops, clk, step).view, ops, clk)
    ensures IsPossibleRun(run + [Next(run[|steps|], rq, ops, clk, step)], steps + [step], rq, ops, clk)
  {
    hide Init, Possible, Next, NodeOk;
  }

  lemma WithoutRestores(run: seq<Watch>, steps: seq<WatchStep>, rq: Request, ops: seq<Op>, clk: Clock)
    requires IsPossibleRun(run, steps, rq, ops, clk) && forall i :: 0 <= i < |steps| ==> !steps[i].RestoreStep?
    ensures IsWatchRun(run, steps, rq, ops, clk)
  {
    hide Init, Possible, Next, NodeOk, RestoreSafe;
  }

  /** The loop waits on a live, drained channel. */
  predicate Waiting(w: Watch, rq: Request) {
    w.phase.Listening? && w.id in w.view.subs && w.view.subs[w.id] == Sub(rq.ns, rq.key, [], true)
  }

  /** Subscribing with nothing to catch up on. */
  lemma Attach(v: View, rq: Request, ops: seq<Op>, clk: Clock) returns (run: seq<Watch>)
    requires NodeOk(v, ops, clk)
    requires var r := WatchKv(v, rq.ns, rq.key, rq.fromRevision); r.Watching? && r.backlog == []
    ensures IsPossibleRun(run, [SubscribeStep, ListenStep], rq, ops, clk) && run[0].view == v
    ensures Waiting(run[2], rq) && run[2].sent == []
    ensures run[2].view == v.(subs := run[2].view.subs, nextId := run[2].view.nextId)
  {
    hide NodeOk, Select, Horizon, StartAt;
    var w0 := Watch(v, Subscribing, SubId(0), rq.fromRevision, [], 0);
    run := [w0];
    assert IsPossibleRun(run, [], rq, ops, clk);
    var w1 := Next(w0, rq, ops, clk, SubscribeStep);
    SubsKeepNode(v, ops, clk, w1.view.subs, w1.view.nextId);
    hide IsPossibleRun;
    OneMore(run, [], rq, ops, clk, SubscribeStep);
    var w2 := Next(w1, rq, ops, clk, ListenStep);
    assert [] + [SubscribeStep] == [SubscribeStep];
    OneMore(run + [w1], [SubscribeStep], rq, ops, clk, ListenStep);
    assert [SubscribeStep] + [ListenStep] == [SubscribeStep, ListenStep];
    run := run + [w1] + [w2];
  }

  /** An unconditional Put has one event and never panics. */
  lemma PutEffect(s: State, n: int, k: MapKey, value: seq<byte>, now: int)
    ensures var eff := Apply(s, LogEntry(n, Put(k, value, 0, 0, -1)), now);
            && |eff.events| == 1 && eff.events[0].cursor == Cursor(n, 0) && KeyOf(eff.events[0].kv) == k
            && Fits(eff)
    ensures Agrees(s, Put(k, value, 0, 0, -1), now, now)
  {
  }

  /** A waiting loop receives the event of a matching Put. */
  lemma ApplyAndReceive(
    run: seq<Watch>, steps: seq<WatchStep>, rq: Request, ops: seq<Op>, clk: Clock, k: MapKey, value: seq<byte>)
    returns (longer: seq<Watch>)
    requires IsPossibleRun(run, steps, rq, ops, clk) && Waiting(run[|steps|], rq)
    requires var n := run[|steps|].view.st.rev; 0 <= n < |ops| && ops[n] == Put(k, value, 0, 0, -1)
    requires rq.ns == k.ns && (rq.key == "" || rq.key == k.key)
    ensures var n := run[|steps|].view.st.rev + 1;
            && IsPossibleRun(longer, steps + [ApplyStep(clk(n)), ReceiveStep], rq, ops, clk) && run <= longer
            && |EffectAt(ops, clk, n).events| == 1
            && EffectAt(ops, clk, n).events[0].cursor == Cursor(n, 0)
            && Matches(rq.ns, rq.key, EffectAt(ops, clk, n).events[0])
            && longer[|steps| + 2].sent == run[|steps|].sent + [EffectAt(ops, clk, n).events[0]]
            && longer[|steps| + 2].view.st.rev == n
  {
    hide Apply, NodeOk, RunTo, IsPossibleRun;
    LastOk(run, steps, rq, ops, clk);
    var w := run[|steps|];
    NodeAt(w.view, ops, clk);
    var n := w.view.st.rev + 1;
    PutEffect(w.view.st, n, k, value, clk(n));
    var ev := EffectAt(ops, clk, n).events[0];
    assert Apply(w.view.st, LogEntry(n, ops[n - 1]), clk(n)) == EffectAt(ops, clk, n);
    ApplyKeepsNode(w.view, ops, clk, clk(n));
    var w1 := Next(w, rq, ops, clk, ApplyStep(clk(n)));
    OneEvent(w, rq, ev, Apply(w.view.st, LogEntry(n, ops[n - 1]), clk(n)));
    OneMore(run, steps, rq, ops, clk, ApplyStep(clk(n)));
    var w2 := Next(w1, rq, ops, clk, ReceiveStep);
    SubsKeepNode(w1.view, ops, clk, w2.view.subs, w2.view.nextId);
    OneMore(run + [w1], steps + [ApplyStep(clk(n))], rq, ops, clk, ReceiveStep);
    assert steps + [ApplyStep(clk(n))] + [ReceiveStep] == steps + [ApplyStep(clk(n)), ReceiveStep];
    longer := run + [w1] + [w2];
  }

  lemma LastOk(run: seq<Watch>, steps: seq<WatchStep>, rq: Request, ops: seq<Op>, clk: Clock)
    requires IsPossibleRun(run, steps, rq, ops, clk)
    ensures |run| == |steps| + 1 && NodeOk(run[|steps|].view, ops, clk)
  {
    hide Init, Possible, Next, NodeOk;
  }

  /** Emitting one matching event into a waiting channel. */
  lemma OneEvent(w: Watch, rq: Request, ev: Event, eff: Effect)
    requires Waiting(w, rq) && eff.events == [ev] && Matches(rq.ns, rq.key, ev)
    ensures var v' := EmitAll(w.view.(st := eff.state), eff.events);
            && v'.st == eff.state && w.id in v'.subs && v'.subs[w.id] == Sub(rq.ns, rq.key, [ev], true)
  {
    var v := w.view.(st := eff.state);
    assert [ev][..0] == [];
    assert EmitAll(v, [ev][..0]) == v;
    assert EmitAll(v, [ev]) == Emit(v, ev);
  }

  // ------------------------------------------------------------------
  // Coming back after being dropped
  // ------------------------------------------------------------------

  /** A loop whose subscription was dropped, once it has drained the channel, subscribes again
      with its last cursor. It ends only if that cursor lies before the horizon; otherwise
      what it has sent and what it is about to send is everything owed so far, and it holds
      a fresh live subscription for the rest. */
  lemma DroppedLoopResumes(w: Watch, rq: Request, ops: seq<Op>, clk: Clock, r0: int)
    requires WInv(w, rq, ops, clk, r0) && 0 < rq.fromRevision < Cursor(r0 + 1, 0)
    requires w.phase.Listening? && w.id in w.view.subs && !w.view.subs[w.id].open && w.view.subs[w.id].buf == []
    ensures NodeOk(w.view, ops, clk) && Possible(w, ops, clk, ClosedStep)
    ensures var w1 := Next(w, rq, ops, clk, ClosedStep);
            && NodeOk(w1.view, ops, clk) && Possible(w1, ops, clk, SubscribeStep)
            && var w2 := Next(w1, rq, ops, clk, SubscribeStep);
               if w.cursor < Horizon(w.view) then w2.phase.Ended?
               else
                 && w2.phase.Sending? && w2.sent == w.sent && w2.view.st == w.view.st
                 && w2.sent + w2.phase.pending
                    == Select(HistoryTo(ops, clk, w.view.st.rev), rq.ns, rq.key, rq.fromRevision)
                 && w2.id in w2.view.subs && w2.view.subs[w2.id] == Sub(rq.ns, rq.key, [], true)
  {
    hide Apply, RunTo, HistoryTo, NodeOk, WInv, Select, StartAt;
    LoopOn(w, rq, ops, clk, r0);
    var w1 := Next(w, rq, ops, clk, ClosedStep);
    StepKeeps(w, rq, ops, clk, r0, ClosedStep);
    LoopOn(w1, rq, ops, clk, r0);
    AcceptedFrom(w1.view, rq.ns, rq.key, w1.cursor);
    StepKeeps(w1, rq, ops, clk, r0, SubscribeStep);
    var w2 := Next(w1, rq, ops, clk, SubscribeStep);
    if w2.phase.Sending? {
      InvExactlyOnce(w2, rq, ops, clk, r0);
      AllOwed(w2, rq, ops, clk, r0);
    }
  }

  lemma LoopOn(w: Watch, rq: Request, ops: seq<Op>, clk: Clock, r0: int)
    requires WInv(w, rq, ops, clk, r0)
    ensures NodeOk(w.view, ops, clk) && 0 <= w.view.st.rev <= |ops|
    ensures rq.fromRevision > 0 ==> w.cursor > 0
  {
    hide Apply, RunTo, HistoryTo, NodeOk, Select;
    NodeAt(w.view, ops, clk);
    if w.sent != [] {
      WindowIsTail(w.view, ops, clk);
      RestOfTailPositive(Stream(w.view, ops, clk)[w.start..], rq, w.sent);
    }
  }

  lemma AllOwed(w: Watch, rq: Request, ops: seq<Op>, clk: Clock, r0: int)
    requires WInv(w, rq, ops, clk, r0) && w.phase.Sending?
    requires w.id in w.view.subs && w.view.subs[w.id].open && w.view.subs[w.id].buf == []
    ensures NodeOk(w.view, ops, clk) && w.sent + w.phase.pending == Target(w, rq, ops, clk)
  {
    hide Apply, RunTo, HistoryTo, NodeOk, Select, Target;
    assert w.sent + w.phase.pending + [] == w.sent + w.phase.pending;
  }

  /** A subscription that is gone by the time its backlog is sent sends the loop back to subscribing. */
  lemma GoneMeansSubscribing(w: Watch, rq: Request, ops: seq<Op>, clk: Clock)
    requires NodeOk(w.view, ops, clk) && w.phase == Sending([])
    ensures Possible(w, ops, clk, ListenStep)
    ensures var w' := Next(w, rq, ops, clk, ListenStep);
            && w' == w.(phase := w'.phase)
            && w'.phase == if w.id in w.view.subs && w.view.subs[w.id].open then Listening else Subscribing
  {
    hide NodeOk;
  }

  /** A loop that stops, for whatever reason, leaves its subscription closed and the node's
      data as they were. */
  lemma StoppingCloses(w: Watch, rq: Request, ops: seq<Op>, clk: Clock)
    requires NodeOk(w.view, ops, clk) && Possible(w, ops, clk, StopStep)
    ensures var w' := Next(w, rq, ops, clk, StopStep);
            && w'.phase.Ended? && w'.sent == w.sent && w'.view == w.view.(subs := w'.view.subs)
            && (w.id in w.view.subs ==> w.id in w'.view.subs && !w'.view.subs[w.id].open)
  {
    hide NodeOk;
  }

  // ------------------------------------------------------------------
  // A restore under a live subscription
  // ------------------------------------------------------------------

  /** Two puts of one key. */
  function TwoPuts(k: MapKey): seq<Op> { [Put(k, [], 0, 0, -1), Put(k, [], 0, 0, -1)] }

  lemma TwoPutsHistory(k: MapKey, clk: Clock)
    ensures var h := HistoryTo(TwoPuts(k), clk, 2);
            && |h| == 2 && h[0].cursor == Cursor(1, 0) && KeyOf(h[0].kv) == k
            && [h[1]] == EffectAt(TwoPuts(k), clk, 2).events
    ensures FitsTo(TwoPuts(k), clk, 1)
  {
    hide Apply, RunTo;
    var ops := TwoPuts(k);
    PutEffect(RunTo(ops, clk, 0), 1, k, [], clk(1));
    PutEffect(RunTo(ops, clk, 1), 2, k, [], clk(2));
    assert HistoryTo(ops, clk, 0) == [];
    assert HistoryTo(ops, clk, 1) == EffectAt(ops, clk, 1).events;
    assert HistoryTo(ops, clk, 2) == EffectAt(ops, clk, 1).events + EffectAt(ops, clk, 2).events;
  }

  /** A watcher attaches to a new node, which then restores a snapshot at index 1. */
  lemma RestoreUnderWatch(rq: Request, k: MapKey, clk: Clock) returns (run: seq<Watch>, steps: seq<WatchStep>)
    requires 0 < rq.fromRevision < Cursor(1, 0)
    ensures IsPossibleRun(run, steps, rq, TwoPuts(k), clk)
    ensures Waiting(run[|steps|], rq) && run[|steps|].sent == [] && run[|steps|].view.st.rev == 1
  {
    hide Apply, RunTo, EffectAt, NodeOk, IsPossibleRun, RestoreView, FromWire, HistoryTo, Waiting, Attached;
    var ops := TwoPuts(k);
    NewNode(ops, clk);
    run := Attach(NEW_VIEW, rq, ops, clk);
    steps := [SubscribeStep, ListenStep];
    LastOk(run, steps, rq, ops, clk);
    var wire := FirstSnapshot(k, clk);
    RestoreAt(run[2].view, ops, clk, wire, 1);
    var w3 := Next(run[2], rq, ops, clk, RestoreStep(wire));
    RestoreKeepsSubs(run[2].view, FromWire(wire));
    assert Waiting(w3, rq) by { SameWaiting(run[2], w3, rq); }
    OneMore(run, steps, rq, ops, clk, RestoreStep(wire));
    run, steps := run + [w3], steps + [RestoreStep(wire)];
  }

  lemma SameWaiting(w: Watch, w': Watch, rq: Request)
    requires Waiting(w, rq) && w'.phase == w.phase && w'.id == w.id && w'.view.subs == w.view.subs
    ensures Waiting(w', rq)
  {
  }

  lemma FirstSnapshot(k: MapKey, clk: Clock) returns (w: WireSnapshot)
    ensures SnapshotAt(w, TwoPuts(k), clk, 1)
  {
    hide Apply, RunTo, FitsTo, IsExport;
    TwoPutsHistory(k, clk);
    var snap := ExportExists(RunTo(TwoPuts(k), clk, 1));
    w := ToWire(snap);
  }

  /** The node then applies the second put: the watcher is sent the second event and never
      the first, although both match and lie after its cursor. */
  lemma LiveRestoreRun(rq: Request, k: MapKey, clk: Clock) returns (run: seq<Watch>, steps: seq<WatchStep>)
    requires rq.ns == k.ns && (rq.key == "" || rq.key == k.key) && 0 < rq.fromRevision < Cursor(1, 0)
    ensures IsPossibleRun(run, steps, rq, TwoPuts(k), clk)
    ensures var w, h := run[|steps|], HistoryTo(TwoPuts(k), clk, 2);
            && w.view.st.rev == 2 && |h| == 2
            && Matches(rq.ns, rq.key, h[0]) && rq.fromRevision < h[0].cursor < h[1].cursor
            && w.sent == [h[1]] && h[0] !in w.sent
            && !(w.sent <= Select(h, rq.ns, rq.key, rq.fromRevision))
  {
    hide Apply, RunTo, EffectAt, NodeOk, IsPossibleRun, HistoryTo, Waiting, Select;
    run, steps := RestoreUnderWatch(rq, k, clk);
    LastOk(run, steps, rq, TwoPuts(k), clk);
    run := ApplyAndReceive(run, steps, rq, TwoPuts(k), clk, k, []);
    steps := steps + [ApplyStep(clk(2)), ReceiveStep];
    TwoPutsHistory(k, clk);
    var h := HistoryTo(TwoPuts(k), clk, 2);
    assert [] + [h[1]] == [h[1]];
    SelectBoth(h, rq);
  }

  lemma RestoreKeepsSubs(v: View, snap: Snapshot)
    ensures RestoreView(v, snap).subs == v.subs
  {
  }

  lemma SelectBoth(h: seq<Event>, rq: Request)
    requires |h| == 2 && forall i :: 0 <= i < 2 ==> Matches(rq.ns, rq.key, h[i]) && h[i].cursor > rq.fromRevision
    ensures Select(h, rq.ns, rq.key, rq.fromRevision) == h
  {
    hide Matches, Select;
    assert h == [] + [h[0]] + [h[1]];
    SelectLast([], h[0], rq);
    SelectLast([] + [h[0]], h[1], rq);
  }

  lemma SelectLast(evs: seq<Event>, ev: Event, rq: Request)
    requires Matches(rq.ns, rq.key, ev) && ev.cursor > rq.fromRevision
    ensures Select(evs + [ev], rq.ns, rq.key, rq.fromRevision) == Select(evs, rq.ns, rq.key, rq.fromRevision) + [ev]
    ensures Select([], rq.ns, rq.key, rq.fromRevision) == []
  {
    hide Matches;
    assert (evs + [ev])[..|evs|] == evs;
  }

  // ------------------------------------------------------------------
  // A start cursor ahead of the node
  // ------------------------------------------------------------------

  /** What the loop has sent is an initial segment of the matching events after the cursor. */
  ghost predicate SentInOrder(w: Watch, rq: Request, ops: seq<Op>, clk: Clock) {
    && 0 <= w.view.st.rev <= |ops|
    && w.sent <= Select(HistoryTo(ops, clk, w.view.st.rev), rq.ns, rq.key, rq.fromRevision)
  }

  /** And it is so in every run from `v`, whatever is proposed later. */
  ghost predicate AlwaysInOrder(v: View, rq: Request, past: seq<Op>, clk: Clock) {
    forall run: seq<Watch>, steps: seq<WatchStep>, ops: seq<Op>, i: nat ::
      past <= ops && IsWatchRun(run, steps, rq, ops, clk) && i < |run| && run[0].view == v ==>
        SentInOrder(run[i], rq, ops, clk)
  }

  /** From any node and any cursor ahead of it: the next put is sent although its event does
      not lie after the cursor. */
  lemma AheadRun(v: View, rq: Request, past: seq<Op>, clk: Clock)
    returns (ops: seq<Op>, run: seq<Watch>, steps: seq<WatchStep>)
    requires NodeOk(v, past, clk) && v.st.rev == |past| && rq.fromRevision >= Cursor(v.st.rev + 1, 0)
    ensures past <= ops && IsWatchRun(run, steps, rq, ops, clk) && |run| > 0 && run[0].view == v
    ensures var sent := run[|run| - 1].sent; |sent| == 1 && sent[0].cursor <= rq.fromRevision
    ensures NodeOk(run[|run| - 1].view, ops, clk)
  {
    hide Apply, RunTo, EffectAt, NodeOk, IsPossibleRun, IsWatchRun, HistoryTo;
    var k := MapKey(rq.ns, rq.key);
    ops := past + [Put(k, [], 0, 0, -1)];
    NodeOnLongerLog(v, past, ops, clk);
    AttachAhead(v, rq, ops, clk);
    var attached := Attach(v, rq, ops, clk);
    LastOk(attached, [SubscribeStep, ListenStep], rq, ops, clk);
    run := ApplyAndReceive(attached, [SubscribeStep, ListenStep], rq, ops, clk, k, []);
    steps := [SubscribeStep, ListenStep] + [ApplyStep(clk(|ops|)), ReceiveStep];
    WithoutRestores(run, steps, rq, ops, clk);
    LastOk(run, steps, rq, ops, clk);
  }

  lemma AheadRepeats(v: View, rq: Request, past: seq<Op>, clk: Clock)
    requires NodeOk(v, past, clk) && v.st.rev == |past| && rq.fromRevision >= Cursor(v.st.rev + 1, 0)
    ensures !AlwaysInOrder(v, rq, past, clk)
  {
    hide NodeOk, IsWatchRun, HistoryTo, Select;
    var ops, run, steps := AheadRun(v, rq, past, clk);
    var w := run[|run| - 1];
    NodeAt(w.view, ops, clk);
    NothingAhead(w.view, rq, ops, clk, w.sent[0]);
    assert !SentInOrder(w, rq, ops, clk);
  }

  lemma AttachAhead(v: View, rq: Request, ops: seq<Op>, clk: Clock)
    requires NodeOk(v, ops, clk) && rq.fromRevision >= Cursor(v.st.rev + 1, 0)
    ensures var r := WatchKv(v, rq.ns, rq.key, rq.fromRevision); r.Watching? && r.backlog == []
  {
    hide Apply, RunTo, HistoryTo, FitsTo, Select;
    CurrentSeqBounds(v, ops, clk);
    PositiveCursors(v, ops, clk);
    WindowIsTail(v, ops, clk);
    if v.window != [] { assert v.window[|v.window| - 1] in HistoryTo(ops, clk, v.st.rev); }
    AcceptedFrom(v, rq.ns, rq.key, rq.fromRevision);
    SelectNothing(v.window, rq.ns, rq.key, rq.fromRevision);
  }

  lemma NothingAhead(v: View, rq: Request, ops: seq<Op>, clk: Clock, ev: Event)
    requires NodeOk(v, ops, clk) && ev.cursor <= rq.fromRevision
    ensures ev !in Select(HistoryTo(ops, clk, v.st.rev), rq.ns, rq.key, rq.fromRevision)
  {
    hide Apply, RunTo, HistoryTo, Select;
    WindowIsTail(v, ops, clk);
    SelectIncreasing(HistoryTo(ops, clk, v.st.rev), rq.ns, rq.key, rq.fromRevision);
  }

  /** For a positive start cursor, the loop sends the matching events after it, in order and
      without repeats, in every run exactly when the cursor is not ahead of the node. */
  lemma InOrderExactly(v: View, rq: Request, past: seq<Op>, clk: Clock)
    requires NodeOk(v, past, clk) && v.st.rev == |past| && rq.fromRevision > 0
    ensures AlwaysInOrder(v, rq, past, clk) <==> rq.fromRevision < Cursor(v.st.rev + 1, 0)
  {
    hide NodeOk, IsWatchRun, HistoryTo, Select;
    if rq.fromRevision < Cursor(v.st.rev + 1, 0) {
      forall run: seq<Watch>, steps: seq<WatchStep>, ops: seq<Op>, i: nat
        | past <= ops && IsWatchRun(run, steps, rq, ops, clk) && i < |run| && run[0].view == v
        ensures SentInOrder(run[i], rq, ops, clk)
      {
        WatchExactlyOnce(run, steps, rq, ops, clk, i);
        NodeAt(run[i].view, ops, clk);
      }
    } else {
      AheadRepeats(v, rq, past, clk);
    }
  }
}
