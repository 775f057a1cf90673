/** The server's watch loop as a transition system: between any two of its steps
    the store may apply entries, restore a snapshot or serve other watchers. What
    the loop sends refines one unbounded, filtered event log. */
module ServerWatch {
  import opened Types
  import opened StateMachine
  import opened StoreLaws
  import opened Snapshots
  import opened Views
  import opened Replication

  /** Where the loop is: about to (re)subscribe, sending a backlog, receiving from
      the live channel, or over. */
  datatype Phase = Subscribing | Sending(pending: seq<Event>) | Listening | Ended

  /** The request, and the log the node is on. */
  datatype Request = Request(ns: string, key: string, fromRevision: int)

  /** `start` is history: the position in the event log the stream begins at. */
  datatype Watch = Watch(view: View, phase: Phase, id: SubId, cursor: int, sent: seq<Event>, start: nat)

  datatype WatchStep =
    | ApplyStep(now: int)
    | RestoreStep(snap: WireSnapshot)
    | OtherWatchStep(ns: string, key: string, from: int)
    | OtherCloseStep(other: SubId)
    | OtherReceiveStep(other: SubId)
    | SubscribeStep
    | SendStep
    | ListenStep
    | ReceiveStep
    | ClosedStep
    | StopStep

  /** Every event the node's log has produced so far. */
  ghost function Stream(v: View, ops: seq<Op>, clk: Clock): seq<Event>
    requires 0 <= v.st.rev <= |ops|
  {
    HistoryTo(ops, clk, v.st.rev)
  }

  /** How many events at the head of an increasing stream are at or before `from`. */
  ghost function Below(evs: seq<Event>, from: int): nat {
    if evs == [] then 0
    else if evs[|evs| - 1].cursor <= from then |evs|
    else Below(evs[..|evs| - 1], from)
  }

  /** All matching events (every cursor is positive). */
  function Matching(evs: seq<Event>, rq: Request): seq<Event> { Select(evs, rq.ns, rq.key, 0) }

  ghost predicate Init(w: Watch, rq: Request, ops: seq<Op>, clk: Clock) {
    && NodeOk(w.view, ops, clk) && w.phase == Subscribing && w.cursor == rq.fromRevision && w.sent == [] && w.start == 0
  }

  predicate Attached(w: Watch) { w.phase.Sending? || w.phase.Listening? }

  function Pending(w: Watch): seq<Event> { if w.phase.Sending? then w.phase.pending else [] }

  ghost predicate Live(w: Watch) { Attached(w) && w.id in w.view.subs && w.view.subs[w.id].open }

  /** Events a restore jumps over without emitting them. */
  ghost function Gap(v: View, ops: seq<Op>, clk: Clock, r: int): seq<Event>
    requires 0 <= v.st.rev <= r <= |ops|
  {
    if |HistoryTo(ops, clk, v.st.rev)| <= |HistoryTo(ops, clk, r)|
    then HistoryTo(ops, clk, r)[|HistoryTo(ops, clk, v.st.rev)|..] else []
  }

  /** A restore that takes effect must not find this loop's subscription live, unless
      it jumps over no matching event. */
  ghost predicate RestoreSafe(w: Watch, rq: Request, ops: seq<Op>, clk: Clock, r: int) {
    0 <= w.view.st.rev <= r <= |ops| ==> !Live(w) || Matching(Gap(w.view, ops, clk, r), rq) == []
  }

  /** When the code can take a step. */
  ghost predicate Possible(w: Watch, ops: seq<Op>, clk: Clock, step: WatchStep) {
    match step
    case ApplyStep(now) =>
      && 0 <= w.view.st.rev < |ops|
      && Agrees(w.view.st, ops[w.view.st.rev], now, clk(w.view.st.rev + 1))
      && Fits(Apply(w.view.st, LogEntry(w.view.st.rev + 1, ops[w.view.st.rev]), now))
    case RestoreStep(snap) => SnapshotAt(snap, ops, clk, snap.lastIncludedIndex)
    case OtherWatchStep(_, _, _) => true
    case OtherCloseStep(other) => other in w.view.subs && !(Attached(w) && other == w.id)
    case OtherReceiveStep(other) =>
      other in w.view.subs && w.view.subs[other].buf != [] && !(Attached(w) && other == w.id)
    case SubscribeStep => w.phase.Subscribing?
    case SendStep => w.phase.Sending? && w.phase.pending != []
    case ListenStep => w.phase == Sending([])
    case ReceiveStep => w.phase.Listening? && w.id in w.view.subs && w.view.subs[w.id].buf != []
    case ClosedStep =>
      w.phase.Listening? && w.id in w.view.subs && w.view.subs[w.id].buf == [] && !w.view.subs[w.id].open
    case StopStep => !w.phase.Ended?
  }

  /** A possible step that is not an unsafe restore. */
  ghost predicate Enabled(w: Watch, rq: Request, ops: seq<Op>, clk: Clock, step: WatchStep) {
    && Possible(w, ops, clk, step)
    && (step.RestoreStep? ==> RestoreSafe(w, rq, ops, clk, step.snap.lastIncludedIndex))
  }

  function Pop(v: View, id: SubId): View
    requires id in v.subs && v.subs[id].buf != []
  {
    v.(subs := v.subs[id := v.subs[id].(buf := v.subs[id].buf[1..])])
  }

  function Deliver(w: Watch, ev: Event): Watch { w.(sent := w.sent + [ev], cursor := ev.cursor) }

  /** The first subscription, and any later one before anything was sent, fixes where
      the stream begins. */
  ghost function StartAt(v: View, rq: Request, ops: seq<Op>, clk: Clock): nat
    requires NodeOk(v, ops, clk)
  {
    if rq.fromRevision > 0 then Below(Stream(v, ops, clk), rq.fromRevision)
    else |Hidden(v, ops, clk)|
  }

  ghost function Next(w: Watch, rq: Request, ops: seq<Op>, clk: Clock, step: WatchStep): Watch
    requires NodeOk(w.view, ops, clk) && Possible(w, ops, clk, step)
  {
    match step
    case ApplyStep(now) =>
      w.(view := ApplyView(w.view, LogEntry(w.view.st.rev + 1, ops[w.view.st.rev]), now))
    case RestoreStep(snap) => w.(view := RestoreView(w.view, FromWire(snap)))
    case OtherWatchStep(ns, key, from) =>
      var r := WatchKv(w.view, ns, key, from);
      if r.Compacted? then w else w.(view := r.view)
    case OtherCloseStep(other) => w.(view := CloseKv(w.view, other))
    case OtherReceiveStep(other) => w.(view := Pop(w.view, other))
    case SubscribeStep =>
      var r := WatchKv(w.view, rq.ns, rq.key, w.cursor);
      if r.Compacted? then w.(phase := Ended)
      else w.(view := r.view, id := r.id, phase := Sending(r.backlog),
              start := if w.sent == [] then StartAt(w.view, rq, ops, clk) else w.start)
    case SendStep => Deliver(w, w.phase.pending[0]).(phase := Sending(w.phase.pending[1..]))
    case ListenStep =>
      if w.id in w.view.subs && w.view.subs[w.id].open then w.(phase := Listening) else w.(phase := Subscribing)
    case ReceiveStep => Deliver(w, w.view.subs[w.id].buf[0]).(view := Pop(w.view, w.id))
    case ClosedStep => w.(view := CloseKv(w.view, w.id), phase := Subscribing)
    case StopStep => w.(view := CloseKv(w.view, w.id), phase := Ended)
  }

  // ------------------------------------------------------------------
  // Selecting from increasing streams
  // ------------------------------------------------------------------

  lemma {:induction false} SelectConcat(a: seq<Event>, b: seq<Event>, ns: string, key: string, from: int)
    ensures Select(a + b, ns, key, from) == Select(a, ns, key, from) + Select(b, ns, key, from)
    decreases |b|
  {
    if b == [] {
      assert a + b == a;
    } else {
      assert (a + b)[..|a + b| - 1] == a + b[..|b| - 1];
      SelectConcat(a, b[..|b| - 1], ns, key, from);
    }
  }

  /** Selecting keeps order and takes only members. */
  lemma {:induction false} SelectIncreasing(evs: seq<Event>, ns: string, key: string, from: int)
    requires Increasing(evs)
    ensures Increasing(Select(evs, ns, key, from))
    ensures forall e :: e in Select(evs, ns, key, from) <==> e in evs && e.cursor > from && Matches(ns, key, e)
  {
    if evs != [] {
      SelectIncreasing(evs[..|evs| - 1], ns, key, from);
      assert evs == evs[..|evs| - 1] + [evs[|evs| - 1]];
      forall e | e in evs[..|evs| - 1] ensures e.cursor < evs[|evs| - 1].cursor {
        var i :| 0 <= i < |evs| - 1 && evs[i] == e;
      }
      var r := Select(evs[..|evs| - 1], ns, key, from);
      assert forall i :: 0 <= i < |r| ==> r[i] in r;
    }
  }

  lemma {:induction false} BelowSplits(evs: seq<Event>, from: int)
    requires Increasing(evs)
    ensures var k := Below(evs, from);
            && k <= |evs| && forall i :: 0 <= i < |evs| ==> (evs[i].cursor <= from <==> i < k)
  {
    if evs != [] && evs[|evs| - 1].cursor > from { BelowSplits(evs[..|evs| - 1], from); }
  }

  lemma {:induction false} BelowIs(evs: seq<Event>, from: int, k: nat)
    requires k <= |evs| && forall i :: 0 <= i < |evs| ==> (evs[i].cursor <= from <==> i < k)
    ensures Below(evs, from) == k
  {
    if evs != [] && evs[|evs| - 1].cursor > from { BelowIs(evs[..|evs| - 1], from, k); }
  }

  /** Resuming after `from` is selecting what lies beyond the events at or below it. */
  lemma SelectFrom(evs: seq<Event>, rq: Request, from: int)
    requires Increasing(evs) && from > 0 && forall e :: e in evs ==> e.cursor > 0
    ensures Below(evs, from) <= |evs|
    ensures Select(evs, rq.ns, rq.key, from) == Matching(evs[Below(evs, from)..], rq)
  {
    BelowSplits(evs, from);
    var k := Below(evs, from);
    assert evs == evs[..k] + evs[k..];
    SelectSkips(evs[..k], evs[k..], rq.ns, rq.key, from);
    SameSelection(evs[k..], rq.ns, rq.key, from, 0);
  }

  lemma {:induction false} RestOfTail(evs: seq<Event>, rq: Request, sent: seq<Event>)
    requires Increasing(evs) && sent != [] && sent <= Matching(evs, rq)
    ensures sent + Select(evs, rq.ns, rq.key, sent[|sent| - 1].cursor) == Matching(evs, rq)
    ensures sent[|sent| - 1] in evs && sent[|sent| - 1].cursor > 0
    decreases |evs|
  {
    var c, front, last := sent[|sent| - 1].cursor, evs[..|evs| - 1], evs[|evs| - 1];
    assert evs == front + [last];
    if |sent| <= |Matching(front, rq)| {
      assert sent <= Matching(front, rq);
      RestOfTail(front, rq, sent);
      assert 0 < c < last.cursor by {
        var i :| 0 <= i < |front| && front[i] == sent[|sent| - 1];
        assert evs[i] == front[i];
      }
    } else {
      assert sent == Matching(evs, rq) && sent[|sent| - 1] == last;
      forall e | e in evs ensures e.cursor <= c {
        var i :| 0 <= i < |evs| && evs[i] == e;
      }
      SelectNothing(evs, rq.ns, rq.key, c);
    }
  }

  /** After sending a non-empty prefix of the matching events from `start` on, exactly
      the rest of them lies after the last cursor sent. */
  lemma RestAfterLast(evs: seq<Event>, rq: Request, start: nat, sent: seq<Event>)
    requires Increasing(evs) && start <= |evs|
    requires sent != [] && sent <= Matching(evs[start..], rq)
    ensures sent + Select(evs, rq.ns, rq.key, sent[|sent| - 1].cursor) == Matching(evs[start..], rq)
  {
    hide Select;
    var c := sent[|sent| - 1].cursor;
    RestOfTail(evs[start..], rq, sent);
    var p :| start <= p < |evs| && evs[p] == sent[|sent| - 1];
    assert evs == evs[..start] + evs[start..];
    forall e | e in evs[..start] ensures e.cursor <= c {
      var i :| 0 <= i < start && evs[i] == e;
      assert evs[i].cursor < evs[p].cursor;
    }
    SelectSkips(evs[..start], evs[start..], rq.ns, rq.key, c);
  }
}
