/** The client's watch loop: it carries its cursor from one server stream to the
    next, whichever node serves it. */
module ClientWatch {
  import opened Types
  import opened StateMachine
  import opened StoreLaws
  import opened Views
  import opened Replication
  import opened ServerWatch
  import opened WatchSafety

  function CursorAfter(from: int, delivered: seq<Event>): int {
    if delivered == [] then from else delivered[|delivered| - 1].cursor
  }

  /** Everything a sequence of streams yielded. */
  function Flatten(sessions: seq<seq<Event>>): seq<Event> {
    if sessions == [] then [] else Flatten(sessions[..|sessions| - 1]) + sessions[|sessions| - 1]
  }

  /** Every stream is delivered in full, right after the streams before it, and nothing else. */
  lemma {:induction false} FlattenExactly(sessions: seq<seq<Event>>, i: nat)
    requires i < |sessions|
    ensures var at := |Flatten(sessions[..i])|;
            && at + |sessions[i]| == |Flatten(sessions[..i + 1])| <= |Flatten(sessions)|
            && Flatten(sessions)[at..at + |sessions[i]|] == sessions[i]
    ensures |Flatten(sessions[..0])| == 0 && Flatten(sessions[..|sessions|]) == Flatten(sessions)
    decreases |sessions|
  {
    var front, last := sessions[..|sessions| - 1], sessions[|sessions| - 1];
    assert sessions[..|sessions|] == sessions;
    assert sessions[..i + 1][..i] == sessions[..i] && sessions[..i + 1][i] == sessions[i];
    if i < |front| {
      FlattenExactly(front, i);
      assert front[..i] == sessions[..i] && front[..i + 1] == sessions[..i + 1];
    }
  }

  /** Each stream is one that some node serves for the cursor the client then holds. */
  ghost predicate Served(g: seq<Event>, rq: Request, sessions: seq<seq<Event>>) {
    forall i :: 0 <= i < |sessions| ==>
      ServedFrom(g, rq.(fromRevision := CursorAfter(rq.fromRevision, Flatten(sessions[..i]))), sessions[i])
  }

  /** Every delivered event is a matching one, and every earlier matching event that the
      client had not seen was delivered before it. */
  ghost predicate NoHoles(g: seq<Event>, rq: Request, delivered: seq<Event>) {
    forall k :: 0 <= k < |delivered| ==>
      && delivered[k] in g && Matches(rq.ns, rq.key, delivered[k])
      && forall e :: e in g && Matches(rq.ns, rq.key, e) && rq.fromRevision < e.cursor < delivered[k].cursor ==>
           e in delivered[..k]
  }

  /** The same in the fields of the records. */
  lemma NoHolesByFields(g: seq<Event>, rq: Request, delivered: seq<Event>)
    requires NoHoles(g, rq, delivered)
    ensures forall k :: 0 <= k < |delivered| ==>
              && delivered[k] in g && delivered[k].kv.ns == rq.ns && (rq.key == "" || delivered[k].kv.key == rq.key)
              && forall e :: (e in g && rq.fromRevision < e.cursor < delivered[k].cursor
                              && e.kv.ns == rq.ns && (rq.key == "" || e.kv.key == rq.key)) ==> e in delivered[..k]
  {
  }

  /** Forwards one stream until it ends. */
  method PumpWatch(stream: seq<Event>, delivered0: seq<Event>, cursor0: int) returns (delivered: seq<Event>, cursor: int)
    requires cursor0 == CursorAfter(cursor0, delivered0)
    ensures delivered == delivered0 + stream && cursor == CursorAfter(cursor0, delivered)
    ensures cursor == if stream == [] then cursor0 else stream[|stream| - 1].cursor
  {
    delivered, cursor := delivered0, cursor0;
    for i := 0 to |stream|
      invariant delivered == delivered0 + stream[..i] && cursor == CursorAfter(cursor0, delivered)
      invariant cursor == if i == 0 then cursor0 else stream[i - 1].cursor
    {
      delivered := delivered + [stream[i]];
      cursor := stream[i].cursor;
    }
  }

  lemma NextSession(sessions: seq<seq<Event>>, i: nat)
    requires i < |sessions|
    ensures Flatten(sessions[..i + 1]) == Flatten(sessions[..i]) + sessions[i]
  {
    assert sessions[..i + 1][..i] == sessions[..i];
  }

  lemma CursorCarries(from: int, delivered: seq<Event>, more: seq<Event>)
    ensures CursorAfter(CursorAfter(from, delivered), delivered) == CursorAfter(from, delivered)
    ensures CursorAfter(CursorAfter(from, delivered), delivered + more) == CursorAfter(from, delivered + more)
  {
  }

  /** Each session is asked with the start cursor, or with the cursor of the last event that
      any session before it yielded. */
  predicate CarriesCursor(sessions: seq<seq<Event>>, from: int, cursors: seq<int>) {
    && |cursors| <= |sessions| && (|cursors| > 0 ==> cursors[0] == from)
    && forall i :: 0 < i < |cursors| ==>
         cursors[i] == if sessions[i - 1] == [] then cursors[i - 1] else sessions[i - 1][|sessions[i - 1]| - 1].cursor
  }

  lemma CarryOn(sessions: seq<seq<Event>>, from: int, cursors: seq<int>, cursor: int)
    requires CarriesCursor(sessions, from, cursors) && |cursors| < |sessions|
    requires cursor == if cursors == [] then from
                       else if sessions[|cursors| - 1] == [] then cursors[|cursors| - 1]
                       else sessions[|cursors| - 1][|sessions[|cursors| - 1]| - 1].cursor
    ensures CarriesCursor(sessions, from, cursors + [cursor])
  {
  }

  /** Reconnects, to any node, with the cursor reached; an unreachable node is an empty stream. */
  method WatchLoop(sessions: seq<seq<Event>>, fromSeq: int) returns (delivered: seq<Event>, ghost cursors: seq<int>)
    ensures delivered == Flatten(sessions)
    ensures |cursors| == |sessions|
    ensures forall i :: 0 <= i < |sessions| ==> cursors[i] == CursorAfter(fromSeq, Flatten(sessions[..i]))
    ensures CarriesCursor(sessions, fromSeq, cursors)
  {
    hide Flatten, CursorAfter, CarriesCursor;
    var cursor := fromSeq;
    delivered, cursors := [], [];
    assert Flatten(sessions[..0]) == [] && CursorAfter(fromSeq, []) == fromSeq && CarriesCursor(sessions, fromSeq, []) by {
      StartsEmpty(sessions, fromSeq);
    }
    for i := 0 to |sessions|
      invariant delivered == Flatten(sessions[..i]) && cursor == CursorAfter(fromSeq, delivered)
      invariant |cursors| == i && forall j :: 0 <= j < i ==> cursors[j] == CursorAfter(fromSeq, Flatten(sessions[..j]))
      invariant CarriesCursor(sessions, fromSeq, cursors)
      invariant cursor == if i == 0 then fromSeq
                          else if sessions[i - 1] == [] then cursors[i - 1]
                          else sessions[i - 1][|sessions[i - 1]| - 1].cursor
    {
      CarryOn(sessions, fromSeq, cursors, cursor);
      NextSession(sessions, i);
      CursorCarries(fromSeq, delivered, sessions[i]);
      cursors := cursors + [cursor];
      delivered, cursor := PumpWatch(sessions[i], delivered, cursor);
    }
    assert sessions[..|sessions|] == sessions;
  }

  lemma StartsEmpty(sessions: seq<seq<Event>>, from: int)
    ensures Flatten(sessions[..0]) == [] && CursorAfter(from, []) == from && CarriesCursor(sessions, from, [])
  {
  }

  lemma {:induction false} ServedIsIncreasing(g: seq<Event>, rq: Request, start: nat, sent: seq<Event>)
    requires Increasing(g) && start <= |g| && sent <= Matching(g[start..], rq)
    ensures Increasing(sent)
    ensures forall e :: e in sent ==> e in g && e.cursor > 0 && Matches(rq.ns, rq.key, e)
    ensures forall k, i ::
              (0 <= k < |sent| && start <= i < |g| && Matches(rq.ns, rq.key, g[i]) && 0 < g[i].cursor < sent[k].cursor)
              ==> g[i] in sent[..k]
  {
    var t := Matching(g[start..], rq);
    SelectIncreasing(g[start..], rq.ns, rq.key, 0);
    forall e | e in sent ensures e in g && e.cursor > 0 && Matches(rq.ns, rq.key, e) {
      assert e in t;
    }
    forall k, i | 0 <= k < |sent| && start <= i < |g| && Matches(rq.ns, rq.key, g[i]) && 0 < g[i].cursor < sent[k].cursor
      ensures g[i] in sent[..k]
    {
      assert g[start..][i - start] == g[i];
      assert g[i] in t;
      var j :| 0 <= j < |t| && t[j] == g[i];
      assert t[k] == sent[k];
      assert sent[..k][j] == g[i];
    }
  }

  /** Whatever nodes serve the client, however far behind each is, and wherever each
      stream breaks, nothing is lost: events may repeat, but none is skipped. */
  lemma {:induction false} ClientHasNoHoles(g: seq<Event>, rq: Request, sessions: seq<seq<Event>>)
    requires Increasing(g) && (forall e :: e in g ==> e.cursor > 0)
    requires rq.fromRevision > 0 && Served(g, rq, sessions)
    ensures NoHoles(g, rq, Flatten(sessions))
    decreases |sessions|
  {
    if sessions != [] {
      var front, s := sessions[..|sessions| - 1], sessions[|sessions| - 1];
      assert forall i :: 0 <= i < |front| ==> front[..i] == sessions[..i] && front[i] == sessions[i];
      ClientHasNoHoles(g, rq, front);
      NextStream(g, rq, Flatten(front), s);
    }
  }

  lemma NextStream(g: seq<Event>, rq: Request, d: seq<Event>, s: seq<Event>)
    requires Increasing(g) && (forall e :: e in g ==> e.cursor > 0) && rq.fromRevision > 0 && NoHoles(g, rq, d)
    requires ServedFrom(g, rq.(fromRevision := CursorAfter(rq.fromRevision, d)), s)
    ensures NoHoles(g, rq, d + s)
  {
    hide Increasing, Select, Matches;
    var c := CursorAfter(rq.fromRevision, d);
    if d != [] { assert d[|d| - 1] in g; }
    var start: nat :| start <= |g| && s <= Matching(g[start..], rq.(fromRevision := c))
                      && (c > 0 ==> forall i :: 0 <= i < start ==> g[i].cursor <= c);
    forall k | 0 <= k < |d + s|
      ensures var e := (d + s)[k];
              && e in g && Matches(rq.ns, rq.key, e)
              && forall e' :: e' in g && Matches(rq.ns, rq.key, e') && rq.fromRevision < e'.cursor < e.cursor ==>
                   e' in (d + s)[..k]
    {
      if k < |d| {
        assert (d + s)[..k] == d[..k];
      } else {
        assert (d + s)[..k] == d + s[..k - |d|];
        NextEvent(g, rq, d, s, start, k - |d|);
      }
    }
  }

  lemma NextEvent(g: seq<Event>, rq: Request, d: seq<Event>, s: seq<Event>, start: nat, k: nat)
    requires Increasing(g) && (forall e :: e in g ==> e.cursor > 0) && NoHoles(g, rq, d)
    requires start <= |g| && s <= Matching(g[start..], rq) && k < |s|
    requires forall i :: 0 <= i < start ==> g[i].cursor <= CursorAfter(rq.fromRevision, d)
    ensures s[k] in g && Matches(rq.ns, rq.key, s[k])
    ensures forall e :: e in g && Matches(rq.ns, rq.key, e) && rq.fromRevision < e.cursor < s[k].cursor ==>
              e in d + s[..k]
  {
    hide Select, Matches, NoHoles;
    ServedIsIncreasing(g, rq, start, s);
    assert s[k] in s;
    forall e | e in g && Matches(rq.ns, rq.key, e) && rq.fromRevision < e.cursor < s[k].cursor
      ensures e in d + s[..k]
    {
      var i :| 0 <= i < |g| && g[i] == e;
      if i < start { SeenBefore(g, rq, d, e); } else { assert g[i] in s[..k]; }
    }
  }

  /** The cursor stands for everything unseen at or below it. */
  lemma SeenBefore(g: seq<Event>, rq: Request, d: seq<Event>, e: Event)
    requires Increasing(g) && NoHoles(g, rq, d) && e in g && Matches(rq.ns, rq.key, e)
    requires rq.fromRevision < e.cursor <= CursorAfter(rq.fromRevision, d)
    ensures e in d
  {
    var last := d[|d| - 1];
    assert last in g;
    if e.cursor < last.cursor {
      assert e in d[..|d| - 1];
    } else {
      var i, j :| 0 <= i < |g| && g[i] == e && 0 <= j < |g| && g[j] == last;
      assert i == j;
    }
  }

  /** Every prefix of what a node's watch loop sends, at any moment of any run, is such a
      stream of the log that eventually exists. */
  lemma NodeServes(
    run: seq<Watch>, steps: seq<WatchStep>, rq: Request, ops: seq<Op>, clk: Clock, i: nat,
    received: seq<Event>, more: seq<Op>)
    requires IsWatchRun(run, steps, rq, ops, clk) && i < |run| && received <= run[i].sent
    requires ops <= more && FitsTo(more, clk, |more|)
    ensures ServedFrom(HistoryTo(more, clk, |more|), rq, received)
  {
    hide Apply, RunTo, HistoryTo, NodeOk, Enabled, ServerWatch.Next, Select;
    WatchHasNoHoles(run, steps, rq, ops, clk, i);
    var v := run[i].view;
    NodeAt(v, ops, clk);
    FoldOfPrefix(ops, more, clk, v.st.rev);
    HistoryGrows(more, clk, v.st.rev, |more|);
    var h, g := Stream(v, ops, clk), HistoryTo(more, clk, |more|);
    var start: nat :| start <= |h| && run[i].sent <= Matching(h[start..], rq)
      && (rq.fromRevision > 0 ==> forall j :: 0 <= j < start ==> h[j].cursor <= rq.fromRevision);
    assert g[start..] == h[start..] + g[|h|..];
    SelectConcat(h[start..], g[|h|..], rq.ns, rq.key, 0);
    assert received <= Matching(g[start..], rq);
  }

  /** One session: a run of some node's watch loop, on the log that node has, and how much
      of what it sent by step `at` reached the client. */
  datatype Session = Session(run: seq<Watch>, steps: seq<WatchStep>, ops: seq<Op>, at: nat, received: seq<Event>)

  ghost predicate SessionOk(s: Session, rq: Request, log: seq<Op>, clk: Clock) {
    && IsWatchRun(s.run, s.steps, rq, s.ops, clk) && s.at < |s.run|
    && s.received <= s.run[s.at].sent && s.ops <= log
  }

  function ReceivedOf(sessions: seq<Session>): seq<seq<Event>> {
    seq(|sessions|, i requires 0 <= i < |sessions| => sessions[i].received)
  }

  /** The client's request in session `i`: the cursor is what the earlier sessions reached. */
  function RequestAt(rq: Request, sessions: seq<Session>, i: nat): Request
    requires i <= |sessions|
  {
    rq.(fromRevision := CursorAfter(rq.fromRevision, Flatten(ReceivedOf(sessions)[..i])))
  }

  /** End to end: a client that goes from node to node, each anywhere on one log and cut off
      at any moment, receives every matching event between its start cursor and any event
      it receives, before that event. */
  lemma ClientAcrossNodes(sessions: seq<Session>, rq: Request, log: seq<Op>, clk: Clock)
    requires rq.fromRevision > 0 && FitsTo(log, clk, |log|)
    requires forall i :: 0 <= i < |sessions| ==> SessionOk(sessions[i], RequestAt(rq, sessions, i), log, clk)
    ensures NoHoles(HistoryTo(log, clk, |log|), rq, Flatten(ReceivedOf(sessions)))
    ensures var g, d := HistoryTo(log, clk, |log|), Flatten(ReceivedOf(sessions));
            forall k :: 0 <= k < |d| ==>
              && d[k] in g && d[k].kv.ns == rq.ns && (rq.key == "" || d[k].kv.key == rq.key)
              && forall e :: (e in g && rq.fromRevision < e.cursor < d[k].cursor
                              && e.kv.ns == rq.ns && (rq.key == "" || e.kv.key == rq.key)) ==> e in d[..k]
  {
    hide Apply, RunTo, HistoryTo, FitsTo, EffectAt, IsWatchRun, ServedFrom, Flatten, NoHoles;
    var g, received := HistoryTo(log, clk, |log|), ReceivedOf(sessions);
    CursorsIncrease(log, clk, |log|);
    forall i | 0 <= i < |sessions| ensures ServedFrom(g, RequestAt(rq, sessions, i), received[i]) {
      var s := sessions[i];
      assert SessionOk(s, RequestAt(rq, sessions, i), log, clk);
      NodeServes(s.run, s.steps, RequestAt(rq, sessions, i), s.ops, clk, s.at, s.received, log);
    }
    ClientHasNoHoles(g, rq, received);
    NoHolesByFields(g, rq, Flatten(received));
  }
}
