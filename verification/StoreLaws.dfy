/** Laws of the state machine over whole logs: event cursors, event replay,
    compare-and-set, guarded expiry, and exactly when clock skew shows. */
module StoreLaws {
  import opened Types
  import opened StateMachine

  // ------------------------------------------------------------------
  // Reachable tables
  // ------------------------------------------------------------------

  /** Versions start at 1 and revisions are indices already applied. */
  ghost predicate WellFormed(s: State) {
    && (forall k :: k in s.kvs ==> s.kvs[k].version >= 1 && 1 <= s.kvs[k].revision <= s.rev)
    && (forall k :: k in s.instances ==> 1 <= s.instances[k].revision <= s.rev)
  }

  /** A batch expiry only removes entries, and each removal emits one event at the next offset. */
  lemma {:induction false} ExpireKvsShape(kvs: map<MapKey, KvEntry>, index: int, items: seq<ExpireKey>)
    ensures var (m, evs) := ExpireKvs(kvs, index, items);
            && (forall k :: k in m ==> k in kvs && m[k] == kvs[k])
            && |evs| <= |items|
            && (forall j :: 0 <= j < |evs| ==>
                  evs[j].cursor == Cursor(index, j) && evs[j].kind == EXPIRED && evs[j].kv.revision == index)
  {
    if items != [] { ExpireKvsShape(kvs, index, items[..|items| - 1]); }
  }

  lemma {:induction false} ExpireInstsShape(m: map<SvcKey, InstEntry>, items: seq<ExpireService>)
    ensures forall k :: k in ExpireInsts(m, items) ==> k in m && ExpireInsts(m, items)[k] == m[k]
  {
    if items != [] { ExpireInstsShape(m, items[..|items| - 1]); }
  }

  /** Every event of an entry carries the entry's index and its own offset. */
  lemma EventShape(s: State, e: LogEntry, now: int)
    ensures var evs := Apply(s, e, now).events;
            forall j :: 0 <= j < |evs| ==>
              evs[j].cursor == Cursor(e.index, j) && evs[j].kv.revision == e.index
  {
    if e.op.ExpireKeys? { ExpireKvsShape(s.kvs, e.index, e.op.keys); }
  }

  lemma ApplyWellFormed(s: State, e: LogEntry, now: int)
    requires WellFormed(s) && 0 <= s.rev < e.index
    ensures WellFormed(Apply(s, e, now).state)
  {
    match e.op {
      case ExpireKeys(items) => ExpireKvsShape(s.kvs, e.index, items);
      case ExpireServices(items) => ExpireInstsShape(s.instances, items);
      case _ =>
    }
  }

  lemma {:induction false} RunWellFormed(ops: seq<Op>, clk: Clock, n: nat)
    requires n <= |ops|
    ensures WellFormed(RunTo(ops, clk, n)) && RunTo(ops, clk, n).rev == n
  {
    if n > 0 {
      RunWellFormed(ops, clk, n - 1);
      ApplyWellFormed(RunTo(ops, clk, n - 1), LogEntry(n, ops[n - 1]), clk(n));
    }
  }

  // ------------------------------------------------------------------
  // Clock skew
  // ------------------------------------------------------------------

  /** The operation's effect on the tables depends on the liveness of the entry it touches. */
  predicate ClockMatters(s: State, op: Op) {
    match op
    case Put(k, _, _, _, v) => k in s.kvs && (v <= 0 || v == s.kvs[k].version)
    case Delete(k, v) => k in s.kvs && (v < 0 || v == s.kvs[k].version)
    case Heartbeat(k, g, _) => k in s.instances && (g == 0 || g == s.instances[k].revision)
    case _ => false
  }

  /** The two readings fall on the same side of the touched entry's expiry. */
  predicate LivenessAgrees(s: State, op: Op, now: int, now': int) {
    match op
    case Put(k, _, _, _, _) =>
      k in s.kvs ==> (Alive(s.kvs[k].expireAtMs, now) <==> Alive(s.kvs[k].expireAtMs, now'))
    case Delete(k, _) =>
      k in s.kvs ==> (Alive(s.kvs[k].expireAtMs, now) <==> Alive(s.kvs[k].expireAtMs, now'))
    case Heartbeat(k, _, _) =>
      k in s.instances ==> (Alive(s.instances[k].expireAtMs, now) <==> Alive(s.instances[k].expireAtMs, now'))
    case _ => true
  }

  predicate Agrees(s: State, op: Op, now: int, now': int) {
    ClockMatters(s, op) ==> LivenessAgrees(s, op, now, now')
  }

  /** Two nodes in the same state that apply the same entry under different
      clocks end in the same state exactly when the readings agree. */
  lemma SkewShowsExactly(s: State, e: LogEntry, now: int, now': int)
    requires WellFormed(s) && 0 <= s.rev < e.index
    ensures Apply(s, e, now).state == Apply(s, e, now').state <==> Agrees(s, e.op, now, now')
    ensures Agrees(s, e.op, now, now') ==> Apply(s, e, now).events == Apply(s, e, now').events
  {
    var a, b := Apply(s, e, now).state, Apply(s, e, now').state;
    if !Agrees(s, e.op, now, now') {
      match e.op {
        case Put(k, _, _, _, _) =>
          assert a.kvs[k] != b.kvs[k];
        case Delete(k, _) =>
          assert k in a.kvs <==> k !in b.kvs;
        case Heartbeat(k, _, _) =>
          assert a.instances[k] != b.instances[k];
      }
    }
  }

  /** The folds of one log under two clocks agree at every prefix up to `n`. */
  ghost predicate SameFolds(ops: seq<Op>, clk: Clock, clk': Clock, n: nat)
    requires n <= |ops|
  {
    forall m: nat :: m <= n ==> RunTo(ops, clk, m) == RunTo(ops, clk', m)
  }

  /** The two clocks agree, at every index up to `n`, where that entry depends on it. */
  ghost predicate ClocksAgree(ops: seq<Op>, clk: Clock, clk': Clock, n: nat)
    requires n <= |ops|
  {
    forall i: nat :: 1 <= i <= n ==> AgreesAt(ops, clk, clk', i)
  }

  ghost predicate AgreesAt(ops: seq<Op>, clk: Clock, clk': Clock, i: nat)
    requires 1 <= i <= |ops|
  {
    Agrees(RunTo(ops, clk, i - 1), ops[i - 1], clk(i), clk'(i))
  }

  /** Two nodes that fold one log under different clocks hold the same tables at every index
      exactly when their clocks agree at every index where it matters; and then they emit
      the same events. */
  lemma {:induction false} SkewShowsOverLog(ops: seq<Op>, clk: Clock, clk': Clock, n: nat)
    requires n <= |ops|
    ensures SameFolds(ops, clk, clk', n) <==> ClocksAgree(ops, clk, clk', n)
    ensures ClocksAgree(ops, clk, clk', n) ==> HistoryTo(ops, clk, n) == HistoryTo(ops, clk', n)
  {
    hide Apply, Agrees;
    if n == 0 {
      assert RunTo(ops, clk, 0) == RunTo(ops, clk', 0);
    } else {
      SkewShowsOverLog(ops, clk, clk', n - 1);
      RunWellFormed(ops, clk, n - 1);
      SkewShowsExactly(RunTo(ops, clk, n - 1), LogEntry(n, ops[n - 1]), clk(n), clk'(n));
      assert SameFolds(ops, clk, clk', n) <==>
        SameFolds(ops, clk, clk', n - 1) && RunTo(ops, clk, n) == RunTo(ops, clk', n);
      assert ClocksAgree(ops, clk, clk', n) <==> ClocksAgree(ops, clk, clk', n - 1) && AgreesAt(ops, clk, clk', n);
      if SameFolds(ops, clk, clk', n - 1) {
        assert RunTo(ops, clk, n - 1) == RunTo(ops, clk', n - 1);
      }
    }
  }

  /** The design's claim that follower skew is harmless fails: two nodes, one log, two tables. */
  lemma SkewDiverges(k: MapKey, v: seq<byte>)
    ensures var ops := [Put(k, v, 10, 10, 0), Put(k, v, 0, 0, 0)];
            RunTo(ops, (i: int) => 5, 2).kvs != RunTo(ops, (i: int) => 20, 2).kvs
  {
    var ops := [Put(k, v, 10, 10, 0), Put(k, v, 0, 0, 0)];
    var slow: Clock := (i: int) => 5;
    var fast: Clock := (i: int) => 20;
    assert RunTo(ops, slow, 0) == EMPTY_STATE == RunTo(ops, fast, 0);
    assert RunTo(ops, slow, 1).kvs == map[k := KvEntry(v, 1, 1, 10, 10)] == RunTo(ops, fast, 1).kvs;
    assert RunTo(ops, slow, 2).kvs[k].revision == 1;
    assert RunTo(ops, fast, 2).kvs[k].revision == 2;
  }

  // ------------------------------------------------------------------
  // Cursors
  // ------------------------------------------------------------------

  ghost predicate Increasing(evs: seq<Event>) {
    forall i, j :: 0 <= i < j < |evs| ==> evs[i].cursor < evs[j].cursor
  }

  /** Cursors strictly increase over the whole log, and lie strictly between
      the ranges of the neighbouring indices. */
  lemma {:induction false} CursorsIncrease(ops: seq<Op>, clk: Clock, n: nat)
    requires n <= |ops| && FitsTo(ops, clk, n)
    ensures Increasing(HistoryTo(ops, clk, n))
    ensures forall e :: e in HistoryTo(ops, clk, n) ==>
              SUB_LIMIT <= e.cursor < Cursor(n, SUB_LIMIT - 1)
  {
    hide Apply;
    if n > 0 {
      CursorsIncrease(ops, clk, n - 1);
      EventShape(RunTo(ops, clk, n - 1), LogEntry(n, ops[n - 1]), clk(n));
      var h, evs := HistoryTo(ops, clk, n - 1), EffectAt(ops, clk, n).events;
      assert Fits(EffectAt(ops, clk, n));
      assert forall i :: 0 <= i < |h| ==> h[i] in h;
    }
  }

  /** Whatever is applied after index `n` has cursors of later indices. */
  lemma {:induction false} NewEventsBeyond(ops: seq<Op>, clk: Clock, n: nat, r: nat)
    requires n <= r <= |ops| && FitsTo(ops, clk, r)
    ensures HistoryTo(ops, clk, n) <= HistoryTo(ops, clk, r)
    ensures forall i :: |HistoryTo(ops, clk, n)| <= i < |HistoryTo(ops, clk, r)| ==>
              HistoryTo(ops, clk, r)[i].cursor >= Cursor(n + 1, 0)
    decreases r
  {
    hide Apply;
    if n < r {
      NewEventsBeyond(ops, clk, n, r - 1);
      EventShape(RunTo(ops, clk, r - 1), LogEntry(r, ops[r - 1]), clk(r));
    }
  }

  /** The index of an event can be read off its cursor, and the offset is its
      position among the events of that index. */
  lemma {:induction false} CursorDecodes(ops: seq<Op>, clk: Clock, n: nat, p: nat)
    requires n <= |ops| && FitsTo(ops, clk, n) && p < |HistoryTo(ops, clk, n)|
    ensures var e := HistoryTo(ops, clk, n)[p];
            var i := e.cursor / SUB_LIMIT;
            && 1 <= i <= n && e.kv.revision == i
            && |HistoryTo(ops, clk, i - 1)| + e.cursor % SUB_LIMIT == p
            && e.cursor % SUB_LIMIT < |EffectAt(ops, clk, i).events|
            && EffectAt(ops, clk, i).events[e.cursor % SUB_LIMIT] == e
  {
    hide Apply;
    if p < |HistoryTo(ops, clk, n - 1)| {
      CursorDecodes(ops, clk, n - 1, p);
    } else {
      EventShape(RunTo(ops, clk, n - 1), LogEntry(n, ops[n - 1]), clk(n));
      assert Fits(EffectAt(ops, clk, n));
      var e, j := HistoryTo(ops, clk, n)[p], p - |HistoryTo(ops, clk, n - 1)|;
      assert e == EffectAt(ops, clk, n).events[j] && e.cursor == Cursor(n, j);
      DivMod(n, j);
    }
  }

  lemma DivMod(i: int, j: int)
    requires 0 <= j < SUB_LIMIT
    ensures Cursor(i, j) / SUB_LIMIT == i && Cursor(i, j) % SUB_LIMIT == j
  {
  }

  /** An entry that carries at most 4095 guards never panics, whatever the tables hold. */
  lemma SmallBatchFits(s: State, e: LogEntry, now: int)
    requires e.op.ExpireKeys? ==> |e.op.keys| < SUB_LIMIT
    ensures Fits(Apply(s, e, now))
  {
    if e.op.ExpireKeys? { ExpireKvsShape(s.kvs, e.index, e.op.keys); }
  }

  // ------------------------------------------------------------------
  // Event replay
  // ------------------------------------------------------------------

  /** What a watcher that only sees events rebuilds. */
  function Replay(base: map<MapKey, KvEntry>, evs: seq<Event>): (m: map<MapKey, KvEntry>) {
    if evs == [] then base
    else
      var m := Replay(base, evs[..|evs| - 1]);
      var ev := evs[|evs| - 1];
      if ev.kind == PUT then m[KeyOf(ev.kv) := KvFromWire(ev.kv)] else m - {KeyOf(ev.kv)}
  }

  lemma {:induction false} ReplayConcat(base: map<MapKey, KvEntry>, a: seq<Event>, b: seq<Event>)
    ensures Replay(base, a + b) == Replay(Replay(base, a), b)
    decreases |b|
  {
    if b == [] {
      assert a + b == a;
    } else {
      assert (a + b)[..|a + b| - 1] == a + b[..|b| - 1];
      ReplayConcat(base, a, b[..|b| - 1]);
    }
  }

  lemma {:induction false} ReplayExpiry(kvs: map<MapKey, KvEntry>, index: int, items: seq<ExpireKey>)
    ensures Replay(kvs, ExpireKvs(kvs, index, items).1) == ExpireKvs(kvs, index, items).0
  {
    if items != [] {
      ReplayExpiry(kvs, index, items[..|items| - 1]);
      var evs, evs' := ExpireKvs(kvs, index, items[..|items| - 1]).1, ExpireKvs(kvs, index, items).1;
      if evs' != evs { assert evs'[..|evs'| - 1] == evs; }
    }
  }

  lemma ReplayEntry(s: State, e: LogEntry, now: int)
    ensures Replay(s.kvs, Apply(s, e, now).events) == Apply(s, e, now).state.kvs
  {
    var evs := Apply(s, e, now).events;
    if e.op.ExpireKeys? {
      ReplayExpiry(s.kvs, e.index, e.op.keys);
    } else if evs != [] {
      assert evs[..|evs| - 1] == [];
      assert Replay(s.kvs, evs[..|evs| - 1]) == s.kvs;
    }
  }

  /** Events after index `m`, folded over the table at `m`, give the table at `n`:
      the event stream loses nothing, from the empty store or from any snapshot point. */
  lemma {:induction false} EventsRebuildTable(ops: seq<Op>, clk: Clock, m: nat, n: nat)
    requires m <= n <= |ops|
    ensures HistoryTo(ops, clk, m) <= HistoryTo(ops, clk, n)
    ensures Replay(RunTo(ops, clk, m).kvs, HistoryTo(ops, clk, n)[|HistoryTo(ops, clk, m)|..])
            == RunTo(ops, clk, n).kvs
    decreases n
  {
    hide Apply, Replay;
    var h := HistoryTo(ops, clk, m);
    if m == n {
      assert HistoryTo(ops, clk, n)[|h|..] == [];
      ReplayNothing(RunTo(ops, clk, m).kvs);
    } else {
      EventsRebuildTable(ops, clk, m, n - 1);
      var evs := EffectAt(ops, clk, n).events;
      var tail := HistoryTo(ops, clk, n - 1)[|h|..];
      assert HistoryTo(ops, clk, n)[|h|..] == tail + evs;
      ReplayConcat(RunTo(ops, clk, m).kvs, tail, evs);
      ReplayEntry(RunTo(ops, clk, n - 1), LogEntry(n, ops[n - 1]), clk(n));
    }
  }

  lemma ReplayNothing(base: map<MapKey, KvEntry>)
    ensures Replay(base, []) == base
  {
  }
}
