/** The deterministic state machine that every node applies its log to, as a
    function of one state, one entry and the node's own clock reading; and the
    fold of a whole log. The only places that consult the clock are the
    liveness tests of Put, Delete and Heartbeat. */
module StateMachine {
  import opened Types

  /** One log index owns the cursors `index * SUB_LIMIT ..` of the event order. */
  const SUB_LIMIT := 4096

  /** `clk(i)` is the reading used when index `i` is applied. */
  type Clock = int -> int

  datatype State = State(kvs: map<MapKey, KvEntry>, instances: map<SvcKey, InstEntry>, rev: int)

  /** Everything one entry does: new tables, emitted events, answer to the proposer. */
  datatype Effect = Effect(state: State, events: seq<Event>, outcome: Outcome)

  const EMPTY_STATE := State(map[], map[], 0)

  predicate Alive(expireAtMs: int, now: int) {
    expireAtMs == 0 || expireAtMs > now
  }

  /** The entry a Put or Delete sees: lapsed entries count as absent. */
  function LiveKv(s: State, k: MapKey, now: int): Option<KvEntry> {
    if k in s.kvs && Alive(s.kvs[k].expireAtMs, now) then Some(s.kvs[k]) else None
  }

  function CurVersion(e: Option<KvEntry>): int {
    if e.None? then 0 else e.value.version
  }

  /** The CAS rule: -1 checks nothing, 0 demands absence, a positive version demands equality. */
  function CheckVersion(expected: int, present: bool, current: int): Option<Error> {
    if expected == -1 then None
    else if expected == 0 && present then Some(CasConflict)
    else if expected > 0 && (!present || current != expected) then Some(CasConflict)
    else None
  }

  function Cursor(index: int, offset: int): int { index * SUB_LIMIT + offset }

  function ApplyPut(s: State, index: int, op: Op, now: int): Effect
    requires op.Put?
  {
    var cur := LiveKv(s, op.k, now);
    var err := CheckVersion(op.expectedVersion, cur.Some?, CurVersion(cur));
    if err.Some? then
      Effect(s.(rev := index), [], NO_OUTCOME.(err := err))
    else
      var e := KvEntry(op.value, CurVersion(cur) + 1, index, op.ttlMs, op.expireAtMs);
      var rec := KvToWire(op.k, e);
      Effect(s.(kvs := s.kvs[op.k := e], rev := index),
             [Event(Cursor(index, 0), PUT, rec)],
             NO_OUTCOME.(kv := Some(rec)))
  }

  function ApplyDelete(s: State, index: int, op: Op, now: int): Effect
    requires op.Delete?
  {
    var cur := LiveKv(s, op.k, now);
    if cur.None? then
      Effect(s.(rev := index), [], NO_OUTCOME.(err := if op.expectedVersion > 0 then Some(CasConflict) else None))
    else
      var err := CheckVersion(op.expectedVersion, true, cur.value.version);
      if err.Some? then
        Effect(s.(rev := index), [], NO_OUTCOME.(err := err))
      else
        var rec := KvToWire(op.k, cur.value).(revision := index);
        Effect(s.(kvs := s.kvs - {op.k}, rev := index),
               [Event(Cursor(index, 0), DELETE, rec)],
               NO_OUTCOME.(found := true))
  }

  /** A guarded batch expiry: only entries still carrying the scanned revision go. */
  function ExpireKvs(kvs: map<MapKey, KvEntry>, index: int, items: seq<ExpireKey>)
    : (r: (map<MapKey, KvEntry>, seq<Event>))
  {
    if items == [] then (kvs, [])
    else
      var (m, evs) := ExpireKvs(kvs, index, items[..|items| - 1]);
      var it := items[|items| - 1];
      if it.k in m && m[it.k].revision == it.guardRevision then
        (m - {it.k},
         evs + [Event(Cursor(index, |evs|), EXPIRED, KvToWire(it.k, m[it.k]).(revision := index))])
      else
        (m, evs)
  }

  function ExpireInsts(m: map<SvcKey, InstEntry>, items: seq<ExpireService>): (r: map<SvcKey, InstEntry>) {
    if items == [] then m
    else
      var m' := ExpireInsts(m, items[..|items| - 1]);
      var it := items[|items| - 1];
      if it.k in m' && m'[it.k].revision == it.guardRevision then m' - {it.k} else m'
  }

  function ApplyRegister(s: State, index: int, op: Op): Effect
    requires op.Register?
  {
    var e := InstEntry(op.address, op.metadata, op.leaseTtlMs, op.leaseExpireAtMs, index);
    Effect(s.(instances := s.instances[op.sk := e], rev := index), [],
           NO_OUTCOME.(inst := Some(InstToWire(op.sk, e))))
  }

  function ApplyHeartbeat(s: State, index: int, op: Op, now: int): Effect
    requires op.Heartbeat?
  {
    if op.sk !in s.instances
       || (op.guardRevision != 0 && s.instances[op.sk].revision != op.guardRevision)
       || !Alive(s.instances[op.sk].expireAtMs, now)
    then
      Effect(s.(rev := index), [], NO_OUTCOME.(err := Some(InstanceNotFound)))
    else
      var e := s.instances[op.sk].(expireAtMs := op.newExpireAtMs, revision := index);
      Effect(s.(instances := s.instances[op.sk := e], rev := index), [],
             NO_OUTCOME.(inst := Some(InstToWire(op.sk, e))))
  }

  /** The dispatch every node uses for one entry. */
  function Apply(s: State, e: LogEntry, now: int): Effect {
    match e.op
    case Put(_, _, _, _, _) => ApplyPut(s, e.index, e.op, now)
    case Delete(_, _) => ApplyDelete(s, e.index, e.op, now)
    case Register(_, _, _, _, _) => ApplyRegister(s, e.index, e.op)
    case Heartbeat(_, _, _) => ApplyHeartbeat(s, e.index, e.op, now)
    case ExpireKeys(items) =>
      var (m, evs) := ExpireKvs(s.kvs, e.index, items);
      Effect(s.(kvs := m, rev := e.index), evs, NO_OUTCOME)
    case ExpireServices(items) =>
      Effect(s.(instances := ExpireInsts(s.instances, items), rev := e.index), [], NO_OUTCOME)
  }

  /** Applying panics when one index emits SUB_LIMIT events or more. */
  predicate Fits(eff: Effect) { |eff.events| < SUB_LIMIT }

  // ------------------------------------------------------------------
  // Folding a log
  // ------------------------------------------------------------------

  /** The state after the first `n` operations, index `i` carrying `ops[i - 1]`. */
  ghost function RunTo(ops: seq<Op>, clk: Clock, n: nat): State
    requires n <= |ops|
  {
    if n == 0 then EMPTY_STATE
    else Apply(RunTo(ops, clk, n - 1), LogEntry(n, ops[n - 1]), clk(n)).state
  }

  /** What index `i` does in the serial fold. */
  ghost function EffectAt(ops: seq<Op>, clk: Clock, i: nat): Effect
    requires 1 <= i <= |ops|
  {
    Apply(RunTo(ops, clk, i - 1), LogEntry(i, ops[i - 1]), clk(i))
  }

  /** Every event of the first `n` operations, in order. */
  ghost function HistoryTo(ops: seq<Op>, clk: Clock, n: nat): seq<Event>
    requires n <= |ops|
  {
    if n == 0 then [] else HistoryTo(ops, clk, n - 1) + EffectAt(ops, clk, n).events
  }

  /** None of the first `n` operations panics. */
  ghost predicate FitsTo(ops: seq<Op>, clk: Clock, n: nat)
    requires n <= |ops|
  {
    forall i: nat :: 1 <= i <= n ==> Fits(EffectAt(ops, clk, i))
  }

  lemma RunRev(ops: seq<Op>, clk: Clock, n: nat)
    requires n <= |ops|
    ensures RunTo(ops, clk, n).rev == n
  {
  }

  /** The fold of a prefix does not depend on what is appended later. */
  lemma {:induction false} FoldOfPrefix(ops: seq<Op>, more: seq<Op>, clk: Clock, n: nat)
    requires ops <= more && n <= |ops|
    ensures RunTo(more, clk, n) == RunTo(ops, clk, n)
    ensures HistoryTo(more, clk, n) == HistoryTo(ops, clk, n)
    ensures FitsTo(more, clk, n) <==> FitsTo(ops, clk, n)
    ensures n > 0 ==> EffectAt(more, clk, n) == EffectAt(ops, clk, n)
  {
    hide Apply, Fits;
    if n > 0 {
      FoldOfPrefix(ops, more, clk, n - 1);
      assert EffectAt(more, clk, n) == EffectAt(ops, clk, n);
      assert FitsTo(more, clk, n) <==> FitsTo(more, clk, n - 1) && Fits(EffectAt(more, clk, n));
      assert FitsTo(ops, clk, n) <==> FitsTo(ops, clk, n - 1) && Fits(EffectAt(ops, clk, n));
    }
  }

  lemma {:induction false} HistoryGrows(ops: seq<Op>, clk: Clock, m: nat, n: nat)
    requires m <= n <= |ops|
    ensures HistoryTo(ops, clk, m) <= HistoryTo(ops, clk, n)
    decreases n
  {
    hide Apply;
    if m < n { HistoryGrows(ops, clk, m, n - 1); }
  }
}
