/** What readers, watchers and proposers are told, related to the log that made it so. */
module ReadLaws {
  import opened Types
  import opened StateMachine
  import opened StoreLaws
  import opened TableLaws

  /** A read on a node whose clock shows `now`: lapsed entries are absent. */
  function Get(s: State, k: MapKey, now: int): Option<KeyValue> {
    var e := LiveKv(s, k, now);
    if e.Some? then Some(KvToWire(k, e.value)) else None
  }

  /** The version a CAS at index `n` is judged against: 0 if the key is absent or lapsed. */
  ghost function LiveVersion(ops: seq<Op>, clk: Clock, n: nat, k: MapKey): int
    requires 1 <= n <= |ops|
  {
    CurVersion(LiveKv(RunTo(ops, clk, n - 1), k, clk(n)))
  }

  /** A Put is accepted exactly when it checks nothing or names the live version; a Delete
      removes exactly when there is a live entry and it checks nothing or names its version. */
  lemma CasExactly(ops: seq<Op>, clk: Clock, n: nat, k: MapKey)
    requires 1 <= n <= |ops|
    ensures ops[n - 1].Put? && ops[n - 1].k == k ==>
              (WonPut(ops, clk, n, k) <==>
                 ops[n - 1].expectedVersion < 0 || ops[n - 1].expectedVersion == LiveVersion(ops, clk, n, k))
    ensures ops[n - 1].Delete? && ops[n - 1].k == k && LiveVersion(ops, clk, n, k) > 0 ==>
              (k !in RunTo(ops, clk, n).kvs <==>
                 ops[n - 1].expectedVersion < 0 || ops[n - 1].expectedVersion == LiveVersion(ops, clk, n, k))
  {
    hide RunTo;
    RunWellFormed(ops, clk, n - 1);
    var s := RunTo(ops, clk, n - 1);
    assert RunTo(ops, clk, n) == EffectAt(ops, clk, n).state by { Unroll(ops, clk, n); }
  }

  lemma Unroll(ops: seq<Op>, clk: Clock, n: nat)
    requires 1 <= n <= |ops|
    ensures RunTo(ops, clk, n) == EffectAt(ops, clk, n).state
  {
    hide Apply;
  }

  /** Every entry in the table is what the accepted Put at its revision asked for. */
  lemma KvProvenance(ops: seq<Op>, clk: Clock, n: nat, k: MapKey)
    requires n <= |ops| && k in RunTo(ops, clk, n).kvs
    ensures var e := RunTo(ops, clk, n).kvs[k];
            && 1 <= e.revision <= n && WonPut(ops, clk, e.revision, k)
            && var op := ops[e.revision - 1];
               e.value == op.value && e.ttlMs == op.ttlMs && e.expireAtMs == op.expireAtMs
  {
    hide RunTo;
    RunWellFormed(ops, clk, n);
    var r := RunTo(ops, clk, n).kvs[k].revision;
    KvStoodSince(ops, clk, n, k, r);
    RunWellFormed(ops, clk, r - 1);
    KvStep(ops, clk, r, k);
    assert WonPut(ops, clk, r, k);
    Unroll(ops, clk, r);
  }

  /** Every lease is what the register or the accepted heartbeat at its revision left:
      a heartbeat changes the expiry and the revision and nothing else. */
  lemma LeaseProvenance(ops: seq<Op>, clk: Clock, n: nat, k: SvcKey)
    requires n <= |ops| && k in RunTo(ops, clk, n).instances
    ensures var e := RunTo(ops, clk, n).instances[k];
            && 1 <= e.revision <= n
            && var op, was := ops[e.revision - 1], RunTo(ops, clk, e.revision - 1).instances;
               || (op.Register? && op.sk == k
                   && e == InstEntry(op.address, op.metadata, op.leaseTtlMs, op.leaseExpireAtMs, e.revision))
               || (op.Heartbeat? && op.sk == k && k in was && Alive(was[k].expireAtMs, clk(e.revision))
                   && (op.guardRevision == 0 || op.guardRevision == was[k].revision)
                   && e == was[k].(expireAtMs := op.newExpireAtMs, revision := e.revision))
  {
    hide RunTo;
    RunWellFormed(ops, clk, n);
    var r := RunTo(ops, clk, n).instances[k].revision;
    InstStoodSince(ops, clk, n, k, r);
    RunWellFormed(ops, clk, r - 1);
    Unroll(ops, clk, r);
    if ops[r - 1].ExpireServices? { ExpireInstsShape(RunTo(ops, clk, r - 1).instances, ops[r - 1].services); }
  }

  /** A reader sees the latest accepted Put as long as nothing removed or replaced it, and
      exactly until its expiry. */
  lemma ReadsLatestPut(ops: seq<Op>, clk: Clock, n: nat, m: nat, k: MapKey, now: int)
    requires n <= m <= |ops| && WonPut(ops, clk, n, k)
    requires k in RunTo(ops, clk, m).kvs && RunTo(ops, clk, m).kvs[k].revision == n
    ensures var op, r := ops[n - 1], Get(RunTo(ops, clk, m), k, now);
            && (r.Some? <==> op.expireAtMs == 0 || now < op.expireAtMs)
            && (r.Some? ==> KeyOf(r.value) == k && r.value.value == op.value && r.value.revision == n)
  {
    hide RunTo, Apply;
    KvProvenance(ops, clk, m, k);
  }

  /** An event shows the entry it is about: a PUT the new one, a removal the one removed,
      stamped with the index of the removal. */
  lemma EventsTellTruth(ops: seq<Op>, clk: Clock, n: nat, j: nat)
    requires 1 <= n <= |ops| && j < |EffectAt(ops, clk, n).events|
    ensures var ev, was, after := EffectAt(ops, clk, n).events[j], RunTo(ops, clk, n - 1).kvs, RunTo(ops, clk, n).kvs;
            var k := KeyOf(ev.kv);
            if ev.kind == PUT then k in after && ev.kv == KvToWire(k, after[k])
            else k in was && k !in after && ev.kv == KvToWire(k, was[k]).(revision := n)
  {
    hide RunTo;
    Unroll(ops, clk, n);
    if ops[n - 1].ExpireKeys? { ExpiryEvents(RunTo(ops, clk, n - 1).kvs, n, ops[n - 1].keys); }
  }

  lemma {:induction false} ExpiryEvents(kvs: map<MapKey, KvEntry>, index: int, items: seq<ExpireKey>)
    ensures var (m, evs) := ExpireKvs(kvs, index, items);
            && (forall k :: k in m ==> k in kvs && m[k] == kvs[k])
            && forall j :: 0 <= j < |evs| ==>
                 var k := KeyOf(evs[j].kv);
                 evs[j].kind == EXPIRED && k in kvs && k !in m && evs[j].kv == KvToWire(k, kvs[k]).(revision := index)
  {
    if items != [] { ExpiryEvents(kvs, index, items[..|items| - 1]); }
  }

  /** Answers describe what the entry did to the tables. */
  lemma AnswersTellTruth(ops: seq<Op>, clk: Clock, n: nat)
    requires 1 <= n <= |ops|
    ensures var op, out, was, after := ops[n - 1], EffectAt(ops, clk, n).outcome, RunTo(ops, clk, n - 1), RunTo(ops, clk, n);
            match op
            case Put(k, _, _, _, _) =>
              if out.err.None? then k in after.kvs && after.kvs[k].revision == n && out.kv == Some(KvToWire(k, after.kvs[k]))
              else out.kv.None? && after.kvs == was.kvs
            case Delete(k, _) => out.found <==> k in was.kvs && k !in after.kvs
            case Register(k, _, _, _, _) => k in after.instances && out.inst == Some(InstToWire(k, after.instances[k]))
            case Heartbeat(k, _, _) =>
              if out.err.None? then k in after.instances && after.instances[k].revision == n
                                    && out.inst == Some(InstToWire(k, after.instances[k]))
              else out.inst.None? && after.instances == was.instances
            case _ => out == NO_OUTCOME
  {
    hide RunTo;
    Unroll(ops, clk, n);
  }
}
