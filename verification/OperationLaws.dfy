/** What each of the six operations does at its index in any log, said in the fields of
    the records and in plain arithmetic: tables, events and answer, nothing else changed. */
module OperationLaws {
  import opened Types
  import opened StateMachine
  import opened StoreLaws
  import opened TableLaws
  import opened ReadLaws

  /** The version of `k` that a client with the node's clock sees just before index `n`;
      0 if the key is absent or its time has come. */
  ghost function SeenVersion(ops: seq<Op>, clk: Clock, n: nat, k: MapKey): (v: int)
    requires 1 <= n <= |ops|
  {
    var m := RunTo(ops, clk, n - 1).kvs;
    if k in m && (m[k].expireAtMs == 0 || clk(n) < m[k].expireAtMs) then m[k].version else 0
  }

  lemma PutExactly(ops: seq<Op>, clk: Clock, n: nat)
    requires 1 <= n <= |ops| && ops[n - 1].Put?
    ensures var op, was, after, eff := ops[n - 1], RunTo(ops, clk, n - 1), RunTo(ops, clk, n), EffectAt(ops, clk, n);
            var v := SeenVersion(ops, clk, n, op.k);
            && after.instances == was.instances && after.rev == n
            && if op.expectedVersion < 0 || op.expectedVersion == v then
                 var rec := KeyValue(op.k.ns, op.k.key, op.value, v + 1, n, op.ttlMs, op.expireAtMs);
                 && after.kvs == was.kvs[op.k := KvEntry(op.value, v + 1, n, op.ttlMs, op.expireAtMs)]
                 && eff.events == [Event(4096 * n, PUT, rec)]
                 && eff.outcome == Outcome(Some(rec), None, false, None)
               else
                 after.kvs == was.kvs && eff.events == [] && eff.outcome == Outcome(None, None, false, Some(CasConflict))
  {
    hide RunTo;
    Unroll(ops, clk, n);
    RunWellFormed(ops, clk, n - 1);
  }

  /** A refused delete tells its caller so: it conflicts when it names a version other than
      the live one, also for an absent key, and when it demands absence of a live key. */
  lemma DeleteExactly(ops: seq<Op>, clk: Clock, n: nat)
    requires 1 <= n <= |ops| && ops[n - 1].Delete?
    ensures var op, was, after, eff := ops[n - 1], RunTo(ops, clk, n - 1), RunTo(ops, clk, n), EffectAt(ops, clk, n);
            var v := SeenVersion(ops, clk, n, op.k);
            && after.instances == was.instances && after.rev == n
            && if (op.expectedVersion > 0 && op.expectedVersion != v) || (op.expectedVersion == 0 && v > 0) then
                 after.kvs == was.kvs && eff.events == [] && eff.outcome == Outcome(None, None, false, Some(CasConflict))
               else if v == 0 then
                 after.kvs == was.kvs && eff.events == [] && eff.outcome == Outcome(None, None, false, None)
               else
                 && op.k in was.kvs && after.kvs == was.kvs - {op.k}
                 && eff.outcome == Outcome(None, None, true, None)
                 && eff.events == [Event(4096 * n, DELETE, KeyValue(op.k.ns, op.k.key, was.kvs[op.k].value, v, n,
                                                                    was.kvs[op.k].ttlMs, was.kvs[op.k].expireAtMs))]
  {
    hide RunTo;
    Unroll(ops, clk, n);
    RunWellFormed(ops, clk, n - 1);
  }

  /** A register replaces whatever lease stood there. */
  lemma RegisterExactly(ops: seq<Op>, clk: Clock, n: nat)
    requires 1 <= n <= |ops| && ops[n - 1].Register?
    ensures var op, was, after, eff := ops[n - 1], RunTo(ops, clk, n - 1), RunTo(ops, clk, n), EffectAt(ops, clk, n);
            && after.kvs == was.kvs && after.rev == n && eff.events == []
            && after.instances ==
                 was.instances[op.sk := InstEntry(op.address, op.metadata, op.leaseTtlMs, op.leaseExpireAtMs, n)]
            && eff.outcome.inst == Some(Instance(op.sk.ns, op.sk.service, op.sk.id, op.address, op.metadata,
                                                 op.leaseTtlMs, op.leaseExpireAtMs, n))
            && eff.outcome.kv.None? && eff.outcome.err.None? && !eff.outcome.found
  {
    hide RunTo;
    Unroll(ops, clk, n);
  }

  /** A heartbeat renews a lease that stands, has not lapsed and carries the revision it
      names, and is answered InstanceNotFound otherwise. */
  lemma HeartbeatExactly(ops: seq<Op>, clk: Clock, n: nat)
    requires 1 <= n <= |ops| && ops[n - 1].Heartbeat?
    ensures var op, was, after, eff := ops[n - 1], RunTo(ops, clk, n - 1), RunTo(ops, clk, n), EffectAt(ops, clk, n);
            && after.kvs == was.kvs && after.rev == n && eff.events == []
            && if && op.sk in was.instances
                  && (was.instances[op.sk].expireAtMs == 0 || clk(n) < was.instances[op.sk].expireAtMs)
                  && (op.guardRevision == 0 || op.guardRevision == was.instances[op.sk].revision)
               then
                 var e := was.instances[op.sk];
                 && after.instances ==
                      was.instances[op.sk := InstEntry(e.address, e.metadata, e.leaseTtlMs, op.newExpireAtMs, n)]
                 && eff.outcome == Outcome(None, Some(Instance(op.sk.ns, op.sk.service, op.sk.id, e.address, e.metadata,
                                                               e.leaseTtlMs, op.newExpireAtMs, n)), false, None)
               else
                 after.instances == was.instances && eff.outcome == Outcome(None, None, false, Some(InstanceNotFound))
  {
    hide RunTo;
    Unroll(ops, clk, n);
  }

  /** A batch expiry removes exactly the keys it guards at their current revision, reports
      each once, with the record it had, and touches no lease. */
  lemma ExpireKeysExactly(ops: seq<Op>, clk: Clock, n: nat, k: MapKey)
    requires 1 <= n <= |ops| && ops[n - 1].ExpireKeys?
    ensures var op, was, after, eff := ops[n - 1], RunTo(ops, clk, n - 1), RunTo(ops, clk, n), EffectAt(ops, clk, n);
            && after.instances == was.instances && after.rev == n && eff.outcome == Outcome(None, None, false, None)
            && (k in after.kvs ==> k in was.kvs && after.kvs[k] == was.kvs[k])
            && (k in was.kvs ==>
                  (k !in after.kvs <==> exists i :: 0 <= i < |op.keys| && op.keys[i] == ExpireKey(k, was.kvs[k].revision)))
            && (k in was.kvs && k !in after.kvs ==>
                  exists j :: 0 <= j < |eff.events| && ReportsExpiry(eff.events[j], n, j, k, was.kvs[k]))
            && (forall i, j :: 0 <= i < j < |eff.events| ==>
                  (eff.events[i].kv.ns, eff.events[i].kv.key) != (eff.events[j].kv.ns, eff.events[j].kv.key))
            && (forall j :: 0 <= j < |eff.events| ==> eff.events[j].kind == EXPIRED)
  {
    hide RunTo, ReportsExpiry;
    Unroll(ops, clk, n);
    var was, items := RunTo(ops, clk, n - 1).kvs, ops[n - 1].keys;
    BatchReports(was, n, items);
    if k in was {
      ExpireKvsExact(was, n, items, k);
      GuardedByItem(items, k, was[k].revision);
    }
  }

  predicate ReportsExpiry(ev: Event, n: int, j: int, k: MapKey, e: KvEntry) {
    ev == Event(4096 * n + j, EXPIRED, KeyValue(k.ns, k.key, e.value, e.version, n, e.ttlMs, e.expireAtMs))
  }

  lemma GuardedByItem(items: seq<ExpireKey>, k: MapKey, revision: int)
    ensures KvGuarded(items, k, revision) <==> exists i :: 0 <= i < |items| && items[i] == ExpireKey(k, revision)
  {
    if KvGuarded(items, k, revision) {
      var i :| 0 <= i < |items| && items[i].k == k && items[i].guardRevision == revision;
      assert items[i] == ExpireKey(k, revision);
    }
    if i :| 0 <= i < |items| && items[i] == ExpireKey(k, revision) {
      assert items[i].k == k;
    }
  }

  lemma {:induction false} BatchReports(kvs: map<MapKey, KvEntry>, n: int, items: seq<ExpireKey>)
    ensures var (m, evs) := ExpireKvs(kvs, n, items);
            && (forall k :: k in m ==> k in kvs && m[k] == kvs[k])
            && (forall k :: k in kvs && k !in m ==>
                  exists j :: 0 <= j < |evs| && ReportsExpiry(evs[j], n, j, k, kvs[k]))
            && (forall j :: 0 <= j < |evs| ==> evs[j].kind == EXPIRED && MapKey(evs[j].kv.ns, evs[j].kv.key) !in m)
            && (forall i, j :: 0 <= i < j < |evs| ==>
                  (evs[i].kv.ns, evs[i].kv.key) != (evs[j].kv.ns, evs[j].kv.key))
  {
    if items != [] {
      var front, it := items[..|items| - 1], items[|items| - 1];
      BatchReports(kvs, n, front);
      var (m, evs) := ExpireKvs(kvs, n, front);
      var (m', evs') := ExpireKvs(kvs, n, items);
      if it.k in m && m[it.k].revision == it.guardRevision {
        assert ReportsExpiry(evs'[|evs|], n, |evs|, it.k, kvs[it.k]);
        forall k | k in kvs && k !in m' ensures exists j :: 0 <= j < |evs'| && ReportsExpiry(evs'[j], n, j, k, kvs[k]) {
          if k != it.k {
            var j :| 0 <= j < |evs| && ReportsExpiry(evs[j], n, j, k, kvs[k]);
            assert ReportsExpiry(evs'[j], n, j, k, kvs[k]);
          }
        }
      }
    }
  }

  lemma ExpireServicesExactly(ops: seq<Op>, clk: Clock, n: nat, k: SvcKey)
    requires 1 <= n <= |ops| && ops[n - 1].ExpireServices?
    ensures var op, was, after, eff := ops[n - 1], RunTo(ops, clk, n - 1), RunTo(ops, clk, n), EffectAt(ops, clk, n);
            && after.kvs == was.kvs && after.rev == n && eff.events == [] && eff.outcome == Outcome(None, None, false, None)
            && (k in after.instances ==> k in was.instances && after.instances[k] == was.instances[k])
            && (k in was.instances ==>
                  (k !in after.instances
                   <==> exists i :: 0 <= i < |op.services| && op.services[i] == ExpireService(k, was.instances[k].revision)))
  {
    hide RunTo;
    Unroll(ops, clk, n);
    var was, items := RunTo(ops, clk, n - 1).instances, ops[n - 1].services;
    ExpireInstsShape(was, items);
    if k in was {
      ExpireInstsExact(was, items, k);
      GuardedByService(items, k, was[k].revision);
    }
  }

  lemma GuardedByService(items: seq<ExpireService>, k: SvcKey, revision: int)
    ensures InstGuarded(items, k, revision) <==> exists i :: 0 <= i < |items| && items[i] == ExpireService(k, revision)
  {
    if InstGuarded(items, k, revision) {
      var i :| 0 <= i < |items| && items[i].k == k && items[i].guardRevision == revision;
      assert items[i] == ExpireService(k, revision);
    }
    if i :| 0 <= i < |items| && items[i] == ExpireService(k, revision) {
      assert items[i].k == k;
    }
  }

  // ------------------------------------------------------------------
  // Which entries a scan lists
  // ------------------------------------------------------------------

  /** A scan lists exactly the keys that are in the table although a reader no longer sees
      them: those with an expiry that has come. A key put without one is never listed. */
  lemma KvScanExactly(items: seq<ExpireKey>, s: State, now: int, k: MapKey)
    requires IsKvScan(items, s, now)
    ensures (exists i :: 0 <= i < |items| && items[i].k == k) <==> k in s.kvs && Get(s, k, now).None?
    ensures k in s.kvs ==> (Get(s, k, now).None? <==> s.kvs[k].expireAtMs != 0 && s.kvs[k].expireAtMs <= now)
  {
  }

  lemma InstScanExactly(items: seq<ExpireService>, s: State, now: int, k: SvcKey)
    requires IsInstScan(items, s, now)
    ensures (exists i :: 0 <= i < |items| && items[i].k == k)
            <==> k in s.instances && s.instances[k].expireAtMs != 0 && s.instances[k].expireAtMs <= now
  {
  }

  /** A sweep removes a key only if the put that wrote it gave it an expiry, and that had
      come at the scan; a key put without expiry survives every sweep. */
  lemma SweepNeedsExpiry(ops: seq<Op>, clk: Clock, m: nat, n: nat, now: int, k: MapKey)
    requires m < n <= |ops| && ops[n - 1].ExpireKeys?
    requires IsKvScan(ops[n - 1].keys, RunTo(ops, clk, m), now)
    requires k in RunTo(ops, clk, n - 1).kvs
    ensures var r := RunTo(ops, clk, n - 1).kvs[k].revision;
            && 1 <= r < n && ops[r - 1].Put? && ops[r - 1].k == k
            && (k !in RunTo(ops, clk, n).kvs <==> r <= m && ops[r - 1].expireAtMs != 0 && ops[r - 1].expireAtMs <= now)
  {
    hide RunTo, Apply, IsKvScan;
    KvSweepExact(ops, clk, m, n, now, k);
    KvProvenance(ops, clk, n - 1, k);
    var r := RunTo(ops, clk, n - 1).kvs[k].revision;
    if r <= m {
      KvStoodSince(ops, clk, n - 1, k, m);
    } else {
      RunWellFormed(ops, clk, m);
    }
    if k in RunTo(ops, clk, m).kvs { KvScanExactly(ops[n - 1].keys, RunTo(ops, clk, m), now, k); }
  }

  /** The same of leases: what counts is the expiry that the register or the latest
      heartbeat gave. */
  lemma LeaseSweepNeedsExpiry(ops: seq<Op>, clk: Clock, m: nat, n: nat, now: int, k: SvcKey)
    requires m < n <= |ops| && ops[n - 1].ExpireServices?
    requires IsInstScan(ops[n - 1].services, RunTo(ops, clk, m), now)
    requires k in RunTo(ops, clk, n - 1).instances
    ensures var r := RunTo(ops, clk, n - 1).instances[k].revision;
            && 1 <= r < n && (ops[r - 1].Register? || ops[r - 1].Heartbeat?) && ops[r - 1].sk == k
            && var expiry := if ops[r - 1].Register? then ops[r - 1].leaseExpireAtMs else ops[r - 1].newExpireAtMs;
               k !in RunTo(ops, clk, n).instances <==> r <= m && expiry != 0 && expiry <= now
  {
    hide RunTo, Apply, IsInstScan;
    InstSweepExact(ops, clk, m, n, now, k);
    LeaseProvenance(ops, clk, n - 1, k);
    var r := RunTo(ops, clk, n - 1).instances[k].revision;
    if r <= m {
      InstStoodSince(ops, clk, n - 1, k, m);
    } else {
      RunWellFormed(ops, clk, m);
    }
    if k in RunTo(ops, clk, m).instances { InstScanExactly(ops[n - 1].services, RunTo(ops, clk, m), now, k); }
  }
}
