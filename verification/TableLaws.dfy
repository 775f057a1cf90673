/** Compare-and-set and guarded expiry over whole logs. */
module TableLaws {
  import opened Types
  import opened StateMachine
  import opened StoreLaws

  // ------------------------------------------------------------------
  // Compare-and-set
  // ------------------------------------------------------------------

  /** Index `i` is a Put on `k` that was accepted. */
  ghost predicate WonPut(ops: seq<Op>, clk: Clock, i: nat, k: MapKey)
    requires i <= |ops|
  {
    1 <= i && ops[i - 1].Put? && ops[i - 1].k == k && EffectAt(ops, clk, i).outcome.err.None?
  }

  /** Index `i` ends an incarnation of `k`: it removes the entry, or puts over a lapsed one. */
  ghost predicate Boundary(ops: seq<Op>, clk: Clock, i: nat, k: MapKey)
    requires i <= |ops|
  {
    && 1 <= i && k in RunTo(ops, clk, i - 1).kvs
    && (|| k !in RunTo(ops, clk, i).kvs
        || (WonPut(ops, clk, i, k) && !Alive(RunTo(ops, clk, i - 1).kvs[k].expireAtMs, clk(i))))
  }

  ghost predicate SameIncarnation(ops: seq<Op>, clk: Clock, b: nat, n: nat, k: MapKey)
    requires n <= |ops|
  {
    forall i: nat :: b < i <= n ==> !Boundary(ops, clk, i, k)
  }

  /** Accepted Puts on `k` with index in `[b, n]`. */
  ghost function Wins(ops: seq<Op>, clk: Clock, b: nat, n: nat, k: MapKey): nat
    requires n <= |ops|
  {
    if n < b || n == 0 then 0
    else Wins(ops, clk, b, n - 1, k) + (if WonPut(ops, clk, n, k) then 1 else 0)
  }

  ghost function VersionAt(ops: seq<Op>, clk: Clock, n: nat, k: MapKey): int
    requires n <= |ops|
  {
    var m := RunTo(ops, clk, n).kvs;
    if k in m then m[k].version else 0
  }

  /** An accepted Put writes the entry anew; any other entry leaves it alone or removes it. */
  lemma KvStep(ops: seq<Op>, clk: Clock, n: nat, k: MapKey)
    requires 1 <= n <= |ops|
    ensures var m, m' := RunTo(ops, clk, n - 1).kvs, RunTo(ops, clk, n).kvs;
            && (WonPut(ops, clk, n, k) ==> k in m' && m'[k].revision == n)
            && (!WonPut(ops, clk, n, k) && k in m' ==> k in m && m'[k] == m[k])
  {
    if ops[n - 1].ExpireKeys? { ExpireKvsShape(RunTo(ops, clk, n - 1).kvs, n, ops[n - 1].keys); }
  }

  /** A key's version counts the accepted Puts of its current incarnation. */
  lemma {:induction false} VersionCountsWins(ops: seq<Op>, clk: Clock, b: nat, n: nat, k: MapKey)
    requires b <= n <= |ops|
    requires b == 0 || Boundary(ops, clk, b, k)
    requires SameIncarnation(ops, clk, b, n, k)
    ensures VersionAt(ops, clk, n, k) == Wins(ops, clk, b, n, k)
    decreases n
  {
    if n > 0 { KvStep(ops, clk, n, k); }
    if b == n {
      assert n > 0 ==> Wins(ops, clk, b, n - 1, k) == 0;
    } else {
      VersionCountsWins(ops, clk, b, n - 1, k);
      assert !Boundary(ops, clk, n, k);
    }
  }

  lemma {:induction false} VersionNeverDrops(ops: seq<Op>, clk: Clock, b: nat, n: nat, k: MapKey)
    requires b <= n <= |ops| && SameIncarnation(ops, clk, b, n, k) && k in RunTo(ops, clk, b).kvs
    ensures k in RunTo(ops, clk, n).kvs
    ensures VersionAt(ops, clk, n, k) >= VersionAt(ops, clk, b, k)
    decreases n
  {
    if b < n {
      VersionNeverDrops(ops, clk, b, n - 1, k);
      assert !Boundary(ops, clk, n, k);
      KvStep(ops, clk, n, k);
    }
  }

  lemma WinRaisesVersion(ops: seq<Op>, clk: Clock, i: nat, k: MapKey)
    requires i <= |ops| && WonPut(ops, clk, i, k)
    ensures k in RunTo(ops, clk, i).kvs && VersionAt(ops, clk, i, k) >= ops[i - 1].expectedVersion + 1
  {
    KvStep(ops, clk, i, k);
    RunWellFormed(ops, clk, i - 1);
  }

  /** A Put that wins although the version it expects is already passed starts a new incarnation. */
  lemma StaleWinIsBoundary(ops: seq<Op>, clk: Clock, j: nat, k: MapKey)
    requires j <= |ops| && WonPut(ops, clk, j, k) && ops[j - 1].expectedVersion >= 0
    requires k in RunTo(ops, clk, j - 1).kvs && VersionAt(ops, clk, j - 1, k) > ops[j - 1].expectedVersion
    ensures Boundary(ops, clk, j, k)
  {
  }

  /** Of all Puts that expect the same version, at most one wins per incarnation. */
  lemma SingleWinner(ops: seq<Op>, clk: Clock, i: nat, j: nat, k: MapKey)
    requires i < j <= |ops| && WonPut(ops, clk, i, k) && WonPut(ops, clk, j, k)
    requires ops[i - 1].expectedVersion == ops[j - 1].expectedVersion >= 0
    ensures !SameIncarnation(ops, clk, i, j, k)
  {
    hide Apply, RunTo, WonPut, Boundary;
    if SameIncarnation(ops, clk, i, j - 1, k) {
      WinRaisesVersion(ops, clk, i, k);
      VersionNeverDrops(ops, clk, i, j - 1, k);
      StaleWinIsBoundary(ops, clk, j, k);
    }
  }

  /** A rejected operation leaves both tables alone and emits nothing, on every node. */
  lemma RejectedChangesNothing(ops: seq<Op>, clk: Clock, n: nat)
    requires 1 <= n <= |ops| && EffectAt(ops, clk, n).outcome.err.Some?
    ensures RunTo(ops, clk, n) == RunTo(ops, clk, n - 1).(rev := n)
    ensures HistoryTo(ops, clk, n) == HistoryTo(ops, clk, n - 1)
  {
  }

  // ------------------------------------------------------------------
  // Guarded expiry
  // ------------------------------------------------------------------

  predicate Lapsed(expireAtMs: int, now: int) { expireAtMs != 0 && expireAtMs <= now }

  /** `items` is what a scan of `s` at `now` returns, in some order. */
  ghost predicate IsKvScan(items: seq<ExpireKey>, s: State, now: int) {
    && (forall i :: 0 <= i < |items| ==>
          && items[i].k in s.kvs && Lapsed(s.kvs[items[i].k].expireAtMs, now)
          && items[i].guardRevision == s.kvs[items[i].k].revision)
    && (forall k :: k in s.kvs && Lapsed(s.kvs[k].expireAtMs, now) ==>
          exists i :: 0 <= i < |items| && items[i].k == k)
    && (forall i, j :: 0 <= i < j < |items| ==> items[i].k != items[j].k)
  }

  ghost predicate IsInstScan(items: seq<ExpireService>, s: State, now: int) {
    && (forall i :: 0 <= i < |items| ==>
          && items[i].k in s.instances && Lapsed(s.instances[items[i].k].expireAtMs, now)
          && items[i].guardRevision == s.instances[items[i].k].revision)
    && (forall k :: k in s.instances && Lapsed(s.instances[k].expireAtMs, now) ==>
          exists i :: 0 <= i < |items| && items[i].k == k)
    && (forall i, j :: 0 <= i < j < |items| ==> items[i].k != items[j].k)
  }

  ghost predicate KvGuarded(items: seq<ExpireKey>, k: MapKey, revision: int) {
    exists i :: 0 <= i < |items| && items[i].k == k && items[i].guardRevision == revision
  }

  ghost predicate InstGuarded(items: seq<ExpireService>, k: SvcKey, revision: int) {
    exists i :: 0 <= i < |items| && items[i].k == k && items[i].guardRevision == revision
  }

  /** A batch removes exactly the entries whose current revision it guards. */
  lemma {:induction false} ExpireKvsExact(kvs: map<MapKey, KvEntry>, index: int, items: seq<ExpireKey>, k: MapKey)
    requires k in kvs
    ensures k in ExpireKvs(kvs, index, items).0 <==> !KvGuarded(items, k, kvs[k].revision)
    ensures k in ExpireKvs(kvs, index, items).0 ==> ExpireKvs(kvs, index, items).0[k] == kvs[k]
  {
    if items != [] {
      var front, last := items[..|items| - 1], items[|items| - 1];
      ExpireKvsExact(kvs, index, front, k);
      assert KvGuarded(items, k, kvs[k].revision) <==>
        KvGuarded(front, k, kvs[k].revision) || (last.k == k && last.guardRevision == kvs[k].revision) by {
        if KvGuarded(front, k, kvs[k].revision) {
          var i :| 0 <= i < |front| && front[i].k == k && front[i].guardRevision == kvs[k].revision;
          assert items[i].k == k;
        }
      }
    }
  }

  lemma {:induction false} ExpireInstsExact(m: map<SvcKey, InstEntry>, items: seq<ExpireService>, k: SvcKey)
    requires k in m
    ensures k in ExpireInsts(m, items) <==> !InstGuarded(items, k, m[k].revision)
    ensures k in ExpireInsts(m, items) ==> ExpireInsts(m, items)[k] == m[k]
  {
    if items != [] {
      var front, last := items[..|items| - 1], items[|items| - 1];
      ExpireInstsExact(m, front, k);
      assert InstGuarded(items, k, m[k].revision) <==>
        InstGuarded(front, k, m[k].revision) || (last.k == k && last.guardRevision == m[k].revision) by {
        if InstGuarded(front, k, m[k].revision) {
          var i :| 0 <= i < |front| && front[i].k == k && front[i].guardRevision == m[k].revision;
          assert items[i].k == k;
        }
      }
    }
  }

  /** An entry has stood unchanged since the index its revision names. */
  lemma {:induction false} KvStoodSince(ops: seq<Op>, clk: Clock, n: nat, k: MapKey, j: nat)
    requires n <= |ops| && k in RunTo(ops, clk, n).kvs
    requires RunTo(ops, clk, n).kvs[k].revision <= j <= n
    ensures k in RunTo(ops, clk, j).kvs && RunTo(ops, clk, j).kvs[k] == RunTo(ops, clk, n).kvs[k]
    decreases n
  {
    if j < n {
      KvStep(ops, clk, n, k);
      KvStoodSince(ops, clk, n - 1, k, j);
    }
  }

  lemma InstStep(ops: seq<Op>, clk: Clock, n: nat, k: SvcKey)
    requires 1 <= n <= |ops| && k in RunTo(ops, clk, n).instances
    ensures var m, m' := RunTo(ops, clk, n - 1).instances, RunTo(ops, clk, n).instances;
            m'[k].revision == n || (k in m && m'[k] == m[k])
  {
    if ops[n - 1].ExpireServices? { ExpireInstsShape(RunTo(ops, clk, n - 1).instances, ops[n - 1].services); }
  }

  /** A lease has stood unchanged since the register or heartbeat its revision names. */
  lemma {:induction false} InstStoodSince(ops: seq<Op>, clk: Clock, n: nat, k: SvcKey, j: nat)
    requires n <= |ops| && k in RunTo(ops, clk, n).instances
    requires RunTo(ops, clk, n).instances[k].revision <= j <= n
    ensures k in RunTo(ops, clk, j).instances
    ensures RunTo(ops, clk, j).instances[k] == RunTo(ops, clk, n).instances[k]
    decreases n
  {
    if j < n {
      InstStep(ops, clk, n, k);
      InstStoodSince(ops, clk, n - 1, k, j);
    }
  }

  lemma KvSweepAt(ops: seq<Op>, clk: Clock, n: nat)
    requires 1 <= n <= |ops| && ops[n - 1].ExpireKeys?
    ensures var (m, evs) := ExpireKvs(RunTo(ops, clk, n - 1).kvs, n, ops[n - 1].keys);
            RunTo(ops, clk, n) == RunTo(ops, clk, n - 1).(kvs := m, rev := n) && EffectAt(ops, clk, n).events == evs
  {
  }

  lemma InstSweepAt(ops: seq<Op>, clk: Clock, n: nat)
    requires 1 <= n <= |ops| && ops[n - 1].ExpireServices?
    ensures RunTo(ops, clk, n) == RunTo(ops, clk, n - 1).(
              instances := ExpireInsts(RunTo(ops, clk, n - 1).instances, ops[n - 1].services), rev := n)
  {
  }

  /** A sweep scanned at index `m` and applied at index `n` removes `k` exactly when
      `k` still holds the very value that had lapsed at the scan. */
  lemma KvSweepExact(ops: seq<Op>, clk: Clock, m: nat, n: nat, now: int, k: MapKey)
    requires m < n <= |ops| && ops[n - 1].ExpireKeys?
    requires IsKvScan(ops[n - 1].keys, RunTo(ops, clk, m), now)
    requires k in RunTo(ops, clk, n - 1).kvs
    ensures var scanned, before, after := RunTo(ops, clk, m).kvs, RunTo(ops, clk, n - 1).kvs, RunTo(ops, clk, n).kvs;
            && (k !in after <==> k in scanned && scanned[k].expireAtMs != 0 && scanned[k].expireAtMs <= now && before[k] == scanned[k])
            && (k in after ==> after[k] == before[k])
            && (before[k].revision > m ==> k in after)
  {
    hide Apply, ExpireKvs, ExpireInsts, RunTo;
    KvSweepAt(ops, clk, n);
    var items := ops[n - 1].keys;
    var scanned, before := RunTo(ops, clk, m).kvs, RunTo(ops, clk, n - 1).kvs;
    ExpireKvsExact(before, n, items, k);
    RunWellFormed(ops, clk, m);
    if KvGuarded(items, k, before[k].revision) {
      KvStoodSince(ops, clk, n - 1, k, m);
    }
  }

  lemma InstSweepExact(ops: seq<Op>, clk: Clock, m: nat, n: nat, now: int, k: SvcKey)
    requires m < n <= |ops| && ops[n - 1].ExpireServices?
    requires IsInstScan(ops[n - 1].services, RunTo(ops, clk, m), now)
    requires k in RunTo(ops, clk, n - 1).instances
    ensures var scanned, before, after :=
              RunTo(ops, clk, m).instances, RunTo(ops, clk, n - 1).instances, RunTo(ops, clk, n).instances;
            && (k !in after <==> k in scanned && scanned[k].expireAtMs != 0 && scanned[k].expireAtMs <= now && before[k] == scanned[k])
            && (k in after ==> after[k] == before[k])
            && (before[k].revision > m ==> k in after)
  {
    hide Apply, ExpireKvs, ExpireInsts, RunTo;
    InstSweepAt(ops, clk, n);
    var items := ops[n - 1].services;
    var scanned, before := RunTo(ops, clk, m).instances, RunTo(ops, clk, n - 1).instances;
    ExpireInstsExact(before, items, k);
    RunWellFormed(ops, clk, m);
    if InstGuarded(items, k, before[k].revision) {
      InstStoodSince(ops, clk, n - 1, k, m);
    }
  }

  /** Applying the same sweep again, however much later, removes nothing and emits nothing. */
  lemma KvSweepOnce(ops: seq<Op>, clk: Clock, m: nat, n: nat, n': nat, now: int)
    requires m < n < n' <= |ops| && ops[n - 1].ExpireKeys? && ops[n' - 1] == ops[n - 1]
    requires IsKvScan(ops[n - 1].keys, RunTo(ops, clk, m), now)
    ensures RunTo(ops, clk, n') == RunTo(ops, clk, n' - 1).(rev := n')
    ensures HistoryTo(ops, clk, n') == HistoryTo(ops, clk, n' - 1)
  {
    hide Apply, ExpireKvs, ExpireInsts, RunTo;
    KvSweepAt(ops, clk, n);
    KvSweepAt(ops, clk, n');
    var items := ops[n - 1].keys;
    var kvs := RunTo(ops, clk, n' - 1).kvs;
    forall i | 0 <= i < |items| ensures !(items[i].k in kvs && kvs[items[i].k].revision == items[i].guardRevision) {
      var k := items[i].k;
      if k in kvs && kvs[k].revision == items[i].guardRevision {
        RunWellFormed(ops, clk, m);
        KvStoodSince(ops, clk, n' - 1, k, n - 1);
        KvStoodSince(ops, clk, n' - 1, k, n);
        ExpireKvsExact(RunTo(ops, clk, n - 1).kvs, n, items, k);
        assert false;
      }
    }
    UnguardedBatchIsNoop(kvs, n', items);
  }

  lemma {:induction false} UnguardedBatchIsNoop(kvs: map<MapKey, KvEntry>, index: int, items: seq<ExpireKey>)
    requires forall i :: 0 <= i < |items| ==>
               !(items[i].k in kvs && kvs[items[i].k].revision == items[i].guardRevision)
    ensures ExpireKvs(kvs, index, items) == (kvs, [])
  {
    if items != [] { UnguardedBatchIsNoop(kvs, index, items[..|items| - 1]); }
  }

  lemma InstSweepOnce(ops: seq<Op>, clk: Clock, m: nat, n: nat, n': nat, now: int)
    requires m < n < n' <= |ops| && ops[n - 1].ExpireServices? && ops[n' - 1] == ops[n - 1]
    requires IsInstScan(ops[n - 1].services, RunTo(ops, clk, m), now)
    ensures RunTo(ops, clk, n') == RunTo(ops, clk, n' - 1).(rev := n')
  {
    hide Apply, ExpireKvs, ExpireInsts, RunTo;
    InstSweepAt(ops, clk, n);
    InstSweepAt(ops, clk, n');
    var items := ops[n - 1].services;
    var insts := RunTo(ops, clk, n' - 1).instances;
    forall k | k in insts ensures k in ExpireInsts(insts, items) && ExpireInsts(insts, items)[k] == insts[k] {
      ExpireInstsExact(insts, items, k);
      if InstGuarded(items, k, insts[k].revision) {
        RunWellFormed(ops, clk, m);
        InstStoodSince(ops, clk, n' - 1, k, n - 1);
        InstStoodSince(ops, clk, n' - 1, k, n);
        ExpireInstsExact(RunTo(ops, clk, n - 1).instances, items, k);
        assert false;
      }
    }
    ExpireInstsShape(insts, items);
    assert ExpireInsts(insts, items) == insts;
  }
}
