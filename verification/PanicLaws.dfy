/** Exactly when applying an entry panics: the store allows 4095 events per log
    index, and nothing limits the size of a batch expiry. */
module PanicLaws {
  import opened Types
  import opened StateMachine
  import opened StoreLaws
  import opened TableLaws

  /** The keys whose current revision the batch guards. */
  ghost function Guarded(kvs: map<MapKey, KvEntry>, items: seq<ExpireKey>): set<MapKey> {
    set k | k in kvs && KvGuarded(items, k, kvs[k].revision)
  }

  /** A batch emits one event per entry it removes. */
  lemma {:induction false} OneEventPerRemoval(kvs: map<MapKey, KvEntry>, index: int, items: seq<ExpireKey>)
    ensures var (m, evs) := ExpireKvs(kvs, index, items);
            m.Keys <= kvs.Keys && |evs| == |kvs.Keys - m.Keys|
  {
    if items != [] {
      var front, it := items[..|items| - 1], items[|items| - 1];
      OneEventPerRemoval(kvs, index, front);
      var (m, evs) := ExpireKvs(kvs, index, front);
      if it.k in m && m[it.k].revision == it.guardRevision {
        assert (m - {it.k}).Keys == m.Keys - {it.k};
        assert kvs.Keys - (m.Keys - {it.k}) == (kvs.Keys - m.Keys) + {it.k};
      }
    }
  }

  lemma EventsCountGuarded(kvs: map<MapKey, KvEntry>, index: int, items: seq<ExpireKey>)
    ensures |ExpireKvs(kvs, index, items).1| == |Guarded(kvs, items)|
  {
    OneEventPerRemoval(kvs, index, items);
    var m := ExpireKvs(kvs, index, items).0;
    forall k | k in kvs ensures k in m <==> k !in Guarded(kvs, items) {
      ExpireKvsExact(kvs, index, items, k);
    }
    assert kvs.Keys - m.Keys == Guarded(kvs, items);
  }

  /** Applying an entry panics exactly when it is a batch that guards the current
      revision of at least 4096 keys. */
  lemma PanicsExactly(s: State, e: LogEntry, now: int)
    ensures !Fits(Apply(s, e, now)) <==> e.op.ExpireKeys? && |Guarded(s.kvs, e.op.keys)| >= SUB_LIMIT
  {
    if e.op.ExpireKeys? { EventsCountGuarded(s.kvs, e.index, e.op.keys); }
  }

  /** The scanned entries that still stand when the batch is applied. */
  ghost function Standing(scanned: map<MapKey, KvEntry>, before: map<MapKey, KvEntry>, now: int): set<MapKey> {
    set k | k in before && k in scanned && Lapsed(scanned[k].expireAtMs, now) && before[k] == scanned[k]
  }

  /** A sweep scanned at index `m` and applied at index `n` panics exactly when at least
      4096 of the entries it scanned still stand. */
  lemma SweepPanicsExactly(ops: seq<Op>, clk: Clock, m: nat, n: nat, now: int)
    requires m < n <= |ops| && ops[n - 1].ExpireKeys?
    requires IsKvScan(ops[n - 1].keys, RunTo(ops, clk, m), now)
    ensures !Fits(EffectAt(ops, clk, n))
            <==> |Standing(RunTo(ops, clk, m).kvs, RunTo(ops, clk, n - 1).kvs, now)| >= SUB_LIMIT
  {
    hide Apply, RunTo, IsKvScan, KvGuarded;
    var items, scanned, before := ops[n - 1].keys, RunTo(ops, clk, m).kvs, RunTo(ops, clk, n - 1).kvs;
    PanicsExactly(RunTo(ops, clk, n - 1), LogEntry(n, ops[n - 1]), clk(n));
    forall k ensures k in Guarded(before, items) <==> k in Standing(scanned, before, now) {
      if k in before {
        KvSweepAt(ops, clk, n);
        ExpireKvsExact(before, n, items, k);
        KvSweepExact(ops, clk, m, n, now, k);
      }
    }
    assert Guarded(before, items) == Standing(scanned, before, now);
  }

  // ------------------------------------------------------------------
  // A store whose sweep panics
  // ------------------------------------------------------------------

  /** The `i`-th of a supply of distinct keys. */
  function NumberedKey(i: nat): (k: MapKey)
    ensures |k.key| == i
  {
    MapKey("ns", seq(i, _ => 'x'))
  }

  /** `n` puts of distinct keys that lapse at time 1. */
  function ShortLived(n: nat): (ops: seq<Op>)
    ensures |ops| == n
  {
    seq(n, i requires 0 <= i < n => Put(NumberedKey(i), [], 1, 1, -1))
  }

  /** What the sweeper proposes for them. */
  function ShortLivedBatch(n: nat): (items: seq<ExpireKey>)
    ensures |items| == n
  {
    seq(n, i requires 0 <= i < n => ExpireKey(NumberedKey(i), i + 1))
  }

  lemma FreshPut(s: State, index: int, k: MapKey, now: int)
    requires k !in s.kvs
    ensures Apply(s, LogEntry(index, Put(k, [], 1, 1, -1)), now).state.kvs == s.kvs[k := KvEntry([], 1, index, 1, 1)]
  {
  }

  ghost predicate HoldsNumbered(kvs: map<MapKey, KvEntry>, n: nat) {
    && (forall i {:trigger NumberedKey(i)} :: 0 <= i < n ==>
          NumberedKey(i) in kvs && kvs[NumberedKey(i)] == KvEntry([], 1, i + 1, 1, 1))
    && (forall k :: k in kvs ==> |k.key| < n && k == NumberedKey(|k.key|))
  }

  lemma {:induction false} ShortLivedStand(ops: seq<Op>, clk: Clock, n: nat)
    requires n <= |ops| && ops[..n] == ShortLived(n)
    ensures HoldsNumbered(RunTo(ops, clk, n).kvs, n) && |RunTo(ops, clk, n).kvs| == n
  {
    hide Apply, NumberedKey;
    if n > 0 {
      assert ops[..n - 1] == ops[..n][..n - 1];
      ShortLivedStand(ops, clk, n - 1);
      assert ops[n - 1] == ops[..n][n - 1] == Put(NumberedKey(n - 1), [], 1, 1, -1);
      var s, k := RunTo(ops, clk, n - 1), NumberedKey(n - 1);
      FreshPut(s, n, k, clk(n));
      assert RunTo(ops, clk, n).kvs == s.kvs[k := KvEntry([], 1, n, 1, 1)];
      assert RunTo(ops, clk, n).kvs.Keys == s.kvs.Keys + {k};
    }
  }

  lemma BatchIsScan(s: State, n: nat)
    requires HoldsNumbered(s.kvs, n)
    ensures IsKvScan(ShortLivedBatch(n), s, 1)
  {
    hide NumberedKey;
    var items := ShortLivedBatch(n);
    forall k | k in s.kvs ensures exists i :: 0 <= i < |items| && items[i].k == k {
      assert items[|k.key|].k == k;
    }
    forall i, j | 0 <= i < j < n ensures items[i].k != items[j].k {
      assert |NumberedKey(i).key| == i;
    }
  }

  /** `n` keys lapse, a sweep scans them, and its entry is the next in the log: applying it
      panics exactly from 4096 keys on, and such a scan exists for every `n`. */
  lemma UncappedSweepPanics(clk: Clock, n: nat)
    ensures IsKvScan(ShortLivedBatch(n), RunTo(ShortLived(n), clk, n), 1)
    ensures !Fits(EffectAt(ShortLived(n) + [ExpireKeys(ShortLivedBatch(n))], clk, n + 1)) <==> n >= SUB_LIMIT
  {
    hide Apply, RunTo, IsKvScan, HoldsNumbered;
    var ops := ShortLived(n) + [ExpireKeys(ShortLivedBatch(n))];
    assert ops[..n] == ShortLived(n);
    FoldOfPrefix(ShortLived(n), ops, clk, n);
    ShortLivedStand(ops, clk, n);
    var s := RunTo(ops, clk, n);
    BatchIsScan(s, n);
    SweepPanicsExactly(ops, clk, n, n + 1, 1);
    assert Standing(s.kvs, s.kvs, 1) == s.kvs.Keys by {
      forall k | k in s.kvs ensures Lapsed(s.kvs[k].expireAtMs, 1) { NumberedLapsed(s.kvs, n, k); }
    }
  }

  lemma NumberedLapsed(kvs: map<MapKey, KvEntry>, n: nat, k: MapKey)
    requires HoldsNumbered(kvs, n) && k in kvs
    ensures kvs[k].expireAtMs == 1
  {
  }
}
