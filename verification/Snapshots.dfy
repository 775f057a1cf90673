/** Full-state snapshots: what an export holds, its wire form, and restoring it. */
module Snapshots {
  import opened Types
  import opened StateMachine

  datatype Snapshot = Snapshot(revision: int, kvs: seq<KeyValue>, instances: seq<Instance>)

  datatype KvRecord = KvRecord(kv: KeyValue)
  datatype InstanceRecord = InstanceRecord(inst: Instance)

  /** The snapshot as it travels on the replication stream. */
  datatype WireSnapshot = WireSnapshot(
    lastIncludedIndex: int, term: int, kvs: seq<KvRecord>, instances: seq<InstanceRecord>)

  function ToWire(s: Snapshot): WireSnapshot {
    WireSnapshot(s.revision, 1,
                 seq(|s.kvs|, i requires 0 <= i < |s.kvs| => KvRecord(s.kvs[i])),
                 seq(|s.instances|, i requires 0 <= i < |s.instances| => InstanceRecord(s.instances[i])))
  }

  function FromWire(w: WireSnapshot): Snapshot {
    Snapshot(w.lastIncludedIndex,
             seq(|w.kvs|, i requires 0 <= i < |w.kvs| => w.kvs[i].kv),
             seq(|w.instances|, i requires 0 <= i < |w.instances| => w.instances[i].inst))
  }

  /** `list` holds every entry of the configuration table once, in whatever order the map was walked. */
  ghost predicate ListsKvs(list: seq<KeyValue>, kvs: map<MapKey, KvEntry>) {
    && (forall i :: 0 <= i < |list| ==> KeyOf(list[i]) in kvs && list[i] == KvToWire(KeyOf(list[i]), kvs[KeyOf(list[i])]))
    && (forall k :: k in kvs ==> exists i :: 0 <= i < |list| && KeyOf(list[i]) == k)
    && (forall i, j :: 0 <= i < j < |list| ==> KeyOf(list[i]) != KeyOf(list[j]))
  }

  /** `list` holds every lease once. */
  ghost predicate ListsInsts(list: seq<Instance>, insts: map<SvcKey, InstEntry>) {
    && (forall i :: 0 <= i < |list| ==>
          SvcKeyOf(list[i]) in insts && list[i] == InstToWire(SvcKeyOf(list[i]), insts[SvcKeyOf(list[i])]))
    && (forall k :: k in insts ==> exists i :: 0 <= i < |list| && SvcKeyOf(list[i]) == k)
    && (forall i, j :: 0 <= i < j < |list| ==> SvcKeyOf(list[i]) != SvcKeyOf(list[j]))
  }

  ghost predicate IsExport(snap: Snapshot, s: State) {
    snap.revision == s.rev && ListsKvs(snap.kvs, s.kvs) && ListsInsts(snap.instances, s.instances)
  }

  function RestoreKvs(list: seq<KeyValue>): (m: map<MapKey, KvEntry>) {
    if list == [] then map[]
    else
      var kv := list[|list| - 1];
      RestoreKvs(list[..|list| - 1])[KeyOf(kv) := KvFromWire(kv)]
  }

  function RestoreInsts(list: seq<Instance>): (m: map<SvcKey, InstEntry>) {
    if list == [] then map[]
    else
      var i := list[|list| - 1];
      RestoreInsts(list[..|list| - 1])[SvcKeyOf(i) := InstFromWire(i)]
  }

  function Restored(snap: Snapshot): State {
    State(RestoreKvs(snap.kvs), RestoreInsts(snap.instances), snap.revision)
  }

  lemma {:induction false} RestoreKvsLists(list: seq<KeyValue>, kvs: map<MapKey, KvEntry>)
    requires forall i :: 0 <= i < |list| ==>
               KeyOf(list[i]) in kvs && list[i] == KvToWire(KeyOf(list[i]), kvs[KeyOf(list[i])])
    ensures forall k :: k in RestoreKvs(list) ==> k in kvs && RestoreKvs(list)[k] == kvs[k]
    ensures forall i :: 0 <= i < |list| ==> KeyOf(list[i]) in RestoreKvs(list)
  {
    if list != [] {
      RestoreKvsLists(list[..|list| - 1], kvs);
      forall i | 0 <= i < |list| ensures KeyOf(list[i]) in RestoreKvs(list) {
        if i < |list| - 1 { assert list[i] == list[..|list| - 1][i]; }
      }
    }
  }

  lemma {:induction false} RestoreInstsLists(list: seq<Instance>, insts: map<SvcKey, InstEntry>)
    requires forall i :: 0 <= i < |list| ==>
               SvcKeyOf(list[i]) in insts && list[i] == InstToWire(SvcKeyOf(list[i]), insts[SvcKeyOf(list[i])])
    ensures forall k :: k in RestoreInsts(list) ==> k in insts && RestoreInsts(list)[k] == insts[k]
    ensures forall i :: 0 <= i < |list| ==> SvcKeyOf(list[i]) in RestoreInsts(list)
  {
    if list != [] {
      RestoreInstsLists(list[..|list| - 1], insts);
      forall i | 0 <= i < |list| ensures SvcKeyOf(list[i]) in RestoreInsts(list) {
        if i < |list| - 1 { assert list[i] == list[..|list| - 1][i]; }
      }
    }
  }

  /** Restoring any list of records: a key is there exactly if some record has it, and the
      last such record says what it holds. */
  lemma {:induction false} RestoreKvsExactly(list: seq<KeyValue>, k: MapKey)
    ensures k in RestoreKvs(list) <==> exists i :: 0 <= i < |list| && list[i].ns == k.ns && list[i].key == k.key
    ensures k in RestoreKvs(list) ==> exists i ::
              && 0 <= i < |list| && list[i].ns == k.ns && list[i].key == k.key
              && (forall j :: i < j < |list| ==> list[j].ns != k.ns || list[j].key != k.key)
              && RestoreKvs(list)[k]
                 == KvEntry(list[i].value, list[i].version, list[i].revision, list[i].ttlMs, list[i].expireAtMs)
  {
    if list != [] {
      var front, last := list[..|list| - 1], list[|list| - 1];
      RestoreKvsExactly(front, k);
      if last.ns == k.ns && last.key == k.key {
        assert list[|list| - 1] == last;
      } else if k in RestoreKvs(front) {
        var i :| && 0 <= i < |front| && front[i].ns == k.ns && front[i].key == k.key
                 && (forall j :: i < j < |front| ==> front[j].ns != k.ns || front[j].key != k.key)
                 && RestoreKvs(front)[k]
                    == KvEntry(front[i].value, front[i].version, front[i].revision, front[i].ttlMs, front[i].expireAtMs);
        assert list[i] == front[i];
        assert forall j :: i < j < |front| ==> list[j] == front[j];
      }
    }
  }

  /** Every state has an export. */
  lemma ExportExists(s: State) returns (snap: Snapshot)
    ensures IsExport(snap, s)
  {
    hide ListsKvs, ListsInsts;
    var kvs := ListKvs(s.kvs);
    var insts := ListInsts(s.instances);
    snap := Snapshot(s.rev, kvs, insts);
  }

  lemma OneMoreKv(list: seq<KeyValue>, m: map<MapKey, KvEntry>, k: MapKey)
    requires k in m && ListsKvs(list, m - {k})
    ensures ListsKvs(list + [KvToWire(k, m[k])], m)
  {
    var longer := list + [KvToWire(k, m[k])];
    assert KeyOf(longer[|list|]) == k;
    forall k' | k' in m ensures exists i :: 0 <= i < |longer| && KeyOf(longer[i]) == k' {
      if k' != k {
        assert k' in m - {k};
        var i :| 0 <= i < |list| && KeyOf(list[i]) == k';
        assert longer[i] == list[i];
      }
    }
  }

  lemma {:induction false} ListKvs(m: map<MapKey, KvEntry>) returns (list: seq<KeyValue>)
    ensures ListsKvs(list, m)
    decreases |m|
  {
    list := [];
    if m != map[] {
      hide ListsKvs;
      var k :| k in m;
      assert m == (m - {k})[k := m[k]];
      var front := ListKvs(m - {k});
      OneMoreKv(front, m, k);
      list := front + [KvToWire(k, m[k])];
    }
  }

  lemma OneMoreInst(list: seq<Instance>, m: map<SvcKey, InstEntry>, k: SvcKey)
    requires k in m && ListsInsts(list, m - {k})
    ensures ListsInsts(list + [InstToWire(k, m[k])], m)
  {
    var longer := list + [InstToWire(k, m[k])];
    assert SvcKeyOf(longer[|list|]) == k;
    forall k' | k' in m ensures exists i :: 0 <= i < |longer| && SvcKeyOf(longer[i]) == k' {
      if k' != k {
        assert k' in m - {k};
        var i :| 0 <= i < |list| && SvcKeyOf(list[i]) == k';
        assert longer[i] == list[i];
      }
    }
  }

  lemma {:induction false} ListInsts(m: map<SvcKey, InstEntry>) returns (list: seq<Instance>)
    ensures ListsInsts(list, m)
    decreases |m|
  {
    list := [];
    if m != map[] {
      hide ListsInsts;
      var k :| k in m;
      assert m == (m - {k})[k := m[k]];
      var front := ListInsts(m - {k});
      OneMoreInst(front, m, k);
      list := front + [InstToWire(k, m[k])];
    }
  }

  lemma WireRoundTrip(snap: Snapshot)
    ensures FromWire(ToWire(snap)) == snap
  {
    assert FromWire(ToWire(snap)).kvs == snap.kvs;
    assert FromWire(ToWire(snap)).instances == snap.instances;
  }

  lemma RestoreGivesExported(snap: Snapshot, s: State)
    requires IsExport(snap, s)
    ensures Restored(snap) == s
  {
    hide RestoreKvs, RestoreInsts;
    RestoreKvsLists(snap.kvs, s.kvs);
    RestoreInstsLists(snap.instances, s.instances);
    assert RestoreKvs(snap.kvs).Keys == s.kvs.Keys;
    assert RestoreInsts(snap.instances).Keys == s.instances.Keys;
  }

  /** Export, wire conversion both ways and restore give back exactly the exported tables. */
  lemma SnapshotRoundTrip(snap: Snapshot, s: State)
    requires IsExport(snap, s)
    ensures Restored(FromWire(ToWire(snap))) == s
  {
    WireRoundTrip(snap);
    RestoreGivesExported(snap, s);
  }
}
