/** The store as the object the node mutates under its lock. Every method is
    proved against the value-level functions of StateMachine, Views and Snapshots. */
module Stores {
  import opened Types
  import opened StateMachine
  import opened TableLaws
  import ReadLaws
  import opened Snapshots
  import opened Views

  const NIL_EVENT := Event(0, PUT, KeyValue("", "", [], 0, 0, 0, 0))

  /** Reading `count` slots of a ring from slot `head`, wrapping around. */
  ghost function Ring(slots: seq<Event>, head: nat, count: nat): (r: seq<Event>)
    requires |slots| == HISTORY_CAPACITY && head < HISTORY_CAPACITY && count <= HISTORY_CAPACITY
    ensures |r| == count && forall i :: 0 <= i < count ==> r[i] == slots[(head + i) % HISTORY_CAPACITY]
  {
    seq(count, i requires 0 <= i < count => slots[(head + i) % HISTORY_CAPACITY])
  }

  /** Writing after the newest event of a ring that is not full appends to the window. */
  lemma RingAppend(slots: seq<Event>, head: nat, count: nat, ev: Event)
    requires |slots| == HISTORY_CAPACITY && head < HISTORY_CAPACITY && count < HISTORY_CAPACITY
    ensures Ring(slots[(head + count) % HISTORY_CAPACITY := ev], head, count + 1)
            == PushWindow(Ring(slots, head, count), ev)
  {
    hide Ring;
    var r := Ring(slots[(head + count) % HISTORY_CAPACITY := ev], head, count + 1);
    var w := PushWindow(Ring(slots, head, count), ev);
    forall i | 0 <= i <= count ensures r[i] == w[i] {
      SlotsDiffer(head, i, count);
    }
  }

  /** Writing over the oldest event of a full ring drops it from the window. */
  lemma RingOverwrite(slots: seq<Event>, head: nat, ev: Event)
    requires |slots| == HISTORY_CAPACITY && head < HISTORY_CAPACITY
    ensures Ring(slots[head := ev], (head + 1) % HISTORY_CAPACITY, HISTORY_CAPACITY)
            == PushWindow(Ring(slots, head, HISTORY_CAPACITY), ev)
  {
    hide Ring;
    var was := Ring(slots, head, HISTORY_CAPACITY);
    var r := Ring(slots[head := ev], (head + 1) % HISTORY_CAPACITY, HISTORY_CAPACITY);
    var w := PushWindow(was, ev);
    forall i | 0 <= i < HISTORY_CAPACITY ensures r[i] == w[i] {
      if i < HISTORY_CAPACITY - 1 {
        assert was[i + 1] == slots[(head + (i + 1)) % HISTORY_CAPACITY];
        NextSlot(head, i);
        SlotsDiffer(head, 0, i + 1);
      } else {
        NextSlot(head, i);
      }
    }
  }

  lemma NextSlot(head: nat, i: nat)
    requires head < HISTORY_CAPACITY && i < HISTORY_CAPACITY
    ensures ((head + 1) % HISTORY_CAPACITY + i) % HISTORY_CAPACITY == (head + (i + 1)) % HISTORY_CAPACITY
  {
  }

  lemma SlotsDiffer(head: nat, i: nat, j: nat)
    requires head < HISTORY_CAPACITY && i <= j < HISTORY_CAPACITY
    ensures (head + i) % HISTORY_CAPACITY == (head + j) % HISTORY_CAPACITY <==> i == j
  {
  }

  class Store {
    var kvs: map<MapKey, KvEntry>
    var instances: map<SvcKey, InstEntry>
    var rev: int
    var sub: int

    // The event ring: `count` events starting at slot `head`.
    const history: array<Event>
    var head: nat
    var count: nat
    var baselineSeq: int

    // Subscriptions with their channels; a dropped one stays until its consumer lets go.
    var subs: map<SubId, Sub>
    var watcherSeq: int

    ghost predicate Valid()
      reads this`head, this`count
    {
      history.Length == HISTORY_CAPACITY && head < HISTORY_CAPACITY && count <= HISTORY_CAPACITY
    }

    /** The retained events, oldest first. */
    ghost function Window(): seq<Event>
      reads this`head, this`count, history
      requires Valid()
    {
      Ring(history[..], head, count)
    }

    ghost function Tables(): State
      reads this`kvs, this`instances, this`rev
    {
      State(kvs, instances, rev)
    }

    ghost function Model(): View
      reads this, history
      requires Valid()
    {
      View(Tables(), Window(), baselineSeq, subs, watcherSeq)
    }

    constructor ()
      ensures Valid() && fresh(history) && Model() == NEW_VIEW
    {
      kvs, instances, rev, sub := map[], map[], 0, 0;
      history := new Event[HISTORY_CAPACITY](_ => NIL_EVENT);
      head, count, baselineSeq := 0, 0, 0;
      subs, watcherSeq := map[], 0;
    }

    // ----------------------------------------------------------------
    // Events
    // ----------------------------------------------------------------

    /** Appending to the ring, overwriting the oldest event once it is full. */
    method AppendEvent(ev: Event)
      requires Valid()
      modifies this`head, this`count, history
      ensures Valid() && Window() == PushWindow(old(Window()), ev)
    {
      if count < HISTORY_CAPACITY {
        RingAppend(history[..], head, count, ev);
        history[(head + count) % HISTORY_CAPACITY] := ev;
        count := count + 1;
      } else {
        RingOverwrite(history[..], head, ev);
        history[head] := ev;
        head := (head + 1) % HISTORY_CAPACITY;
      }
    }

    /** Offering an event to every subscription, in whatever order the map yields them. */
    method FanoutKv(ev: Event)
      modifies this`subs
      ensures subs == Fanout(old(subs), ev)
      ensures subs.Keys == old(subs).Keys
      ensures forall id :: id in subs && (subs[id].ns != ev.kv.ns || (subs[id].key != "" && subs[id].key != ev.kv.key)) ==>
                subs[id] == old(subs)[id]
      ensures forall id :: id in subs && old(subs)[id].open
                           && subs[id].ns == ev.kv.ns && (subs[id].key == "" || subs[id].key == ev.kv.key) ==>
                var was := old(subs)[id];
                subs[id] == if |was.buf| < 256 then Sub(was.ns, was.key, was.buf + [ev], true)
                            else Sub(was.ns, was.key, was.buf, false)
    {
      var ids := subs.Keys;
      while ids != {}
        invariant subs.Keys == old(subs).Keys && ids <= subs.Keys
        invariant forall id :: id in subs ==> subs[id] == if id in ids then old(subs)[id] else Offer(old(subs)[id], ev)
        decreases |ids|
      {
        var id :| id in ids;
        ids := ids - {id};
        var w := subs[id];
        if w.open && Matches(w.ns, w.key, ev) {
          if |w.buf| < WATCHER_BUFFER {
            subs := subs[id := w.(buf := w.buf + [ev])];
          } else {
            subs := subs[id := w.(open := false)];
          }
        }
      }
      assert subs.Keys == Fanout(old(subs), ev).Keys;
    }

    method EmitKv(kind: EventKind, kv: KeyValue)
      requires Valid() && 0 <= sub && sub + 1 < SUB_LIMIT
      modifies this`head, this`count, this`subs, this`sub, history
      ensures Valid() && sub == old(sub) + 1
      ensures Model() == Emit(old(Model()), Event(Cursor(kv.revision, old(sub)), kind, kv))
    {
      var ev := Event(kv.revision * SUB_LIMIT + sub, kind, kv);
      sub := sub + 1;
      AppendEvent(ev);
      FanoutKv(ev);
    }

    // ----------------------------------------------------------------
    // Applying log entries
    // ----------------------------------------------------------------

    method ApplyPut(index: int, op: Op, now: int) returns (out: Outcome)
      requires Valid() && op.Put?
      modifies this, history
      ensures Valid()
      ensures Model() == ApplyView(old(Model()), LogEntry(index, op), now)
      ensures out == Apply(old(Tables()), LogEntry(index, op), now).outcome
    {
      ghost var before := Model();
      rev, sub := index, 0;
      var present, curVersion := false, 0;
      if op.k in kvs && Alive(kvs[op.k].expireAtMs, now) {
        present, curVersion := true, kvs[op.k].version;
      }
      var err := CheckVersion(op.expectedVersion, present, curVersion);
      if err.Some? {
        return NO_OUTCOME.(err := err);
      }
      var e := KvEntry(op.value, curVersion + 1, index, op.ttlMs, op.expireAtMs);
      kvs := kvs[op.k := e];
      var rec := KvToWire(op.k, e);
      EmitKv(PUT, rec);
      EmitOne(before.(st := Tables()), Event(Cursor(index, 0), PUT, rec));
      return NO_OUTCOME.(kv := Some(rec));
    }

    method ApplyDelete(index: int, op: Op, now: int) returns (out: Outcome)
      requires Valid() && op.Delete?
      modifies this, history
      ensures Valid()
      ensures Model() == ApplyView(old(Model()), LogEntry(index, op), now)
      ensures out == Apply(old(Tables()), LogEntry(index, op), now).outcome
    {
      ghost var before := Model();
      rev, sub := index, 0;
      if op.k !in kvs || !Alive(kvs[op.k].expireAtMs, now) {
        if op.expectedVersion > 0 {
          return NO_OUTCOME.(err := Some(CasConflict));
        }
        return NO_OUTCOME;
      }
      var cur := kvs[op.k];
      var err := CheckVersion(op.expectedVersion, true, cur.version);
      if err.Some? {
        return NO_OUTCOME.(err := err);
      }
      kvs := kvs - {op.k};
      var rec := KvToWire(op.k, cur).(revision := index);
      EmitKv(DELETE, rec);
      EmitOne(before.(st := Tables()), Event(Cursor(index, 0), DELETE, rec));
      return NO_OUTCOME.(found := true);
    }

    /** A batch that would emit SUB_LIMIT events or more panics. */
    method ApplyExpireKeys(index: int, items: seq<ExpireKey>, now: int)
      requires Valid() && |ExpireKvs(kvs, index, items).1| < SUB_LIMIT
      modifies this, history
      ensures Valid()
      ensures Model() == ApplyView(old(Model()), LogEntry(index, ExpireKeys(items)), now)
    {
      hide ExpireKvs, EmitAll, PushWindow, Fanout, KvToWire;
      ghost var before := Model();
      rev, sub := index, 0;
      ExpireNone(before, old(kvs), index);
      assert items[..0] == [];
      for i := 0 to |items|
        invariant Valid() && rev == index && instances == old(instances)
        invariant kvs == ExpireKvs(old(kvs), index, items[..i]).0
        invariant sub == |ExpireKvs(old(kvs), index, items[..i]).1|
        invariant Model() == EmitAll(before, ExpireKvs(old(kvs), index, items[..i]).1).(st := Tables())
      {
        var item := items[i];
        ExpireOneMore(before, old(kvs), index, items, i);
        FewerItemsFewerEvents(old(kvs), index, items, i + 1);
        if item.k in kvs && kvs[item.k].revision == item.guardRevision {
          var cur := kvs[item.k];
          kvs := kvs - {item.k};
          var rec := KvToWire(item.k, cur).(revision := index);
          EmitKv(EXPIRED, rec);
        }
      }
      assert items[..|items|] == items;
      EmitAllKeepsTables(before, Tables(), ExpireKvs(old(kvs), index, items).1);
    }

    method ApplyRegister(index: int, op: Op) returns (out: Outcome)
      requires Valid() && op.Register?
      modifies this`rev, this`instances
      ensures Valid()
      ensures Model() == ApplyView(old(Model()), LogEntry(index, op), 0)
      ensures out == Apply(old(Tables()), LogEntry(index, op), 0).outcome
    {
      rev := index;
      var e := InstEntry(op.address, op.metadata, op.leaseTtlMs, op.leaseExpireAtMs, index);
      instances := instances[op.sk := e];
      return NO_OUTCOME.(inst := Some(InstToWire(op.sk, e)));
    }

    method ApplyHeartbeat(index: int, op: Op, now: int) returns (out: Outcome)
      requires Valid() && op.Heartbeat?
      modifies this`rev, this`instances
      ensures Valid()
      ensures Model() == ApplyView(old(Model()), LogEntry(index, op), now)
      ensures out == Apply(old(Tables()), LogEntry(index, op), now).outcome
    {
      rev := index;
      if op.sk !in instances
         || (op.guardRevision != 0 && instances[op.sk].revision != op.guardRevision)
         || !Alive(instances[op.sk].expireAtMs, now)
      {
        return NO_OUTCOME.(err := Some(InstanceNotFound));
      }
      var e := instances[op.sk].(expireAtMs := op.newExpireAtMs, revision := index);
      instances := instances[op.sk := e];
      return NO_OUTCOME.(inst := Some(InstToWire(op.sk, e)));
    }

    method ApplyExpireServices(index: int, items: seq<ExpireService>)
      requires Valid()
      modifies this`rev, this`instances
      ensures Valid()
      ensures Model() == ApplyView(old(Model()), LogEntry(index, ExpireServices(items)), 0)
    {
      rev := index;
      assert items[..0] == [];
      for i := 0 to |items|
        invariant rev == index && instances == ExpireInsts(old(instances), items[..i])
      {
        var item := items[i];
        assert items[..i + 1][..i] == items[..i] && items[..i + 1][i] == item;
        if item.k in instances && instances[item.k].revision == item.guardRevision {
          instances := instances - {item.k};
        }
      }
      assert items[..|items|] == items;
    }

    /** The dispatch both the leader's commit loop and the follower's stream use. */
    method ApplyOne(e: LogEntry, now: int) returns (out: Outcome)
      requires Valid() && Fits(Apply(Tables(), e, now))
      modifies this, history
      ensures Valid()
      ensures Model() == ApplyView(old(Model()), e, now)
      ensures out == Apply(old(Tables()), e, now).outcome
    {
      out := NO_OUTCOME;
      match e.op {
        case Put(_, _, _, _, _) => out := ApplyPut(e.index, e.op, now);
        case Delete(_, _) => out := ApplyDelete(e.index, e.op, now);
        case Register(_, _, _, _, _) => out := ApplyRegister(e.index, e.op);
        case Heartbeat(_, _, _) => out := ApplyHeartbeat(e.index, e.op, now);
        case ExpireKeys(items) => ApplyExpireKeys(e.index, items, now);
        case ExpireServices(items) => ApplyExpireServices(e.index, items);
      }
    }

    /** Lazy expiry: a lapsed entry reads as absent although it is still in the table. */
    method Get(k: MapKey, now: int) returns (kv: Option<KeyValue>)
      ensures kv == ReadLaws.Get(Tables(), k, now)
    {
      if k !in kvs || !Alive(kvs[k].expireAtMs, now) {
        return None;
      }
      return Some(KvToWire(k, kvs[k]));
    }

    // ----------------------------------------------------------------
    // Watching
    // ----------------------------------------------------------------

    /** The retained events after a cursor, of one key or of a whole namespace. */
    method Backlog(ns: string, key: string, fromSeq: int) returns (backlog: seq<Event>)
      requires Valid()
      ensures backlog == Select(Window(), ns, key, fromSeq)
      ensures forall e :: e in backlog <==>
                e in Window() && e.cursor > fromSeq && e.kv.ns == ns && (key == "" || e.kv.key == key)
    {
      hide Matches;
      ghost var w := Window();
      assert w[..0] == [];
      backlog := [];
      for i := 0 to count
        invariant backlog == Select(w[..i], ns, key, fromSeq)
      {
        var ev := history[(head + i) % HISTORY_CAPACITY];
        assert w[..i + 1][..i] == w[..i] && w[..i + 1][i] == ev;
        if ev.cursor > fromSeq && Matches(ns, key, ev) {
          backlog := backlog + [ev];
        }
      }
      assert w[..count] == w;
      SelectByFields(w, ns, key, fromSeq);
    }

    /** Copies the backlog and registers the subscription in one critical section. */
    method WatchKV(ns: string, key: string, fromSeq: int) returns (ok: bool, id: SubId, backlog: seq<Event>)
      requires Valid()
      modifies this`subs, this`watcherSeq
      ensures Valid()
      ensures var r := WatchKv(old(Model()), ns, key, fromSeq);
              && ok == r.Watching?
              && (ok ==> id == r.id && backlog == r.backlog && Model() == r.view)
              && (!ok ==> Model() == old(Model()))
      ensures ok ==> forall e :: e in backlog <==>
                e in Window() && e.cursor > fromSeq && e.kv.ns == ns && (key == "" || e.kv.key == key)
      ensures ok ==> id in subs && subs[id] == Sub(ns, key, [], true)
    {
      hide Matches, Select, Ring;
      ok, id, backlog := false, SubId(0), [];
      if fromSeq > 0 {
        var horizon := baselineSeq;
        if count > 0 {
          horizon := history[head].cursor - 1;
          assert Window()[0] == history[head];
        }
        if fromSeq < horizon {
          return;
        }
      }
      backlog := Backlog(ns, key, fromSeq);
      watcherSeq := watcherSeq + 1;
      id, ok := SubId(watcherSeq), true;
      subs := subs[id := Sub(ns, key, [], true)];
    }

    method CloseKVWatcher(id: SubId)
      requires Valid()
      modifies this`subs
      ensures Valid() && Model() == CloseKv(old(Model()), id)
      ensures id in subs ==> !subs[id].open && subs[id].buf == old(subs)[id].buf
      ensures subs.Keys == old(subs).Keys && forall other :: other in subs && other != id ==> subs[other] == old(subs)[other]
    {
      if id in subs && subs[id].open {
        subs := subs[id := subs[id].(open := false)];
      }
    }

    /** The cursor a client takes after a read, to watch from there on. */
    method CurrentEventSeq() returns (c: int)
      requires Valid()
      ensures c == CurrentSeq(Model())
    {
      if count > 0 {
        c := history[(head + count - 1) % HISTORY_CAPACITY].cursor;
        assert Window()[count - 1] == history[(head + count - 1) % HISTORY_CAPACITY];
      } else {
        c := baselineSeq;
      }
    }

    // ----------------------------------------------------------------
    // Snapshots and scans
    // ----------------------------------------------------------------

    method ExportSnapshot() returns (snap: Snapshot)
      requires Valid()
      ensures IsExport(snap, Tables())
    {
      var list := ExportKvs();
      var insts := ExportInsts();
      snap := Snapshot(rev, list, insts);
    }

    method ExportKvs() returns (list: seq<KeyValue>)
      ensures ListsKvs(list, kvs)
    {
      list := [];
      var todo := kvs.Keys;
      ghost var at := map[];
      while todo != {}
        invariant todo <= kvs.Keys && at.Keys == kvs.Keys - todo
        invariant forall i :: 0 <= i < |list| ==>
                    && KeyOf(list[i]) in at && at[KeyOf(list[i])] == i
                    && list[i] == KvToWire(KeyOf(list[i]), kvs[KeyOf(list[i])])
        invariant forall k :: k in at ==> 0 <= at[k] < |list| && KeyOf(list[at[k]]) == k
        decreases |todo|
      {
        var k :| k in todo;
        at := at[k := |list|];
        list := list + [KvToWire(k, kvs[k])];
        todo := todo - {k};
      }
      forall k | k in kvs ensures exists i :: 0 <= i < |list| && KeyOf(list[i]) == k {
        assert KeyOf(list[at[k]]) == k;
      }
    }

    method ExportInsts() returns (list: seq<Instance>)
      ensures ListsInsts(list, instances)
    {
      list := [];
      var todo := instances.Keys;
      ghost var at := map[];
      while todo != {}
        invariant todo <= instances.Keys && at.Keys == instances.Keys - todo
        invariant forall i :: 0 <= i < |list| ==>
                    && SvcKeyOf(list[i]) in at && at[SvcKeyOf(list[i])] == i
                    && list[i] == InstToWire(SvcKeyOf(list[i]), instances[SvcKeyOf(list[i])])
        invariant forall k :: k in at ==> 0 <= at[k] < |list| && SvcKeyOf(list[at[k]]) == k
        decreases |todo|
      {
        var k :| k in todo;
        at := at[k := |list|];
        list := list + [InstToWire(k, instances[k])];
        todo := todo - {k};
      }
      forall k | k in instances ensures exists i :: 0 <= i < |list| && SvcKeyOf(list[i]) == k {
        assert SvcKeyOf(list[at[k]]) == k;
      }
    }

    method LoadKvs(list: seq<KeyValue>)
      modifies this`kvs
      ensures kvs == RestoreKvs(list)
    {
      kvs := map[];
      for i := 0 to |list|
        invariant kvs == RestoreKvs(list[..i])
      {
        assert list[..i + 1][..i] == list[..i];
        var kv := list[i];
        kvs := kvs[MapKey(kv.ns, kv.key) := KvEntry(kv.value, kv.version, kv.revision, kv.ttlMs, kv.expireAtMs)];
      }
      assert list[..|list|] == list;
    }

    method LoadInsts(list: seq<Instance>)
      modifies this`instances
      ensures instances == RestoreInsts(list)
    {
      instances := map[];
      for i := 0 to |list|
        invariant instances == RestoreInsts(list[..i])
      {
        assert list[..i + 1][..i] == list[..i];
        var x := list[i];
        instances := instances[SvcKey(x.ns, x.service, x.id) :=
          InstEntry(x.address, x.metadata, x.leaseTtlMs, x.expireAtMs, x.revision)];
      }
      assert list[..|list|] == list;
    }

    /** Subscriptions survive a restore; the event ring does not. */
    method RestoreSnapshot(snap: Snapshot)
      requires Valid()
      modifies this, history
      ensures Valid() && Model() == RestoreView(old(Model()), snap)
    {
      if snap.revision < rev {
        return;
      }
      LoadKvs(snap.kvs);
      LoadInsts(snap.instances);
      rev, sub := snap.revision, 0;
      forall i | 0 <= i < history.Length { history[i] := NIL_EVENT; }
      head, count := 0, 0;
      baselineSeq := snap.revision * SUB_LIMIT + (SUB_LIMIT - 1);
    }

    /** Lists every key lapsed at `now`, each once, with its current revision as guard. */
    method ScanExpiredKVs(now: int) returns (out: seq<ExpireKey>)
      ensures IsKvScan(out, Tables(), now)
      ensures forall k :: (exists i :: 0 <= i < |out| && out[i].k == k)
                          <==> k in kvs && kvs[k].expireAtMs != 0 && kvs[k].expireAtMs <= now
    {
      out := [];
      var todo := kvs.Keys;
      ghost var at := map[];
      while todo != {}
        invariant todo <= kvs.Keys && at.Keys <= kvs.Keys - todo
        invariant forall i :: 0 <= i < |out| ==>
                    && out[i].k in at && at[out[i].k] == i
                    && Lapsed(kvs[out[i].k].expireAtMs, now) && out[i].guardRevision == kvs[out[i].k].revision
        invariant forall k :: k in kvs && k !in todo && Lapsed(kvs[k].expireAtMs, now) ==>
                    k in at && 0 <= at[k] < |out| && out[at[k]].k == k
        decreases |todo|
      {
        var k :| k in todo;
        todo := todo - {k};
        if kvs[k].expireAtMs != 0 && kvs[k].expireAtMs <= now {
          at := at[k := |out|];
          out := out + [ExpireKey(k, kvs[k].revision)];
        }
      }
    }

    method ScanExpiredInstances(now: int) returns (out: seq<ExpireService>)
      ensures IsInstScan(out, Tables(), now)
      ensures forall k :: (exists i :: 0 <= i < |out| && out[i].k == k)
                          <==> k in instances && instances[k].expireAtMs != 0 && instances[k].expireAtMs <= now
    {
      out := [];
      var todo := instances.Keys;
      ghost var at := map[];
      while todo != {}
        invariant todo <= instances.Keys && at.Keys <= instances.Keys - todo
        invariant forall i :: 0 <= i < |out| ==>
                    && out[i].k in at && at[out[i].k] == i
                    && Lapsed(instances[out[i].k].expireAtMs, now) && out[i].guardRevision == instances[out[i].k].revision
        invariant forall k :: k in instances && k !in todo && Lapsed(instances[k].expireAtMs, now) ==>
                    k in at && 0 <= at[k] < |out| && out[at[k]].k == k
        decreases |todo|
      {
        var k :| k in todo;
        todo := todo - {k};
        if instances[k].expireAtMs != 0 && instances[k].expireAtMs <= now {
          at := at[k := |out|];
          out := out + [ExpireService(k, instances[k].revision)];
        }
      }
    }

    /** The sweeper's round over the configuration table: the entry it proposes, if any. */
    method SweepKVs(now: int) returns (op: Option<Op>)
      ensures op.None? <==> forall k :: k in kvs ==> kvs[k].expireAtMs == 0 || kvs[k].expireAtMs > now
      ensures op.Some? ==> op.value.ExpireKeys? && IsKvScan(op.value.keys, Tables(), now)
    {
      var items := ScanExpiredKVs(now);
      if |items| == 0 {
        return None;
      }
      assert items[0].k in kvs;
      var keys: seq<ExpireKey> := [];
      for i := 0 to |items|
        invariant keys == items[..i]
      {
        keys := keys + [ExpireKey(items[i].k, items[i].guardRevision)];
      }
      assert keys == items;
      op := Some(ExpireKeys(keys));
    }

    method SweepInstances(now: int) returns (op: Option<Op>)
      ensures op.None? <==> forall k :: k in instances ==> instances[k].expireAtMs == 0 || instances[k].expireAtMs > now
      ensures op.Some? ==> op.value.ExpireServices? && IsInstScan(op.value.services, Tables(), now)
    {
      var items := ScanExpiredInstances(now);
      if |items| == 0 {
        return None;
      }
      assert items[0].k in instances;
      var services: seq<ExpireService> := [];
      for i := 0 to |items|
        invariant services == items[..i]
      {
        services := services + [ExpireService(items[i].k, items[i].guardRevision)];
      }
      assert services == items;
      op := Some(ExpireServices(services));
    }
  }

  method SnapshotToProto(snap: Snapshot) returns (w: WireSnapshot)
    ensures w == ToWire(snap)
    ensures w.lastIncludedIndex == snap.revision && w.term == 1
    ensures |w.kvs| == |snap.kvs| && forall i :: 0 <= i < |w.kvs| ==> w.kvs[i].kv == snap.kvs[i]
    ensures |w.instances| == |snap.instances| && forall i :: 0 <= i < |w.instances| ==> w.instances[i].inst == snap.instances[i]
  {
    var kvs: seq<KvRecord>, insts: seq<InstanceRecord> := [], [];
    for i := 0 to |snap.kvs|
      invariant kvs == ToWire(snap).kvs[..i]
    {
      kvs := kvs + [KvRecord(snap.kvs[i])];
    }
    for i := 0 to |snap.instances|
      invariant insts == ToWire(snap).instances[..i]
    {
      insts := insts + [InstanceRecord(snap.instances[i])];
    }
    w := WireSnapshot(snap.revision, 1, kvs, insts);
  }

  method SnapshotFromProto(w: WireSnapshot) returns (snap: Snapshot)
    ensures snap == FromWire(w)
  {
    var kvs: seq<KeyValue>, insts: seq<Instance> := [], [];
    for i := 0 to |w.kvs|
      invariant kvs == FromWire(w).kvs[..i]
    {
      kvs := kvs + [w.kvs[i].kv];
    }
    for i := 0 to |w.instances|
      invariant insts == FromWire(w).instances[..i]
    {
      insts := insts + [w.instances[i].inst];
    }
    snap := Snapshot(w.lastIncludedIndex, kvs, insts);
  }

  // ------------------------------------------------------------------
  // Proof helpers
  // ------------------------------------------------------------------

  lemma EmitOne(v: View, ev: Event)
    ensures EmitAll(v, [ev]) == Emit(v, ev)
  {
    assert [ev][..0] == [];
    assert EmitAll(v, [ev][..0]) == v;
  }

  lemma ExpireNone(v: View, kvs: map<MapKey, KvEntry>, index: int)
    ensures ExpireKvs(kvs, index, []) == (kvs, []) && EmitAll(v, []) == v
  {
  }

  /** One more item of a batch: at most one more removal, and its event. */
  lemma ExpireOneMore(v: View, kvs: map<MapKey, KvEntry>, index: int, items: seq<ExpireKey>, i: nat)
    requires i < |items|
    ensures var (m, evs) := ExpireKvs(kvs, index, items[..i]);
            var k := items[i].k;
            if k in m && m[k].revision == items[i].guardRevision
            then
              var ev := Event(Cursor(index, |evs|), EXPIRED, KvToWire(k, m[k]).(revision := index));
              && ExpireKvs(kvs, index, items[..i + 1]) == (m - {k}, evs + [ev])
              && EmitAll(v, evs + [ev]) == Emit(EmitAll(v, evs), ev)
            else ExpireKvs(kvs, index, items[..i + 1]) == (m, evs)
  {
    hide Emit, KvToWire;
    assert items[..i + 1][..i] == items[..i] && items[..i + 1][i] == items[i];
    var (m, evs) := ExpireKvs(kvs, index, items[..i]);
    forall ev ensures EmitAll(v, evs + [ev]) == Emit(EmitAll(v, evs), ev) {
      assert (evs + [ev])[..|evs|] == evs;
    }
  }

  lemma {:induction false} EmitAllKeepsTables(v: View, st: State, evs: seq<Event>)
    ensures EmitAll(v.(st := st), evs) == EmitAll(v, evs).(st := st)
  {
    if evs != [] { EmitAllKeepsTables(v, st, evs[..|evs| - 1]); }
  }

  lemma {:induction false} FewerItemsFewerEvents(
    kvs: map<MapKey, KvEntry>, index: int, items: seq<ExpireKey>, i: nat)
    requires i <= |items|
    ensures |ExpireKvs(kvs, index, items[..i]).1| <= |ExpireKvs(kvs, index, items).1|
    decreases |items|
  {
    if i < |items| {
      assert items[..|items| - 1][..i] == items[..i];
      FewerItemsFewerEvents(kvs, index, items[..|items| - 1], i);
    } else {
      assert items[..i] == items;
    }
  }
}
