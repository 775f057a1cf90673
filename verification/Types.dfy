/** The records that travel between the components of distconf: table entries,
    log operations, watch events and their wire forms. */
module Types {

  datatype Option<+T> = None | Some(value: T)

  newtype byte = x: int | 0 <= x < 256

  datatype NodeId = NodeId(n: int)

  datatype SubId = SubId(n: int)

  /** Key of the configuration table. */
  datatype MapKey = MapKey(ns: string, key: string)

  /** Key of the service-instance table. */
  datatype SvcKey = SvcKey(ns: string, service: string, id: string)

  /** A configuration value. `expireAtMs == 0` means that it never lapses. */
  datatype KvEntry = KvEntry(value: seq<byte>, version: int, revision: int, ttlMs: int, expireAtMs: int)

  /** A service lease. `revision` is the guard used by heartbeats and expiry. */
  datatype InstEntry = InstEntry(
    address: string, metadata: map<string, string>, leaseTtlMs: int, expireAtMs: int, revision: int)

  /** Wire form of a configuration value. */
  datatype KeyValue = KeyValue(
    ns: string, key: string, value: seq<byte>, version: int, revision: int, ttlMs: int, expireAtMs: int)

  /** Wire form of a service lease. */
  datatype Instance = Instance(
    ns: string, service: string, id: string, address: string, metadata: map<string, string>,
    leaseTtlMs: int, expireAtMs: int, revision: int)

  datatype ExpireKey = ExpireKey(k: MapKey, guardRevision: int)

  datatype ExpireService = ExpireService(k: SvcKey, guardRevision: int)

  /** The six operations a log entry can carry. */
  datatype Op =
    | Put(k: MapKey, value: seq<byte>, ttlMs: int, expireAtMs: int, expectedVersion: int)
    | Delete(k: MapKey, expectedVersion: int)
    | Register(sk: SvcKey, address: string, metadata: map<string, string>, leaseTtlMs: int, leaseExpireAtMs: int)
    | Heartbeat(sk: SvcKey, guardRevision: int, newExpireAtMs: int)
    | ExpireKeys(keys: seq<ExpireKey>)
    | ExpireServices(services: seq<ExpireService>)

  datatype LogEntry = LogEntry(index: int, op: Op)

  datatype EventKind = PUT | DELETE | EXPIRED

  /** A change of the configuration table; `cursor` is its position in the global event order. */
  datatype Event = Event(cursor: int, kind: EventKind, kv: KeyValue)

  datatype Error = CasConflict | InstanceNotFound

  /** What the state machine answers to the proposer of an entry. */
  datatype Outcome = Outcome(kv: Option<KeyValue>, inst: Option<Instance>, found: bool, err: Option<Error>)

  const NO_OUTCOME := Outcome(None, None, false, None)

  function KeyOf(kv: KeyValue): MapKey { MapKey(kv.ns, kv.key) }

  function KvToWire(k: MapKey, e: KvEntry): (kv: KeyValue) {
    KeyValue(k.ns, k.key, e.value, e.version, e.revision, e.ttlMs, e.expireAtMs)
  }

  function KvFromWire(kv: KeyValue): (e: KvEntry) {
    KvEntry(kv.value, kv.version, kv.revision, kv.ttlMs, kv.expireAtMs)
  }

  function SvcKeyOf(i: Instance): SvcKey { SvcKey(i.ns, i.service, i.id) }

  function InstToWire(k: SvcKey, e: InstEntry): (i: Instance) {
    Instance(k.ns, k.service, k.id, e.address, e.metadata, e.leaseTtlMs, e.expireAtMs, e.revision)
  }

  function InstFromWire(i: Instance): (e: InstEntry) {
    InstEntry(i.address, i.metadata, i.leaseTtlMs, i.expireAtMs, i.revision)
  }
}
