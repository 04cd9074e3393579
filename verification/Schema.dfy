/** The tables behind the artifact registry and the SQL statements that act on them.
    The unique index on `artifacts.digest` is built in: a table is a map keyed by digest. */
module Schema {
  import opened Prelude
  import opened Sums

  datatype Status = Pending | Stored

  datatype Row = Row(
    id: nat, app: Option<nat>, size: int, signature: Option<string>, verified: bool,
    storageKey: Option<string>, status: Status, createdAt: int, completedAt: Option<int>,
    idem: Option<string>, uploadId: Option<string>)

  datatype EventKind = StoredEvent | RetentionDelete

  datatype Event = Event(serial: nat, artifact: nat, kind: EventKind)

  type Rows = map<string, Row>

  /** `keys` maps (application, public key) to the `active` flag. Fresh primary keys come from counters. */
  datatype Db = Db(
    apps: map<string, nat>, keys: map<(nat, string), bool>, rows: Rows, events: set<Event>,
    nextId: nat, nextApp: nat, nextSerial: nat)

  const EMPTY_DB := Db(map[], map[], map[], {}, 0, 0, 0)

  function AppNamed(apps: map<string, nat>, name: string): Option<nat> {
    if name in apps then Some(apps[name]) else None
  }

  predicate HasId(rows: Rows, id: nat) {
    exists d :: d in rows && rows[d].id == id
  }

  ghost predicate DistinctIds(rows: Rows) {
    forall d, e :: d in rows && e in rows && rows[d].id == rows[e].id ==> d == e
  }

  /** Writing `key` at digest `d` would break the unique index on `idempotency_key`. */
  predicate IdemTaken(rows: Rows, d: string, key: Option<string>) {
    key.Some? && exists e :: e in rows && e != d && rows[e].idem == key
  }

  /** INSERT of a row whose digest is new. */
  function InsertRow(db: Db, d: string, row: Row): Db {
    db.(rows := db.rows[d := row.(id := db.nextId)], nextId := db.nextId + 1)
  }

  /** INSERT INTO artifact_events; the foreign key rejects an unknown artifact. */
  function LogEvent(db: Db, id: nat, kind: EventKind): Db {
    if HasId(db.rows, id) then
      db.(events := db.events + {Event(db.nextSerial, id, kind)}, nextSerial := db.nextSerial + 1)
    else db
  }

  /** DELETE of artifacts by primary key; their events go with them (ON DELETE CASCADE). */
  function DeleteIds(db: Db, ids: set<nat>): Db {
    db.(rows := map d | d in db.rows && db.rows[d].id !in ids :: db.rows[d],
        events := set e | e in db.events && e.artifact !in ids)
  }

  // ---- the quota queries

  function StoredOf(rows: Rows, a: nat): set<string> {
    set d | d in rows && rows[d].app == Some(a) && rows[d].status == Stored
  }

  function StoredCount(rows: Rows, a: nat): nat {
    |StoredOf(rows, a)|
  }

  function SizesOf(rows: Rows, a: nat): map<string, int> {
    map d | d in StoredOf(rows, a) :: rows[d].size
  }

  ghost function StoredBytes(rows: Rows, a: nat): int {
    Total(SizesOf(rows, a))
  }

  // ---- the retention query: ORDER BY created_at DESC OFFSET n

  /** `tie` is whatever order the database gives to rows with equal `created_at`. */
  type TieBreak = nat -> int

  predicate Newer(x: Row, y: Row, tie: TieBreak) {
    || x.createdAt > y.createdAt
    || (x.createdAt == y.createdAt
        && (tie(x.id) > tie(y.id) || (tie(x.id) == tie(y.id) && x.id > y.id)))
  }

  /** The stored rows of `a` that the query lists before row `d`. */
  function Ahead(rows: Rows, a: nat, tie: TieBreak, d: string): set<string>
    requires d in rows
  {
    set e | e in StoredOf(rows, a) && Newer(rows[e], rows[d], tie)
  }

  /** The digests that the query returns after skipping the first `n`. */
  function Obsolete(rows: Rows, a: nat, n: nat, tie: TieBreak): (ds: set<string>)
    ensures ds <= rows.Keys
  {
    set d | d in StoredOf(rows, a) && |Ahead(rows, a, tie, d)| >= n
  }

  function IdsOf(rows: Rows, ds: set<string>): set<nat>
    requires ds <= rows.Keys
  {
    set d | d in ds :: rows[d].id
  }

  /** The pending rows created before `cutoff`. */
  function Stale(rows: Rows, cutoff: int): set<string> {
    set d | d in rows && rows[d].status == Pending && rows[d].createdAt < cutoff
  }
}
