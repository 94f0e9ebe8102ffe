/** The SQLite timeline store, as updates of its three tables. The JSON column
    holds the entity itself. */
module TimelineSqlite {
  import opened Wrappers
  import opened Ranked
  import opened Text
  import opened Timeline
  import opened TimelineMemory
  import Index = ConversationIndex

  /** A row of timeline_entities. */
  datatype Row = Row(kind: string, createdAtMs: int, updatedAtMs: int, version: nat, entity: Entity)

  /** One conversation's part of timeline_versions and timeline_entities. */
  datatype Tables = Tables(version: nat, rows: map<string, Row>)

  /** Upsert overwrites the caller's two timestamps with these. */
  function SqlStamped(row: Option<Row>, w: Write): Entity {
    var existing := if row.Some? then row.value.createdAtMs else 0;
    var created := if existing != 0 then existing
                   else if w.entity.createdAtMs > 0 then w.entity.createdAtMs
                   else w.now;
    w.entity.(createdAtMs := created, updatedAtMs := w.now)
  }

  /** INSERT ... ON CONFLICT(conv_id, entity_id): the creation column stays. */
  function SqlStored(t: Tables, w: Write): Tables {
    var id := w.entity.id;
    var entity := SqlStamped(Get(t.rows, id), w);
    var created := if id in t.rows then t.rows[id].createdAtMs else entity.createdAtMs;
    Tables(if w.version > t.version then w.version else t.version,
           t.rows[id := Row(w.entity.kind, created, w.now, w.version, entity)])
  }

  /** WHERE version > since, or every row for since 0. */
  function Selected(t: Tables, since: nat): set<Item> {
    set id | id in t.rows && (since == 0 || t.rows[id].version > since) :: Item(t.rows[id].createdAtMs, id)
  }

  /** SELECT ... ORDER BY created_at_ms, entity_id. */
  ghost function Query(t: Tables, since: nat): (rows: seq<Row>)
  {
    var items := Ordered(Selected(t, since));
    OrderedIsSorted(Selected(t, since));
    IdsOfElements(items);
    RowsOf(t, items)
  }

  function RowsOf(t: Tables, items: seq<Item>): seq<Row>
    requires Ids(items) <= t.rows.Keys
  {
    seq(|items|, i requires 0 <= i < |items| => assert items[i].id in Ids(items); t.rows[items[i].id])
  }

  function EntitiesOf(rows: seq<Row>): seq<Entity> {
    seq(|rows|, i requires 0 <= i < |rows| => rows[i].entity)
  }

  /** A truncated snapshot carries the version of its last row. */
  ghost function SqlSnapshotOf(t: Tables, convId: string, since: nat, limit: int): Snapshot {
    var rows := Query(t, since);
    var n := Limit(limit);
    Snapshot(convId, if |rows| > n then rows[n - 1].version else t.version, EntitiesOf(Take(rows, n)))
  }

  /** The rows of one conversation. */
  function RowsIn(entities: map<(string, string), Row>, convId: string): map<string, Row> {
    map k | k in entities && k.0 == convId :: k.1 := entities[k]
  }

  lemma RowsInUpdate(entities: map<(string, string), Row>, convId: string, id: string, row: Row, other: string)
    ensures RowsIn(entities[(convId, id) := row], other)
         == if other == convId then RowsIn(entities, convId)[id := row] else RowsIn(entities, other)
  {
    var updated := RowsIn(entities[(convId, id) := row], other);
    var rows := RowsIn(entities, other);
    forall k | k in rows ensures k in updated {
      assert (other, k) in entities;
      assert (other, k) in entities[(convId, id) := row];
    }
    if other == convId {
      assert (convId, id) in entities[(convId, id) := row];
      assert id in updated;
    }
    forall k | k in updated && (other != convId || k != id) ensures k in rows {
      assert (other, k) in entities[(convId, id) := row];
      assert (other, k) in entities;
    }
  }

  /** What Upsert writes back to the caller's entity and to its row. */
  method MakeRow(row: Option<Row>, w: Write) returns (entity: Entity, written: Row)
    ensures entity == SqlStamped(row, w)
    ensures written == Row(w.entity.kind, if row.Some? then row.value.createdAtMs else entity.createdAtMs,
                           w.now, w.version, entity)
  {
    var createdAt := 0;
    if row.Some? {
      createdAt := row.value.createdAtMs;
    }
    if createdAt == 0 {
      if w.entity.createdAtMs > 0 {
        createdAt := w.entity.createdAtMs;
      } else {
        createdAt := w.now;
      }
    }
    entity := w.entity.(createdAtMs := createdAt, updatedAtMs := w.now);
    written := Row(w.entity.kind, createdAt, w.now, w.version, entity);
    if row.Some? {
      written := written.(createdAtMs := row.value.createdAtMs);
    }
  }

  lemma EntitiesAppend(rows: seq<Row>, i: nat)
    requires i < |rows|
    ensures EntitiesOf(rows[..i + 1]) == EntitiesOf(rows[..i]) + [rows[i].entity]
  {
  }

  /** The loop over fetched rows, of which one beyond the limit says that the
      reply is cut short. */
  method Scan(rows: seq<Row>, limit: nat) returns (found: seq<Entity>, truncated: bool, lastVersion: nat)
    ensures found == EntitiesOf(Take(rows, limit))
    ensures truncated <==> |rows| > limit
    ensures found != [] ==> lastVersion == rows[|found| - 1].version
  {
    found, truncated, lastVersion := [], false, 0;
    var i := 0;
    while i < |rows|
      invariant 0 <= i <= |rows| && i <= limit
      invariant found == EntitiesOf(rows[..i]) && !truncated
      invariant i > 0 ==> lastVersion == rows[i - 1].version
    {
      if |found| >= limit {
        truncated := true;
        return;
      }
      EntitiesAppend(rows, i);
      found := found + [rows[i].entity];
      lastVersion := rows[i].version;
      i := i + 1;
    }
    assert rows[..i] == rows;
  }

  class SQLiteTimelineStore {
    var versions: map<string, nat>
    var entities: map<(string, string), Row>
    var conversations: map<string, ConversationRecord>

    constructor ()
      ensures versions == map[] && entities == map[] && conversations == map[]
    {
      versions, entities, conversations := map[], map[], map[];
    }

    function TablesOf(convId: string): Tables
      reads this
    {
      Tables(if convId in versions then versions[convId] else 0,
             RowsIn(entities, convId))
    }

    method Upsert(convId: string, w: Write) returns (r: Result<Entity>)
      modifies this
      ensures r.Ok? <==>
        && convId != "" && w.version != 0 && w.entity.id != "" && w.entity.kind != ""
        && w.version <= 9223372036854775807
      ensures r.Err? ==> unchanged(this)
      ensures r.Ok? ==>
        && r.value == SqlStamped(Get(old(TablesOf(convId)).rows, w.entity.id), w)
        && TablesOf(convId) == SqlStored(old(TablesOf(convId)), w)
        && (forall other | other != convId :: TablesOf(other) == old(TablesOf(other)))
        && conversations == old(conversations)[convId :=
             Index.SqlProgress(Get(old(conversations), convId), convId, TablesOf(convId).version, w.now)]
    {
      if convId == "" {
        return Err("sqlite timeline store: convID is empty");
      }
      if w.version == 0 {
        return Err("sqlite timeline store: version is 0");
      }
      if w.entity.id == "" {
        return Err("sqlite timeline store: entity.id is empty");
      }
      if w.entity.kind == "" {
        return Err("sqlite timeline store: entity.kind is empty");
      }
      if w.version > MAX_INT64 {
        return Err("value overflows int64");
      }
      var key := (convId, w.entity.id);
      var current := if convId in versions then versions[convId] else 0;
      var newVersion := current;
      if w.version > current {
        newVersion := w.version;
      }
      assert Get(entities, key) == Get(TablesOf(convId).rows, w.entity.id);
      var entity, row := MakeRow(Get(entities, key), w);
      forall other ensures RowsIn(entities[key := row], other)
          == if other == convId then RowsIn(entities, convId)[w.entity.id := row] else RowsIn(entities, other)
      {
        RowsInUpdate(entities, convId, w.entity.id, row, other);
      }
      entities := entities[key := row];
      versions := versions[convId := newVersion];
      conversations := conversations[convId :=
        Index.SqlProgress(Get(conversations, convId), convId, newVersion, w.now)];
      return Ok(entity);
    }

    /** The query with its LIMIT, run by the database engine. */
    method Select(convId: string, since: nat, fetchLimit: nat) returns (rows: seq<Row>)
      ensures rows == Take(Query(TablesOf(convId), since), fetchLimit)
    {
      var t := TablesOf(convId);
      var items: seq<Item> := [];
      var rest := t.rows.Keys;
      while rest != {}
        invariant rest <= t.rows.Keys
        invariant Elements(items) == set x | x in Selected(t, since) && x.id !in rest
        invariant forall i, j | 0 <= i < j < |items| :: items[i] != items[j]
        decreases |rest|
      {
        var id :| id in rest;
        if since == 0 || t.rows[id].version > since {
          var item := Item(t.rows[id].createdAtMs, id);
          assert item !in Elements(items);
          AppendElement(items, item);
          items := items + [item];
        }
        rest := rest - {id};
      }
      assert Elements(items) == Selected(t, since);
      items := Sort(items);
      OrderedIsSorted(Selected(t, since));
      IdsOfElements(items);
      rows := RowsOf(t, items);
      if fetchLimit < |rows| {
        rows := rows[..fetchLimit];
      }
    }

    method GetSnapshot(convId: string, since: nat, limit: int) returns (r: Result<Snapshot>)
      ensures r.Ok? <==> convId != ""
      ensures r.Ok? ==> r.value == SqlSnapshotOf(TablesOf(convId), convId, since, if limit <= 0 then 5000 else limit)
    {
      if convId == "" {
        return Err("sqlite timeline store: convID is empty");
      }
      var n := Limit(limit);
      var current := TablesOf(convId).version;
      var rows := Select(convId, since, n + 1);
      var found, truncated, lastReturnedVersion := Scan(rows, n);
      return Ok(Snapshot(convId, if truncated then lastReturnedVersion else current, found));
    }

    method UpsertConversation(record: ConversationRecord, now: int) returns (r: Result<()>)
      modifies this`conversations
      ensures var normal := Index.Normalize(record, now);
        && (r.Ok? <==> TrimSpace(record.convId) != "" && record.lastSeenVersion <= 9223372036854775807)
        && conversations == if r.Err? then old(conversations)
             else old(conversations)[normal.convId := Index.SqlMerge(Get(old(conversations), normal.convId), normal)]
    {
      var normal := Index.Normalize(record, now);
      if normal.convId == "" {
        return Err("sqlite timeline store: convID is empty");
      }
      if normal.lastSeenVersion > MAX_INT64 {
        return Err("sqlite timeline store: last_seen_version overflow");
      }
      conversations := conversations[normal.convId :=
        Index.SqlMerge(Get(conversations, normal.convId), normal)];
      return Ok(());
    }
  }

  /** One conversation after calls of Upsert, refused ones included. */
  function AfterSqlCall(t: Tables, w: Write): Tables {
    if w.Complete() && w.InRange() then SqlStored(t, w) else t
  }

  function AfterSqlCalls(ws: seq<Write>): Tables {
    if ws == [] then Tables(0, map[]) else AfterSqlCall(AfterSqlCalls(ws[..|ws| - 1]), ws[|ws| - 1])
  }
}
