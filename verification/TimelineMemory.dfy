/** The size-limited in-memory timeline store. */
module TimelineMemory {
  import opened Wrappers
  import opened Ranked
  import opened Text
  import opened Timeline
  import Index = ConversationIndex

  /** inMemTimeline. */
  datatype Conv = Conv(version: nat, entities: map<string, Entity>, entityVersion: map<string, nat>)

  const EMPTY := Conv(0, map[], map[])

  // ----- One write -----

  function CreatedAt(existing: Option<Entity>, entity: Entity, now: int): int {
    var created := if existing.Some? && existing.value.createdAtMs > 0
                   then existing.value.createdAtMs else entity.createdAtMs;
    if created == 0 then now else created
  }

  function Get<K, V>(m: map<K, V>, id: K): Option<V> {
    if id in m then Some(m[id]) else None
  }

  function Stamped(existing: Option<Entity>, w: Write): Entity {
    w.entity.(createdAtMs := CreatedAt(existing, w.entity, w.now), updatedAtMs := w.now)
  }

  /** The write itself, before the size limit is enforced. */
  function Stored(c: Conv, w: Write): Conv {
    var id := w.entity.id;
    Conv(if w.version > c.version then w.version else c.version,
         c.entities[id := Stamped(Get(c.entities, id), w)],
         c.entityVersion[id := w.version])
  }

  function Ages(c: Conv): set<Item> {
    set id | id in c.entityVersion :: Item(c.entityVersion[id], id)
  }

  function Ids(items: seq<Item>): set<string> {
    set i | 0 <= i < |items| :: items[i].id
  }

  function Without(c: Conv, ids: set<string>): Conv {
    c.(entities := c.entities - ids, entityVersion := c.entityVersion - ids)
  }

  /** Ids of the n oldest written entities. */
  ghost function Oldest(c: Conv, n: nat): set<string> {
    var ages := Ordered(Ages(c));
    Ids(if n <= |ages| then ages[..n] else ages)
  }

  /** The oldest written entities beyond the limit are gone. */
  ghost function Evicted(c: Conv, max: nat): Conv {
    if |c.entities| <= max then c else Without(c, Oldest(c, |c.entities| - max))
  }

  ghost function Upserted(c: Conv, w: Write, max: nat): Conv {
    Evicted(Stored(c, w), max)
  }

  // ----- Snapshots -----

  /** Ids a reader who is at version since has not seen; 0 reads everything. */
  function Changed(c: Conv, since: nat): set<string> {
    set id | id in c.entities && id in c.entityVersion && (since == 0 || c.entityVersion[id] > since)
  }

  function FirstSeen(c: Conv, ids: set<string>): set<Item> {
    set id | id in ids && id in c.entities :: Item(c.entities[id].createdAtMs, id)
  }

  function Lookup(c: Conv, items: seq<Item>): seq<Entity>
    requires Ids(items) <= c.entities.Keys
  {
    seq(|items|, i requires 0 <= i < |items| =>
      assert items[i].id in Ids(items); c.entities[items[i].id])
  }

  function Take<T>(s: seq<T>, n: nat): seq<T> {
    if n < |s| then s[..n] else s
  }

  lemma IdsOfElements(items: seq<Item>)
    ensures Ids(items) == set x | x in Elements(items) :: x.id
  {
    forall id | id in Ids(items) ensures id in (set x | x in Elements(items) :: x.id) {
      var i :| 0 <= i < |items| && items[i].id == id;
      assert items[i] in Elements(items);
    }
  }

  /** Changed entities in first-seen order. */
  ghost function Listed(c: Conv, since: nat): seq<Entity> {
    var items := Ordered(FirstSeen(c, Changed(c, since)));
    OrderedIsSorted(FirstSeen(c, Changed(c, since)));
    IdsOfElements(items);
    Lookup(c, items)
  }

  ghost function SnapshotOf(c: Conv, convId: string, since: nat, limit: int): Snapshot {
    Snapshot(convId, c.version, Take(Listed(c, since), Limit(limit)))
  }

  ghost predicate Matched(c: Conv) {
    && c.entities.Keys == c.entityVersion.Keys
    && forall id | id in c.entities :: c.entities[id].id == id
  }

  class InMemoryTimelineStore {
    const maxEntitiesPerConv: nat
    var convs: map<string, Conv>
    var conversations: map<string, ConversationRecord>

    constructor (max: int)
      ensures maxEntitiesPerConv == (if max <= 0 then 5000 else max) > 0
      ensures convs == map[] && conversations == map[]
    {
      maxEntitiesPerConv := if max <= 0 then 5000 else max;
      convs, conversations := map[], map[];
    }

    ghost predicate Valid()
      reads this
    {
      maxEntitiesPerConv > 0 && forall k | k in convs :: Matched(convs[k])
    }

    function ConvOf(convId: string): Conv
      reads this
    {
      if convId in convs then convs[convId] else EMPTY
    }

    function RecordOf(convId: string): ConversationRecord
      reads this
    {
      if convId in conversations then conversations[convId] else Index.ZERO
    }

    method Upsert(convId: string, w: Write) returns (r: Result<()>)
      requires Valid()
      modifies this
      ensures Valid()
      ensures r.Ok? <==> convId != "" && w.version != 0 && w.entity.id != "" && w.entity.kind != ""
      ensures r.Err? ==> unchanged(this)
      ensures r.Ok? ==>
        && convs == old(convs)[convId := Upserted(old(ConvOf(convId)), w, maxEntitiesPerConv)]
        && conversations == old(conversations)[convId :=
             Index.Progress(old(RecordOf(convId)), convId, ConvOf(convId).version, w.now)]
    {
      if convId == "" {
        return Err("in-memory timeline store: convID is empty");
      }
      if w.version == 0 {
        return Err("in-memory timeline store: version is 0");
      }
      if w.entity.id == "" {
        return Err("in-memory timeline store: entity.id is empty");
      }
      if w.entity.kind == "" {
        return Err("in-memory timeline store: entity.kind is empty");
      }
      var stored, kept := Put(ConvOf(convId), w, maxEntitiesPerConv);
      conversations := conversations[convId := Index.Progress(RecordOf(convId), convId, stored.version, w.now)];
      convs := convs[convId := kept];
      return Ok(());
    }

    /** Upsert, called once for each write; a refusal does not stop the caller. */
    method UpsertEach(convId: string, ws: seq<Write>) returns (accepted: seq<Write>)
      requires Valid()
      modifies this
      ensures Valid()
      ensures accepted == if convId == "" then [] else Accepted(ws)
      ensures ConvOf(convId) ==
                if convId == "" then old(ConvOf(convId))
                else AfterCalls(old(ConvOf(convId)), ws, maxEntitiesPerConv)
      ensures RecordOf(convId) ==
                if convId == "" then old(RecordOf(convId))
                else RecordAfter(old(RecordOf(convId)), old(ConvOf(convId)), ws, convId, maxEntitiesPerConv)
      ensures forall k | k != convId :: ConvOf(k) == old(ConvOf(k)) && RecordOf(k) == old(RecordOf(k))
    {
      ghost var c, r := ConvOf(convId), RecordOf(convId);
      accepted := [];
      for i := 0 to |ws|
        invariant Valid()
        invariant accepted == if convId == "" then [] else Accepted(ws[..i])
        invariant ConvOf(convId) == if convId == "" then c else AfterCalls(c, ws[..i], maxEntitiesPerConv)
        invariant RecordOf(convId) ==
                    if convId == "" then r else RecordAfter(r, c, ws[..i], convId, maxEntitiesPerConv)
        invariant forall k | k != convId :: ConvOf(k) == old(ConvOf(k)) && RecordOf(k) == old(RecordOf(k))
      {
        assert ws[..i + 1][..i] == ws[..i] && ws[..i + 1][i] == ws[i];
        var stored := Upsert(convId, ws[i]);
        if stored.Ok? {
          VersionKept(Stored(AfterCalls(c, ws[..i], maxEntitiesPerConv), ws[i]), maxEntitiesPerConv);
          accepted := accepted + [ws[i]];
        }
      }
      assert ws[..|ws|] == ws;
    }

    method GetSnapshot(convId: string, since: nat, limit: int) returns (r: Result<Snapshot>)
      requires Valid()
      ensures r.Ok? <==> convId != ""
      ensures r.Ok? ==> r.value == SnapshotOf(ConvOf(convId), convId, since, if limit <= 0 then 5000 else limit)
    {
      if convId == "" {
        return Err("in-memory timeline store: convID is empty");
      }
      if convId !in convs {
        EmptyList(since);
        return Ok(Snapshot(convId, 0, []));
      }
      var conv := convs[convId];
      var entities := List(conv, since);
      if |entities| > Limit(limit) {
        entities := entities[..Limit(limit)];
      }
      return Ok(Snapshot(convId, conv.version, entities));
    }

    method UpsertConversation(record: ConversationRecord, now: int) returns (r: Result<()>)
      modifies this
      ensures convs == old(convs)
      ensures var normal := Index.Normalize(record, now);
        && (r.Ok? <==> TrimSpace(record.convId) != "")
        && conversations == if r.Err? then old(conversations)
             else old(conversations)[normal.convId := Index.Merge(old(RecordOf(normal.convId)), normal, now)]
    {
      var normal := Index.Normalize(record, now);
      if normal.convId == "" {
        return Err("in-memory timeline store: convID is empty");
      }
      conversations := conversations[normal.convId := Index.Merge(RecordOf(normal.convId), normal, now)];
      return Ok(());
    }
  }

  lemma VersionKept(c: Conv, max: nat)
    ensures Evicted(c, max).version == c.version
  {
  }

  lemma AgesFinite(c: Conv)
    ensures |Ages(c)| == |c.entityVersion|
  {
    ItemsOfIds(c.entityVersion.Keys, c.entityVersion);
    assert Ages(c) == set id | id in c.entityVersion.Keys :: Item(c.entityVersion[id], id);
    assert |c.entityVersion.Keys| == |c.entityVersion|;
  }

  lemma {:induction false} ItemsOfIds(ids: set<string>, ranks: map<string, nat>)
    requires ids <= ranks.Keys
    ensures |set id | id in ids :: Item(ranks[id], id)| == |ids|
  {
    if ids != {} {
      var one :| one in ids;
      ItemsOfIds(ids - {one}, ranks);
      assert (set id | id in ids :: Item(ranks[id], id))
          == (set id | id in ids - {one} :: Item(ranks[id], id)) + {Item(ranks[one], one)};
    }
  }

  /** The body of Upsert on one conversation. */
  method Put(c: Conv, w: Write, max: nat) returns (stored: Conv, kept: Conv)
    requires Matched(c)
    ensures stored == Stored(c, w) && kept == Evicted(stored, max)
    ensures Matched(kept) && kept.version == stored.version
  {
    var id := w.entity.id;
    var createdAt := w.entity.createdAtMs;
    if id in c.entities && c.entities[id].createdAtMs > 0 {
      createdAt := c.entities[id].createdAtMs;
    }
    if createdAt == 0 {
      createdAt := w.now;
    }
    var clone := w.entity.(createdAtMs := createdAt, updatedAtMs := w.now);
    stored := c.(entities := c.entities[id := clone], entityVersion := c.entityVersion[id := w.version]);
    if w.version > c.version {
      stored := stored.(version := w.version);
    }
    assert stored == Stored(c, w);
    kept := Trim(stored, max);
  }

  /** Evict, when the conversation is over the limit. */
  method Trim(c: Conv, max: nat) returns (kept: Conv)
    requires Matched(c)
    ensures kept == Evicted(c, max) && Matched(kept) && kept.version == c.version
  {
    if |c.entities| > max {
      kept := Evict(c, max);
    } else {
      kept := c;
    }
  }

  method Collect(ranks: map<string, nat>) returns (pairs: seq<Item>)
    ensures Elements(pairs) == set id | id in ranks :: Item(ranks[id], id)
    ensures forall i, j | 0 <= i < j < |pairs| :: pairs[i] != pairs[j]
  {
    pairs := [];
    var rest := ranks.Keys;
    while rest != {}
      invariant rest <= ranks.Keys
      invariant Elements(pairs) == set id | id in ranks.Keys - rest :: Item(ranks[id], id)
      invariant forall i, j | 0 <= i < j < |pairs| :: pairs[i] != pairs[j]
      decreases |rest|
    {
      var id :| id in rest;
      var pair := Item(ranks[id], id);
      assert pair !in Elements(pairs);
      AppendElement(pairs, pair);
      pairs, rest := pairs + [pair], rest - {id};
    }
  }

  lemma IdsPrefix(items: seq<Item>, i: nat)
    requires i < |items|
    ensures Ids(items[..i + 1]) == Ids(items[..i]) + {items[i].id}
  {
    assert items[..i + 1][i] == items[i];
    forall id | id in Ids(items[..i]) ensures id in Ids(items[..i + 1]) {
      var j :| 0 <= j < i && items[..i][j].id == id;
      assert items[..i + 1][j].id == id;
    }
  }

  /** The eviction loop: sort by version, delete from the front. */
  method Evict(c: Conv, max: nat) returns (kept: Conv)
    requires Matched(c) && |c.entities| > max
    ensures kept == Evicted(c, max) && Matched(kept) && kept.version == c.version
  {
    var pairs := Collect(c.entityVersion);
    pairs := Sort(pairs);
    AgesLength(c);
    var excess := |c.entities| - max;
    kept := c;
    assert Without(c, {}) == c && Ids(pairs[..0]) == {};
    for i := 0 to excess
      invariant kept == Without(c, Ids(pairs[..i]))
    {
      IdsPrefix(pairs, i);
      WithoutMore(c, Ids(pairs[..i]), {pairs[i].id});
      kept := Without(kept, {pairs[i].id});
    }
  }

  lemma AgesLength(c: Conv)
    requires Matched(c)
    ensures |Ordered(Ages(c))| == |c.entities|
  {
    OrderedIsSorted(Ages(c));
    AgesFinite(c);
    assert |c.entities| == |c.entities.Keys| && |c.entityVersion| == |c.entityVersion.Keys|;
  }

  lemma WithoutMore(c: Conv, a: set<string>, b: set<string>)
    ensures Without(Without(c, a), b) == Without(c, a + b)
  {
    assert c.entities - a - b == c.entities - (a + b);
    assert c.entityVersion - a - b == c.entityVersion - (a + b);
  }

  lemma EmptyList(since: nat)
    ensures Listed(EMPTY, since) == []
  {
    OrderedIsSorted(FirstSeen(EMPTY, Changed(EMPTY, since)));
    assert FirstSeen(EMPTY, Changed(EMPTY, since)) == {};
  }

  /** The filtering and sorting loops of GetSnapshot. */
  method List(c: Conv, since: nat) returns (entities: seq<Entity>)
    requires Matched(c)
    ensures entities == Listed(c, since)
  {
    var pairs: seq<Item> := [];
    var rest := c.entities.Keys;
    while rest != {}
      invariant rest <= c.entities.Keys
      invariant Elements(pairs) == FirstSeen(c, Changed(c, since) - rest)
      invariant forall i, j | 0 <= i < j < |pairs| :: pairs[i] != pairs[j]
      decreases |rest|
    {
      var id :| id in rest;
      if since > 0 && c.entityVersion[id] <= since {
        assert Changed(c, since) - rest == Changed(c, since) - (rest - {id});
        rest := rest - {id};
        continue;
      }
      var pair := Item(c.entities[id].createdAtMs, id);
      assert pair !in Elements(pairs);
      AppendElement(pairs, pair);
      pairs, rest := pairs + [pair], rest - {id};
    }
    assert Changed(c, since) - rest == Changed(c, since);
    pairs := Sort(pairs);
    OrderedIsSorted(FirstSeen(c, Changed(c, since)));
    IdsOfElements(pairs);
    entities := Lookup(c, pairs);
  }

  /** A snapshot lists exactly the changed entities, each once. */
  lemma ListedMeaning(c: Conv, since: nat)
    requires Matched(c)
    ensures forall i | 0 <= i < |Listed(c, since)| ::
              var e := Listed(c, since)[i]; e.id in Changed(c, since) && e == c.entities[e.id]
    ensures forall id | id in Changed(c, since) :: exists i :: 0 <= i < |Listed(c, since)| && Listed(c, since)[i].id == id
    ensures forall i, j | 0 <= i < j < |Listed(c, since)| :: Listed(c, since)[i].id != Listed(c, since)[j].id
  {
    var s := FirstSeen(c, Changed(c, since));
    var items := Ordered(s);
    OrderedIsSorted(s);
    IdsOfElements(items);
    forall i | 0 <= i < |items| ensures items[i] in s && Listed(c, since)[i].id == items[i].id {
      assert items[i] in Elements(items);
    }
    forall id | id in Changed(c, since) ensures exists i :: 0 <= i < |items| && Listed(c, since)[i].id == id {
      assert Item(c.entities[id].createdAtMs, id) in s;
      var i :| 0 <= i < |items| && items[i] == Item(c.entities[id].createdAtMs, id);
    }
    forall i, j | 0 <= i < j < |items| ensures items[i].id != items[j].id {
      BeforeIsStrict(items[i], items[j], items[i]);
    }
  }

  /** Created earlier, or at the same time under an id that comes first. */
  predicate SeenBefore(a: Entity, b: Entity) {
    a.createdAtMs < b.createdAtMs || (a.createdAtMs == b.createdAtMs && Less(a.id, b.id))
  }

  /** A snapshot lists its entities in the order in which they were created. */
  lemma ListedInOrder(c: Conv, since: nat, i: nat, j: nat)
    requires Matched(c) && i < j < |Listed(c, since)|
    ensures SeenBefore(Listed(c, since)[i], Listed(c, since)[j])
  {
    var s := FirstSeen(c, Changed(c, since));
    var items := Ordered(s);
    OrderedIsSorted(s);
    assert items[i] in Elements(items) && items[j] in Elements(items);
    assert items[i].Before(items[j]);
  }

  // ----- Every history -----

  lemma {:induction false} Fewer(a: set<string>, b: set<string>)
    requires a <= b
    ensures |a| <= |b|
  {
    if a != {} {
      var x :| x in a;
      Fewer(a - {x}, b - {x});
    }
  }

  /** A conversation's index record after calls of Upsert. */
  ghost function RecordAfter(r: ConversationRecord, c: Conv, ws: seq<Write>, convId: string, max: nat): ConversationRecord {
    if ws == [] then r
    else
      var init, last := ws[..|ws| - 1], ws[|ws| - 1];
      var before := RecordAfter(r, c, init, convId, max);
      if last.Complete()
      then Index.Progress(before, convId, Stored(AfterCalls(c, init, max), last).version, last.now)
      else before
  }

  /** A conversation after writes that the store accepts. */
  ghost function Replay(ws: seq<Write>, max: nat): Conv {
    if ws == [] then EMPTY else Upserted(Replay(ws[..|ws| - 1], max), ws[|ws| - 1], max)
  }

  /** A conversation after calls of Upsert, refused ones included. */
  ghost function AfterCalls(c: Conv, ws: seq<Write>, max: nat): Conv {
    if ws == [] then c
    else
      var before := AfterCalls(c, ws[..|ws| - 1], max);
      if ws[|ws| - 1].Complete() then Upserted(before, ws[|ws| - 1], max) else before
  }

  lemma ReplayStep(init: seq<Write>, last: Write, max: nat)
    ensures Replay(init + [last], max) == Upserted(Replay(init, max), last, max)
  {
    assert (init + [last])[..|init|] == init;
  }

  lemma {:induction false} CallsReplay(ws: seq<Write>, max: nat)
    ensures AfterCalls(EMPTY, ws, max) == Replay(Accepted(ws), max)
  {
    if ws != [] {
      var init, last := ws[..|ws| - 1], ws[|ws| - 1];
      assert ws == init + [last];
      CallsReplay(init, max);
      AcceptedStep(init, last);
      ReplayStep(Accepted(init), last, max);
    }
  }

  function HighestVersion(ws: seq<Write>): nat {
    if ws == [] then 0
    else
      var v := HighestVersion(ws[..|ws| - 1]);
      if ws[|ws| - 1].version > v then ws[|ws| - 1].version else v
  }

  lemma EvictedBounds(c: Conv, max: nat)
    requires Matched(c)
    ensures var kept := Evicted(c, max);
      && Matched(kept)
      && |kept.entities| == (if |c.entities| <= max then |c.entities| else max)
      && kept.entities.Keys <= c.entities.Keys
      && kept.version == c.version
  {
    if |c.entities| > max {
      var gone := Excess(c, max);
      WithoutCount(c, gone);
    }
  }

  lemma Excess(c: Conv, max: nat) returns (gone: set<string>)
    requires Matched(c) && |c.entities| > max
    ensures gone <= c.entities.Keys && |gone| == |c.entities| - max
    ensures Evicted(c, max) == Without(c, gone)
  {
    OldestCount(c, |c.entities| - max);
    gone := Oldest(c, |c.entities| - max);
  }

  lemma OldestCount(c: Conv, n: nat)
    requires Matched(c) && n <= |c.entities|
    ensures Oldest(c, n) <= c.entities.Keys && |Oldest(c, n)| == n
  {
    AgesLength(c);
    AgesHaveDistinctIds(c, n);
    DistinctIds(Ordered(Ages(c)), n);
  }

  /** The entity was written at an older version than the other, or at the same
      version under an id that comes first. */
  predicate WrittenBefore(c: Conv, a: string, b: string)
    requires a in c.entityVersion && b in c.entityVersion
  {
    c.entityVersion[a] < c.entityVersion[b] || (c.entityVersion[a] == c.entityVersion[b] && Less(a, b))
  }

  lemma OldestWrittenBefore(c: Conv, n: nat, gone: string, stays: string)
    requires n <= |Ordered(Ages(c))| && gone in Oldest(c, n)
    requires stays in c.entityVersion && stays !in Oldest(c, n)
    ensures gone in c.entityVersion && WrittenBefore(c, gone, stays)
  {
    var ages := Ordered(Ages(c));
    OrderedIsSorted(Ages(c));
    var i :| 0 <= i < n && ages[..n][i].id == gone;
    assert ages[i] in Elements(ages);
    assert Item(c.entityVersion[stays], stays) in Elements(ages);
    var j :| 0 <= j < |ages| && ages[j] == Item(c.entityVersion[stays], stays);
    assert forall k | 0 <= k < n :: ages[..n][k] == ages[k] && ages[..n][k].id in Ids(ages[..n]);
    assert ages[i].Before(ages[j]);
  }

  /** Whatever is evicted was written before whatever is kept, and what is kept
      is unchanged. */
  lemma EvictsOldest(c: Conv, max: nat, gone: string, stays: string)
    requires Matched(c) && gone in c.entities && gone !in Evicted(c, max).entities && stays in Evicted(c, max).entities
    ensures stays in c.entities && WrittenBefore(c, gone, stays)
    ensures Evicted(c, max).entities[stays] == c.entities[stays]
    ensures stays in Evicted(c, max).entityVersion && Evicted(c, max).entityVersion[stays] == c.entityVersion[stays]
  {
    AgesLength(c);
    OldestWrittenBefore(c, |c.entities| - max, gone, stays);
  }

  lemma WithoutCount(c: Conv, gone: set<string>)
    requires Matched(c) && gone <= c.entities.Keys
    ensures Matched(Without(c, gone))
    ensures |Without(c, gone).entities| == |c.entities| - |gone|
    ensures Without(c, gone).entities.Keys <= c.entities.Keys && Without(c, gone).version == c.version
  {
    var left := c.entities - gone;
    assert left.Keys == c.entities.Keys - gone;
    assert |left| == |left.Keys| && |c.entities| == |c.entities.Keys|;
  }

  ghost predicate NoSharedId(items: seq<Item>) {
    forall i, j | 0 <= i < j < |items| :: items[i].id != items[j].id
  }

  lemma AgesHaveDistinctIds(c: Conv, n: nat)
    requires n <= |Ordered(Ages(c))|
    ensures NoSharedId(Ordered(Ages(c)))
    ensures Ids(Ordered(Ages(c))[..n]) <= c.entityVersion.Keys
  {
    OrderedIsSorted(Ages(c));
    var ages := Ordered(Ages(c));
    forall i | 0 <= i < |ages|
      ensures ages[i].id in c.entityVersion && ages[i].rank == c.entityVersion[ages[i].id]
    {
      assert ages[i] in Elements(ages);
    }
    forall i, j | 0 <= i < j < |ages| ensures ages[i].id != ages[j].id {
      assert ages[i].Before(ages[j]);
      BeforeIsStrict(ages[i], ages[j], ages[i]);
    }
  }

  lemma LastIdIsNew(items: seq<Item>, n: nat)
    requires NoSharedId(items) && n < |items|
    ensures items[n].id !in Ids(items[..n])
  {
    assert forall i | 0 <= i < n :: items[..n][i] == items[i];
  }

  lemma {:induction false} DistinctIds(items: seq<Item>, n: nat)
    requires NoSharedId(items) && n <= |items|
    ensures |Ids(items[..n])| == n
  {
    if n > 0 {
      DistinctIds(items, n - 1);
      IdsPrefix(items, n - 1);
      LastIdIsNew(items, n - 1);
    }
  }

  lemma {:induction false} ReplayBounds(ws: seq<Write>, max: nat)
    requires max > 0
    ensures var c := Replay(ws, max);
      Matched(c) && |c.entities| <= max && c.version == HighestVersion(ws)
  {
    if ws != [] {
      ReplayBounds(ws[..|ws| - 1], max);
      EvictedBounds(Stored(Replay(ws[..|ws| - 1], max), ws[|ws| - 1]), max);
    }
  }

  /** After any calls the two maps have the same ids, at most max of them, and
      the version is the greatest ever accepted. */
  lemma StoreBounds(ws: seq<Write>, max: nat)
    requires max > 0
    ensures var c := AfterCalls(EMPTY, ws, max);
      Matched(c) && |c.entities| <= max && c.version == HighestVersion(Accepted(ws))
  {
    CallsReplay(ws, max);
    ReplayBounds(Accepted(ws), max);
  }
}
