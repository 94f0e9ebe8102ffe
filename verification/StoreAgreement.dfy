/** The memory store and the SQLite store as one interface: after which calls
    of Upsert they answer alike. */
module StoreAgreement {
  import opened Wrappers
  import opened Ranked
  import opened Timeline
  import opened TimelineMemory
  import opened TimelineSqlite

  ghost predicate Same(c: Conv, t: Tables) {
    && Matched(c)
    && c.version == t.version && c.entities.Keys == t.rows.Keys
    && forall id | id in c.entities ::
         && t.rows[id].entity == c.entities[id]
         && t.rows[id].version == c.entityVersion[id]
         && t.rows[id].createdAtMs == c.entities[id].createdAtMs > 0
  }

  /** The same entities are listed in the same order; the versions differ only
      when the reply is cut short before the newest row. */
  lemma SnapshotsAgree(c: Conv, t: Tables, convId: string, since: nat, limit: int)
    requires Same(c, t)
    ensures |Listed(c, since)| == |Query(t, since)|
    ensures var memory, sql := SnapshotOf(c, convId, since, limit), SqlSnapshotOf(t, convId, since, limit);
      && memory.entities == sql.entities
      && (memory == sql <==>
            |Listed(c, since)| <= Limit(limit) || Query(t, since)[Limit(limit) - 1].version == c.version)
  {
    ListedIsQueried(c, t, since);
    EntitiesOfTake(Query(t, since), Listed(c, since), Limit(limit));
  }

  lemma ListedIsQueried(c: Conv, t: Tables, since: nat)
    requires Same(c, t)
    ensures Listed(c, since) == EntitiesOf(Query(t, since))
  {
    var items := Ordered(Selected(t, since));
    assert FirstSeen(c, Changed(c, since)) == Selected(t, since);
    OrderedIsSorted(Selected(t, since));
    IdsOfElements(items);
    forall i | 0 <= i < |items| ensures Listed(c, since)[i] == Query(t, since)[i].entity {
      assert items[i].id in Ids(items);
    }
  }

  lemma EntitiesOfTake(rows: seq<Row>, entities: seq<Entity>, n: nat)
    requires entities == EntitiesOf(rows)
    ensures EntitiesOf(Take(rows, n)) == Take(entities, n)
  {
  }

  /** For a first write the two stores choose the same creation time exactly
      when the caller's is not negative. */
  lemma FirstCreationAgrees(w: Write)
    requires w.now > 0
    ensures Stamped(None, w) == SqlStamped(None, w) <==> w.entity.createdAtMs >= 0
  {
  }

  lemma StoredSame(c: Conv, t: Tables, w: Write)
    requires Same(c, t) && w.now > 0 && (w.entity.createdAtMs >= 0 || w.entity.id in t.rows)
    ensures Same(Stored(c, w), SqlStored(t, w))
  {
  }

  // ----- Whole runs -----

  function WrittenIds(ws: seq<Write>): set<string> {
    set i | 0 <= i < |ws| :: ws[i].entity.id
  }

  lemma WrittenAppend(init: seq<Write>, w: Write)
    ensures WrittenIds(init + [w]) == WrittenIds(init) + {w.entity.id}
  {
    var ws := init + [w];
    assert ws[|init|] == w;
    forall id | id in WrittenIds(init) ensures id in WrittenIds(ws) {
      var i :| 0 <= i < |init| && init[i].entity.id == id;
      assert ws[i].entity.id == id;
    }
  }

  /** Every clock reading is positive, and the memory store has room for every
      id. */
  ghost predicate Roomy(ws: seq<Write>, max: nat) {
    (forall i | 0 <= i < |ws| :: ws[i].now > 0) && |WrittenIds(Accepted(ws))| <= max
  }

  /** The call is refused by both stores, or its version fits SQLite's column
      and, if its id was never written before, its creation time is not
      negative. */
  ghost predicate InStep(ws: seq<Write>, i: nat)
    requires i < |ws|
  {
    ws[i].Complete() ==>
      ws[i].InRange() && (ws[i].entity.createdAtMs >= 0 || ws[i].entity.id in WrittenIds(Accepted(ws[..i])))
  }

  ghost predicate AllInStep(ws: seq<Write>) {
    forall i | 0 <= i < |ws| :: InStep(ws, i)
  }

  lemma WrittenStep(init: seq<Write>, last: Write)
    ensures WrittenIds(Accepted(init + [last])) ==
              WrittenIds(Accepted(init)) + (if last.Complete() then {last.entity.id} else {})
  {
    AcceptedStep(init, last);
    if last.Complete() {
      WrittenAppend(Accepted(init), last);
    }
  }

  lemma RoomyInit(ws: seq<Write>, max: nat)
    requires ws != [] && Roomy(ws, max)
    ensures Roomy(ws[..|ws| - 1], max)
  {
    var init, last := ws[..|ws| - 1], ws[|ws| - 1];
    assert ws == init + [last];
    WrittenStep(init, last);
    Fewer(WrittenIds(Accepted(init)), WrittenIds(Accepted(ws)));
  }

  lemma StoredInRoom(c: Conv, w: Write, ids: set<string>, max: nat)
    requires Matched(c) && c.entities.Keys == ids && |ids + {w.entity.id}| <= max
    ensures Upserted(c, w, max) == Stored(c, w) && Matched(Stored(c, w))
    ensures Stored(c, w).entities.Keys == ids + {w.entity.id}
  {
    var stored := Stored(c, w);
    assert stored.entities.Keys == ids + {w.entity.id};
    assert |stored.entities| == |stored.entities.Keys|;
  }

  /** With room for every id nothing is evicted: the store holds exactly the ids
      ever accepted. */
  lemma {:induction false} MemoryHoldsWritten(ws: seq<Write>, max: nat)
    requires Roomy(ws, max)
    ensures Matched(AfterCalls(EMPTY, ws, max))
    ensures AfterCalls(EMPTY, ws, max).entities.Keys == WrittenIds(Accepted(ws))
    ensures ws != [] && ws[|ws| - 1].Complete() ==>
              AfterCalls(EMPTY, ws, max) == Stored(AfterCalls(EMPTY, ws[..|ws| - 1], max), ws[|ws| - 1])
  {
    if ws != [] {
      var init, last := ws[..|ws| - 1], ws[|ws| - 1];
      assert ws == init + [last];
      RoomyInit(ws, max);
      MemoryHoldsWritten(init, max);
      WrittenStep(init, last);
      if last.Complete() {
        StoredInRoom(AfterCalls(EMPTY, init, max), last, WrittenIds(Accepted(init)), max);
      }
    }
  }

  lemma InStepOfInit(ws: seq<Write>, i: nat)
    requires ws != [] && i < |ws| - 1
    ensures InStep(ws, i) <==> InStep(ws[..|ws| - 1], i)
  {
    assert ws[..|ws| - 1][..i] == ws[..i];
  }

  lemma {:induction false} InStepSame(ws: seq<Write>, max: nat)
    requires Roomy(ws, max) && AllInStep(ws)
    ensures Same(AfterCalls(EMPTY, ws, max), AfterSqlCalls(ws))
  {
    if ws != [] {
      var init, last := ws[..|ws| - 1], ws[|ws| - 1];
      RoomyInit(ws, max);
      forall i | 0 <= i < |init| ensures InStep(init, i) {
        InStepOfInit(ws, i);
      }
      InStepSame(init, max);
      MemoryHoldsWritten(init, max);
      MemoryHoldsWritten(ws, max);
      assert InStep(ws, |init|);
      if last.Complete() {
        StoredSame(AfterCalls(EMPTY, init, max), AfterSqlCalls(init), last);
      }
    }
  }

  /** Every reply that neither store cuts short is the same. */
  ghost predicate ReadAlike(c: Conv, t: Tables, convId: string) {
    forall since: nat, limit: int | |Listed(c, since)| <= Limit(limit) && |Query(t, since)| <= Limit(limit) ::
      SnapshotOf(c, convId, since, limit) == SqlSnapshotOf(t, convId, since, limit)
  }

  lemma SameReadsAlike(c: Conv, t: Tables, convId: string)
    requires Same(c, t)
    ensures ReadAlike(c, t, convId)
  {
    forall since: nat, limit: int | |Listed(c, since)| <= Limit(limit) && |Query(t, since)| <= Limit(limit)
      ensures SnapshotOf(c, convId, since, limit) == SqlSnapshotOf(t, convId, since, limit)
    {
      SnapshotsAgree(c, t, convId, since, limit);
    }
  }

  /** Stores that read alike list the same entities and carry one version. */
  lemma FullRead(c: Conv, t: Tables, convId: string)
    requires ReadAlike(c, t, convId)
    ensures c.version == t.version && Listed(c, 0) == EntitiesOf(Query(t, 0))
  {
    var limit := |Listed(c, 0)| + |Query(t, 0)| + 1;
    assert SnapshotOf(c, convId, 0, limit) == SqlSnapshotOf(t, convId, 0, limit);
    assert Take(Listed(c, 0), limit) == Listed(c, 0) && Take(Query(t, 0), limit) == Query(t, 0);
  }

  /** A queried entity is the stored one. */
  lemma QueriedEntity(t: Tables, since: nat, i: nat)
    requires i < |Query(t, since)|
    ensures exists id :: id in t.rows && Query(t, since)[i] == t.rows[id]
  {
    var items := Ordered(Selected(t, since));
    OrderedIsSorted(Selected(t, since));
    IdsOfElements(items);
    assert items[i].id in Ids(items);
    assert items[i].id in t.rows;
  }

  /** A first write with a negative creation time shows. */
  lemma NegativeCreationShows(c: Conv, t: Tables, w: Write, convId: string)
    requires Same(c, t) && w.now > 0 && w.entity.createdAtMs < 0 && w.entity.id !in t.rows
    ensures !ReadAlike(Stored(c, w), SqlStored(t, w), convId)
  {
    var after, rows := Stored(c, w), SqlStored(t, w);
    if ReadAlike(after, rows, convId) {
      FullRead(after, rows, convId);
      ListedMeaning(after, 0);
      assert w.entity.id in Changed(after, 0);
      var i :| 0 <= i < |Listed(after, 0)| && Listed(after, 0)[i].id == w.entity.id;
      QueriedEntity(rows, 0, i);
      assert false;
    }
  }

  /** The first call that is out of step shows in some read. */
  lemma OutOfStepShows(c: Conv, t: Tables, w: Write, convId: string)
    requires Same(c, t) && c.version <= MAX_INT64 && w.Complete() && w.now > 0
    requires !(w.InRange() && (w.entity.createdAtMs >= 0 || w.entity.id in t.rows))
    ensures !ReadAlike(Stored(c, w), AfterSqlCall(t, w), convId)
  {
    if w.InRange() {
      NegativeCreationShows(c, t, w, convId);
    } else if ReadAlike(Stored(c, w), AfterSqlCall(t, w), convId) {
      FullRead(Stored(c, w), AfterSqlCall(t, w), convId);
    }
  }

  lemma {:induction false} SqlVersionFits(ws: seq<Write>)
    ensures AfterSqlCalls(ws).version <= MAX_INT64
  {
    if ws != [] {
      SqlVersionFits(ws[..|ws| - 1]);
    }
  }

  lemma {:induction false} FirstOutOfStep(ws: seq<Write>) returns (i: nat)
    requires !AllInStep(ws)
    ensures i < |ws| && !InStep(ws, i) && AllInStep(ws[..i])
  {
    var init := ws[..|ws| - 1];
    forall k | 0 <= k < |init| ensures InStep(ws, k) <==> InStep(init, k) {
      InStepOfInit(ws, k);
    }
    if AllInStep(init) {
      i := |ws| - 1;
    } else {
      i := FirstOutOfStep(init);
      assert init[..i] == ws[..i];
      assert InStep(ws, i) <==> InStep(init, i);
    }
  }

  lemma {:induction false} RoomyPrefix(ws: seq<Write>, max: nat, n: nat)
    requires Roomy(ws, max) && n <= |ws|
    ensures Roomy(ws[..n], max)
  {
    if n == |ws| {
      assert ws[..n] == ws;
    } else {
      RoomyInit(ws, max);
      RoomyPrefix(ws[..|ws| - 1], max, n);
      assert ws[..|ws| - 1][..n] == ws[..n];
    }
  }

  lemma DivergedAfter(ws: seq<Write>, max: nat, i: nat, convId: string)
    requires Roomy(ws, max) && i < |ws| && !InStep(ws, i) && AllInStep(ws[..i])
    ensures !ReadAlike(AfterCalls(EMPTY, ws[..i + 1], max), AfterSqlCalls(ws[..i + 1]), convId)
  {
    var before, upTo := ws[..i], ws[..i + 1];
    assert upTo[..|upTo| - 1] == before && upTo[|upTo| - 1] == ws[i];
    RoomyPrefix(ws, max, i);
    RoomyPrefix(ws, max, i + 1);
    InStepSame(before, max);
    MemoryHoldsWritten(before, max);
    MemoryHoldsWritten(upTo, max);
    SqlVersionFits(before);
    OutOfStepShows(AfterCalls(EMPTY, before, max), AfterSqlCalls(before), ws[i], convId);
  }

  /** After every call of a run the two stores answer every untruncated read
      alike, exactly when every call that is not refused by both has a version
      within SQLite's range and, if it is the first with its id, no negative
      creation time. */
  lemma StoresObservationallyEqual(ws: seq<Write>, max: nat, convId: string)
    requires Roomy(ws, max)
    ensures (forall n | 0 <= n <= |ws| ::
               ReadAlike(AfterCalls(EMPTY, ws[..n], max), AfterSqlCalls(ws[..n]), convId))
            <==> AllInStep(ws)
  {
    if AllInStep(ws) {
      forall n | 0 <= n <= |ws|
        ensures ReadAlike(AfterCalls(EMPTY, ws[..n], max), AfterSqlCalls(ws[..n]), convId)
      {
        RoomyPrefix(ws, max, n);
        forall i | 0 <= i < n ensures InStep(ws[..n], i) {
          assert InStep(ws, i) && ws[..n][..i] == ws[..i];
        }
        InStepSame(ws[..n], max);
        SameReadsAlike(AfterCalls(EMPTY, ws[..n], max), AfterSqlCalls(ws[..n]), convId);
      }
    } else {
      var i := FirstOutOfStep(ws);
      DivergedAfter(ws, max, i, convId);
    }
  }
}
