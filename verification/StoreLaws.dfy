/** What the two timeline stores hold for an entity, told by the calls of Upsert
    alone. */
module StoreLaws {
  import opened Wrappers
  import opened Timeline
  import opened TimelineMemory
  import opened TimelineSqlite
  import opened StoreAgreement

  /** A call that names version, id and kind; SQLite's column holds a signed
      64-bit version. */
  predicate Names(w: Write) {
    w.version != 0 && w.entity.id != "" && w.entity.kind != ""
  }

  predicate Fits(w: Write) {
    Names(w) && w.version <= 9223372036854775807
  }

  predicate TakenAt(ws: seq<Write>, id: string, sql: bool, k: int) {
    0 <= k < |ws| && ws[k].entity.id == id && (if sql then Fits(ws[k]) else Names(ws[k]))
  }

  ghost predicate LastTaken(ws: seq<Write>, id: string, sql: bool, k: int) {
    TakenAt(ws, id, sql, k) && forall j | k < j :: !TakenAt(ws, id, sql, j)
  }

  ghost predicate FirstTaken(ws: seq<Write>, id: string, sql: bool, k: int) {
    TakenAt(ws, id, sql, k) && forall j | j < k :: !TakenAt(ws, id, sql, j)
  }

  ghost predicate PositiveClocks(ws: seq<Write>) {
    forall i | 0 <= i < |ws| :: ws[i].now > 0
  }

  lemma TakenEarlier(ws: seq<Write>, id: string, sql: bool, k: int)
    requires ws != [] && k < |ws| - 1
    ensures TakenAt(ws, id, sql, k) <==> TakenAt(ws[..|ws| - 1], id, sql, k)
  {
  }

  // ----- SQLite -----

  lemma {:induction false} RowExists(ws: seq<Write>, id: string)
    ensures id in AfterSqlCalls(ws).rows <==> exists k :: TakenAt(ws, id, true, k)
  {
    if ws != [] {
      var init := ws[..|ws| - 1];
      RowExists(init, id);
      forall k | k < |ws| - 1 ensures TakenAt(ws, id, true, k) <==> TakenAt(init, id, true, k) {
        TakenEarlier(ws, id, true, k);
      }
      if id in AfterSqlCalls(init).rows {
        var k :| TakenAt(init, id, true, k);
        assert TakenAt(ws, id, true, k);
      } else if TakenAt(ws, id, true, |ws| - 1) {
        assert id in AfterSqlCalls(ws).rows;
      } else {
        assert forall k :: !TakenAt(ws, id, true, k);
      }
    }
  }

  /** The row is its last write, with that write's clock as time of update. */
  lemma {:induction false} RowIsLastWrite(ws: seq<Write>, id: string, k: nat)
    requires LastTaken(ws, id, true, k)
    ensures id in AfterSqlCalls(ws).rows
    ensures var row, w := AfterSqlCalls(ws).rows[id], ws[k];
      && row.kind == w.entity.kind && row.version == w.version && row.updatedAtMs == w.now
      && row.entity == w.entity.(createdAtMs := row.entity.createdAtMs, updatedAtMs := w.now)
  {
    var init := ws[..|ws| - 1];
    if k < |ws| - 1 {
      assert !TakenAt(ws, id, true, |ws| - 1);
      forall j | k < j ensures !TakenAt(init, id, true, j) {
        assert !TakenAt(ws, id, true, j);
      }
      TakenEarlier(ws, id, true, k);
      RowIsLastWrite(init, id, k);
    }
  }

  /** Column and entity keep the time at which the id was first written: the
      caller's if positive, else that call's clock. */
  lemma {:induction false} RowKeepsCreation(ws: seq<Write>, id: string, k: nat)
    requires FirstTaken(ws, id, true, k) && PositiveClocks(ws)
    ensures id in AfterSqlCalls(ws).rows
    ensures var row := AfterSqlCalls(ws).rows[id];
      row.createdAtMs == row.entity.createdAtMs
      == if ws[k].entity.createdAtMs > 0 then ws[k].entity.createdAtMs else ws[k].now
  {
    var init := ws[..|ws| - 1];
    if k < |ws| - 1 {
      forall j | j <= k ensures TakenAt(init, id, true, j) <==> TakenAt(ws, id, true, j) {
        TakenEarlier(ws, id, true, j);
      }
      RowKeepsCreation(init, id, k);
    } else {
      RowExists(init, id);
      forall j ensures !TakenAt(init, id, true, j) {
        if j < |ws| - 1 {
          TakenEarlier(ws, id, true, j);
        }
      }
    }
  }

  // ----- The memory store, with room for every id -----

  predicate DatedAt(ws: seq<Write>, id: string, k: int) {
    TakenAt(ws, id, false, k) && ws[k].entity.createdAtMs >= 0
  }

  ghost predicate FirstDated(ws: seq<Write>, id: string, k: int) {
    DatedAt(ws, id, k) && forall j | j < k :: !DatedAt(ws, id, j)
  }

  ghost predicate NeverDated(ws: seq<Write>, id: string) {
    forall j :: !DatedAt(ws, id, j)
  }

  /** The entity's creation time: that of its first write with one that is not
      negative, where 0 stands for the clock; without one, the last write's. */
  ghost predicate CreationKept(ws: seq<Write>, id: string, created: int) {
    && (forall k | FirstDated(ws, id, k) ::
          created == if ws[k].entity.createdAtMs == 0 then ws[k].now else ws[k].entity.createdAtMs)
    && (forall k | LastTaken(ws, id, false, k) && NeverDated(ws, id) :: created == ws[k].entity.createdAtMs)
    && (created > 0 <==> !NeverDated(ws, id))
  }

  lemma MoreTaken(init: seq<Write>, w: Write, id: string)
    ensures forall k :: TakenAt(init + [w], id, false, k) <==>
              TakenAt(init, id, false, k) || (k == |init| && Names(w) && w.entity.id == id)
    ensures forall k :: DatedAt(init + [w], id, k) <==>
              DatedAt(init, id, k) || (k == |init| && Names(w) && w.entity.id == id && w.entity.createdAtMs >= 0)
  {
  }

  lemma CreationOfOther(init: seq<Write>, w: Write, id: string, created: int)
    requires !(Names(w) && w.entity.id == id) && CreationKept(init, id, created)
    ensures CreationKept(init + [w], id, created)
  {
    MoreTaken(init, w, id);
    forall k | LastTaken(init + [w], id, false, k) ensures LastTaken(init, id, false, k) {
      assert forall j | k < j :: !TakenAt(init + [w], id, false, j);
    }
    forall k | FirstDated(init + [w], id, k) ensures FirstDated(init, id, k) {
      assert forall j | j < k :: !DatedAt(init + [w], id, j);
    }
    assert NeverDated(init + [w], id) <==> NeverDated(init, id);
  }

  /** One more write of an id that has a creation time for good. */
  lemma CreationStays(init: seq<Write>, w: Write, id: string, created: int)
    requires Names(w) && w.entity.id == id && CreationKept(init, id, created) && created > 0
    ensures CreationKept(init + [w], id, created)
  {
    MoreTaken(init, w, id);
    var d :| DatedAt(init, id, d);
    assert DatedAt(init + [w], id, d);
    forall k | FirstDated(init + [w], id, k) ensures FirstDated(init, id, k) {
      assert k <= d;
      assert forall j | j < k :: !DatedAt(init + [w], id, j);
    }
  }

  /** One more write of an id that has none yet. */
  lemma CreationFound(init: seq<Write>, w: Write, id: string)
    requires Names(w) && w.entity.id == id && w.now > 0 && NeverDated(init, id)
    ensures CreationKept(init + [w], id, if w.entity.createdAtMs == 0 then w.now else w.entity.createdAtMs)
  {
    MoreTaken(init, w, id);
    assert forall k | DatedAt(init + [w], id, k) :: k == |init|;
    assert TakenAt(init + [w], id, false, |init|);
    assert DatedAt(init + [w], id, |init|) <==> w.entity.createdAtMs >= 0;
    assert forall k | LastTaken(init + [w], id, false, k) :: k == |init|;
  }

  lemma {:induction false} HeldIfTaken(ws: seq<Write>, id: string, max: nat)
    requires Roomy(ws, max)
    ensures id in AfterCalls(EMPTY, ws, max).entities <==> exists k :: TakenAt(ws, id, false, k)
  {
    MemoryHoldsWritten(ws, max);
    TakenIsWritten(ws, id);
  }

  lemma {:induction false} TakenIsWritten(ws: seq<Write>, id: string)
    ensures id in WrittenIds(Accepted(ws)) <==> exists k :: TakenAt(ws, id, false, k)
  {
    if ws != [] {
      var init, last := ws[..|ws| - 1], ws[|ws| - 1];
      assert ws == init + [last];
      TakenIsWritten(init, id);
      WrittenStep(init, last);
      assert forall k | k < |ws| - 1 :: TakenAt(ws, id, false, k) <==> TakenAt(init, id, false, k);
      assert forall k | TakenAt(ws, id, false, k) :: k < |ws| - 1 || k == |ws| - 1;
      assert TakenAt(ws, id, false, |ws| - 1) <==> last.Complete() && last.entity.id == id;
    }
  }

  /** As long as the memory store has room for every id, an entity keeps the
      time of its first write that gave one. */
  lemma {:induction false} EntityKeepsCreation(ws: seq<Write>, id: string, max: nat)
    requires Roomy(ws, max) && id in AfterCalls(EMPTY, ws, max).entities
    ensures CreationKept(ws, id, AfterCalls(EMPTY, ws, max).entities[id].createdAtMs)
  {
    if ws != [] {
      var init, last := ws[..|ws| - 1], ws[|ws| - 1];
      assert ws == init + [last];
      RoomyInit(ws, max);
      MemoryHoldsWritten(ws, max);
      HeldIfTaken(init, id, max);
      HeldIfTaken(ws, id, max);
      var before := AfterCalls(EMPTY, init, max);
      MoreTaken(init, last, id);
      if !(Names(last) && last.entity.id == id) {
        EntityKeepsCreation(init, id, max);
        CreationOfOther(init, last, id, before.entities[id].createdAtMs);
      } else if id in before.entities {
        EntityKeepsCreation(init, id, max);
        if before.entities[id].createdAtMs > 0 {
          CreationStays(init, last, id, before.entities[id].createdAtMs);
        } else {
          CreationFound(init, last, id);
        }
      } else {
        assert NeverDated(init, id);
        CreationFound(init, last, id);
      }
    }
  }
}
