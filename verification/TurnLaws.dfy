/** What the turn store promises, told by the calls alone: under which keys a
    save files its turn, what its blocks read back as, and what the shared rows
    hold. */
module TurnLaws {
  import opened Numbers
  import opened Wrappers
  import opened Text
  import opened BlockHash
  import opened TurnStore

  // ----- Keys -----

  /** The turn's own id, else the caller's, else "turn". */
  predicate TurnIdIs(op: SaveOp, id: string) {
    && (TrimSpace(op.turn.id) != "" ==> id == TrimSpace(op.turn.id))
    && (TrimSpace(op.turn.id) == "" && TrimSpace(op.row.turnId) != "" ==> id == TrimSpace(op.row.turnId))
    && (TrimSpace(op.turn.id) == "" && TrimSpace(op.row.turnId) == "" ==> id == "turn")
  }

  /** A save of this turn: conversation and session are the caller's as they
      are. */
  predicate OfTurn(op: SaveOp, key: TurnKey) {
    op.row.convId == key.convId && op.row.sessionId == key.sessionId && TurnIdIs(op, key.turnId)
  }

  /** A save of this snapshot: its phase and time as well. */
  predicate OfSnapshot(op: SaveOp, s: SnapshotKey) {
    OfTurn(op, s.turn) && op.row.phase == s.phase && op.row.createdAtMs == s.createdAtMs
  }

  /** A save that succeeds, because JSON has a form for all that it stores. */
  predicate Succeeds(op: SaveOp) {
    && EncodableFields(op.turn.metadata) && EncodableFields(op.turn.data)
    && forall i | 0 <= i < |op.turn.blocks| ::
         EncodableFields(op.turn.blocks[i].payload) && EncodableFields(op.turn.blocks[i].metadata)
  }

  predicate Saves(op: SaveOp, s: SnapshotKey) {
    Succeeds(op) && OfSnapshot(op, s)
  }

  lemma KeysAgree(op: SaveOp, s: SnapshotKey)
    ensures KeyOf(op.row, op.turn) == s <==> OfSnapshot(op, s)
    ensures Storable(op.turn) <==> Succeeds(op)
  {
  }

  lemma TurnKeysAgree(op: SaveOp, key: TurnKey)
    ensures KeyOf(op.row, op.turn).turn == key <==> OfTurn(op, key)
    ensures Storable(op.turn) <==> Succeeds(op)
  {
  }

  // ----- What reads back -----

  /** A block without an id of its own is called after its turn and its
      place. */
  ghost predicate IdReads(id: string, b: Block, turnId: string, ordinal: nat) {
    if TrimSpace(b.id) != "" then id == TrimSpace(b.id)
    else exists digits :: id == turnId + "#" + digits && Plain(digits) && Magnitude(digits) == ordinal
  }

  predicate FieldsRead(loaded: Option<map<string, Json>>, fields: Fields)
    requires EncodableFields(fields)
  {
    if fields == map[] then loaded == None else loaded == Some(EncodeFields(fields))
  }

  ghost predicate BlockReads(loaded: LoadedBlock, b: Block, turnId: string, ordinal: nat)
    requires EncodableFields(b.payload) && EncodableFields(b.metadata)
  {
    && IdReads(loaded.id, b, turnId, ordinal)
    && loaded.kind == TrimSpace(b.kind)
    && loaded.role == (if TrimSpace(b.role) == "" then None else Some(TrimSpace(b.role)))
    && FieldsRead(loaded.payload, b.payload) && FieldsRead(loaded.metadata, b.metadata)
  }

  /** The blocks of a save, in order. */
  ghost predicate ListReads(loaded: seq<LoadedBlock>, op: SaveOp, turnId: string)
    requires Succeeds(op)
  {
    && |loaded| == |op.turn.blocks|
    && forall i | 0 <= i < |loaded| :: BlockReads(loaded[i], op.turn.blocks[i], turnId, i)
  }

  /** The last successful save of the snapshot is the k-th call. */
  ghost predicate LastSave(ops: seq<SaveOp>, s: SnapshotKey, k: nat) {
    k < |ops| && Saves(ops[k], s) && forall j | k < j < |ops| :: !Saves(ops[j], s)
  }

  lemma TurnIdTrimmed(op: SaveOp, s: SnapshotKey)
    requires OfSnapshot(op, s)
    ensures TrimSpace(s.turn.turnId) == s.turn.turnId
  {
    TrimIdempotent(op.turn.id);
    TrimIdempotent(op.row.turnId);
    assert TrimLeft("turn") == "turn" && TrimRight("turn") == "turn";
  }

  lemma IdRead(id: string, b: Block, turnId: string, ordinal: nat)
    requires TrimSpace(turnId) == turnId
    ensures IdReads(id, b, turnId, ordinal) <==> id == NormalizeBlockID(b.id, turnId, ordinal)
  {
    MagnitudeOfDigits(ordinal);
    DigitsArePlain(ordinal);
    if TrimSpace(b.id) == "" && IdReads(id, b, turnId, ordinal) {
      var digits :| id == turnId + "#" + digits && Plain(digits) && Magnitude(digits) == ordinal;
      PlainIsDigits(digits);
    }
  }

  lemma ExpectedReads(op: SaveOp, s: SnapshotKey)
    requires Saves(op, s)
    ensures ListReads(Expected(op.turn, s.turn.turnId), op, s.turn.turnId)
  {
    TurnIdTrimmed(op, s);
    var loaded := Expected(op.turn, s.turn.turnId);
    forall i | 0 <= i < |loaded| ensures BlockReads(loaded[i], op.turn.blocks[i], s.turn.turnId, i) {
      IdRead(loaded[i].id, op.turn.blocks[i], s.turn.turnId, i);
    }
  }

  lemma {:induction false} LastSavedIs(ops: seq<SaveOp>, s: SnapshotKey, k: nat)
    requires LastSave(ops, s, k)
    ensures LastSaved(ops, s) == Expected(ops[k].turn, s.turn.turnId)
  {
    var init, op := ops[..|ops| - 1], ops[|ops| - 1];
    KeysAgree(op, s);
    if k < |ops| - 1 {
      LastSavedIs(init, s, k);
    }
  }

  lemma {:induction false} NoneSaved(ops: seq<SaveOp>, s: SnapshotKey)
    requires forall k | 0 <= k < |ops| :: !Saves(ops[k], s)
    ensures LastSaved(ops, s) == []
  {
    if ops != [] {
      KeysAgree(ops[|ops| - 1], s);
      NoneSaved(ops[..|ops| - 1], s);
    }
  }

  /** After any saves, failed ones included and whatever was saved under other
      keys, a snapshot reads back as the blocks of its last successful save, in
      order: ids, kinds and roles trimmed, missing ids made from turn and place,
      what is empty left out. Without such a save it reads back empty. */
  lemma SnapshotReadsBack(hash: Hash, ops: seq<SaveOp>, s: SnapshotKey)
    requires Injective(hash)
    ensures forall k: nat | LastSave(ops, s, k) :: ListReads(Loaded(After(hash, ops), s), ops[k], s.turn.turnId)
    ensures (forall k | 0 <= k < |ops| :: !Saves(ops[k], s)) ==> Loaded(After(hash, ops), s) == []
  {
    SnapshotRoundTrip(hash, ops, s);
    forall k: nat | LastSave(ops, s, k) ensures ListReads(Loaded(After(hash, ops), s), ops[k], s.turn.turnId) {
      LastSavedIs(ops, s, k);
      ExpectedReads(ops[k], s);
    }
    if forall k | 0 <= k < |ops| :: !Saves(ops[k], s) {
      NoneSaved(ops, s);
    }
  }

  /** Two blocks without ids get different ones. */
  lemma GeneratedIdsDiffer(loaded: seq<LoadedBlock>, op: SaveOp, turnId: string, i: nat, j: nat)
    requires Succeeds(op) && ListReads(loaded, op, turnId) && i < j < |loaded|
    requires TrimSpace(op.turn.blocks[i].id) == "" && TrimSpace(op.turn.blocks[j].id) == ""
    ensures loaded[i].id != loaded[j].id
  {
    assert BlockReads(loaded[i], op.turn.blocks[i], turnId, i) && BlockReads(loaded[j], op.turn.blocks[j], turnId, j);
    var a :| loaded[i].id == turnId + "#" + a && Plain(a) && Magnitude(a) == i;
    var b :| loaded[j].id == turnId + "#" + b && Plain(b) && Magnitude(b) == j;
    assert (turnId + "#" + a)[|turnId| + 1..] == a && (turnId + "#" + b)[|turnId| + 1..] == b;
  }

  // ----- Block rows -----

  /** The save has this row for its i-th block. */
  ghost predicate HasRow(hash: Hash, op: SaveOp, key: BlockKey, i: int) {
    && Succeeds(op) && 0 <= i < |op.turn.blocks|
    && var b := op.turn.blocks[i];
       && (exists turnId :: TurnIdIs(op, turnId) && IdReads(key.id, b, turnId, i))
       && key.hash ==
            hash(Content(TrimSpace(b.kind), TrimSpace(b.role), EncodeFields(b.payload), EncodeFields(b.metadata)))
  }

  ghost predicate Has(hash: Hash, op: SaveOp, key: BlockKey) {
    exists i :: HasRow(hash, op, key, i)
  }

  lemma RowPrepared(hash: Hash, op: SaveOp, key: BlockKey, i: nat)
    requires Succeeds(op) && i < |op.turn.blocks|
    ensures HasRow(hash, op, key, i) <==>
              key == Prepare(hash, op.turn.blocks[i], TurnIdOf(op.row, op.turn), i).key
  {
    var b, turnId := op.turn.blocks[i], TurnIdOf(op.row, op.turn);
    TurnIdTrimmed(op, KeyOf(op.row, op.turn));
    IdRead(key.id, b, turnId, i);
    HashOfPrepared(hash, b, turnId, i);
    assert TurnIdIs(op, turnId);
  }

  /** The row is there exactly if some successful save has it, and it was first
      seen at the earliest time of these. */
  ghost predicate SeenFirst(t: Tables, hash: Hash, ops: seq<SaveOp>, key: BlockKey) {
    && (key in t.blocks <==> exists k :: HasAt(hash, ops, key, k))
    && (key in t.blocks ==>
          var first := t.blocks[key].firstSeenAtMs;
          && (forall k | HasAt(hash, ops, key, k) :: first <= ops[k].row.createdAtMs)
          && (exists k :: HasAt(hash, ops, key, k) && first == ops[k].row.createdAtMs))
  }

  ghost predicate HasAt(hash: Hash, ops: seq<SaveOp>, key: BlockKey, k: int) {
    0 <= k < |ops| && Has(hash, ops[k], key)
  }

  ghost predicate Among(blocks: seq<PreparedBlock>, key: BlockKey) {
    exists i :: 0 <= i < |blocks| && blocks[i].key == key
  }

  function FirstTime(t: Tables, key: BlockKey, written: bool, at: int): int
    requires key in t.blocks || written
  {
    if !written then t.blocks[key].firstSeenAtMs
    else if key in t.blocks then Min(t.blocks[key].firstSeenAtMs, at)
    else at
  }

  /** The block loop dates a row with the save's time, unless it has an earlier
      one. */
  lemma {:induction false} BlocksSeen(t: Tables, s: SnapshotKey, blocks: seq<PreparedBlock>, key: BlockKey)
    ensures var next := WithBlocks(t, s, blocks).blocks;
      && (key in next <==> key in t.blocks || Among(blocks, key))
      && (key in next ==> next[key].firstSeenAtMs == FirstTime(t, key, Among(blocks, key), s.createdAtMs))
  {
    if blocks != [] {
      var init, last := blocks[..|blocks| - 1], blocks[|blocks| - 1];
      BlocksSeen(t, s, init, key);
      assert blocks[|blocks| - 1].key == last.key;
      assert Among(blocks, key) <==> Among(init, key) || last.key == key by {
        if Among(init, key) {
          var i :| 0 <= i < |init| && init[i].key == key;
          assert blocks[i].key == key;
        }
        if Among(blocks, key) && last.key != key {
          var i :| 0 <= i < |blocks| && blocks[i].key == key;
          assert init[i].key == key;
        }
      }
    }
  }

  lemma RowsPrepared(hash: Hash, op: SaveOp, key: BlockKey)
    requires Succeeds(op)
    ensures Has(hash, op, key) <==> Among(PrepareAll(hash, op.turn.blocks, TurnIdOf(op.row, op.turn)), key)
  {
    var prepared := PrepareAll(hash, op.turn.blocks, TurnIdOf(op.row, op.turn));
    if Has(hash, op, key) {
      var i :| HasRow(hash, op, key, i);
      RowPrepared(hash, op, key, i);
      assert prepared[i].key == key;
    }
    if Among(prepared, key) {
      var i :| 0 <= i < |prepared| && prepared[i].key == key;
      RowPrepared(hash, op, key, i);
    }
  }

  lemma SeenAgain(t: Tables, next: Tables, hash: Hash, init: seq<SaveOp>, op: SaveOp, key: BlockKey)
    requires SeenFirst(t, hash, init, key)
    requires key in next.blocks <==> key in t.blocks || Has(hash, op, key)
    requires key in next.blocks ==> 
               next.blocks[key].firstSeenAtMs == FirstTime(t, key, Has(hash, op, key), op.row.createdAtMs)
    ensures SeenFirst(next, hash, init + [op], key)
  {
    var ops := init + [op];
    assert forall k :: HasAt(hash, ops, key, k) <==> HasAt(hash, init, key, k) || (k == |init| && Has(hash, op, key));
    assert forall k | HasAt(hash, init, key, k) :: ops[k] == init[k];
    if key in t.blocks {
      var k :| HasAt(hash, init, key, k) && t.blocks[key].firstSeenAtMs == init[k].row.createdAtMs;
      assert HasAt(hash, ops, key, k);
    }
    if Has(hash, op, key) {
      assert HasAt(hash, ops, key, |init|);
    }
  }

  /** Block rows are shared: over any saves, a row is kept for exactly the
      blocks of the successful ones, with the earliest of their times. */
  lemma {:induction false} BlockRowMeaning(hash: Hash, ops: seq<SaveOp>, key: BlockKey)
    ensures SeenFirst(After(hash, ops), hash, ops, key)
  {
    if ops != [] {
      var init, op := ops[..|ops| - 1], ops[|ops| - 1];
      assert ops == init + [op];
      BlockRowMeaning(hash, init, key);
      var t, s := After(hash, init), KeyOf(op.row, op.turn);
      KeysAgree(op, s);
      if Succeeds(op) {
        RowsPrepared(hash, op, key);
        BlocksSeen(Cleared(UpsertTurn(t, op.row, op.turn), s), s, PrepareAll(hash, op.turn.blocks, s.turn.turnId), key);
      }
      SeenAgain(t, After(hash, ops), hash, init, op, key);
    }
  }

  // ----- The turn row -----

  /** Successful saves of one turn, oldest first. */
  function SavesOf(ops: seq<SaveOp>, key: TurnKey): seq<SaveOp> {
    if ops == [] then []
    else
      var op := ops[|ops| - 1];
      SavesOf(ops[..|ops| - 1], key)
      + (if Succeeds(op) && OfTurn(op, key) then [op] else [])
  }

  function RuntimeKeys(saves: seq<SaveOp>): seq<string> {
    seq(|saves|, i requires 0 <= i < |saves| => saves[i].row.runtimeKey)
  }

  function InferenceIds(saves: seq<SaveOp>): seq<string> {
    seq(|saves|, i requires 0 <= i < |saves| => saves[i].row.inferenceId)
  }

  /** The row spans the saves' times and keeps the last non-empty keys and the
      last metadata and data. */
  ghost predicate Spans(row: TurnRow, saves: seq<SaveOp>) {
    && saves != []
    && (forall i | 0 <= i < |saves| :: row.createdAtMs <= saves[i].row.createdAtMs <= row.updatedAtMs)
    && (exists i :: 0 <= i < |saves| && saves[i].row.createdAtMs == row.createdAtMs)
    && (exists i :: 0 <= i < |saves| && saves[i].row.createdAtMs == row.updatedAtMs)
    && LastNonEmpty(RuntimeKeys(saves), row.runtimeKey) && LastNonEmpty(InferenceIds(saves), row.inferenceId)
    && var last := saves[|saves| - 1].turn;
       && EncodableFields(last.metadata) && EncodableFields(last.data)
       && row.metadata == EncodeFields(last.metadata) && row.data == EncodeFields(last.data)
  }

  lemma TurnsOfSaved(t: Tables, hash: Hash, row: SaveRow, turn: Turn)
    requires Storable(turn)
    ensures Saved(t, hash, row, turn).turns == UpsertTurn(t, row, turn).turns
  {
    var s := KeyOf(row, turn);
    BlocksKeepTurns(Cleared(UpsertTurn(t, row, turn), s), s, PrepareAll(hash, turn.blocks, s.turn.turnId));
  }

  lemma {:induction false} BlocksKeepTurns(t: Tables, s: SnapshotKey, blocks: seq<PreparedBlock>)
    ensures WithBlocks(t, s, blocks).turns == t.turns
  {
    if blocks != [] {
      BlocksKeepTurns(t, s, blocks[..|blocks| - 1]);
    }
  }

  lemma SpansAppend(row: TurnRow, saves: seq<SaveOp>, op: SaveOp)
    requires Spans(row, saves) && Storable(op.turn)
    ensures Spans(
      TurnRow(Min(row.createdAtMs, op.row.createdAtMs), EncodeFields(op.turn.metadata), EncodeFields(op.turn.data),
              OrElse(op.row.runtimeKey, row.runtimeKey), OrElse(op.row.inferenceId, row.inferenceId),
              Max(row.updatedAtMs, op.row.createdAtMs)),
      saves + [op])
  {
    var longer := saves + [op];
    assert longer[..|saves|] == saves && longer[|saves|] == op;
    var i :| 0 <= i < |saves| && saves[i].row.createdAtMs == row.createdAtMs;
    var j :| 0 <= j < |saves| && saves[j].row.createdAtMs == row.updatedAtMs;
    assert longer[i] == saves[i] && longer[j] == saves[j];
    LastNonEmptyAppend(RuntimeKeys(saves), row.runtimeKey, op.row.runtimeKey);
    LastNonEmptyAppend(InferenceIds(saves), row.inferenceId, op.row.inferenceId);
    assert RuntimeKeys(longer) == RuntimeKeys(saves) + [op.row.runtimeKey];
    assert InferenceIds(longer) == InferenceIds(saves) + [op.row.inferenceId];
  }

  /** The turn's part of one successful save. */
  lemma TurnRowStep(t: Tables, op: SaveOp, key: TurnKey, saves: seq<SaveOp>)
    requires Storable(op.turn) && KeyOf(op.row, op.turn).turn == key
    requires if key in t.turns then Spans(t.turns[key], saves) else saves == []
    ensures Spans(UpsertTurn(t, op.row, op.turn).turns[key], saves + [op])
  {
    if key in t.turns {
      SpansAppend(t.turns[key], saves, op);
    } else {
      var one := saves + [op];
      assert one == [op] && one[..0] == [] && one[0] == op;
      assert RuntimeKeys(one) == [op.row.runtimeKey] && InferenceIds(one) == [op.row.inferenceId];
      assert op.row.runtimeKey != "" ==> LastNonEmptyAt(RuntimeKeys(one), op.row.runtimeKey, 0);
      assert op.row.inferenceId != "" ==> LastNonEmptyAt(InferenceIds(one), op.row.inferenceId, 0);
    }
  }

  /** A turn has a row exactly when a save of it succeeded, and the row sums up
      those saves. */
  lemma {:induction false} TurnRowMeaning(hash: Hash, ops: seq<SaveOp>, key: TurnKey)
    ensures key in After(hash, ops).turns <==> SavesOf(ops, key) != []
    ensures key in After(hash, ops).turns ==> Spans(After(hash, ops).turns[key], SavesOf(ops, key))
  {
    if ops != [] {
      var init, op := ops[..|ops| - 1], ops[|ops| - 1];
      TurnRowMeaning(hash, init, key);
      var t := After(hash, init);
      TurnKeysAgree(op, key);
      if Storable(op.turn) {
        TurnsOfSaved(t, hash, op.row, op.turn);
        if KeyOf(op.row, op.turn).turn == key {
          TurnRowStep(t, op, key, SavesOf(init, key));
        }
      }
      if !Storable(op.turn) || KeyOf(op.row, op.turn).turn != key {
        assert SavesOf(ops, key) == SavesOf(init, key);
      }
    }
  }

  // ----- Keys from a turn's metadata -----

  /** The text is what the entry under k alone says. */
  ghost predicate OnlyEntry(metadata: Fields, names: set<string>, k: string) {
    k in metadata && TrimSpace(k) in names && forall other | other in metadata && TrimSpace(other) in names :: other == k
  }

  /** A runtime entry that holds a text under "runtime_key" gives the row its
      runtime key, trimmed; one that holds anything that is not a map with such
      an entry, or a blank text, gives none. */
  lemma RuntimeKeyRead(row: SaveRow, naming: Naming, metadata: Fields, k: string, sessionId: string)
    requires OnlyEntry(metadata, {naming.runtime}, k)
    requires RowFor(row, naming, row.convId, row.sessionId, row.turnId, row.phase, row.createdAtMs, row.createdAtMs,
                    "", sessionId, metadata)
    ensures var v := metadata[k];
      && (v.Map? && v.keys.Strings? && "runtime_key" in v.entries && v.entries["runtime_key"].Str? ==>
            row.runtimeKey == TrimSpace(v.entries["runtime_key"].text))
      && (!v.Map? || !v.keys.Strings? || "runtime_key" !in v.entries ==> row.runtimeKey == "")
  {
    assert TrimSpace("") == "";
  }

  /** An inference entry under either of its names gives the row its id: a text
      trimmed, and any other value as it prints, unless that is blank or
      "<nil>". */
  lemma InferenceIdRead(row: SaveRow, naming: Naming, metadata: Fields, k: string, runtimeKey: string)
    requires TrimSpace(k) == naming.inference || TrimSpace(k) == "inference_id"
    requires OnlyEntry(metadata, {naming.inference, "inference_id"}, k)
    requires RowFor(row, naming, row.convId, row.sessionId, row.turnId, row.phase, row.createdAtMs, row.createdAtMs,
                    runtimeKey, "", metadata)
    ensures var v := metadata[k];
      && (v.Str? ==> row.inferenceId == TrimSpace(v.text))
      && (!v.Str? && TrimSpace(naming.show(v)) != "<nil>" ==> row.inferenceId == TrimSpace(naming.show(v)))
      && (!v.Str? && TrimSpace(naming.show(v)) == "<nil>" ==> row.inferenceId == "")
  {
    assert TrimSpace("") == "";
  }
}
