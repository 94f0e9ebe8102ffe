/** The turn store: snapshots of turns whose blocks are shared, keyed by id and
    content hash. */
module TurnStore {
  import opened Numbers
  import opened Wrappers
  import opened Text
  import opened Ranked
  import opened BlockHash

  datatype Block = Block(id: string, kind: string, role: string, payload: Fields, metadata: Fields)

  datatype Turn = Turn(id: string, blocks: seq<Block>, metadata: Fields, data: Fields)

  /** What Save was called with, its defaults filled in. */
  datatype SaveRow = SaveRow(
    convId: string, sessionId: string, turnId: string, phase: string,
    runtimeKey: string, inferenceId: string, createdAtMs: int)

  // ----- Keys found in a turn's metadata -----

  /** stringFromValue; how a value prints is left to the caller. */
  function TextOf(v: GoValue, show: GoValue -> string): Option<string> {
    var text := TrimSpace(if v.Str? then v.text else show(v));
    if text == "" || (!v.Str? && text == "<nil>") then None else Some(text)
  }

  /** runtimeKeyFromRuntimeValue. */
  function RuntimeOf(v: GoValue, show: GoValue -> string): Option<string> {
    if v.Map? && v.keys.Strings? && "runtime_key" in v.entries then TextOf(v.entries["runtime_key"], show)
    else None
  }

  type Reader = GoValue -> Option<string>

  /** The text of some entry under one of the names, or "" if no entry has one.
      Go visits the entries in any order. */
  ghost predicate FoundIn(metadata: Fields, names: set<string>, read: Reader, text: string) {
    || (exists k :: k in metadata && TrimSpace(k) in names && read(metadata[k]) == Some(text))
    || (text == "" && forall k | k in metadata && TrimSpace(k) in names :: read(metadata[k]).None?)
  }

  method FindText(metadata: Fields, names: set<string>, read: Reader) returns (text: string)
    ensures FoundIn(metadata, names, read, text)
  {
    var rest := metadata.Keys;
    while rest != {}
      invariant rest <= metadata.Keys
      invariant forall k | k in metadata && k !in rest && TrimSpace(k) in names :: read(metadata[k]).None?
      decreases |rest|
    {
      var k :| k in rest;
      if TrimSpace(k) in names && read(metadata[k]).Some? {
        return read(metadata[k]).value;
      }
      rest := rest - {k};
    }
    return "";
  }

  /** Names of metadata entries, and how values print. */
  datatype Naming = Naming(runtime: string, inference: string, show: GoValue -> string) {
    function InferenceNames(): set<string> {
      {inference, "inference_id"}
    }

    function RuntimeReader(): Reader {
      v => RuntimeOf(v, show)
    }

    function InferenceReader(): Reader {
      v => TextOf(v, show)
    }
  }

  /** What is saved: the caller's keys, the turn's where those are blank, and
      the clock where there is no time. */
  ghost predicate RowFor(row: SaveRow, naming: Naming, convId: string, sessionId: string, turnId: string, phase: string,
                         createdAtMs: int, now: int, runtimeKey: string, inferenceId: string, metadata: Fields)
  {
    && row.convId == convId && row.sessionId == sessionId && row.turnId == turnId && row.phase == phase
    && row.createdAtMs == (if createdAtMs <= 0 then now else createdAtMs)
    && (if TrimSpace(runtimeKey) != "" then row.runtimeKey == TrimSpace(runtimeKey)
        else FoundIn(metadata, {naming.runtime}, naming.RuntimeReader(), row.runtimeKey))
    && (if TrimSpace(inferenceId) != "" then row.inferenceId == TrimSpace(inferenceId)
        else FoundIn(metadata, naming.InferenceNames(), naming.InferenceReader(), row.inferenceId))
  }

  // ----- The tables -----

  datatype TurnKey = TurnKey(convId: string, sessionId: string, turnId: string)
  datatype TurnRow = TurnRow(
    createdAtMs: int, metadata: map<string, Json>, data: map<string, Json>,
    runtimeKey: string, inferenceId: string, updatedAtMs: int)

  datatype BlockKey = BlockKey(id: string, hash: string)
  datatype BlockRow = BlockRow(content: Content, firstSeenAtMs: int)

  datatype SnapshotKey = SnapshotKey(turn: TurnKey, phase: string, createdAtMs: int)
  datatype MemberKey = MemberKey(snapshot: SnapshotKey, ordinal: nat)

  datatype Tables = Tables(
    turns: map<TurnKey, TurnRow>, blocks: map<BlockKey, BlockRow>, members: map<MemberKey, BlockKey>)

  const EMPTY := Tables(map[], map[], map[])

  // ----- Saving -----

  function NormalizeBlockID(id: string, turnId: string, ordinal: nat): string {
    if TrimSpace(id) != "" then TrimSpace(id) else TrimSpace(turnId) + "#" + Digits(ordinal)
  }

  /** The turn's own id wins over the caller's. */
  function TurnIdOf(row: SaveRow, turn: Turn): string {
    if TrimSpace(turn.id) != "" then TrimSpace(turn.id)
    else if TrimSpace(row.turnId) != "" then TrimSpace(row.turnId)
    else "turn"
  }

  function KeyOf(row: SaveRow, turn: Turn): SnapshotKey {
    SnapshotKey(TurnKey(row.convId, row.sessionId, TurnIdOf(row, turn)), row.phase, row.createdAtMs)
  }

  predicate Storable(turn: Turn) {
    && EncodableFields(turn.metadata) && EncodableFields(turn.data)
    && forall i | 0 <= i < |turn.blocks| :: StorableBlock(turn.blocks[i])
  }

  predicate StorableBlock(b: Block) {
    EncodableFields(b.payload) && EncodableFields(b.metadata)
  }

  /** What a block's row holds. */
  function ContentOf(b: Block): Content
    requires StorableBlock(b)
  {
    Content(TrimSpace(b.kind), TrimSpace(b.role), EncodeFields(b.payload), EncodeFields(b.metadata))
  }

  /** A block ready to be written: its key and its row's content. */
  datatype PreparedBlock = PreparedBlock(key: BlockKey, content: Content)

  function Prepare(hash: Hash, b: Block, turnId: string, ordinal: nat): PreparedBlock
    requires StorableBlock(b)
  {
    NormalFieldsEncode(b.payload);
    NormalFieldsEncode(b.metadata);
    PreparedBlock(
      BlockKey(NormalizeBlockID(b.id, turnId, ordinal),
               ContentHash(hash, b.kind, b.role, b.payload, b.metadata).value),
      ContentOf(b))
  }

  function PrepareAll(hash: Hash, blocks: seq<Block>, turnId: string): seq<PreparedBlock>
    requires forall i | 0 <= i < |blocks| :: StorableBlock(blocks[i])
  {
    seq(|blocks|, i requires 0 <= i < |blocks| => Prepare(hash, blocks[i], turnId, i))
  }

  /** The turns upsert. */
  function UpsertTurn(t: Tables, row: SaveRow, turn: Turn): Tables
    requires EncodableFields(turn.metadata) && EncodableFields(turn.data)
  {
    var key := KeyOf(row, turn).turn;
    var excluded := TurnRow(row.createdAtMs, EncodeFields(turn.metadata), EncodeFields(turn.data),
                            row.runtimeKey, row.inferenceId, row.createdAtMs);
    t.(turns := t.turns[key :=
         if key !in t.turns then excluded
         else
           var before := t.turns[key];
           excluded.(createdAtMs := Min(before.createdAtMs, excluded.createdAtMs),
                     runtimeKey := OrElse(excluded.runtimeKey, before.runtimeKey),
                     inferenceId := OrElse(excluded.inferenceId, before.inferenceId),
                     updatedAtMs := Max(before.updatedAtMs, excluded.updatedAtMs))])
  }

  /** DELETE of the snapshot's membership rows. */
  function Cleared(t: Tables, s: SnapshotKey): Tables {
    t.(members := map m | m in t.members && m.snapshot != s :: t.members[m])
  }

  /** The upsert of one block row and the insert of its membership row. */
  function WithBlock(t: Tables, s: SnapshotKey, b: PreparedBlock, ordinal: nat): Tables {
    var firstSeen := if b.key in t.blocks then Min(t.blocks[b.key].firstSeenAtMs, s.createdAtMs)
                     else s.createdAtMs;
    t.(blocks := t.blocks[b.key := BlockRow(b.content, firstSeen)],
       members := t.members[MemberKey(s, ordinal) := b.key])
  }

  function WithBlocks(t: Tables, s: SnapshotKey, blocks: seq<PreparedBlock>): Tables {
    if blocks == [] then t
    else WithBlock(WithBlocks(t, s, blocks[..|blocks| - 1]), s, blocks[|blocks| - 1], |blocks| - 1)
  }

  /** persistNormalizedSnapshot; a failed save leaves no trace. */
  function Saved(t: Tables, hash: Hash, row: SaveRow, turn: Turn): Tables {
    if !Storable(turn) then t
    else
      var s := KeyOf(row, turn);
      WithBlocks(Cleared(UpsertTurn(t, row, turn), s), s, PrepareAll(hash, turn.blocks, s.turn.turnId))
  }

  // ----- Loading -----

  /** A block as it is read back; a field that was left out is None. */
  datatype LoadedBlock = LoadedBlock(
    id: string, kind: string, role: Option<string>,
    payload: Option<map<string, Json>>, metadata: Option<map<string, Json>>)

  function NonEmpty(fields: map<string, Json>): Option<map<string, Json>> {
    if |fields| > 0 then Some(fields) else None
  }

  /** A row as the load presents it. */
  function Presented(id: string, c: Content): LoadedBlock {
    LoadedBlock(id, c.kind, if TrimSpace(c.role) != "" then Some(c.role) else None,
                NonEmpty(c.payload), NonEmpty(c.metadata))
  }

  function Ordinals(t: Tables, s: SnapshotKey): set<Item> {
    set m | m in t.members && m.snapshot == s && t.members[m] in t.blocks :: Item(m.ordinal, "")
  }

  /** The join of membership and blocks, by ordinal. */
  ghost function Loaded(t: Tables, s: SnapshotKey): seq<LoadedBlock> {
    var items := Ordered(Ordinals(t, s));
    OrderedIsSorted(Ordinals(t, s));
    BlocksAt(t, s, items)
  }

  function BlocksAt(t: Tables, s: SnapshotKey, items: seq<Item>): seq<LoadedBlock>
    requires Elements(items) <= Ordinals(t, s)
  {
    seq(|items|, i requires 0 <= i < |items| =>
      assert items[i] in Elements(items);
      BlockAt(t, s, items[i].rank))
  }

  function BlockAt(t: Tables, s: SnapshotKey, ordinal: int): LoadedBlock
    requires Item(ordinal, "") in Ordinals(t, s)
  {
    var key := t.members[MemberKey(s, ordinal)];
    Presented(key.id, t.blocks[key].content)
  }

  /** Hashing and marshalling one block, which fails for values that JSON
      cannot carry. */
  method PrepareBlock(hash: Hash, b: Block, turnId: string, ordinal: nat) returns (p: Option<PreparedBlock>)
    ensures p.Some? <==> StorableBlock(b)
    ensures p.Some? ==> p.value == Prepare(hash, b, turnId, ordinal)
  {
    NormalFieldsEncode(b.payload);
    NormalFieldsEncode(b.metadata);
    var contentHash := ContentHash(hash, b.kind, b.role, b.payload, b.metadata);
    if contentHash.None? {
      return None;
    }
    if !EncodableFields(b.payload) || !EncodableFields(b.metadata) {
      return None;
    }
    return Some(PreparedBlock(BlockKey(NormalizeBlockID(b.id, turnId, ordinal), contentHash.value), ContentOf(b)));
  }

  lemma PrepareAppend(hash: Hash, blocks: seq<Block>, turnId: string, i: nat)
    requires i < |blocks| && forall j | 0 <= j <= i :: StorableBlock(blocks[j])
    ensures PrepareAll(hash, blocks[..i + 1], turnId)
         == PrepareAll(hash, blocks[..i], turnId) + [Prepare(hash, blocks[i], turnId, i)]
  {
  }

  lemma WithBlocksAppend(t: Tables, s: SnapshotKey, blocks: seq<PreparedBlock>, b: PreparedBlock)
    ensures WithBlocks(t, s, blocks + [b]) == WithBlock(WithBlocks(t, s, blocks), s, b, |blocks|)
  {
    assert (blocks + [b])[..|blocks|] == blocks;
  }

  /** The block loop of a transaction, which gives up at the first block that
      cannot be marshalled. */
  method InsertBlocks(begun: Tables, hash: Hash, s: SnapshotKey, blocks: seq<Block>)
    returns (done: Option<Tables>)
    ensures done.Some? <==> forall i | 0 <= i < |blocks| :: StorableBlock(blocks[i])
    ensures done.Some? ==> done.value == WithBlocks(begun, s, PrepareAll(hash, blocks, s.turn.turnId))
  {
    var tx := begun;
    for i := 0 to |blocks|
      invariant forall j | 0 <= j < i :: StorableBlock(blocks[j])
      invariant tx == WithBlocks(begun, s, PrepareAll(hash, blocks[..i], s.turn.turnId))
    {
      var b := PrepareBlock(hash, blocks[i], s.turn.turnId, i);
      if b.None? {
        return None;
      }
      PrepareAppend(hash, blocks, s.turn.turnId, i);
      WithBlocksAppend(begun, s, PrepareAll(hash, blocks[..i], s.turn.turnId), b.value);
      tx := WithBlock(tx, s, b.value, i);
    }
    assert blocks[..|blocks|] == blocks;
    return Some(tx);
  }

  class SQLiteTurnStore {
    const hash: Hash
    const naming: Naming
    var turns: map<TurnKey, TurnRow>
    var blocks: map<BlockKey, BlockRow>
    var members: map<MemberKey, BlockKey>

    constructor (hash: Hash, naming: Naming)
      ensures this.hash == hash && this.naming == naming && View() == EMPTY
    {
      this.hash, this.naming := hash, naming;
      turns, blocks, members := map[], map[], map[];
    }

    function View(): Tables
      reads this
    {
      Tables(turns, blocks, members)
    }

    /** Save, given the turn that the payload decodes to. */
    method Save(convId: string, sessionId: string, turnId: string, phase: string, createdAtMs: int, now: int,
                payload: Result<Turn>, runtimeKey: string, inferenceId: string)
      returns (r: Result<nat>)
      modifies this
      ensures r.Ok? <==>
        && TrimSpace(convId) != "" && TrimSpace(sessionId) != "" && TrimSpace(turnId) != "" && TrimSpace(phase) != ""
        && payload.Ok? && Storable(payload.value)
      ensures r.Err? ==> View() == old(View())
      ensures r.Ok? ==>
        && r.value == |payload.value.blocks|
        && exists row ::
             && RowFor(row, naming, convId, sessionId, turnId, phase, createdAtMs, now,
                       runtimeKey, inferenceId, payload.value.metadata)
             && View() == Saved(old(View()), hash, row, payload.value)
    {
      if TrimSpace(convId) == "" {
        return Err("sqlite turn store: convID is empty");
      }
      if TrimSpace(sessionId) == "" {
        return Err("sqlite turn store: sessionID is empty");
      }
      if TrimSpace(turnId) == "" {
        return Err("sqlite turn store: turnID is empty");
      }
      if TrimSpace(phase) == "" {
        return Err("sqlite turn store: phase is empty");
      }
      if payload.Err? {
        return Err(payload.error);
      }
      var row := SaveRow(convId, sessionId, turnId, phase, TrimSpace(runtimeKey), TrimSpace(inferenceId),
                         if createdAtMs <= 0 then now else createdAtMs);
      var metadata := payload.value.metadata;
      if row.runtimeKey == "" {
        var found := FindText(metadata, {naming.runtime}, naming.RuntimeReader());
        row := row.(runtimeKey := found);
      }
      if row.inferenceId == "" {
        var found := FindText(metadata, naming.InferenceNames(), naming.InferenceReader());
        row := row.(inferenceId := found);
      }
      assert RowFor(row, naming, convId, sessionId, turnId, phase, createdAtMs, now,
                    runtimeKey, inferenceId, metadata);
      r := PersistNormalizedSnapshot(row, payload.value);
    }

    /** One transaction: the tables are written only when every block was. */
    method PersistNormalizedSnapshot(row: SaveRow, turn: Turn) returns (r: Result<nat>)
      modifies this
      ensures r.Ok? <==> Storable(turn)
      ensures View() == Saved(old(View()), hash, row, turn)
      ensures r.Ok? ==> r.value == |turn.blocks|
    {
      if !EncodableFields(turn.metadata) || !EncodableFields(turn.data) {
        return Err("sqlite turn store: marshal turn");
      }
      var s := KeyOf(row, turn);
      var tx := Cleared(UpsertTurn(View(), row, turn), s);
      var done := InsertBlocks(tx, hash, s, turn.blocks);
      if done.None? {
        return Err("sqlite turn store: marshal block");
      }
      turns, blocks, members := done.value.turns, done.value.blocks, done.value.members;
      return Ok(|turn.blocks|);
    }

    method LoadSnapshotBlocks(s: SnapshotKey) returns (loaded: seq<LoadedBlock>)
      ensures loaded == Loaded(View(), s)
    {
      var t := View();
      var items := Rows(t, s);
      OrderedIsSorted(Ordinals(t, s));
      loaded := [];
      for i := 0 to |items|
        invariant |loaded| == i
        invariant forall j | 0 <= j < i :: loaded[j] == BlocksAt(t, s, items)[j]
      {
        assert items[i] in Elements(items);
        var key := members[MemberKey(s, items[i].rank)];
        var content := blocks[key].content;
        var block := LoadedBlock(key.id, content.kind, None, None, None);
        if TrimSpace(content.role) != "" {
          block := block.(role := Some(content.role));
        }
        if |content.payload| > 0 {
          block := block.(payload := Some(content.payload));
        }
        if |content.metadata| > 0 {
          block := block.(metadata := Some(content.metadata));
        }
        loaded := loaded + [block];
      }
    }
  }

  /** The query's rows, which the database engine orders. */
  method Rows(t: Tables, s: SnapshotKey) returns (items: seq<Item>)
    ensures items == Ordered(Ordinals(t, s))
  {
    items := [];
    var rest := t.members.Keys;
    while rest != {}
      invariant rest <= t.members.Keys
      invariant Elements(items) == set x | x in Ordinals(t, s) && MemberKey(s, x.rank) !in rest
      invariant forall i, j | 0 <= i < j < |items| :: items[i] != items[j]
      decreases |rest|
    {
      var m :| m in rest;
      if m.snapshot == s && t.members[m] in t.blocks {
        var item := Item(m.ordinal, "");
        assert m == MemberKey(s, item.rank);
        assert item !in Elements(items);
        AppendElement(items, item);
        items := items + [item];
      }
      rest := rest - {m};
    }
    assert Elements(items) == Ordinals(t, s);
    items := Sort(items);
  }

  // ----- Every table is well formed, every snapshot reads back -----

  /** Membership rows have their block and turn, and a block row holds exactly
      the content its hash stands for. */
  ghost predicate WellFormed(t: Tables, hash: Hash) {
    && (forall m | m in t.members :: t.members[m] in t.blocks && m.snapshot.turn in t.turns)
    && (forall k | k in t.blocks :: k.hash == hash(t.blocks[k].content))
  }

  /** The snapshot's membership is these blocks, at ordinals 0 to n. */
  ghost predicate Holds(t: Tables, s: SnapshotKey, loaded: seq<LoadedBlock>, n: nat) {
    && n <= |loaded|
    && (forall m | m in t.members && m.snapshot == s :: m.ordinal < n)
    && (forall i | 0 <= i < n ::
          && MemberKey(s, i) in t.members
          && var key := t.members[MemberKey(s, i)];
             key in t.blocks && loaded[i] == Presented(key.id, t.blocks[key].content))
  }

  /** A block up to trimming, generated ids and fields that are empty. */
  function ReadsAs(b: Block, turnId: string, ordinal: nat): LoadedBlock
    requires StorableBlock(b)
  {
    LoadedBlock(NormalizeBlockID(b.id, turnId, ordinal), TrimSpace(b.kind),
                if TrimSpace(b.role) == "" then None else Some(TrimSpace(b.role)),
                if b.payload == map[] then None else Some(EncodeFields(b.payload)),
                if b.metadata == map[] then None else Some(EncodeFields(b.metadata)))
  }

  lemma PresentedReadsBack(b: Block, turnId: string, ordinal: nat)
    requires StorableBlock(b)
    ensures Presented(NormalizeBlockID(b.id, turnId, ordinal), ContentOf(b)) == ReadsAs(b, turnId, ordinal)
  {
    TrimIdempotent(b.role);
    EmptyFields(b.payload);
    EmptyFields(b.metadata);
  }

  lemma EmptyFields(fields: Fields)
    requires EncodableFields(fields)
    ensures NonEmpty(EncodeFields(fields)) == if fields == map[] then None else Some(EncodeFields(fields))
  {
    assert EncodeFields(fields).Keys == fields.Keys;
    assert |EncodeFields(fields)| == |EncodeFields(fields).Keys| && |fields| == |fields.Keys|;
  }

  /** What a turn's blocks read back as. */
  function Expected(turn: Turn, turnId: string): seq<LoadedBlock>
    requires Storable(turn)
  {
    seq(|turn.blocks|, i requires 0 <= i < |turn.blocks| =>
      ReadsAs(turn.blocks[i], turnId, i))
  }

  /** The hash is taken of the row's own content. */
  lemma HashOfPrepared(hash: Hash, b: Block, turnId: string, ordinal: nat)
    requires StorableBlock(b)
    ensures var p := Prepare(hash, b, turnId, ordinal); p.key.hash == hash(p.content)
  {
    NormalFieldsEncode(b.payload);
    NormalFieldsEncode(b.metadata);
  }

  ghost predicate Hashed(hash: Hash, blocks: seq<PreparedBlock>) {
    forall i | 0 <= i < |blocks| :: blocks[i].key.hash == hash(blocks[i].content)
  }

  /** Storing a block leaves every other row's content and membership alone. */
  ghost predicate Undisturbed(t: Tables, later: Tables, s: SnapshotKey) {
    && (forall k | k in t.blocks :: k in later.blocks && later.blocks[k].content == t.blocks[k].content
                                    && later.blocks[k].firstSeenAtMs <= t.blocks[k].firstSeenAtMs)
    && (forall m: MemberKey | m.snapshot != s :: m in t.members <==> m in later.members)
    && (forall m | m in t.members && m.snapshot != s :: later.members[m] == t.members[m])
  }

  /** The state of the block loop: these blocks stored, nothing else disturbed. */
  ghost predicate Underway(t: Tables, now: Tables, hash: Hash, s: SnapshotKey, blocks: seq<PreparedBlock>) {
    && WellFormed(now, hash) && now.turns == t.turns
    && HoldsPrepared(now, s, blocks) && Undisturbed(t, now, s)
  }

  ghost predicate HoldsPrepared(t: Tables, s: SnapshotKey, blocks: seq<PreparedBlock>) {
    && (forall m | m in t.members && m.snapshot == s :: m.ordinal < |blocks|)
    && (forall i | 0 <= i < |blocks| ::
          && MemberKey(s, i) in t.members && t.members[MemberKey(s, i)] == blocks[i].key
          && blocks[i].key in t.blocks && t.blocks[blocks[i].key].content == blocks[i].content)
  }

  lemma BlockStored(t: Tables, hash: Hash, s: SnapshotKey, blocks: seq<PreparedBlock>, b: PreparedBlock)
    requires Injective(hash) && WellFormed(t, hash) && s.turn in t.turns && HoldsPrepared(t, s, blocks)
    requires b.key.hash == hash(b.content)
    ensures var next := WithBlock(t, s, b, |blocks|);
      WellFormed(next, hash) && HoldsPrepared(next, s, blocks + [b]) && Undisturbed(t, next, s)
  {
    var next := WithBlock(t, s, b, |blocks|);
    assert b.key in t.blocks ==> t.blocks[b.key].content == b.content;
    forall i | 0 <= i < |blocks| + 1
      ensures MemberKey(s, i) in next.members && next.members[MemberKey(s, i)] == (blocks + [b])[i].key
      ensures var k := (blocks + [b])[i].key; k in next.blocks && next.blocks[k].content == (blocks + [b])[i].content
    {
      if i < |blocks| {
        assert MemberKey(s, i) in t.members;
      }
    }
  }

  lemma UndisturbedTransitive(a: Tables, b: Tables, c: Tables, s: SnapshotKey)
    requires Undisturbed(a, b, s) && Undisturbed(b, c, s)
    ensures Undisturbed(a, c, s)
  {
  }

  lemma {:induction false} BlocksStored(t: Tables, hash: Hash, s: SnapshotKey, blocks: seq<PreparedBlock>)
    requires Injective(hash) && s.turn in t.turns && Hashed(hash, blocks) && Underway(t, t, hash, s, [])
    ensures Underway(t, WithBlocks(t, s, blocks), hash, s, blocks)
  {
    if blocks != [] {
      var init, last := blocks[..|blocks| - 1], blocks[|blocks| - 1];
      assert blocks == init + [last];
      BlocksStored(t, hash, s, init);
      var before := WithBlocks(t, s, init);
      BlockStored(before, hash, s, init, last);
      UndisturbedTransitive(t, before, WithBlocks(t, s, blocks), s);
    }
  }

  /** One save: the tables stay well formed, its own snapshot is its list and
      nothing else is disturbed. */
  lemma SaveIsolated(t: Tables, hash: Hash, row: SaveRow, turn: Turn)
    requires Injective(hash) && WellFormed(t, hash) && Storable(turn)
    ensures var s, next := KeyOf(row, turn), Saved(t, hash, row, turn);
      && WellFormed(next, hash)
      && Holds(next, s, Expected(turn, s.turn.turnId), |turn.blocks|)
      && Undisturbed(t, next, s)
  {
    var s := KeyOf(row, turn);
    var begun := Cleared(UpsertTurn(t, row, turn), s);
    var prepared := PrepareAll(hash, turn.blocks, s.turn.turnId);
    forall i | 0 <= i < |prepared| ensures prepared[i].key.hash == hash(prepared[i].content) {
      HashOfPrepared(hash, turn.blocks[i], s.turn.turnId, i);
    }
    BlocksStored(begun, hash, s, prepared);
    UndisturbedTransitive(t, begun, Saved(t, hash, row, turn), s);
    PreparedReadsBack(Saved(t, hash, row, turn), hash, s, turn);
  }

  lemma PreparedReadsBack(t: Tables, hash: Hash, s: SnapshotKey, turn: Turn)
    requires Storable(turn) && HoldsPrepared(t, s, PrepareAll(hash, turn.blocks, s.turn.turnId))
    ensures Holds(t, s, Expected(turn, s.turn.turnId), |turn.blocks|)
  {
    var prepared := PrepareAll(hash, turn.blocks, s.turn.turnId);
    forall i | 0 <= i < |prepared|
      ensures Expected(turn, s.turn.turnId)[i] == Presented(prepared[i].key.id, prepared[i].content)
    {
      PresentedReadsBack(turn.blocks[i], s.turn.turnId, i);
    }
  }

  /** A snapshot that holds a list reads back as that list. */
  lemma HeldReadsBack(t: Tables, s: SnapshotKey, loaded: seq<LoadedBlock>)
    requires Holds(t, s, loaded, |loaded|)
    ensures Loaded(t, s) == loaded
  {
    var items := seq(|loaded|, i requires 0 <= i < |loaded| => Item(i, ""));
    assert Sorted(items);
    forall x | x in Ordinals(t, s) ensures x in Elements(items) {
      var m :| m in t.members && m.snapshot == s && t.members[m] in t.blocks && x == Item(m.ordinal, "");
      assert items[m.ordinal] == x;
    }
    forall x | x in Elements(items) ensures x in Ordinals(t, s) {
      var i :| 0 <= i < |items| && items[i] == x;
      assert MemberKey(s, i) in t.members;
    }
    OrderedUnique(items, Ordinals(t, s));
    forall i | 0 <= i < |loaded| ensures Loaded(t, s)[i] == loaded[i] {
      assert items[i] in Elements(items);
    }
  }

  // ----- Over whole histories -----

  datatype SaveOp = SaveOp(row: SaveRow, turn: Turn)

  function After(hash: Hash, ops: seq<SaveOp>): Tables {
    if ops == [] then EMPTY
    else Saved(After(hash, ops[..|ops| - 1]), hash, ops[|ops| - 1].row, ops[|ops| - 1].turn)
  }

  /** The list of the last successful save under a snapshot key. */
  function LastSaved(ops: seq<SaveOp>, s: SnapshotKey): seq<LoadedBlock> {
    if ops == [] then []
    else
      var op := ops[|ops| - 1];
      if Storable(op.turn) && KeyOf(op.row, op.turn) == s then Expected(op.turn, s.turn.turnId)
      else LastSaved(ops[..|ops| - 1], s)
  }

  lemma {:induction false} SnapshotsHeld(hash: Hash, ops: seq<SaveOp>, s: SnapshotKey)
    requires Injective(hash)
    ensures WellFormed(After(hash, ops), hash)
    ensures Holds(After(hash, ops), s, LastSaved(ops, s), |LastSaved(ops, s)|)
  {
    if ops != [] {
      var init, op := ops[..|ops| - 1], ops[|ops| - 1];
      SnapshotsHeld(hash, init, s);
      var t := After(hash, init);
      if Storable(op.turn) {
        SaveIsolated(t, hash, op.row, op.turn);
        if KeyOf(op.row, op.turn) != s {
          UndisturbedHolds(t, After(hash, ops), KeyOf(op.row, op.turn), s, LastSaved(init, s));
        }
      }
    }
  }

  lemma UndisturbedHolds(t: Tables, later: Tables, written: SnapshotKey, s: SnapshotKey, loaded: seq<LoadedBlock>)
    requires Undisturbed(t, later, written) && s != written && Holds(t, s, loaded, |loaded|)
    ensures Holds(later, s, loaded, |loaded|)
  {
    forall i | 0 <= i < |loaded|
      ensures MemberKey(s, i) in later.members
      ensures var k := later.members[MemberKey(s, i)];
        k in later.blocks && loaded[i] == Presented(k.id, later.blocks[k].content)
    {
      assert MemberKey(s, i) in t.members;
    }
    forall m | m in later.members && m.snapshot == s ensures m.ordinal < |loaded| {
      assert m in t.members;
    }
  }

  /** After any saves, failed ones included, every snapshot reads back exactly
      as its last successful save's list, whatever was saved under other keys,
      and every membership row has its block and its turn. */
  lemma SnapshotRoundTrip(hash: Hash, ops: seq<SaveOp>, s: SnapshotKey)
    requires Injective(hash)
    ensures Loaded(After(hash, ops), s) == LastSaved(ops, s)
    ensures WellFormed(After(hash, ops), hash)
  {
    SnapshotsHeld(hash, ops, s);
    HeldReadsBack(After(hash, ops), s, LastSaved(ops, s));
  }
}
