/** The conversation index, kept twice: by a Go merge in the memory store and
    by an ON CONFLICT update in the SQLite store. */
module ConversationIndex {
  import opened Numbers
  import opened Wrappers
  import opened Text
  import opened Timeline

  /** Go's zero ConversationRecord, which a map returns for a missing key. */
  const ZERO := ConversationRecord("", "", "", 0, 0, 0, false, "", "")

  /** normalizeConversationRecord. */
  function Normalize(r: ConversationRecord, now: int): ConversationRecord {
    var created := if r.createdAtMs <= 0 then now else r.createdAtMs;
    ConversationRecord(
      TrimSpace(r.convId), TrimSpace(r.sessionId), TrimSpace(r.runtimeKey),
      created, if r.lastActivityMs <= 0 then created else r.lastActivityMs,
      r.lastSeenVersion, r.hasTimeline || r.lastSeenVersion > 0,
      OrElse(TrimSpace(r.status), "active"), TrimSpace(r.lastError))
  }

  /** mergeConversationRecord. */
  function Merge(existing: ConversationRecord, incoming: ConversationRecord, now: int): ConversationRecord {
    var r := Normalize(incoming, now);
    if existing.convId == "" then r
    else
      ConversationRecord(
        OrElse(r.convId, existing.convId),
        OrElse(r.sessionId, existing.sessionId),
        OrElse(r.runtimeKey, existing.runtimeKey),
        if existing.createdAtMs > 0 then existing.createdAtMs else r.createdAtMs,
        if r.lastActivityMs < existing.lastActivityMs then existing.lastActivityMs else r.lastActivityMs,
        if r.lastSeenVersion < existing.lastSeenVersion then existing.lastSeenVersion else r.lastSeenVersion,
        existing.hasTimeline || r.hasTimeline,
        OrElse(OrElse(r.status, existing.status), "active"),
        OrElse(r.lastError, existing.lastError))
  }

  /** The ON CONFLICT(conv_id) update of UpsertConversation. */
  function SqlMerge(row: Option<ConversationRecord>, excluded: ConversationRecord): ConversationRecord {
    if row.None? then excluded
    else
      var t := row.value;
      ConversationRecord(
        t.convId,
        if excluded.sessionId != "" then excluded.sessionId else t.sessionId,
        if excluded.runtimeKey != "" then excluded.runtimeKey else t.runtimeKey,
        if t.createdAtMs > 0 then t.createdAtMs else excluded.createdAtMs,
        if excluded.lastActivityMs > t.lastActivityMs then excluded.lastActivityMs else t.lastActivityMs,
        if excluded.lastSeenVersion > t.lastSeenVersion then excluded.lastSeenVersion else t.lastSeenVersion,
        excluded.hasTimeline || t.hasTimeline,
        if excluded.status != "" then excluded.status else t.status,
        if excluded.lastError != "" then excluded.lastError else t.lastError)
  }

  /** What the memory store's Upsert merges into the index. */
  function Progress(existing: ConversationRecord, convId: string, version: nat, now: int): ConversationRecord {
    Merge(existing, ConversationRecord(convId, "", "", 0, now, version, true, "active", ""), now)
  }

  /** What the SQLite store's Upsert does to the index row. */
  function SqlProgress(row: Option<ConversationRecord>, convId: string, version: nat, now: int): ConversationRecord {
    if row.None? then ConversationRecord(convId, "", "", now, now, version, true, "active", "")
    else
      var t := row.value;
      t.(createdAtMs := if t.createdAtMs > 0 then t.createdAtMs else now,
         lastActivityMs := if now > t.lastActivityMs then now else t.lastActivityMs,
         lastSeenVersion := if version > t.lastSeenVersion then version else t.lastSeenVersion,
         hasTimeline := true)
  }

  // ----- One conversation's history in both stores -----

  /** Describe is a call of UpsertConversation, Advance the index part of a
      call of Upsert at this version. */
  datatype IndexOp = Describe(record: ConversationRecord, now: int) | Advance(version: nat, now: int) {
    /** The version that the call carries. */
    function Version(): nat {
      if Describe? then record.lastSeenVersion else version
    }

    /** SQLite refuses what does not fit its signed column. */
    predicate InRange() {
      Version() <= MAX_INT64
    }
  }

  predicate OpFor(convId: string, op: IndexOp) {
    op.now > 0 && (op.Describe? ==> TrimSpace(op.record.convId) == convId)
  }

  ghost predicate OpsFor(convId: string, ops: seq<IndexOp>) {
    forall i | 0 <= i < |ops| :: OpFor(convId, ops[i])
  }

  ghost predicate NoneRefused(ops: seq<IndexOp>) {
    forall i | 0 <= i < |ops| :: ops[i].InRange()
  }

  function Head(ops: seq<IndexOp>): seq<IndexOp>
    requires ops != []
  {
    ops[..|ops| - 1]
  }

  /** The memory timeline's version after these calls. */
  function Reached(ops: seq<IndexOp>): nat {
    if ops == [] then 0
    else
      var before, last := Reached(Head(ops)), ops[|ops| - 1];
      if last.Advance? && last.version > before then last.version else before
  }

  /** The SQLite timeline's. */
  function SqlReached(ops: seq<IndexOp>): nat {
    if ops == [] then 0
    else
      var before, last := SqlReached(Head(ops)), ops[|ops| - 1];
      if last.Advance? && last.InRange() && last.version > before then last.version else before
  }

  function MemoryIndex(convId: string, ops: seq<IndexOp>): ConversationRecord {
    if ops == [] then ZERO
    else
      var before := MemoryIndex(convId, Head(ops));
      match ops[|ops| - 1]
      case Describe(record, now) => Merge(before, Normalize(record, now), now)
      case Advance(_, now) => Progress(before, convId, Reached(ops), now)
  }

  function SqlIndex(convId: string, ops: seq<IndexOp>): Option<ConversationRecord> {
    if ops == [] then None
    else
      var before := SqlIndex(convId, Head(ops));
      if !ops[|ops| - 1].InRange() then before
      else
        match ops[|ops| - 1]
        case Describe(record, now) => Some(SqlMerge(before, Normalize(record, now)))
        case Advance(_, now) => Some(SqlProgress(before, convId, SqlReached(ops), now))
  }

  lemma NormalizeTwice(r: ConversationRecord, now: int)
    requires now > 0
    ensures Normalize(Normalize(r, now), now) == Normalize(r, now)
  {
    TrimIdempotent(r.convId);
    TrimIdempotent(r.sessionId);
    TrimIdempotent(r.runtimeKey);
    TrimIdempotent(r.status);
    TrimIdempotent(r.lastError);
    assert TrimSpace("active") == "active" by {
      assert TrimLeft("active") == "active";
      assert TrimRight("active") == "active";
    }
  }

  /** The memory store's status is the last call's; SQLite's is the last
      UpsertConversation's. */
  function LastStatus(ops: seq<IndexOp>): string {
    if ops == [] then "active"
    else
      match ops[|ops| - 1]
      case Describe(_, _) => StatusBy(ops[|ops| - 1])
      case Advance(_, _) => LastStatus(Head(ops))
  }

  /** The two records of a conversation, apart from the status. The memory
      store's carries the id trimmed, SQLite's as it was given. */
  ghost predicate Aligned(convId: string, memory: ConversationRecord, sql: Option<ConversationRecord>, status: string) {
    && sql.Some? && sql.value.convId == convId && sql.value.createdAtMs > 0
    && sql.value.status == status != "" && memory.status != ""
    && memory == sql.value.(convId := TrimSpace(convId), status := memory.status)
  }

  ghost predicate Unwritten(memory: ConversationRecord, sql: Option<ConversationRecord>) {
    memory == ZERO && sql.None?
  }

  lemma DescribeAligns(convId: string, memory: ConversationRecord, sql: Option<ConversationRecord>, status: string,
                       record: ConversationRecord, now: int)
    requires Unwritten(memory, sql) || Aligned(convId, memory, sql, status)
    requires TrimSpace(record.convId) == convId != "" && now > 0
    ensures var r := Normalize(record, now);
      && Aligned(convId, Merge(memory, r, now), Some(SqlMerge(sql, r)), r.status)
      && Merge(memory, r, now).status == r.status
  {
    NormalizeTwice(record, now);
    TrimIdempotent(record.convId);
  }

  lemma AdvanceAligns(convId: string, memory: ConversationRecord, sql: Option<ConversationRecord>, status: string,
                      version: nat, now: int)
    requires Unwritten(memory, sql) || Aligned(convId, memory, sql, status)
    requires TrimSpace(convId) != "" && now > 0
    ensures Aligned(convId, Progress(memory, convId, version, now), Some(SqlProgress(sql, convId, version, now)),
                    if sql.None? then "active" else status)
    ensures Progress(memory, convId, version, now).status == "active"
  {
    TrimsOfProgress();
  }

  lemma {:induction false} ReachedAlike(ops: seq<IndexOp>)
    requires NoneRefused(ops)
    ensures Reached(ops) == SqlReached(ops)
  {
    if ops != [] {
      ReachedAlike(Head(ops));
    }
  }

  lemma {:induction false} IndexesAligned(convId: string, ops: seq<IndexOp>)
    requires ops != [] && OpsFor(convId, ops) && NoneRefused(ops) && TrimSpace(convId) != ""
    ensures Aligned(convId, MemoryIndex(convId, ops), SqlIndex(convId, ops), LastStatus(ops))
    ensures MemoryIndex(convId, ops).status == if ops[|ops| - 1].Advance? then "active" else LastStatus(ops)
  {
    var memory, sql := MemoryIndex(convId, Head(ops)), SqlIndex(convId, Head(ops));
    if |ops| > 1 {
      IndexesAligned(convId, Head(ops));
    } else {
      assert Unwritten(memory, sql);
    }
    var last, status := ops[|ops| - 1], LastStatus(Head(ops));
    assert OpFor(convId, last) && last.InRange();
    match last {
      case Describe(record, now) =>
        assert TrimSpace("") == "";
        DescribeAligns(convId, memory, sql, status, record, now);
      case Advance(_, now) =>
        ReachedAlike(ops);
        AdvanceAligns(convId, memory, sql, status, Reached(ops), now);
    }
  }

  /** An id of white space only can be advanced but not described, and the
      memory store starts its record anew each time. */
  lemma {:induction false} BlankIndex(convId: string, ops: seq<IndexOp>)
    requires ops != [] && OpsFor(convId, ops) && convId != "" && TrimSpace(convId) == ""
    ensures ops[|ops| - 1].Advance?
    ensures MemoryIndex(convId, ops) == Progress(ZERO, convId, Reached(ops), ops[|ops| - 1].now)
    ensures SqlIndex(convId, ops).Some? ==> SqlIndex(convId, ops).value.convId == convId
  {
    var last := ops[|ops| - 1];
    assert OpFor(convId, last);
    if last.Describe? {
      TrimIdempotent(last.record.convId);
      assert false;
    }
    TrimsOfProgress();
    if |ops| > 1 {
      BlankIndex(convId, Head(ops));
    }
  }

  lemma TrimsOfProgress()
    ensures TrimSpace("") == "" && TrimSpace("active") == "active"
  {
    assert TrimLeft("active") == "active" && TrimRight("active") == "active";
  }

  /** The memory store's record of an id that is not blank. */
  ghost predicate Filed(convId: string, r: ConversationRecord) {
    r.convId == TrimSpace(convId) && r.createdAtMs > 0
  }

  /** The record after one call of the memory store. */
  function Recorded(before: ConversationRecord, convId: string, op: IndexOp, reached: nat): ConversationRecord {
    match op
    case Describe(record, now) => Merge(before, Normalize(record, now), now)
    case Advance(_, now) => Progress(before, convId, reached, now)
  }

  lemma StepFiled(convId: string, before: ConversationRecord, op: IndexOp, reached: nat)
    requires OpFor(convId, op) && TrimSpace(convId) != ""
    requires before == ZERO || Filed(convId, before)
    ensures var after := Recorded(before, convId, op, reached);
      && Filed(convId, after) && after.lastSeenVersion >= before.lastSeenVersion
      && after.lastSeenVersion >= if op.Advance? then reached else op.Version()
  {
    match op
    case Describe(record, now) =>
      NormalizeTwice(record, now);
      TrimIdempotent(record.convId);
    case Advance(_, now) =>
      TrimsOfProgress();
  }

  lemma MemoryStep(convId: string, ops: seq<IndexOp>)
    requires ops != [] && OpsFor(convId, ops) && TrimSpace(convId) != ""
    requires Head(ops) != [] ==> Filed(convId, MemoryIndex(convId, Head(ops)))
    ensures Filed(convId, MemoryIndex(convId, ops))
    ensures MemoryIndex(convId, ops).lastSeenVersion >= MemoryIndex(convId, Head(ops)).lastSeenVersion
    ensures MemoryIndex(convId, ops).lastSeenVersion >= ops[|ops| - 1].Version()
  {
    var last := ops[|ops| - 1];
    assert OpFor(convId, last);
    StepFiled(convId, MemoryIndex(convId, Head(ops)), last, Reached(ops));
  }

  lemma {:induction false} MemoryFiled(convId: string, ops: seq<IndexOp>)
    requires ops != [] && OpsFor(convId, ops) && TrimSpace(convId) != ""
    ensures Filed(convId, MemoryIndex(convId, ops))
  {
    if |ops| > 1 {
      MemoryFiled(convId, Head(ops));
    }
    MemoryStep(convId, ops);
  }

  /** The memory store's record carries the version of every call. */
  lemma {:induction false} MemorySees(convId: string, ops: seq<IndexOp>, i: nat)
    requires OpsFor(convId, ops) && TrimSpace(convId) != "" && i < |ops|
    ensures MemoryIndex(convId, ops).lastSeenVersion >= ops[i].Version()
  {
    if |ops| > 1 {
      MemoryFiled(convId, Head(ops));
    }
    MemoryStep(convId, ops);
    if i < |ops| - 1 {
      MemorySees(convId, Head(ops), i);
    }
  }

  lemma {:induction false} SqlSeesInRange(convId: string, ops: seq<IndexOp>)
    ensures SqlReached(ops) <= MAX_INT64
    ensures SqlIndex(convId, ops).Some? ==> SqlIndex(convId, ops).value.lastSeenVersion <= MAX_INT64
  {
    if ops != [] {
      SqlSeesInRange(convId, Head(ops));
    }
  }

  /** A call out of SQLite's range parts the records for ever. */
  lemma RefusalShows(convId: string, ops: seq<IndexOp>, i: nat)
    requires OpsFor(convId, ops) && convId != "" && i < |ops| && !ops[i].InRange()
    ensures SqlIndex(convId, ops) != Some(MemoryIndex(convId, ops))
  {
    SqlSeesInRange(convId, ops);
    if TrimSpace(convId) == "" {
      BlankIndex(convId, ops);
      TrimsOfProgress();
    } else {
      MemorySees(convId, ops, i);
    }
  }

  /** For any calls of UpsertConversation the two stores hold the same record
      exactly when SQLite refuses none of them for its version. */
  lemma DescribesAgree(convId: string, ops: seq<IndexOp>)
    requires ops != [] && OpsFor(convId, ops) && convId != ""
    requires forall i | 0 <= i < |ops| :: ops[i].Describe?
    ensures SqlIndex(convId, ops) == Some(MemoryIndex(convId, ops)) <==> NoneRefused(ops)
  {
    assert OpFor(convId, ops[0]);
    TrimIdempotent(ops[0].record.convId);
    if NoneRefused(ops) {
      IndexesAligned(convId, ops);
    } else {
      var i: nat :| i < |ops| && !ops[i].InRange();
      RefusalShows(convId, ops, i);
    }
  }

  /** With Upserts in between they agree on every field but the status and the
      trimming of the id, unless the id is blank or SQLite refused a call; they
      are equal exactly when it refused none, the id is trimmed and the last
      call described the conversation or nothing but "active" was described
      last. */
  lemma MixedCallsAgree(convId: string, ops: seq<IndexOp>)
    requires ops != [] && OpsFor(convId, ops) && convId != ""
    ensures var memory, sql, last := MemoryIndex(convId, ops), SqlIndex(convId, ops), ops[|ops| - 1];
      && (TrimSpace(convId) != "" && NoneRefused(ops) ==>
            sql.Some? && memory == sql.value.(convId := TrimSpace(convId), status := memory.status))
      && (TrimSpace(convId) == "" ==>
            last.Advance? && memory == Progress(ZERO, convId, Reached(ops), last.now))
      && (sql == Some(memory) <==>
            NoneRefused(ops) && TrimSpace(convId) == convId && (last.Describe? || LastStatus(ops) == "active"))
  {
    if TrimSpace(convId) == "" {
      BlankIndex(convId, ops);
      TrimsOfProgress();
    } else if NoneRefused(ops) {
      IndexesAligned(convId, ops);
    } else {
      var i: nat :| i < |ops| && !ops[i].InRange();
      RefusalShows(convId, ops, i);
    }
  }

  // ----- What the record says -----

  /** When a call says the conversation was created and was active: what the
      record gives, else the clock. */
  function CreatedBy(op: IndexOp): int {
    if op.Describe? && op.record.createdAtMs > 0 then op.record.createdAtMs else op.now
  }

  function ActiveAt(op: IndexOp): int {
    if op.Describe? then if op.record.lastActivityMs > 0 then op.record.lastActivityMs else CreatedBy(op)
    else op.now
  }

  predicate ShowsTimeline(op: IndexOp) {
    op.Advance? || op.record.hasTimeline || op.record.lastSeenVersion > 0
  }

  function StatusBy(op: IndexOp): string {
    if op.Describe? && TrimSpace(op.record.status) != "" then TrimSpace(op.record.status) else "active"
  }

  datatype TextField = Session | Runtime | LastError {
    function Of(r: ConversationRecord): string {
      match this
      case Session => r.sessionId
      case Runtime => r.runtimeKey
      case LastError => r.lastError
    }

    /** What each call says. */
    function Said(ops: seq<IndexOp>): seq<string> {
      seq(|ops|, i requires 0 <= i < |ops| => if ops[i].Describe? then TrimSpace(Of(ops[i].record)) else "")
    }
  }

  /** The number is one of these and none of them is greater. */
  ghost predicate Greatest(n: int, numbers: seq<int>) {
    n in numbers && forall i | 0 <= i < |numbers| :: numbers[i] <= n
  }

  function Activities(ops: seq<IndexOp>): seq<int> {
    seq(|ops|, i requires 0 <= i < |ops| => ActiveAt(ops[i]))
  }

  function Versions(ops: seq<IndexOp>): seq<int> {
    seq(|ops|, i requires 0 <= i < |ops| => ops[i].Version())
  }

  /** The record keeps the trimmed id, the first creation time, the greatest
      activity and version, the last session, runtime and error that are not
      blank, and the last status; it has a timeline if any call says so. */
  ghost predicate SumsUp(m: ConversationRecord, convId: string, ops: seq<IndexOp>) {
    && ops != []
    && m.convId == TrimSpace(convId)
    && m.createdAtMs == CreatedBy(ops[0])
    && Greatest(m.lastActivityMs, Activities(ops)) && Greatest(m.lastSeenVersion, Versions(ops))
    && (forall f: TextField :: LastNonEmpty(f.Said(ops), f.Of(m)))
    && m.status == StatusBy(ops[|ops| - 1])
    && (m.hasTimeline <==> exists i :: 0 <= i < |ops| && ShowsTimeline(ops[i]))
  }

  lemma GreatestAppend(n: int, numbers: seq<int>, next: int)
    requires Greatest(n, numbers)
    ensures Greatest(Max(next, n), numbers + [next])
  {
    var longer := numbers + [next];
    assert longer[|numbers|] == next;
    assert n in longer;
  }

  /** What one more call does to the record of an id that has one. */
  ghost predicate OneMore(before: ConversationRecord, after: ConversationRecord, op: IndexOp, version: int) {
    && after.convId == before.convId && after.createdAtMs == before.createdAtMs
    && after.lastActivityMs == Max(ActiveAt(op), before.lastActivityMs)
    && after.lastSeenVersion == Max(version, before.lastSeenVersion)
    && (forall f: TextField ::
          f.Of(after) == OrElse(if op.Describe? then TrimSpace(f.Of(op.record)) else "", f.Of(before)))
    && after.status == StatusBy(op)
    && after.hasTimeline == (before.hasTimeline || ShowsTimeline(op))
  }

  lemma RecordedMore(before: ConversationRecord, convId: string, op: IndexOp, reached: nat)
    requires OpFor(convId, op) && Filed(convId, before) && TrimSpace(convId) != ""
    ensures OneMore(before, Recorded(before, convId, op, reached), op, if op.Advance? then reached else op.Version())
  {
    TrimsOfProgress();
    match op
    case Describe(record, now) =>
      NormalizeTwice(record, now);
      TrimIdempotent(record.convId);
    case Advance(_, _) =>
  }

  lemma SumsUpMore(before: ConversationRecord, after: ConversationRecord, convId: string, init: seq<IndexOp>, op: IndexOp)
    requires SumsUp(before, convId, init) && OneMore(before, after, op, op.Version())
    ensures SumsUp(after, convId, init + [op])
  {
    var ops := init + [op];
    GreatestAppend(before.lastActivityMs, Activities(init), ActiveAt(op));
    GreatestAppend(before.lastSeenVersion, Versions(init), op.Version());
    assert Activities(ops) == Activities(init) + [ActiveAt(op)] && Versions(ops) == Versions(init) + [op.Version()];
    forall f: TextField ensures LastNonEmpty(f.Said(ops), f.Of(after)) {
      var next := if op.Describe? then TrimSpace(f.Of(op.record)) else "";
      LastNonEmptyAppend(f.Said(init), f.Of(before), next);
      assert f.Said(ops) == f.Said(init) + [next];
    }
    if before.hasTimeline {
      var i :| 0 <= i < |init| && ShowsTimeline(init[i]);
      assert ShowsTimeline(ops[i]);
    } else {
      assert ops[|init|] == op;
    }
  }

  lemma SumsUpOne(convId: string, op: IndexOp)
    requires OpFor(convId, op) && convId != ""
    ensures SumsUp(Recorded(ZERO, convId, op, op.Version()), convId, [op])
  {
    var m := Recorded(ZERO, convId, op, op.Version());
    TrimsOfProgress();
    if op.Describe? {
      NormalizeTwice(op.record, op.now);
      TrimIdempotent(op.record.convId);
    }
    assert Activities([op]) == [ActiveAt(op)] && Versions([op]) == [op.Version()];
    forall f: TextField ensures LastNonEmpty(f.Said([op]), f.Of(m)) {
      assert f.Said([op])[0] == f.Of(m);
      assert f.Of(m) != "" ==> LastNonEmptyAt(f.Said([op]), f.Of(m), 0);
    }
    assert [op][0] == op;
  }

  lemma ReachedByCalls(ops: seq<IndexOp>, greatest: nat)
    requires Greatest(greatest, Versions(ops))
    ensures Reached(ops) <= greatest
  {
    ReachedIsSome(ops);
    assert forall i | 0 <= i < |ops| :: Versions(ops)[i] == ops[i].Version();
  }

  lemma {:induction false} ReachedIsSome(ops: seq<IndexOp>)
    ensures Reached(ops) == 0 || exists i :: 0 <= i < |ops| && Reached(ops) == ops[i].Version()
  {
    if ops != [] {
      ReachedIsSome(Head(ops));
      if Reached(ops) == Reached(Head(ops)) && Reached(ops) != 0 {
        var i :| 0 <= i < |Head(ops)| && Reached(ops) == Head(ops)[i].Version();
        assert ops[i] == Head(ops)[i];
      }
    }
  }

  /** The memory store's record sums up the calls themselves, whatever mix of
      descriptions and upserts they are. */
  lemma {:induction false} RecordMeaning(convId: string, ops: seq<IndexOp>)
    requires ops != [] && OpsFor(convId, ops) && TrimSpace(convId) != ""
    ensures SumsUp(MemoryIndex(convId, ops), convId, ops)
  {
    var init, last := Head(ops), ops[|ops| - 1];
    assert ops == init + [last] && OpFor(convId, last);
    if init == [] {
      assert ops == [last] && Reached(init) == 0 && MemoryIndex(convId, init) == ZERO;
      SumsUpOne(convId, last);
      assert MemoryIndex(convId, ops) == Recorded(ZERO, convId, last, last.Version());
    } else {
      RecordMeaning(convId, init);
      MemoryFiled(convId, init);
      var before, after := MemoryIndex(convId, init), MemoryIndex(convId, ops);
      ReachedByCalls(init, before.lastSeenVersion);
      assert after == Recorded(before, convId, last, Reached(ops));
      RecordedMore(before, convId, last, Reached(ops));
      assert OneMore(before, after, last, last.Version());
      SumsUpMore(before, after, convId, init, last);
    }
  }

  /** Under a blank id, which only upserts can have, the memory store's record
      sums up the last one alone, at the version reached. */
  lemma BlankRecordMeaning(convId: string, ops: seq<IndexOp>)
    requires ops != [] && OpsFor(convId, ops) && convId != "" && TrimSpace(convId) == ""
    ensures SumsUp(MemoryIndex(convId, ops), convId, [Advance(Reached(ops), ops[|ops| - 1].now)])
  {
    BlankIndex(convId, ops);
    assert OpFor(convId, ops[|ops| - 1]);
    SumsUpOne(convId, Advance(Reached(ops), ops[|ops| - 1].now));
  }

  // ----- The SQLite store's record -----

  /** The calls that SQLite does not refuse. */
  function Kept(ops: seq<IndexOp>): seq<IndexOp> {
    if ops == [] then []
    else Kept(Head(ops)) + (if ops[|ops| - 1].InRange() then [ops[|ops| - 1]] else [])
  }

  /** One more call that SQLite takes does the same to equal rows. */
  lemma SqlStep(convId: string, ops: seq<IndexOp>, kept: seq<IndexOp>)
    requires ops != [] && ops[|ops| - 1].InRange()
    requires SqlReached(kept) == SqlReached(Head(ops)) && SqlIndex(convId, kept) == SqlIndex(convId, Head(ops))
    ensures SqlReached(kept + [ops[|ops| - 1]]) == SqlReached(ops)
    ensures SqlIndex(convId, kept + [ops[|ops| - 1]]) == SqlIndex(convId, ops)
  {
    assert Head(kept + [ops[|ops| - 1]]) == kept;
  }

  lemma {:induction false} KeptInRange(convId: string, ops: seq<IndexOp>)
    ensures NoneRefused(Kept(ops))
    ensures OpsFor(convId, ops) ==> OpsFor(convId, Kept(ops))
  {
    if ops != [] {
      KeptInRange(convId, Head(ops));
    }
  }

  lemma {:induction false} KeptIsKept(convId: string, ops: seq<IndexOp>)
    ensures SqlReached(Kept(ops)) == SqlReached(ops) && SqlIndex(convId, Kept(ops)) == SqlIndex(convId, ops)
  {
    if ops != [] {
      KeptIsKept(convId, Head(ops));
      if ops[|ops| - 1].InRange() {
        SqlStep(convId, ops, Kept(Head(ops)));
      } else {
        assert Kept(ops) == Kept(Head(ops));
      }
    }
  }

  /** SQLite's record, after any calls, sums up those it did not refuse, but for
      the id, which is kept as given, and the status, which upserts leave
      alone. */
  lemma SqlRecordMeaning(convId: string, ops: seq<IndexOp>)
    requires OpsFor(convId, ops) && TrimSpace(convId) != ""
    ensures var row := SqlIndex(convId, ops);
      && (row.Some? <==> Kept(ops) != [])
      && (row.Some? ==>
            && row.value.convId == convId && row.value.status == LastStatus(Kept(ops))
            && SumsUp(row.value.(convId := TrimSpace(convId), status := StatusBy(Kept(ops)[|Kept(ops)| - 1])),
                      convId, Kept(ops)))
  {
    KeptInRange(convId, ops);
    KeptIsKept(convId, ops);
    if Kept(ops) != [] {
      IndexesAligned(convId, Kept(ops));
      RecordMeaning(convId, Kept(ops));
    }
  }
}
