/** The versions a conversation, its timeline and its index rows carry, over
    every interleaving of the goroutines that move them. */
module VersionChain {
  import opened Wrappers
  import opened Text
  import opened Timeline
  import opened TimelineMemory
  import Index = ConversationIndex

  type Records = map<string, ConversationRecord>

  /** One conversation: its lastSeenVersion, its timeline, the index of the
      memory store and the index rows of the SQLite store; the hook calls and
      the records that goroutines still carry. Upsert files under the id as it
      is given, UpsertConversation under the trimmed id. */
  datatype State = State(
    lastSeen: nat, conv: Conv, index: Records, rows: Records,
    hooks: seq<nat>, records: seq<ConversationRecord>)

  datatype Event =
    // an Upsert, at a version both stores accept: of the projector, whose hook
    // is still to run, or of an emitter
    | Upsert(w: Write, projected: bool)
    // timelineProjectorUpsertHook
    | Hook(i: nat)
    // buildConversationRecord, before its record is persisted
    | Build(sessionId: string, runtimeKey: string, createdAtMs: int, lastActivityMs: int,
            hasTimeline: bool, status: string, lastError: string)
    // UpsertConversation with a record built earlier
    | Persist(i: nat, now: int)

  predicate Enabled(s: State, e: Event, convId: string) {
    match e
    case Upsert(w, _) => Acceptable(convId, w) && w.version <= MAX_INT64 && w.now > 0
    case Hook(i) => i < |s.hooks|
    case Build(_, _, _, _, _, _, _) => true
    case Persist(i, now) => i < |s.records| && now > 0
  }

  function RecordAt(records: Records, key: string): ConversationRecord {
    if key in records then records[key] else Index.ZERO
  }

  ghost function Step(s: State, e: Event, convId: string, max: nat): State
    requires Enabled(s, e, convId)
  {
    match e
    case Upsert(w, projected) =>
      var conv := Upserted(s.conv, w, max);
      var version := Stored(s.conv, w).version;
      s.(conv := conv,
         index := s.index[convId := Index.Progress(RecordAt(s.index, convId), convId, version, w.now)],
         rows := s.rows[convId := Index.SqlProgress(Get(s.rows, convId), convId, version, w.now)],
         hooks := if projected then s.hooks + [w.version] else s.hooks)
    case Hook(i) =>
      s.(lastSeen := if s.hooks[i] > s.lastSeen then s.hooks[i] else s.lastSeen,
         hooks := s.hooks[..i] + s.hooks[i + 1..])
    case Build(sessionId, runtimeKey, createdAtMs, lastActivityMs, hasTimeline, status, lastError) =>
      s.(records := s.records + [ConversationRecord(
           convId, sessionId, runtimeKey, createdAtMs, lastActivityMs, s.lastSeen, hasTimeline,
           if TrimSpace(status) == "" then "active" else TrimSpace(status), TrimSpace(lastError))])
    case Persist(i, now) =>
      var r := Index.Normalize(s.records[i], now);
      s.(index := FiledInMemory(s.index, r, now), rows := FiledInSql(s.rows, r),
         records := s.records[..i] + s.records[i + 1..])
  }

  /** UpsertConversation of each store, with a normalized record. */
  function FiledInMemory(index: Records, r: ConversationRecord, now: int): Records {
    if r.convId == "" then index else index[r.convId := Index.Merge(RecordAt(index, r.convId), r, now)]
  }

  function FiledInSql(rows: Records, r: ConversationRecord): Records {
    if r.convId == "" || r.lastSeenVersion > MAX_INT64 then rows
    else rows[r.convId := Index.SqlMerge(Get(rows, r.convId), r)]
  }

  const START := State(0, EMPTY, map[], map[], [], [])

  ghost function RunTo(events: seq<Event>, convId: string, max: nat): Option<State> {
    if events == [] then Some(START)
    else
      var before := RunTo(events[..|events| - 1], convId, max);
      if before.None? || !Enabled(before.value, events[|events| - 1], convId) then None
      else Some(Step(before.value, events[|events| - 1], convId, max))
  }

  function Seen(records: Records, key: string): nat {
    RecordAt(records, key).lastSeenVersion
  }

  /** The record filed under the id carries the timeline's version, and the one
      under the trimmed id, if that is another, none beyond it. */
  ghost predicate Follows(records: Records, convId: string, trimmed: string, version: nat) {
    Seen(records, convId) == version && Seen(records, trimmed) <= version
  }

  ghost predicate Named(records: Records, convId: string, trimmed: string) {
    forall key | key in records && (key == convId || key == trimmed) :: records[key].convId == trimmed
  }

  ghost predicate Chained(s: State, convId: string) {
    && s.lastSeen <= s.conv.version <= MAX_INT64
    && Follows(s.index, convId, TrimSpace(convId), s.conv.version)
    && Follows(s.rows, convId, TrimSpace(convId), s.conv.version)
    && Named(s.index, convId, TrimSpace(convId))
    && (forall i | 0 <= i < |s.hooks| :: s.hooks[i] <= s.conv.version)
    && (forall i | 0 <= i < |s.records| ::
          s.records[i].convId == convId && s.records[i].lastSeenVersion <= s.conv.version)
  }

  ghost predicate NoneLower(records: Records, later: Records, convId: string, trimmed: string) {
    Seen(records, convId) <= Seen(later, convId) && Seen(records, trimmed) <= Seen(later, trimmed)
  }

  /** No version goes down. */
  ghost predicate Forward(s: State, later: State, convId: string) {
    && s.lastSeen <= later.lastSeen
    && s.conv.version <= later.conv.version
    && NoneLower(s.index, later.index, convId, TrimSpace(convId))
    && NoneLower(s.rows, later.rows, convId, TrimSpace(convId))
  }

  /** The version part of one merge: the larger version, or the incoming one
      when the id is blank. */
  lemma MergedVersion(existing: ConversationRecord, incoming: ConversationRecord, now: int)
    requires existing == Index.ZERO || existing.convId == TrimSpace(incoming.convId)
    ensures var m := Index.Merge(existing, incoming, now);
      && m.convId == TrimSpace(incoming.convId)
      && m.lastSeenVersion == (if m.convId == "" || incoming.lastSeenVersion > existing.lastSeenVersion
                               then incoming.lastSeenVersion else existing.lastSeenVersion)
  {
  }

  lemma UpsertChains(s: State, w: Write, projected: bool, convId: string, max: nat)
    requires Chained(s, convId) && Enabled(s, Upsert(w, projected), convId)
    ensures var next := Step(s, Upsert(w, projected), convId, max);
      Chained(next, convId) && Forward(s, next, convId)
  {
    var version, trimmed := Stored(s.conv, w).version, TrimSpace(convId);
    VersionKept(Stored(s.conv, w), max);
    ProgressFollows(s.index, s.rows, convId, trimmed, s.conv.version, version, w.now);
  }

  lemma ProgressFollows(index: Records, rows: Records, convId: string, trimmed: string,
                        before: nat, version: nat, now: int)
    requires trimmed == TrimSpace(convId) && before <= version
    requires Follows(index, convId, trimmed, before) && Named(index, convId, trimmed)
    requires Follows(rows, convId, trimmed, before)
    ensures var later := index[convId := Index.Progress(RecordAt(index, convId), convId, version, now)];
      && Follows(later, convId, trimmed, version) && Named(later, convId, trimmed)
      && NoneLower(index, later, convId, trimmed)
    ensures var later := rows[convId := Index.SqlProgress(Get(rows, convId), convId, version, now)];
      Follows(later, convId, trimmed, version) && NoneLower(rows, later, convId, trimmed)
  {
    MergedVersion(RecordAt(index, convId),
                  ConversationRecord(convId, "", "", 0, now, version, true, "active", ""), now);
  }

  lemma PersistChains(s: State, i: nat, now: int, convId: string, max: nat)
    requires Chained(s, convId) && Enabled(s, Persist(i, now), convId)
    ensures var next := Step(s, Persist(i, now), convId, max);
      Chained(next, convId) && Forward(s, next, convId)
  {
    assert s.records[i].convId == convId && s.records[i].lastSeenVersion <= s.conv.version;
    var r := Index.Normalize(s.records[i], now);
    TrimIdempotent(convId);
    FilingFollows(s.index, s.rows, convId, r, s.conv.version, now);
  }

  lemma FilingFollows(index: Records, rows: Records, convId: string, r: ConversationRecord, version: nat, now: int)
    requires TrimSpace(r.convId) == r.convId && r.lastSeenVersion <= version <= MAX_INT64
    requires Follows(index, convId, r.convId, version) && Named(index, convId, r.convId)
    requires Follows(rows, convId, r.convId, version)
    ensures var later := FiledInMemory(index, r, now);
      && Follows(later, convId, r.convId, version) && Named(later, convId, r.convId)
      && NoneLower(index, later, convId, r.convId)
    ensures var later := FiledInSql(rows, r);
      Follows(later, convId, r.convId, version) && NoneLower(rows, later, convId, r.convId)
  {
    MergedVersion(RecordAt(index, r.convId), r, now);
  }

  lemma StepChains(s: State, e: Event, convId: string, max: nat)
    requires Chained(s, convId) && Enabled(s, e, convId)
    ensures Chained(Step(s, e, convId, max), convId) && Forward(s, Step(s, e, convId, max), convId)
  {
    match e
    case Upsert(w, projected) => UpsertChains(s, w, projected, convId, max);
    case Hook(i) => assert s.hooks[i] <= s.conv.version;
    case Build(_, _, _, _, _, _, _) =>
    case Persist(i, now) => PersistChains(s, i, now, convId, max);
  }

  /** Over any interleaving of projector and emitter upserts, hooks and index
      writes: what the conversation has seen never exceeds the timeline's
      version, which both indexes carry exactly under the conversation's id,
      and none of them goes down. */
  lemma {:induction false} VersionsChain(events: seq<Event>, m: nat, convId: string, max: nat)
    requires m <= |events| && RunTo(events, convId, max).Some?
    ensures Chained(RunTo(events, convId, max).value, convId)
    ensures RunTo(events[..m], convId, max).Some?
    ensures Forward(RunTo(events[..m], convId, max).value, RunTo(events, convId, max).value, convId)
  {
    if m == |events| {
      assert events[..m] == events;
      if events != [] {
        VersionsChain(events[..|events| - 1], 0, convId, max);
        StepChains(RunTo(events[..|events| - 1], convId, max).value, events[|events| - 1], convId, max);
      }
    } else {
      var init := events[..|events| - 1];
      VersionsChain(init, m, convId, max);
      assert init[..m] == events[..m];
      StepChains(RunTo(init, convId, max).value, events[|events| - 1], convId, max);
    }
  }

  // ----- What the conversation has seen -----

  predicate Projects(events: seq<Event>, k: int, version: nat) {
    0 <= k < |events| && events[k].Upsert? && events[k].projected && events[k].w.version == version
  }

  /** Some frame of the stream was projected at this version. */
  ghost predicate Projected(events: seq<Event>, version: nat) {
    exists k :: Projects(events, k, version)
  }

  /** The last seen version is one that was projected, or 0; every projected
      version is at most that or still with its hook. */
  ghost predicate SeesProjected(s: State, events: seq<Event>) {
    && (s.lastSeen == 0 || Projected(events, s.lastSeen))
    && (forall i | 0 <= i < |s.hooks| :: Projected(events, s.hooks[i]))
    && (forall v: nat | Projected(events, v) :: v <= s.lastSeen || v in s.hooks)
  }

  lemma ProjectedMore(events: seq<Event>, e: Event)
    ensures forall v: nat :: Projected(events + [e], v) <==>
              Projected(events, v) || (e.Upsert? && e.projected && e.w.version == v)
  {
    var more := events + [e];
    forall v: nat | Projected(events, v) ensures Projected(more, v) {
      var k :| Projects(events, k, v);
      assert Projects(more, k, v);
    }
    forall v: nat | Projected(more, v)
      ensures Projected(events, v) || (e.Upsert? && e.projected && e.w.version == v)
    {
      var k :| Projects(more, k, v);
      assert k < |events| ==> Projects(events, k, v);
    }
    assert e.Upsert? && e.projected ==> Projects(more, |events|, e.w.version);
  }

  lemma HookTaken(hooks: seq<nat>, i: nat, v: nat)
    requires i < |hooks| && v in hooks && v != hooks[i]
    ensures v in hooks[..i] + hooks[i + 1..]
  {
    var k :| 0 <= k < |hooks| && hooks[k] == v;
    assert (hooks[..i] + hooks[i + 1..])[if k < i then k else k - 1] == v;
  }

  lemma StepSees(s: State, events: seq<Event>, e: Event, convId: string, max: nat)
    requires SeesProjected(s, events) && Enabled(s, e, convId)
    ensures SeesProjected(Step(s, e, convId, max), events + [e])
  {
    ProjectedMore(events, e);
    var next := Step(s, e, convId, max);
    if e.Hook? {
      forall v: nat | Projected(events, v) ensures v <= next.lastSeen || v in next.hooks {
        if v > s.lastSeen && v != s.hooks[e.i] {
          HookTaken(s.hooks, e.i, v);
        }
      }
    }
  }

  /** At any moment the conversation has seen exactly the versions whose hooks
      have run: once all have, its last seen version is the greatest that was
      projected. */
  lemma {:induction false} LastSeenExactly(events: seq<Event>, convId: string, max: nat)
    requires RunTo(events, convId, max).Some?
    ensures SeesProjected(RunTo(events, convId, max).value, events)
    ensures var s := RunTo(events, convId, max).value;
      s.hooks == [] ==> (forall v: nat | Projected(events, v) :: v <= s.lastSeen)
                        && (s.lastSeen == 0 || Projected(events, s.lastSeen))
  {
    if events != [] {
      var init, e := events[..|events| - 1], events[|events| - 1];
      assert events == init + [e];
      LastSeenExactly(init, convId, max);
      StepSees(RunTo(init, convId, max).value, init, e, convId, max);
    }
  }

  /** A record that is built names the conversation and what it has seen, with
      the status trimmed, or "active", and the error trimmed. */
  lemma BuiltRecord(s: State, e: Event, convId: string, max: nat)
    requires e.Build?
    ensures var next := Step(s, e, convId, max);
      && |next.records| == |s.records| + 1
      && var r := next.records[|s.records|];
         && r.convId == convId && r.lastSeenVersion == s.lastSeen && r.hasTimeline == e.hasTimeline
         && (r.sessionId, r.runtimeKey) == (e.sessionId, e.runtimeKey)
         && (r.createdAtMs, r.lastActivityMs) == (e.createdAtMs, e.lastActivityMs)
         && r.status == OrElse(TrimSpace(e.status), "active") && r.lastError == TrimSpace(e.lastError)
  {
  }

  // ----- What the indexes say -----

  /** The calls that an event makes of the stores. */
  ghost function CallsOf(s: State, e: Event, convId: string): seq<Index.IndexOp>
    requires Enabled(s, e, convId)
  {
    match e
    case Upsert(w, _) => [Index.Advance(w.version, w.now)]
    case Persist(i, now) => [Index.Describe(s.records[i], now)]
    case _ => []
  }

  ghost function Calls(events: seq<Event>, convId: string, max: nat): seq<Index.IndexOp>
    requires RunTo(events, convId, max).Some?
  {
    if events == [] then []
    else
      var init := events[..|events| - 1];
      Calls(init, convId, max) + CallsOf(RunTo(init, convId, max).value, events[|events| - 1], convId)
  }

  /** Both indexes hold what these calls make of an empty one. */
  ghost predicate HoldsCalls(s: State, convId: string, ops: seq<Index.IndexOp>) {
    && Index.OpsFor(convId, ops) && Index.NoneRefused(ops)
    && RecordAt(s.index, convId) == Index.MemoryIndex(convId, ops)
    && Get(s.rows, convId) == Index.SqlIndex(convId, ops)
    && s.conv.version == Index.Reached(ops) == Index.SqlReached(ops)
  }

  lemma UpsertCalls(s: State, w: Write, projected: bool, convId: string, max: nat, ops: seq<Index.IndexOp>)
    requires Enabled(s, Upsert(w, projected), convId) && HoldsCalls(s, convId, ops)
    ensures HoldsCalls(Step(s, Upsert(w, projected), convId, max), convId, ops + [Index.Advance(w.version, w.now)])
  {
    assert Index.Head(ops + [Index.Advance(w.version, w.now)]) == ops;
    VersionKept(Stored(s.conv, w), max);
  }

  lemma PersistCalls(s: State, i: nat, now: int, convId: string, max: nat, ops: seq<Index.IndexOp>)
    requires Chained(s, convId) && Enabled(s, Persist(i, now), convId) && HoldsCalls(s, convId, ops)
    requires TrimSpace(convId) == convId && convId != ""
    ensures HoldsCalls(Step(s, Persist(i, now), convId, max), convId, ops + [Index.Describe(s.records[i], now)])
  {
    assert Index.Head(ops + [Index.Describe(s.records[i], now)]) == ops;
    assert s.records[i].convId == convId;
  }

  /** Over any interleaving, both indexes of a conversation hold exactly what the
      upserts and the records persisted, in their order, amount to. */
  lemma {:induction false} IndexesHoldCalls(events: seq<Event>, convId: string, max: nat)
    requires RunTo(events, convId, max).Some? && TrimSpace(convId) == convId && convId != ""
    ensures HoldsCalls(RunTo(events, convId, max).value, convId, Calls(events, convId, max))
    ensures Calls(events, convId, max) != [] ==>
              Index.SumsUp(RecordAt(RunTo(events, convId, max).value.index, convId), convId, Calls(events, convId, max))
  {
    var ops := Calls(events, convId, max);
    if events != [] {
      var init, e := events[..|events| - 1], events[|events| - 1];
      IndexesHoldCalls(init, convId, max);
      VersionsChain(init, 0, convId, max);
      var s, before := RunTo(init, convId, max).value, Calls(init, convId, max);
      match e {
        case Upsert(w, projected) => UpsertCalls(s, w, projected, convId, max, before);
        case Persist(i, now) => PersistCalls(s, i, now, convId, max, before);
        case _ => assert ops == before;
      }
    }
    if ops != [] {
      Index.RecordMeaning(convId, ops);
    }
  }
}
