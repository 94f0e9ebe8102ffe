/** The values that flow through the timeline pipeline. */
module Timeline {

  /** A tool's result as a structure: its decoded JSON object, or the raw text
      in one field. */
  datatype ResultData = Decoded(json: string) | Raw(text: string)

  /** Entity properties as the built-in projections fill them. */
  datatype Props =
    | Message(role: string, content: string, streaming: bool)
    | ToolCall(name: string, input: string, status: string, progress: int, done: bool)
    | ToolResult(callId: string, data: ResultData, raw: string, customKind: string)
    | Custom(fields: string)

  datatype Entity = Entity(id: string, kind: string, createdAtMs: int, updatedAtMs: int, props: Props)

  datatype Snapshot = Snapshot(convId: string, version: nat, entities: seq<Entity>)

  const MAX_INT64: nat := 0x7FFF_FFFF_FFFF_FFFF
  const DEFAULT_LIMIT: nat := 5000

  /** A call of Upsert on one conversation, with the clock it read. */
  datatype Write = Write(version: nat, entity: Entity, now: int) {
    /** Neither store accepts anything else. */
    predicate Complete() {
      version != 0 && entity.id != "" && entity.kind != ""
    }

    /** The version fits SQLite's signed column. */
    predicate InRange() {
      version <= MAX_INT64
    }
  }

  predicate Acceptable(convId: string, w: Write) {
    convId != "" && w.Complete()
  }

  /** The calls that are complete. */
  function Accepted(ws: seq<Write>): seq<Write> {
    if ws == [] then []
    else Accepted(ws[..|ws| - 1]) + (if ws[|ws| - 1].Complete() then [ws[|ws| - 1]] else [])
  }

  function Limit(limit: int): nat {
    if limit <= 0 then DEFAULT_LIMIT else limit
  }

  datatype ConversationRecord = ConversationRecord(
    convId: string, sessionId: string, runtimeKey: string,
    createdAtMs: int, lastActivityMs: int, lastSeenVersion: nat,
    hasTimeline: bool, status: string, lastError: string)

  lemma AcceptedStep(init: seq<Write>, last: Write)
    ensures Accepted(init + [last]) == if last.Complete() then Accepted(init) + [last] else Accepted(init)
  {
    assert (init + [last])[..|init|] == init;
  }
}
