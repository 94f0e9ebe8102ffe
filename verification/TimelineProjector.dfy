/** Projection of decoded SEM frames to timeline entities, with the per-message
    caches that remember roles, accumulate text and throttle writes. */
module TimelineProjector {
  import opened Wrappers
  import opened Text
  import opened Timeline
  import opened TimelineMemory
  import Index = ConversationIndex

  const WINDOW_MS: int := 250

  /** The built-in cases. Delta is llm.delta and llm.thinking.delta; Unhandled
      is any other type, or data that does not decode. decoded is the object
      that a tool's result holds as JSON, if it holds one. */
  datatype Event =
    | Start(thinking: bool, role: string)
    | Delta(delta: string, cumulative: string)
    | Final(text: string)
    | ThinkingFinal
    | ThinkingSummary(text: string)
    | ToolStart(name: string, input: string)
    | ToolDone
    | ToolResulted(result: string, customKind: string, decoded: Option<string>)
    | Unhandled
  {
    predicate OfMessage() {
      Start? || Delta? || Final? || ThinkingFinal? || ThinkingSummary?
    }

    predicate Closes() {
      Final? || ThinkingFinal? || ThinkingSummary?
    }
  }

  datatype Frame = Frame(sem: bool, id: string, seqNo: nat, event: Event) {
    /** Frames that reach the projection switch. */
    predicate Live() {
      sem && TrimSpace(id) != "" && seqNo != 0
    }

    /** The entity a frame of this kind writes. */
    function Target(): string {
      if event.ToolResulted? then
        TrimSpace(id + (if TrimSpace(event.customKind) != "" then ":custom" else ":result"))
      else
        TrimSpace(id)
    }
  }

  datatype Caches = Caches(
    roles: map<string, string>, contents: map<string, string>, lastWrite: map<string, int>,
    toolNames: map<string, string>, toolInputs: map<string, string>)

  const NO_CACHES := Caches(map[], map[], map[], map[], map[])

  /** A Go map read: the zero value when the key is missing. */
  function At(m: map<string, string>, id: string): string {
    if id in m then m[id] else ""
  }

  function RoleOr(c: Caches, id: string, fallback: string): string {
    if At(c.roles, id) != "" then At(c.roles, id) else fallback
  }

  function StartRole(e: Event): string
    requires e.Start?
  {
    if TrimSpace(e.role) != "" then TrimSpace(e.role)
    else if e.thinking then "thinking"
    else "assistant"
  }

  function MessageEntity(id: string, role: string, content: string, streaming: bool): Entity {
    Entity(TrimSpace(id), "message", 0, 0, Message(role, content, streaming))
  }

  /** The text a delta brings the message to. */
  function Grown(c: Caches, id: string, e: Event): string
    requires e.Delta?
  {
    if e.cumulative == "" then At(c.contents, id) + e.delta else e.cumulative
  }

  /** Closing a message: keep its text and forget the throttle. */
  function Closed(c: Caches, id: string, text: string, fallback: string): (Caches, Option<Entity>) {
    var content := if TrimSpace(text) == "" then At(c.contents, id) else text;
    (c.(contents := if TrimSpace(content) != "" then c.contents[id := content] else c.contents,
        lastWrite := c.lastWrite - {id}),
     Some(MessageEntity(id, RoleOr(c, id, fallback), content, false)))
  }

  /** Only a result that begins like an object is decoded. */
  function DataOf(result: string, decoded: Option<string>): ResultData {
    if decoded.Some? && "{" <= TrimSpace(result) then Decoded(decoded.value) else Raw(result)
  }

  /** ApplySemFrame: the new caches and the entity to upsert, if any. */
  function Project(c: Caches, f: Frame, now: int, window: int): (Caches, Option<Entity>) {
    if !f.Live() then (c, None) else
    match f.event
    case Start(_, _) =>
      (c.(roles := c.roles[f.id := StartRole(f.event)], contents := c.contents[f.id := ""]),
       Some(MessageEntity(f.id, StartRole(f.event), "", true)))
    case Delta(_, _) =>
      var text := Grown(c, f.id, f.event);
      var last := if f.id in c.lastWrite then c.lastWrite[f.id] else 0;
      if text == "" then (c, None)
      else if now - last < window then (c.(contents := c.contents[f.id := text]), None)
      else (c.(contents := c.contents[f.id := text], lastWrite := c.lastWrite[f.id := now]),
            Some(MessageEntity(f.id, RoleOr(c, f.id, "assistant"), text, true)))
    case Final(text) => Closed(c, f.id, text, "assistant")
    case ThinkingFinal =>
      (c.(lastWrite := c.lastWrite - {f.id}),
       Some(MessageEntity(f.id, RoleOr(c, f.id, "thinking"), At(c.contents, f.id), false)))
    case ThinkingSummary(text) => Closed(c, f.id, text, "thinking")
    case ToolStart(name, input) =>
      (c.(toolNames := c.toolNames[f.id := name], toolInputs := c.toolInputs[f.id := input]),
       Some(Entity(f.Target(), "tool_call", 0, 0, ToolCall(name, input, "running", 0, false))))
    case ToolDone =>
      (c, Some(Entity(f.Target(), "tool_call", 0, 0,
                      ToolCall(At(c.toolNames, f.id), At(c.toolInputs, f.id), "completed", 1, true))))
    case ToolResulted(result, customKind, decoded) =>
      (c, Some(Entity(f.Target(), "tool_result", 0, 0,
                      ToolResult(f.id, DataOf(result, decoded), result, customKind))))
    case Unhandled => (c, None)
  }

  /** What a custom handler does with a frame it takes: the calls of Upsert it
      makes, and its answer. */
  datatype Handling = Handling(calls: seq<Write>, result: Result<()>)

  class Projector {
    const convId: string
    const store: InMemoryTimelineStore
    var msgRoles: map<string, string>
    var msgContents: map<string, string>
    var lastMsgWrite: map<string, int>
    var toolNames: map<string, string>
    var toolInputs: map<string, string>

    constructor (convId: string, store: InMemoryTimelineStore)
      ensures this.convId == convId && this.store == store && View() == NO_CACHES
    {
      this.convId, this.store := convId, store;
      msgRoles, msgContents, lastMsgWrite, toolNames, toolInputs := map[], map[], map[], map[], map[];
    }

    function View(): Caches
      reads this
    {
      Caches(msgRoles, msgContents, lastMsgWrite, toolNames, toolInputs)
    }

    /** The projection. written lists the writes the store accepted, for each of
        which the upsert hook is called. A custom handler that takes the frame
        makes its own calls of Upsert; otherwise the store is called once,
        exactly when an entity comes out, with the frame's sequence number as
        version. */
    method ApplySemFrame(f: Frame, custom: Option<Handling>, now: int) returns (r: Result<()>, written: seq<Write>)
      requires store.Valid()
      modifies this, store
      ensures store.Valid()
      ensures !f.Live() ==> r == Ok(()) && written == [] && View() == old(View()) && unchanged(store)
      ensures f.Live() && custom.Some? ==>
        && r == custom.value.result && View() == old(View())
        && written == (if convId == "" then [] else Accepted(custom.value.calls))
        && store.ConvOf(convId) == (if convId == "" then old(store.ConvOf(convId))
             else AfterCalls(old(store.ConvOf(convId)), custom.value.calls, store.maxEntitiesPerConv))
        && store.RecordOf(convId) == (if convId == "" then old(store.RecordOf(convId))
             else RecordAfter(old(store.RecordOf(convId)), old(store.ConvOf(convId)), custom.value.calls,
                              convId, store.maxEntitiesPerConv))
        && (forall k | k != convId ::
              store.ConvOf(k) == old(store.ConvOf(k)) && store.RecordOf(k) == old(store.RecordOf(k)))
      ensures f.Live() && custom.None? ==>
        var (caches, entity) := Project(old(View()), f, now, WINDOW_MS);
        && View() == caches
        && (entity.None? ==> r == Ok(()) && written == [] && unchanged(store))
        && (entity.Some? && convId == "" ==> r.Err? && written == [] && unchanged(store))
        && (entity.Some? && convId != "" ==>
              var w := Write(f.seqNo, entity.value, now);
              && r == Ok(()) && written == [w]
              && store.convs == old(store.convs)[convId :=
                   Upserted(old(store.ConvOf(convId)), w, store.maxEntitiesPerConv)]
              && store.conversations == old(store.conversations)[convId :=
                   Index.Progress(old(store.RecordOf(convId)), convId, store.ConvOf(convId).version, now)])
    {
      if !f.sem || TrimSpace(f.id) == "" || f.seqNo == 0 {
        return Ok(()), [];
      }
      if custom.Some? {
        written := store.UpsertEach(convId, custom.value.calls);
        return custom.value.result, written;
      }
      var entity := Step(f, now);
      TargetsNotBlank(old(View()), f, now);
      if entity.None? {
        return Ok(()), [];
      }
      var w := Write(f.seqNo, entity.value, now);
      var stored := store.Upsert(convId, w);
      if stored.Err? {
        return Err(stored.error), [];
      }
      return Ok(()), [w];
    }

    /** The switch over event types. */
    method Step(f: Frame, now: int) returns (entity: Option<Entity>)
      requires f.Live()
      modifies this
      ensures (View(), entity) == Project(old(View()), f, now, WINDOW_MS)
    {
      match f.event {
        case Start(thinking, startRole) =>
          var role := TrimSpace(startRole);
          if role == "" {
            role := if thinking then "thinking" else "assistant";
          }
          msgRoles, msgContents := msgRoles[f.id := role], msgContents[f.id := ""];
          return Some(MessageEntity(f.id, role, "", true));
        case Delta(delta, cumulative) =>
          var last := if f.id in lastMsgWrite then lastMsgWrite[f.id] else 0;
          var role := At(msgRoles, f.id);
          if role == "" {
            role := "assistant";
          }
          var text := cumulative;
          if text == "" {
            text := At(msgContents, f.id) + delta;
          }
          if text == "" {
            return None;
          }
          msgContents := msgContents[f.id := text];
          if now - last < WINDOW_MS {
            return None;
          }
          lastMsgWrite := lastMsgWrite[f.id := now];
          return Some(MessageEntity(f.id, role, text, true));
        case Final(text) =>
          entity := Close(f.id, text, "assistant");
        case ThinkingFinal =>
          var role := At(msgRoles, f.id);
          if role == "" {
            role := "thinking";
          }
          lastMsgWrite := lastMsgWrite - {f.id};
          return Some(MessageEntity(f.id, role, At(msgContents, f.id), false));
        case ThinkingSummary(text) =>
          entity := Close(f.id, text, "thinking");
        case ToolStart(name, input) =>
          toolNames, toolInputs := toolNames[f.id := name], toolInputs[f.id := input];
          return Some(Entity(TrimSpace(f.id), "tool_call", 0, 0, ToolCall(name, input, "running", 0, false)));
        case ToolDone =>
          return Some(Entity(TrimSpace(f.id), "tool_call", 0, 0,
                             ToolCall(At(toolNames, f.id), At(toolInputs, f.id), "completed", 1, true)));
        case ToolResulted(result, customKind, decoded) =>
          var resultId := f.id + ":result";
          if TrimSpace(customKind) != "" {
            resultId := f.id + ":custom";
          }
          var data := Raw(result);
          if "{" <= TrimSpace(result) && decoded.Some? {
            data := Decoded(decoded.value);
          }
          return Some(Entity(TrimSpace(resultId), "tool_result", 0, 0, ToolResult(f.id, data, result, customKind)));
        case Unhandled =>
          return None;
      }
    }

    method Close(id: string, text: string, fallback: string) returns (entity: Option<Entity>)
      modifies this
      ensures (View(), entity) == Closed(old(View()), id, text, fallback)
    {
      var role := At(msgRoles, id);
      if role == "" {
        role := fallback;
      }
      var content := text;
      if TrimSpace(content) == "" {
        content := At(msgContents, id);
      }
      if TrimSpace(content) != "" {
        msgContents := msgContents[id := content];
      }
      lastMsgWrite := lastMsgWrite - {id};
      return Some(MessageEntity(id, role, content, false));
    }
  }

  lemma {:induction false} TrimKeepsInk(s: string, i: nat)
    requires i < |s| && !IsSpace(s[i])
    ensures TrimSpace(s) != ""
  {
    LeftKeepsInk(s, i);
    var l := TrimLeft(s);
    var j :| 0 <= j < |l| && !IsSpace(l[j]);
    RightKeepsInk(l, j);
  }

  lemma {:induction false} LeftKeepsInk(s: string, i: nat)
    requires i < |s| && !IsSpace(s[i])
    ensures exists j :: 0 <= j < |TrimLeft(s)| && !IsSpace(TrimLeft(s)[j])
  {
    if IsSpace(s[0]) {
      assert s[1..][i - 1] == s[i];
      LeftKeepsInk(s[1..], i - 1);
      assert TrimLeft(s) == TrimLeft(s[1..]);
    } else {
      assert TrimLeft(s) == s && !IsSpace(TrimLeft(s)[0]);
    }
  }

  lemma {:induction false} RightKeepsInk(s: string, i: nat)
    requires i < |s| && !IsSpace(s[i])
    ensures TrimRight(s) != ""
  {
    if IsSpace(s[|s| - 1]) {
      RightKeepsInk(s[..|s| - 1], i);
    }
  }

  /** Whatever a live frame projects can be stored. */
  lemma TargetsNotBlank(c: Caches, f: Frame, now: int)
    ensures var entity := Project(c, f, now, WINDOW_MS).1;
      entity.Some? ==> entity.value.id == f.Target() != "" && entity.value.kind != "" && f.seqNo != 0
  {
    if f.Live() && f.event.ToolResulted? {
      var suffix := if TrimSpace(f.event.customKind) != "" then ":custom" else ":result";
      assert (f.id + suffix)[|f.id|] == ':';
      TrimKeepsInk(f.id + suffix, |f.id|);
    }
  }
}
