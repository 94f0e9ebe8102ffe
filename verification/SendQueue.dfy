/** Admission of prompts to a conversation: idempotency records, the queue of
    waiting prompts and the key of the running one. Every function is one
    region executed under the conversation's lock. */
module SendQueue {
  import opened Wrappers

  datatype Value = Str(text: string) | Num(number: int)

  /** A map[string]any; None is Go's nil map. */
  type Fields = map<string, Value>

  datatype QueuedChat = QueuedChat(
    key: string, payload: string, metadata: Option<Fields>, enqueuedAt: int)

  datatype Status = Queued | Running | Completed | Failed {
    function Text(): string {
      match this
      case Queued => "queued"
      case Running => "running"
      case Completed => "completed"
      case Failed => "error"
    }

    predicate Terminal() {
      Completed? || Failed?
    }
  }

  /** A time of 0 is Go's zero time. */
  datatype Record = Record(
    key: string, status: Status,
    enqueuedAt: int, startedAt: int, completedAt: int,
    response: Option<Fields>, error: string)

  datatype SessionPreparation = SessionPreparation(
    start: bool, httpStatus: int, response: Fields)

  /** The part of a conversation that the prompt queue reads and writes. */
  datatype Conv = Conv(
    id: string, sessionId: string,
    activeKey: string, queue: seq<QueuedChat>, requests: map<string, Record>,
    lastActivity: int)

  function Annotate(fields: Fields, runId: string, turnId: string): Fields {
    var withRun := if runId != "" then fields["inference_id" := Str(runId)] else fields;
    if turnId != "" then withRun["turn_id" := Str(turnId)] else withRun
  }

  /** The queue's own reply; a started prompt has no position. */
  function Reply(c: Conv, key: string, status: Status, position: nat): Fields {
    var base := map["status" := Str(status.Text()), "idempotency_key" := Str(key),
                    "conv_id" := Str(c.id), "session_id" := Str(c.sessionId)];
    if status.Queued?
    then base["queue_position" := Num(position)]["queue_depth" := Num(position)]
    else base
  }

  predicate Known(c: Conv, key: string) {
    key in c.requests && c.requests[key].response.Some?
  }

  /** preparePromptSubmission: replay a known key, queue behind a running
      prompt, or claim the conversation. */
  function Prepare(c: Conv, key: string, payload: string, metadata: Option<Fields>, now: int)
    : (Conv, Result<SessionPreparation>)
  {
    if key == "" then
      (c, Err("idempotency key is empty"))
    else if Known(c, key) then
      var rec := c.requests[key];
      (c.(lastActivity := now),
       Ok(SessionPreparation(false, if rec.status.Queued? then 202 else 200, rec.response.value)))
    else if c.activeKey != "" then
      var queue := c.queue + [QueuedChat(key, payload, metadata, now)];
      var reply := Reply(c, key, Queued, |queue|);
      (c.(queue := queue,
          requests := c.requests[key := Record(key, Queued, now, 0, 0, Some(reply), "")],
          lastActivity := now),
       Ok(SessionPreparation(false, 202, reply)))
    else
      var reply := Reply(c, key, Running, 0);
      (c.(activeKey := key,
          requests := c.requests[key := Record(key, Running, 0, now, 0, Some(reply), "")],
          lastActivity := now),
       Ok(SessionPreparation(true, 200, reply)))
  }

  /** claimNextQueuedPrompt: pop the head and mark it running, unless busy. */
  function Claim(c: Conv, now: int): (Conv, Option<QueuedChat>) {
    if c.activeKey != "" || c.queue == [] then
      (c.(lastActivity := now), None)
    else
      var q := c.queue[0];
      var rec := if q.key != "" && q.key in c.requests
                 then c.requests[q.key].(status := Running, startedAt := now)
                 else Record(q.key, Running, 0, now, 0, None, "");
      (c.(activeKey := q.key, queue := c.queue[1..],
          requests := if q.key == "" then c.requests else c.requests[q.key := rec],
          lastActivity := now),
       Some(q))
  }

  /** persistPromptStartResult: keep the runner's reply for replays. */
  function Persist(c: Conv, key: string, response: Option<Fields>,
                   runId: string, turnId: string, now: int): Conv
  {
    if key == "" then c else
    var rec := if key in c.requests then c.requests[key]
               else Record(key, Running, 0, 0, 0, None, "");
    var kept := Annotate(if response.Some? then response.value else map[], runId, turnId);
    c.(requests := c.requests[key := rec.(
         status := Running,
         startedAt := if rec.startedAt == 0 then now else rec.startedAt,
         response := Some(kept))],
       lastActivity := now)
  }

  /** Keys waiting in the queue. */
  function Keys(queue: seq<QueuedChat>): set<string> {
    set i | 0 <= i < |queue| :: queue[i].key
  }

  ghost predicate DistinctKeys(queue: seq<QueuedChat>) {
    forall i, j | 0 <= i < j < |queue| :: queue[i].key != queue[j].key
  }

  /** What every lock region keeps: the status of each record says exactly
      where its key is. */
  ghost predicate Consistent(c: Conv) {
    && DistinctKeys(c.queue)
    && Keys(c.queue) <= c.requests.Keys
    && (c.activeKey != "" ==> c.activeKey in c.requests)
    && forall k | k in c.requests ::
         && k != ""
         && c.requests[k].key == k
         && c.requests[k].response.Some?
         && (c.requests[k].status.Queued? <==> k in Keys(c.queue))
         && (c.requests[k].status.Running? <==> k == c.activeKey)
  }

  class Conversation {
    const id: string
    const sessionId: string
    var activeRequestKey: string
    var queue: seq<QueuedChat>
    var requests: map<string, Record>
    var lastActivity: int

    constructor (id: string, sessionId: string, now: int)
      ensures View() == Conv(id, sessionId, "", [], map[], now)
    {
      this.id := id;
      this.sessionId := sessionId;
      activeRequestKey, queue, requests, lastActivity := "", [], map[], now;
    }

    function View(): (c: Conv)
      reads this
    {
      Conv(id, sessionId, activeRequestKey, queue, requests, lastActivity)
    }

    method PreparePromptSubmission(key: string, payload: string, metadata: Option<Fields>, now: int)
      returns (r: Result<SessionPreparation>)
      modifies this
      ensures (View(), r) == Prepare(old(View()), key, payload, metadata, now)
    {
      if key == "" {
        return Err("idempotency key is empty");
      }
      lastActivity := now;
      if key in requests && requests[key].response.Some? {
        var httpStatus := 200;
        if requests[key].status == Queued {
          httpStatus := 202;
        }
        return Ok(SessionPreparation(false, httpStatus, requests[key].response.value));
      }
      if activeRequestKey != "" {
        queue := queue + [QueuedChat(key, payload, metadata, now)];
        var reply := Reply(View(), key, Queued, |queue|);
        requests := requests[key := Record(key, Queued, now, 0, 0, Some(reply), "")];
        return Ok(SessionPreparation(false, 202, reply));
      }
      activeRequestKey := key;
      var reply := Reply(View(), key, Running, 0);
      requests := requests[key := Record(key, Running, 0, now, 0, Some(reply), "")];
      return Ok(SessionPreparation(true, 200, reply));
    }

    method ClaimNextQueuedPrompt(now: int) returns (r: Option<QueuedChat>)
      modifies this
      ensures (View(), r) == Claim(old(View()), now)
    {
      lastActivity := now;
      if activeRequestKey != "" || |queue| == 0 {
        return None;
      }
      var q := queue[0];
      queue := queue[1..];
      activeRequestKey := q.key;
      if q.key != "" && q.key in requests {
        requests := requests[q.key := requests[q.key].(status := Running, startedAt := now)];
      } else if q.key != "" {
        requests := requests[q.key := Record(q.key, Running, 0, now, 0, None, "")];
      }
      return Some(q);
    }

    method PersistPromptStartResult(key: string, response: Option<Fields>,
                                    runId: string, turnId: string, now: int)
      modifies this
      ensures View() == Persist(old(View()), key, response, runId, turnId, now)
    {
      if key == "" {
        return;
      }
      lastActivity := now;
      var rec := Record(key, Running, 0, 0, 0, None, "");
      if key in requests {
        rec := requests[key];
      }
      rec := rec.(status := Running);
      if rec.startedAt == 0 {
        rec := rec.(startedAt := now);
      }
      var kept: Fields := map[];
      if response.Some? {
        kept := response.value;
      }
      if runId != "" {
        kept := kept["inference_id" := Str(runId)];
      }
      if turnId != "" {
        kept := kept["turn_id" := Str(turnId)];
      }
      requests := requests[key := rec.(response := Some(kept))];
    }
  }

  /** A resubmitted key changes nothing but the activity time and is answered
      from its record, whatever the conversation is doing. */
  lemma ReplayChangesNothing(c: Conv, key: string, payload: string, metadata: Option<Fields>, now: int)
    requires Consistent(c) && key in c.requests
    ensures var (after, r) := Prepare(c, key, payload, metadata, now);
      && after == c.(lastActivity := now)
      && r.Ok? && !r.value.start
      && Some(r.value.response) == c.requests[key].response
      && r.value.httpStatus == (if key in Keys(c.queue) then 202 else 200)
  {
  }

  /** An admitted key is started or queued, never both, and starts exactly
      when no prompt is running. */
  lemma AdmissionIsExclusive(c: Conv, key: string, payload: string, metadata: Option<Fields>, now: int)
    requires Consistent(c) && key != "" && key !in c.requests
    ensures var (after, r) := Prepare(c, key, payload, metadata, now);
      && Consistent(after) && r.Ok?
      && (r.value.start <==> c.activeKey == "")
      && (r.value.start <==> after.activeKey == key && after.queue == c.queue)
      && (!r.value.start <==> after.activeKey == c.activeKey
                              && after.queue == c.queue + [QueuedChat(key, payload, metadata, now)])
      && (forall k | k in c.requests :: k in after.requests && after.requests[k] == c.requests[k])
  {
    var after := Prepare(c, key, payload, metadata, now).0;
    if c.activeKey == "" {
      assert after.queue != c.queue + [QueuedChat(key, payload, metadata, now)];
    } else {
      assert after.queue[..|c.queue|] == c.queue;
      assert Keys(after.queue) == Keys(c.queue) + {key} by { AppendKeys(c.queue, after.queue[|c.queue|]); }
    }
  }

  /** A reply's text under a name. */
  predicate Says(reply: Fields, name: string, text: string) {
    name in reply && reply[name] == Str(text)
  }

  predicate Counts(reply: Fields, name: string, number: int) {
    name in reply && reply[name] == Num(number)
  }

  /** The reply to an admitted key is the one kept for its replays. It names the
      key, the conversation and the session; it tells a queued prompt its place,
      and has no place for one that runs. */
  lemma AdmissionReplies(c: Conv, key: string, payload: string, metadata: Option<Fields>, now: int)
    requires Consistent(c) && key != "" && key !in c.requests
    ensures var (after, r) := Prepare(c, key, payload, metadata, now);
      && r.Ok? && key in after.requests
      && after.requests[key].response == Some(r.value.response)
      && Says(r.value.response, "idempotency_key", key)
      && Says(r.value.response, "conv_id", c.id) && Says(r.value.response, "session_id", c.sessionId)
      && (if c.activeKey == "" then
            && r.value.httpStatus == 200 && Says(r.value.response, "status", "running")
            && r.value.response.Keys == {"status", "idempotency_key", "conv_id", "session_id"}
            && after.requests[key] == Record(key, Running, 0, now, 0, after.requests[key].response, "")
          else
            && r.value.httpStatus == 202 && Says(r.value.response, "status", "queued")
            && after.queue != [] && after.queue[|after.queue| - 1].key == key
            && Counts(r.value.response, "queue_position", |after.queue|)
            && Counts(r.value.response, "queue_depth", |after.queue|)
            && after.requests[key] == Record(key, Queued, now, 0, 0, after.requests[key].response, ""))
      && after.lastActivity == now
  {
    AdmissionIsExclusive(c, key, payload, metadata, now);
    NamesDiffer();
  }

  lemma NamesDiffer()
    ensures "status" != "idempotency_key" && "status" != "conv_id" && "status" != "session_id"
    ensures "idempotency_key" != "conv_id" && "idempotency_key" != "session_id" && "conv_id" != "session_id"
    ensures "queue_position" != "queue_depth" && "inference_id" != "turn_id"
    ensures "status" != "queue_position" && "status" != "queue_depth"
    ensures "idempotency_key" != "queue_position" && "idempotency_key" != "queue_depth"
    ensures "conv_id" != "queue_position" && "conv_id" != "queue_depth"
    ensures "session_id" != "queue_position" && "session_id" != "queue_depth"
  {
    assert "status"[0] == 's' && "idempotency_key"[0] == 'i' && "conv_id"[0] == 'c' && "session_id"[0] == 's';
    assert "status"[1] == 't' && "session_id"[1] == 'e';
    assert "queue_position"[0] == 'q' && "queue_depth"[0] == 'q' && "queue_position"[6] == 'p' && "queue_depth"[6] == 'd';
    assert "inference_id"[0] == 'i' && "turn_id"[0] == 't';
  }

  lemma AppendKeys(queue: seq<QueuedChat>, q: QueuedChat)
    ensures Keys(queue + [q]) == Keys(queue) + {q.key}
  {
    var longer := queue + [q];
    assert longer[|queue|] == q;
    forall k | k in Keys(queue) ensures k in Keys(longer) {
      var i :| 0 <= i < |queue| && queue[i].key == k;
      assert longer[i].key == k;
    }
  }

  lemma HeadKeys(queue: seq<QueuedChat>)
    requires queue != [] && DistinctKeys(queue)
    ensures Keys(queue[1..]) == Keys(queue) - {queue[0].key}
    ensures DistinctKeys(queue[1..])
  {
    var rest := queue[1..];
    forall k | k in Keys(queue) && k != queue[0].key ensures k in Keys(rest) {
      var i :| 0 <= i < |queue| && queue[i].key == k;
      assert rest[i - 1].key == k;
    }
    forall i | 0 <= i < |rest| ensures rest[i].key in Keys(queue) - {queue[0].key} {
      assert rest[i] == queue[i + 1];
    }
  }

  /** Claiming takes the oldest waiting prompt, exactly when nothing runs. */
  lemma ClaimTakesTheOldest(c: Conv, now: int)
    requires Consistent(c)
    ensures var (after, r) := Claim(c, now);
      && Consistent(after)
      && (r.Some? <==> c.activeKey == "" && c.queue != [])
      && (r.None? ==> after == c.(lastActivity := now))
      && (r.Some? ==> c.queue == [r.value] + after.queue
                      && after.activeKey == r.value.key
                      && c.requests[r.value.key].status.Queued?
                      && after.requests.Keys == c.requests.Keys
                      && after.requests[r.value.key]
                         == c.requests[r.value.key].(status := Running, startedAt := now))
      && (forall k | k in c.requests && k != after.activeKey :: after.requests[k] == c.requests[k])
  {
    if c.activeKey == "" && c.queue != [] {
      HeadKeys(c.queue);
      assert c.queue[0].key in Keys(c.queue);
    }
  }

  /** A reply carries the ids of the run and turn it belongs to, and otherwise
      says what it said. */
  ghost predicate Annotated(reply: Fields, said: Fields, runId: string, turnId: string) {
    && (runId != "" ==> "inference_id" in reply && reply["inference_id"] == Str(runId))
    && (turnId != "" ==> "turn_id" in reply && reply["turn_id"] == Str(turnId))
    && reply.Keys == said.Keys + (if runId != "" then {"inference_id"} else {})
                               + (if turnId != "" then {"turn_id"} else {})
    && forall k | k in said :: reply[k] == said[k] || (k == "inference_id" && runId != "")
                               || (k == "turn_id" && turnId != "")
  }

  /** Keeping the runner's reply touches the running record only: it stays
      running since it started and is answered with that reply. */
  lemma PersistKeepsOthers(c: Conv, response: Option<Fields>, runId: string, turnId: string, now: int)
    requires Consistent(c) && c.activeKey != ""
    ensures var after := Persist(c, c.activeKey, response, runId, turnId, now);
      && Consistent(after)
      && (after.activeKey, after.queue) == (c.activeKey, c.queue)
      && after.requests.Keys == c.requests.Keys
      && (forall k | k in c.requests && k != c.activeKey :: after.requests[k] == c.requests[k])
      && after.lastActivity == now
      && var rec := after.requests[c.activeKey];
         && Annotated(rec.response.value, if response.Some? then response.value else map[], runId, turnId)
         && rec == c.requests[c.activeKey].(
                startedAt := if c.requests[c.activeKey].startedAt == 0 then now else c.requests[c.activeKey].startedAt,
                response := rec.response)
  {
    AnnotateAnnotates(if response.Some? then response.value else map[], runId, turnId);
  }

  lemma AnnotateAnnotates(said: Fields, runId: string, turnId: string)
    ensures Annotated(Annotate(said, runId, turnId), said, runId, turnId)
  {
    NamesDiffer();
  }

  /** An empty key is refused and changes nothing. */
  lemma EmptyKeyRefused(c: Conv, payload: string, metadata: Option<Fields>, now: int)
    ensures Prepare(c, "", payload, metadata, now) == (c, Err("idempotency key is empty"))
  {
  }
}
