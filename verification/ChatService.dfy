/** The life of a prompt: the goroutines that submit, start, wait for, finish
    and drain, interleaved at the granularity of the conversation's lock. */
module ChatService {
  import opened Wrappers
  import opened SendQueue

  datatype StartResult = StartResult(response: Option<Fields>, runId: string, turnId: string)

  /** What preparing a request and calling Runner.Start may do. */
  datatype StartOutcome =
    | NotPrepared(error: string)
    | NotStarted(error: string)
    | Started(result: StartResult)

  /** finishPromptSubmission; a set error is the run's or the start's. */
  function Finish(c: Conv, key: string, runId: string, turnId: string, error: Option<string>, now: int): Conv {
    var idle := if c.activeKey == key then c.(activeKey := "", lastActivity := now)
                else c.(lastActivity := now);
    if key == "" || key !in c.requests then idle else
    var rec := c.requests[key];
    var status := if error.Some? then Failed else if rec.status.Running? then Completed else rec.status;
    var reply := Annotate(if rec.response.Some? then rec.response.value else map[], runId, turnId);
    idle.(requests := c.requests[key := rec.(
            status := status,
            error := if error.Some? then error.value else rec.error,
            completedAt := now,
            response := Some(reply["status" := Str(status.Text())]))])
  }

  method FinishPromptSubmission(conv: Conversation, key: string, runId: string, turnId: string,
                                error: Option<string>, now: int)
    modifies conv
    ensures conv.View() == Finish(old(conv.View()), key, runId, turnId, error, now)
  {
    if conv.activeRequestKey == key {
      conv.activeRequestKey := "";
    }
    conv.lastActivity := now;
    if key != "" && key in conv.requests {
      var rec := conv.requests[key];
      if error.Some? {
        rec := rec.(status := Failed, error := error.value);
      } else if rec.status == Running {
        rec := rec.(status := Completed);
      }
      rec := rec.(completedAt := now);
      var reply: Fields := map[];
      if rec.response.Some? {
        reply := rec.response.value;
      }
      if runId != "" {
        reply := reply["inference_id" := Str(runId)];
      }
      if turnId != "" {
        reply := reply["turn_id" := Str(turnId)];
      }
      reply := reply["status" := Str(rec.status.Text())];
      conv.requests := conv.requests[key := rec.(response := Some(reply))];
    }
  }

  /** Finishing the running prompt frees the conversation and settles exactly
      that record. */
  lemma FinishSettlesTheRun(c: Conv, runId: string, turnId: string, error: Option<string>, now: int)
    requires Consistent(c) && c.activeKey != ""
    ensures var after := Finish(c, c.activeKey, runId, turnId, error, now);
      && Consistent(after)
      && after.activeKey == "" && after.queue == c.queue
      && after.requests.Keys == c.requests.Keys
      && (forall k | k in c.requests && k != c.activeKey :: after.requests[k] == c.requests[k])
      && Settles(c.requests[c.activeKey], after.requests[c.activeKey], runId, turnId, error, now)
      && after.lastActivity == now && after.id == c.id && after.sessionId == c.sessionId
  {
    var said := c.requests[c.activeKey].response.value;
    AnnotateAnnotates(said, runId, turnId);
    assert Annotate(said, runId, turnId)["status" := Str("completed")].Keys
        == Annotate(said, runId, turnId).Keys + {"status"};
  }

  /** A settled record says how the run ended, in its fields and its reply. */
  ghost predicate Settles(rec: Record, settled: Record, runId: string, turnId: string,
                          error: Option<string>, now: int)
  {
    && settled.status == (if error.Some? then Failed else Completed)
    && settled.error == (if error.Some? then error.value else rec.error)
    && (settled.key, settled.enqueuedAt, settled.startedAt) == (rec.key, rec.enqueuedAt, rec.startedAt)
    && settled.completedAt == now
    && rec.response.Some? && settled.response.Some?
    && var reply := settled.response.value;
       && "status" in reply
       && reply["status"] == Str(if error.Some? then "error" else "completed")
       && exists annotated :: Annotated(annotated, rec.response.value, runId, turnId)
                              && reply == annotated["status" := reply["status"]]
  }

  /** Finishing any other key leaves the running one, and every other record,
      alone. */
  lemma FinishTouchesOne(c: Conv, key: string, runId: string, turnId: string, error: Option<string>, now: int)
    ensures var after := Finish(c, key, runId, turnId, error, now);
      && after.queue == c.queue && after.lastActivity == now
      && after.activeKey == (if c.activeKey == key then "" else c.activeKey)
      && after.requests.Keys == c.requests.Keys
      && (forall k | k in c.requests && k != key :: after.requests[k] == c.requests[k])
      && (key in c.requests && key != "" ==>
            after.requests[key].status == if error.Some? then Failed
                                          else if c.requests[key].status == Running then Completed
                                          else c.requests[key].status)
  {
  }

  // ----- Draining, run by one goroutine alone -----

  /** tryDrainQueue, with start telling what each claimed prompt meets. */
  function Drain(c: Conv, start: QueuedChat -> StartOutcome, now: int)
    : (Conv, Option<(string, StartResult)>)
    decreases |c.queue|
  {
    var (claimed, q) := Claim(c, now);
    if q.None? then (claimed, None) else
    match start(q.value)
    case Started(result) =>
      (Persist(claimed, q.value.key, result.response, result.runId, result.turnId, now),
       Some((q.value.key, result)))
    case NotPrepared(error) =>
      Drain(Finish(claimed, q.value.key, "", "", Some(error), now), start, now)
    case NotStarted(error) =>
      Drain(Finish(claimed, q.value.key, "", "", Some(error), now), start, now)
  }

  method TryDrainQueue(conv: Conversation, start: QueuedChat -> StartOutcome, now: int)
    returns (waiter: Option<(string, StartResult)>)
    modifies conv
    ensures (conv.View(), waiter) == Drain(old(conv.View()), start, now)
  {
    while true
      invariant Drain(conv.View(), start, now) == Drain(old(conv.View()), start, now)
      decreases |conv.queue|
    {
      var q := conv.ClaimNextQueuedPrompt(now);
      if q.None? {
        return None;
      }
      match start(q.value) {
        case NotPrepared(error) =>
          FinishPromptSubmission(conv, q.value.key, "", "", Some(error), now);
        case NotStarted(error) =>
          FinishPromptSubmission(conv, q.value.key, "", "", Some(error), now);
        case Started(result) =>
          conv.PersistPromptStartResult(q.value.key, result.response, result.runId, result.turnId, now);
          return Some((q.value.key, result));
      }
    }
  }

  /** Index of the first prompt that starts, or the length. */
  function FirstStart(queue: seq<QueuedChat>, start: QueuedChat -> StartOutcome): nat {
    if queue == [] || start(queue[0]).Started? then 0 else 1 + FirstStart(queue[1..], start)
  }

  lemma {:induction false} FirstStartMeaning(queue: seq<QueuedChat>, start: QueuedChat -> StartOutcome)
    ensures FirstStart(queue, start) <= |queue|
    ensures forall i | 0 <= i < FirstStart(queue, start) :: !start(queue[i]).Started?
    ensures FirstStart(queue, start) < |queue| ==> start(queue[FirstStart(queue, start)]).Started?
  {
    if queue != [] && !start(queue[0]).Started? {
      FirstStartMeaning(queue[1..], start);
      forall i | 0 <= i < FirstStart(queue, start) ensures !start(queue[i]).Started? {
        if i > 0 {
          assert queue[i] == queue[1..][i - 1];
        }
      }
    }
  }

  /** The first n prompts failed, each with its own error. */
  ghost predicate FailedFront(after: Conv, start: QueuedChat -> StartOutcome, queue: seq<QueuedChat>, n: int) {
    forall i | 0 <= i < n && i < |queue| :: FailedIn(after, start, queue[i])
  }

  /** The drain stopped at position n of the queue: the prompt there runs and
      has a waiter, or there is none. */
  ghost predicate StoppedAt(queue: seq<QueuedChat>, n: nat, start: QueuedChat -> StartOutcome, after: Conv,
                      waiter: Option<(string, StartResult)>)
  {
    if n >= |queue| then waiter.None? && after.queue == [] && after.activeKey == ""
    else
      && waiter.Some? && start(queue[n]) == Started(waiter.value.1)
      && queue[n].key == waiter.value.0 == after.activeKey
      && after.queue == queue[n + 1..]
      && Kept(after, waiter.value.0, waiter.value.1)
  }

  /** The record runs and keeps the runner's reply with the ids of the run. */
  ghost predicate Kept(c: Conv, key: string, result: StartResult) {
    && key in c.requests && c.requests[key].status.Running? && c.requests[key].response.Some?
    && Annotated(c.requests[key].response.value,
                 if result.response.Some? then result.response.value else map[], result.runId, result.turnId)
  }

  /** The drain failed the prompts before the first that starts and stopped
      there. */
  ghost predicate DrainedTo(c: Conv, start: QueuedChat -> StartOutcome, after: Conv,
                            waiter: Option<(string, StartResult)>)
  {
    && Consistent(after)
    && FailedFront(after, start, c.queue, FirstStart(c.queue, start))
    && StoppedAt(c.queue, FirstStart(c.queue, start), start, after, waiter)
    && SettledStay(c, after)
  }

  /** No record appears or goes, and settled ones stay as they are. */
  ghost predicate SettledStay(c: Conv, after: Conv) {
    && after.requests.Keys == c.requests.Keys
    && forall k | k in c.requests && c.requests[k].status.Terminal() :: after.requests[k] == c.requests[k]
  }

  ghost predicate FailedIn(c: Conv, start: QueuedChat -> StartOutcome, q: QueuedChat) {
    && !start(q).Started?
    && q.key in c.requests
    && c.requests[q.key].status.Failed?
    && c.requests[q.key].error == start(q).error
    && c.requests[q.key].response.Some? && Says(c.requests[q.key].response.value, "status", "error")
  }

  /** A drain fails the prompts that do not start, in order, up to the first
      one that does; it ends with the queue empty or a prompt running. */
  lemma {:induction false} DrainStopsAtTheFirstStart(c: Conv, start: QueuedChat -> StartOutcome, now: int)
    requires Consistent(c)
    ensures var (after, waiter) := Drain(c, start, now);
      if c.activeKey != "" then (after, waiter) == (c.(lastActivity := now), None)
      else DrainedTo(c, start, after, waiter)
    decreases |c.queue|
  {
    ClaimTakesTheOldest(c, now);
    var (claimed, q) := Claim(c, now);
    if q.Some? {
      var outcome := start(q.value);
      if outcome.Started? {
        DrainedAtStart(c, start, now);
      } else {
        var next := Finish(claimed, q.value.key, "", "", Some(outcome.error), now);
        FailedFirst(c, start, now);
        DrainStopsAtTheFirstStart(next, start, now);
        var (after, waiter) := Drain(next, start, now);
        assert (after, waiter) == Drain(c, start, now);
        DrainedAfterFailure(c, start, next, after, waiter);
      }
    }
  }

  lemma DrainedAtStart(c: Conv, start: QueuedChat -> StartOutcome, now: int)
    requires Consistent(c) && c.activeKey == "" && c.queue != []
    requires Claim(c, now).1.Some? && start(Claim(c, now).1.value).Started?
    ensures var (after, waiter) := Drain(c, start, now); DrainedTo(c, start, after, waiter)
  {
    ClaimTakesTheOldest(c, now);
    var (claimed, q) := Claim(c, now);
    var result := start(q.value).result;
    PersistKeepsOthers(claimed, result.response, result.runId, result.turnId, now);
  }

  /** Claiming the oldest prompt and failing it. */
  lemma FailedFirst(c: Conv, start: QueuedChat -> StartOutcome, now: int)
    requires Consistent(c) && c.activeKey == "" && c.queue != []
    requires Claim(c, now).1.Some? && !start(Claim(c, now).1.value).Started?
    ensures var (claimed, q) := Claim(c, now);
      var next := Finish(claimed, q.value.key, "", "", Some(start(q.value).error), now);
      && Consistent(next) && next.activeKey == "" && next.queue == c.queue[1..]
      && q.value == c.queue[0] && FailedIn(next, start, q.value)
      && SettledStay(c, next)
  {
    ClaimTakesTheOldest(c, now);
    var (claimed, q) := Claim(c, now);
    FinishSettlesTheRun(claimed, "", "", Some(start(q.value).error), now);
  }

  lemma DrainedAfterFailure(c: Conv, start: QueuedChat -> StartOutcome, next: Conv, after: Conv,
                            waiter: Option<(string, StartResult)>)
    requires c.queue != [] && next.queue == c.queue[1..]
    requires FailedIn(next, start, c.queue[0]) && SettledStay(c, next)
    requires DrainedTo(next, start, after, waiter)
    ensures DrainedTo(c, start, after, waiter)
  {
    var n := FirstStart(next.queue, start);
    FirstStartMeaning(next.queue, start);
    assert FirstStart(c.queue, start) == n + 1;
    SettledStayOn(c, next, after);
    StillFailed(c.queue[0], start, next, after);
    FailedFrontGrows(after, start, c.queue, n);
    StoppedInTail(c.queue, n, start, after, waiter);
  }

  lemma StoppedInTail(queue: seq<QueuedChat>, n: nat, start: QueuedChat -> StartOutcome, after: Conv,
                      waiter: Option<(string, StartResult)>)
    requires queue != [] && n < |queue| && StoppedAt(queue[1..], n, start, after, waiter)
    ensures StoppedAt(queue, n + 1, start, after, waiter)
  {
    if n + 1 < |queue| {
      assert queue[1..][n] == queue[n + 1] && queue[1..][n + 1..] == queue[n + 2..];
    }
  }

  lemma FailedFrontGrows(after: Conv, start: QueuedChat -> StartOutcome, queue: seq<QueuedChat>, n: nat)
    requires queue != [] && FailedIn(after, start, queue[0]) && FailedFront(after, start, queue[1..], n)
    ensures FailedFront(after, start, queue, n + 1)
  {
    forall i | 0 <= i < n + 1 && i < |queue| ensures FailedIn(after, start, queue[i]) {
      if i > 0 {
        assert queue[i] == queue[1..][i - 1];
      }
    }
  }

  lemma SettledStayOn(a: Conv, b: Conv, c: Conv)
    requires SettledStay(a, b) && SettledStay(b, c)
    ensures SettledStay(a, c)
  {
  }

  /** A failed prompt stays failed where settled records stay. */
  lemma StillFailed(q: QueuedChat, start: QueuedChat -> StartOutcome, c: Conv, after: Conv)
    requires FailedIn(c, start, q) && SettledStay(c, after)
    ensures FailedIn(after, start, q)
  {
  }
}
