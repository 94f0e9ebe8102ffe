/** What a prompt's record says at any moment of an execution, told by the
    events of that prompt alone. */
module PromptRecords {
  import opened Wrappers
  import opened SendQueue
  import opened ChatService
  import opened PromptProtocol

  /** When a prompt was queued and put to run, what its start gave, when the
      runner's reply was kept, what waiting reported and when it finished. */
  datatype Story = Story(
    queuedAt: Option<int>, runAt: Option<int>, outcome: Option<StartOutcome>,
    keptAt: Option<int>, report: Option<Option<string>>, finishedAt: Option<int>)
  {
    /** The error the prompt ends with, if it does. */
    function Failure(): Option<string> {
      if outcome.Some? && !outcome.value.Started? then Some(outcome.value.error)
      else if report.Some? then report.value
      else None
    }
  }

  const UNTOLD := Story(None, None, None, None, None, None)

  /** Goroutine t carries the key. */
  predicate Carries(w: World, t: nat, key: string) {
    t < |w.threads| && w.threads[t].Owner() && w.threads[t].key == key
  }

  function NextStory(s: Story, w: World, e: Event, next: World, key: string): Story {
    match e
    case Submit(k, _, _, now) =>
      if k != key || key in w.conv.requests || key !in next.conv.requests then s
      else if next.conv.activeKey == key then s.(runAt := Some(now))
      else s.(queuedAt := Some(now))
    case ClaimNext(_, now) =>
      if next.conv.activeKey == key && w.conv.activeKey != key then s.(runAt := Some(now)) else s
    case StartReturns(t, outcome) => if Carries(w, t, key) then s.(outcome := Some(outcome)) else s
    case PersistResult(t, now) => if Carries(w, t, key) then s.(keptAt := Some(now)) else s
    case WaitReturns(t, error) => if Carries(w, t, key) then s.(report := Some(error)) else s
    case FinishRun(t, now) => if Carries(w, t, key) then s.(finishedAt := Some(now)) else s
  }

  function StoryOf(ws: seq<World>, es: seq<Event>, n: nat, key: string): Story
    requires n <= |es| && |ws| == |es| + 1
  {
    if n == 0 then UNTOLD else NextStory(StoryOf(ws, es, n - 1, key), ws[n - 1], es[n - 1], ws[n], key)
  }

  function OrZero(time: Option<int>): int {
    if time.Some? then time.value else 0
  }

  /** The reply that the record keeps. */
  ghost predicate ReplyTold(c: Conv, key: string, reply: Fields, s: Story) {
    && (s.keptAt.None? ==>
          && Says(reply, "idempotency_key", key)
          && Says(reply, "conv_id", c.id) && Says(reply, "session_id", c.sessionId))
    && (s.keptAt.Some? ==>
          && s.outcome.Some? && s.outcome.value.Started?
          && var r := s.outcome.value.result;
             && (r.runId != "" ==> Says(reply, "inference_id", r.runId))
             && (r.turnId != "" ==> Says(reply, "turn_id", r.turnId))
             && (r.response.Some? ==>
                   forall k | k in r.response.value && k !in {"inference_id", "turn_id", "status"} ::
                     k in reply && reply[k] == r.response.value[k]))
    && (s.finishedAt.Some? ==> Says(reply, "status", if s.Failure().Some? then "error" else "completed"))
  }

  /** The record says what happened. */
  ghost predicate Told(c: Conv, key: string, s: Story)
    requires key in c.requests
  {
    var rec := c.requests[key];
    && rec.status == (if s.runAt.None? then Queued
                      else if s.finishedAt.None? then Running
                      else if s.Failure().Some? then Failed else Completed)
    && rec.enqueuedAt == OrZero(s.queuedAt)
    && rec.startedAt == (if s.runAt.Some? && s.runAt.value == 0 then OrZero(s.keptAt) else OrZero(s.runAt))
    && rec.completedAt == OrZero(s.finishedAt)
    && rec.error == (if s.finishedAt.Some? && s.Failure().Some? then s.Failure().value else "")
    && rec.response.Some? && ReplyTold(c, key, rec.response.value, s)
  }

  /** The goroutine knows what has happened so far. */
  predicate Matches(th: Thread, s: Story) {
    && s.runAt.Some? && s.finishedAt.None?
    && (th.Starting? ==> s.outcome.None? && s.keptAt.None? && s.report.None?)
    && (th.Failing? ==>
          && s.outcome.Some? && !s.outcome.value.Started? && s.outcome.value.error == th.error
          && s.keptAt.None? && s.report.None?)
    && (th.Persisting? || th.Waiting? || th.Finishing? ==> s.outcome == Some(Started(th.result)))
    && (th.Persisting? ==> s.keptAt.None? && s.report.None?)
    && (th.Waiting? ==> s.keptAt.Some? && s.report.None?)
    && (th.Finishing? ==> s.keptAt.Some? && s.report == Some(th.waitError))
  }

  ghost predicate StoryInv(w: World, key: string, s: Story) {
    && (key !in w.conv.requests ==> s == UNTOLD)
    && (key in w.conv.requests ==> Told(w.conv, key, s))
    && (s.runAt.None? ==> s.outcome.None? && s.keptAt.None? && s.report.None? && s.finishedAt.None?)
    && (s.finishedAt.Some? ==> s.outcome.Some? && (s.outcome.value.Started? ==> s.report.Some?))
    && forall t | 0 <= t < |w.threads| && Carries(w, t, key) :: Matches(w.threads[t], s)
  }

  /** A step that leaves the record, and whoever carries the key, alone. */
  lemma StillTold(w: World, next: World, key: string, s: Story)
    requires StoryInv(w, key, s)
    requires key in next.conv.requests <==> key in w.conv.requests
    requires key in w.conv.requests ==> next.conv.requests[key] == w.conv.requests[key]
    requires next.conv.id == w.conv.id && next.conv.sessionId == w.conv.sessionId
    requires forall t | 0 <= t < |next.threads| && Carries(next, t, key) ::
               t < |w.threads| && next.threads[t] == w.threads[t]
    ensures StoryInv(next, key, s)
  {
    forall t | 0 <= t < |next.threads| && Carries(next, t, key) ensures Matches(next.threads[t], s) {
      assert Carries(w, t, key);
    }
  }

  /** The active key's goroutine is the only one that carries it. */
  lemma OnlyCarrier(w: World, t: nat, key: string)
    requires Inv(w) && Carries(w, t, key)
    ensures key == w.conv.activeKey && key in w.conv.requests
    ensures forall i | 0 <= i < |w.threads| && Carries(w, i, key) :: i == t
  {
  }

  /** When the key's goroutine moves on, it alone may still carry the key. */
  lemma CarrierMoves(w: World, next: World, t: nat, key: string)
    requires Inv(w) && Carries(w, t, key)
    requires |next.threads| == |w.threads| && next.threads == w.threads[t := next.threads[t]]
    ensures forall i | 0 <= i < |next.threads| && Carries(next, i, key) :: i == t
  {
    OnlyCarrier(w, t, key);
    forall i | 0 <= i < |next.threads| && i != t ensures next.threads[i] == w.threads[i] {
    }
  }

  lemma AdmissionTold(w: World, e: Event, key: string)
    requires Inv(w) && e.Submit? && e.key == key && key != "" && key !in w.conv.requests
    ensures var next := Step(w, e);
      key in next.conv.requests && Told(next.conv, key, NextStory(UNTOLD, w, e, next, key))
  {
    AdmissionIsExclusive(w.conv, key, e.payload, e.metadata, e.now);
    AdmissionReplies(w.conv, key, e.payload, e.metadata, e.now);
  }

  lemma SubmitTells(w: World, e: Event, key: string, s: Story)
    requires Inv(w) && e.Submit? && StoryInv(w, key, s) && key != ""
    ensures StoryInv(Step(w, e), key, NextStory(s, w, e, Step(w, e), key))
  {
    var next := Step(w, e);
    if e.key == "" || e.key in w.conv.requests {
      StillTold(w, next, key, s);
    } else {
      AdmissionIsExclusive(w.conv, e.key, e.payload, e.metadata, e.now);
      if e.key == key {
        AdmissionTold(w, e, key);
        forall t | 0 <= t < |w.threads| ensures !Carries(w, t, key) {
          if Carries(w, t, key) {
            OnlyCarrier(w, t, key);
          }
        }
      } else {
        StillTold(w, next, key, s);
      }
    }
  }

  /** A goroutine that carries another key leaves the record alone. */
  lemma OthersTell(w: World, e: Event, key: string, s: Story)
    requires Inv(w) && Enabled(w, e) && !e.Submit? && !e.ClaimNext? && StoryInv(w, key, s) && key != ""
    requires !Carries(w, e.t, key)
    ensures StoryInv(Step(w, e), key, s)
  {
    assert w.threads[e.t].Owner() && w.threads[e.t].key == w.conv.activeKey != key;
    OthersKeepRecord(w, e, key);
    StillTold(w, Step(w, e), key, s);
  }

  lemma OthersKeepRecord(w: World, e: Event, key: string)
    requires Inv(w) && Enabled(w, e) && !e.Submit? && !e.ClaimNext? && key != w.conv.activeKey
    requires w.threads[e.t].Owner() && w.threads[e.t].key == w.conv.activeKey
    ensures var next := Step(w, e);
      && (key in next.conv.requests <==> key in w.conv.requests)
      && (key in w.conv.requests ==> next.conv.requests[key] == w.conv.requests[key])
      && next.conv.id == w.conv.id && next.conv.sessionId == w.conv.sessionId
      && |next.threads| == |w.threads|
      && (forall i | 0 <= i < |w.threads| && i != e.t :: next.threads[i] == w.threads[i])
      && !Carries(next, e.t, key)
  {
    match e
    case PersistResult(t, now) =>
      var r := w.threads[t].result;
      PersistKeepsOthers(w.conv, r.response, r.runId, r.turnId, now);
    case FinishRun(t, now) => FinishKeeps(w, t, now);
    case _ =>
  }

  lemma ClaimTells(w: World, t: nat, now: int, key: string, s: Story)
    requires Inv(w) && Enabled(w, ClaimNext(t, now)) && StoryInv(w, key, s) && key != ""
    ensures var e := ClaimNext(t, now); StoryInv(Step(w, e), key, NextStory(s, w, e, Step(w, e), key))
  {
    ClaimTakesTheOldest(w.conv, now);
    if w.conv.activeKey == "" && w.conv.queue != [] && w.conv.queue[0].key == key {
      ClaimedTold(w, t, now, key, s);
    } else {
      ClaimLeaves(w, t, now, key, s);
    }
  }

  lemma ClaimedTold(w: World, t: nat, now: int, key: string, s: Story)
    requires Inv(w) && Enabled(w, ClaimNext(t, now)) && StoryInv(w, key, s) && key != ""
    requires w.conv.activeKey == "" && w.conv.queue != [] && w.conv.queue[0].key == key
    ensures StoryInv(Step(w, ClaimNext(t, now)), key, s.(runAt := Some(now)))
  {
    var next := Step(w, ClaimNext(t, now));
    ClaimTakesTheOldest(w.conv, now);
    assert w.conv.requests[key].status.Queued?;
    assert forall i | 0 <= i < |w.threads| :: !w.threads[i].Owner();
    assert forall i | 0 <= i < |next.threads| && Carries(next, i, key) :: i == t;
  }

  lemma ClaimLeaves(w: World, t: nat, now: int, key: string, s: Story)
    requires Inv(w) && Enabled(w, ClaimNext(t, now)) && StoryInv(w, key, s) && key != ""
    requires !(w.conv.activeKey == "" && w.conv.queue != [] && w.conv.queue[0].key == key)
    ensures StoryInv(Step(w, ClaimNext(t, now)), key, s)
  {
    var next := Step(w, ClaimNext(t, now));
    ClaimTakesTheOldest(w.conv, now);
    assert key != next.conv.activeKey || next.conv.activeKey == w.conv.activeKey;
    StillTold(w, next, key, s);
  }

  lemma StartTells(w: World, t: nat, outcome: StartOutcome, key: string, s: Story)
    requires Inv(w) && Enabled(w, StartReturns(t, outcome)) && StoryInv(w, key, s) && Carries(w, t, key)
    ensures StoryInv(Step(w, StartReturns(t, outcome)), key, s.(outcome := Some(outcome)))
  {
    OnlyCarrier(w, t, key);
    var next := Step(w, StartReturns(t, outcome));
    assert Matches(w.threads[t], s);
    CarrierMoves(w, next, t, key);
  }

  lemma WaitTells(w: World, t: nat, error: Option<string>, key: string, s: Story)
    requires Inv(w) && Enabled(w, WaitReturns(t, error)) && StoryInv(w, key, s) && Carries(w, t, key)
    ensures StoryInv(Step(w, WaitReturns(t, error)), key, s.(report := Some(error)))
  {
    OnlyCarrier(w, t, key);
    var next := Step(w, WaitReturns(t, error));
    assert Matches(w.threads[t], s);
    CarrierMoves(w, next, t, key);
  }

  lemma PersistTells(w: World, t: nat, now: int, key: string, s: Story)
    requires Inv(w) && Enabled(w, PersistResult(t, now)) && StoryInv(w, key, s) && Carries(w, t, key)
    ensures StoryInv(Step(w, PersistResult(t, now)), key, s.(keptAt := Some(now)))
  {
    OnlyCarrier(w, t, key);
    var r, next := w.threads[t].result, Step(w, PersistResult(t, now));
    assert Matches(w.threads[t], s);
    PersistKeepsOthers(w.conv, r.response, r.runId, r.turnId, now);
    CarrierMoves(w, next, t, key);
  }

  lemma FinishTold(c: Conv, s: Story, runId: string, turnId: string, now: int)
    requires Consistent(c) && c.activeKey != "" && Told(c, c.activeKey, s)
    requires s.runAt.Some? && s.finishedAt.None?
    requires s.keptAt.Some? ==> (runId, turnId) == (s.outcome.value.result.runId, s.outcome.value.result.turnId)
    requires s.keptAt.None? ==> runId == "" && turnId == ""
    ensures var after := Finish(c, c.activeKey, runId, turnId, s.Failure(), now);
      c.activeKey in after.requests && Told(after, c.activeKey, s.(finishedAt := Some(now)))
  {
    FinishSettlesTheRun(c, runId, turnId, s.Failure(), now);
    var told := s.(finishedAt := Some(now));
    assert told.Failure() == s.Failure();
    FinishReplyTold(c, s, runId, turnId, now);
  }

  lemma FinishReplyTold(c: Conv, s: Story, runId: string, turnId: string, now: int)
    requires Consistent(c) && c.activeKey != "" && Told(c, c.activeKey, s)
    requires s.runAt.Some? && s.finishedAt.None?
    requires s.keptAt.Some? ==> (runId, turnId) == (s.outcome.value.result.runId, s.outcome.value.result.turnId)
    requires s.keptAt.None? ==> runId == "" && turnId == ""
    ensures var after := Finish(c, c.activeKey, runId, turnId, s.Failure(), now);
      && c.activeKey in after.requests && after.requests[c.activeKey].response.Some?
      && ReplyTold(after, c.activeKey, after.requests[c.activeKey].response.value, s.(finishedAt := Some(now)))
  {
    FinishSettlesTheRun(c, runId, turnId, s.Failure(), now);
  }

  lemma FinishTells(w: World, t: nat, now: int, key: string, s: Story)
    requires Inv(w) && Enabled(w, FinishRun(t, now)) && StoryInv(w, key, s) && Carries(w, t, key)
    ensures StoryInv(Step(w, FinishRun(t, now)), key, s.(finishedAt := Some(now)))
  {
    OnlyCarrier(w, t, key);
    var th, next := w.threads[t], Step(w, FinishRun(t, now));
    assert Matches(th, s);
    if th.Finishing? {
      FinishTold(w.conv, s, th.result.runId, th.result.turnId, now);
    } else {
      FinishTold(w.conv, s, "", "", now);
    }
    CarrierMoves(w, next, t, key);
  }

  lemma StepTells(w: World, e: Event, key: string, s: Story)
    requires Inv(w) && Enabled(w, e) && StoryInv(w, key, s) && key != ""
    ensures StoryInv(Step(w, e), key, NextStory(s, w, e, Step(w, e), key))
  {
    if e.Submit? {
      SubmitTells(w, e, key, s);
    } else if e.ClaimNext? {
      ClaimTells(w, e.t, e.now, key, s);
    } else if !Carries(w, e.t, key) {
      OthersTell(w, e, key, s);
    } else {
      match e {
        case StartReturns(t, outcome) => StartTells(w, t, outcome, key, s);
        case PersistResult(t, now) => PersistTells(w, t, now, key, s);
        case WaitReturns(t, error) => WaitTells(w, t, error, key, s);
        case FinishRun(t, now) => FinishTells(w, t, now, key, s);
      }
    }
  }

  lemma {:induction false} ExecutionTells(ws: seq<World>, es: seq<Event>, n: nat, key: string)
    requires Execution(ws, es) && Fresh(ws[0]) && n < |ws| && key != ""
    ensures StoryInv(ws[n], key, StoryOf(ws, es, n, key))
  {
    if n > 0 {
      ExecutionTells(ws, es, n - 1, key);
      ExecutionKeepsInv(ws, es, n - 1);
      assert StepAt(ws, es, n - 1);
      StepTells(ws[n - 1], es[n - 1], key, StoryOf(ws, es, n - 1, key));
    }
  }

  /** At any moment of any execution the record of every prompt admitted says
      exactly what has happened to it: its status, times, error and reply. */
  lemma RecordTellsStory(ws: seq<World>, es: seq<Event>, n: nat, key: string)
    requires Execution(ws, es) && Fresh(ws[0]) && n < |ws| && key in ws[n].conv.requests
    ensures Told(ws[n].conv, key, StoryOf(ws, es, n, key))
  {
    ExecutionKeepsInv(ws, es, n);
    ExecutionTells(ws, es, n, key);
  }

  lemma StepStarts(w: World, e: Event, key: string, s: Story)
    requires Inv(w) && Enabled(w, e) && StoryInv(w, key, s) && key != ""
    requires key in w.starts <==> s.outcome.Some? && !s.outcome.value.NotPrepared?
    ensures var next := Step(w, e); var told := NextStory(s, w, e, next, key);
      key in next.starts <==> told.outcome.Some? && !told.outcome.value.NotPrepared?
  {
    if e.StartReturns? && Carries(w, e.t, key) {
      assert Matches(w.threads[e.t], s);
    }
  }

  /** The runner was called for a key exactly when its preparation did not fail
      and its start has returned. */
  lemma {:induction false} StartedExactly(ws: seq<World>, es: seq<Event>, n: nat, key: string)
    requires Execution(ws, es) && Fresh(ws[0]) && n < |ws| && key != ""
    ensures var s := StoryOf(ws, es, n, key);
      key in ws[n].starts <==> s.outcome.Some? && !s.outcome.value.NotPrepared?
  {
    if n > 0 {
      StartedExactly(ws, es, n - 1, key);
      ExecutionTells(ws, es, n - 1, key);
      ExecutionKeepsInv(ws, es, n - 1);
      assert StepAt(ws, es, n - 1);
      StepStarts(ws[n - 1], es[n - 1], key, StoryOf(ws, es, n - 1, key));
    }
  }

  // ----- How prompts end -----

  /** The event tells how the key's run ends: an error, or none. */
  predicate Reports(w: World, e: Event, key: string, error: Option<string>) {
    || (e.StartReturns? && Carries(w, e.t, key) && !e.outcome.Started? && error == Some(e.outcome.error))
    || (e.WaitReturns? && Carries(w, e.t, key) && error == e.error)
  }

  predicate Finishes(w: World, e: Event, key: string) {
    e.FinishRun? && Carries(w, e.t, key)
  }

  /** What a story has told it does not take back. */
  ghost predicate Continues(s: Story, later: Story) {
    && (s.outcome.Some? ==> later.outcome == s.outcome)
    && (s.report.Some? ==> later.report == s.report)
    && (s.finishedAt.Some? ==> later.finishedAt == s.finishedAt)
  }

  lemma StepContinues(w: World, e: Event, key: string, s: Story)
    requires Inv(w) && Enabled(w, e) && StoryInv(w, key, s)
    ensures Continues(s, NextStory(s, w, e, Step(w, e), key))
  {
    if !e.Submit? && !e.ClaimNext? && Carries(w, e.t, key) {
      assert Matches(w.threads[e.t], s);
    }
  }

  lemma {:induction false} StoryContinues(ws: seq<World>, es: seq<Event>, m: nat, n: nat, key: string)
    requires Execution(ws, es) && Fresh(ws[0]) && m <= n < |ws| && key != ""
    ensures Continues(StoryOf(ws, es, m, key), StoryOf(ws, es, n, key))
  {
    if m < n {
      StoryContinues(ws, es, m, n - 1, key);
      ExecutionTells(ws, es, n - 1, key);
      ExecutionKeepsInv(ws, es, n - 1);
      assert StepAt(ws, es, n - 1);
      StepContinues(ws[n - 1], es[n - 1], key, StoryOf(ws, es, n - 1, key));
    }
  }

  /** The story has a failure, or a report without one, exactly when an event
      reported it. */
  ghost predicate Reported(s: Story, error: Option<string>) {
    s.Failure() == error && (error.None? ==> s.report == Some(None))
  }

  lemma {:induction false} ReportedBy(ws: seq<World>, es: seq<Event>, n: nat, key: string, error: Option<string>)
    returns (i: nat)
    requires Execution(ws, es) && Fresh(ws[0]) && n < |ws| && key != ""
    requires Reported(StoryOf(ws, es, n, key), error)
    ensures i < n && Reports(ws[i], es[i], key, error)
  {
    assert n > 0;
    ExecutionTells(ws, es, n - 1, key);
    assert StepAt(ws, es, n - 1);
    if Reported(StoryOf(ws, es, n - 1, key), error) {
      i := ReportedBy(ws, es, n - 1, key, error);
    } else {
      i := n - 1;
    }
  }

  lemma ReportStays(ws: seq<World>, es: seq<Event>, i: nat, n: nat, key: string, error: Option<string>)
    requires Execution(ws, es) && Fresh(ws[0]) && i < n < |ws| && key != ""
    requires Reports(ws[i], es[i], key, error)
    ensures Reported(StoryOf(ws, es, n, key), error)
  {
    ExecutionTells(ws, es, i, key);
    assert StepAt(ws, es, i);
    assert Matches(ws[i].threads[es[i].t], StoryOf(ws, es, i, key));
    StoryContinues(ws, es, i + 1, n, key);
  }

  lemma {:induction false} FinishedBy(ws: seq<World>, es: seq<Event>, n: nat, key: string) returns (j: nat)
    requires Execution(ws, es) && Fresh(ws[0]) && n < |ws| && key != ""
    requires StoryOf(ws, es, n, key).finishedAt.Some?
    ensures j < n && Finishes(ws[j], es[j], key)
  {
    if StoryOf(ws, es, n - 1, key).finishedAt.Some? {
      j := FinishedBy(ws, es, n - 1, key);
    } else {
      j := n - 1;
    }
  }

  /** The run's goroutine was told how it ended, and then finished it. */
  ghost predicate EndedWith(ws: seq<World>, es: seq<Event>, n: nat, key: string, error: Option<string>)
    requires n <= |es| && |ws| == |es| + 1
  {
    exists i, j | 0 <= i < j < n :: Reports(ws[i], es[i], key, error) && Finishes(ws[j], es[j], key)
  }

  lemma EndedExactly(ws: seq<World>, es: seq<Event>, n: nat, key: string, error: Option<string>)
    requires Execution(ws, es) && Fresh(ws[0]) && n < |ws| && key != ""
    ensures EndedWith(ws, es, n, key, error) <==>
              StoryOf(ws, es, n, key).finishedAt.Some? && Reported(StoryOf(ws, es, n, key), error)
  {
    var s := StoryOf(ws, es, n, key);
    if s.finishedAt.Some? && Reported(s, error) {
      var j := FinishedBy(ws, es, n, key);
      ExecutionTells(ws, es, j, key);
      assert Matches(ws[j].threads[es[j].t], StoryOf(ws, es, j, key));
      assert StepAt(ws, es, j);
      StoryContinues(ws, es, j, n, key);
      var i := ReportedBy(ws, es, j, key, error);
    }
    if EndedWith(ws, es, n, key, error) {
      var i: nat, j: nat :| i < j < n && Reports(ws[i], es[i], key, error) && Finishes(ws[j], es[j], key);
      ReportStays(ws, es, i, n, key, error);
      StoryContinues(ws, es, j + 1, n, key);
    }
  }

  /** A prompt's record is failed with an error exactly when its own start or its
      own wait reported that error and its goroutine then finished it, and
      completed exactly when its wait reported none; its reply says the same. */
  lemma EndsAsReported(ws: seq<World>, es: seq<Event>, n: nat, key: string)
    requires Execution(ws, es) && Fresh(ws[0]) && n < |ws| && key in ws[n].conv.requests
    ensures var rec := ws[n].conv.requests[key];
      && rec.response.Some?
      && (forall error :: rec.status.Failed? && rec.error == error <==> EndedWith(ws, es, n, key, Some(error)))
      && (rec.status.Completed? <==> EndedWith(ws, es, n, key, None))
      && (rec.status.Failed? ==> Says(rec.response.value, "status", "error"))
      && (rec.status.Completed? ==> Says(rec.response.value, "status", "completed"))
  {
    ExecutionKeepsInv(ws, es, n);
    ExecutionTells(ws, es, n, key);
    EndedExactly(ws, es, n, key, None);
    forall error ensures EndedWith(ws, es, n, key, Some(error)) <==>
        StoryOf(ws, es, n, key).finishedAt.Some? && Reported(StoryOf(ws, es, n, key), Some(error))
    {
      EndedExactly(ws, es, n, key, Some(error));
    }
  }
}
