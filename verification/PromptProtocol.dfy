/** Every interleaving of the goroutines that serve one conversation's
    prompts, as a state machine whose steps are the regions under the
    conversation's lock, the calls to Runner.Start and the ends of runs. */
module PromptProtocol {
  import opened Text
  import opened Wrappers
  import opened SendQueue
  import opened ChatService

  /** Direct: the submitter's own goroutine. Drained: a draining waiter. */
  datatype Origin = Direct | Drained

  datatype Thread =
    | Starting(key: string, origin: Origin)
    | Failing(key: string, origin: Origin, error: string)
    | Persisting(key: string, result: StartResult)
    | Waiting(key: string, result: StartResult)
    | Finishing(key: string, result: StartResult, waitError: Option<string>)
    | Draining
    | Gone
  {
    predicate Owner() {
      !Draining? && !Gone?
    }

    /** Steps this goroutine can still take before it claims a new prompt. */
    function Weight(): nat {
      match this
      case Starting(_, _) => 5
      case Failing(_, _, _) => 2
      case Persisting(_, _) => 4
      case Waiting(_, _) => 3
      case Finishing(_, _, _) => 2
      case Draining => 1
      case Gone => 0
    }
  }

  /** The conversation, its goroutines, and the history of what was admitted,
      claimed and handed to Runner.Start. */
  datatype World = World(
    conv: Conv, threads: seq<Thread>,
    enqueued: seq<QueuedChat>, claimed: seq<QueuedChat>,
    direct: seq<string>, starts: seq<string>)

  datatype Event =
    | Submit(key: string, payload: string, metadata: Option<Fields>, now: int)
    | StartReturns(t: nat, outcome: StartOutcome)
    | PersistResult(t: nat, now: int)
    | WaitReturns(t: nat, error: Option<string>)
    | FinishRun(t: nat, now: int)
    | ClaimNext(t: nat, now: int)

  predicate Fresh(w: World) {
    && w.conv.activeKey == "" && w.conv.queue == [] && w.conv.requests == map[]
    && w.threads == [] && w.enqueued == [] && w.claimed == []
    && w.direct == [] && w.starts == []
  }

  predicate Enabled(w: World, e: Event) {
    if e.Submit? then true
    else if e.t >= |w.threads| then false
    else
      var th := w.threads[e.t];
      match e
      case StartReturns(_, outcome) =>
        th.Starting? && (outcome.NotPrepared? ==> th.origin.Drained?)
      case PersistResult(_, _) => th.Persisting?
      case WaitReturns(_, _) => th.Waiting?
      case FinishRun(_, _) => th.Finishing? || th.Failing?
      case ClaimNext(_, _) => th.Draining?
  }

  function Step(w: World, e: Event): World
    requires Enabled(w, e)
  {
    match e
    case Submit(key, payload, metadata, now) =>
      var (conv, r) := Prepare(w.conv, key, payload, metadata, now);
      if r.Err? then w
      else if r.value.start then
        w.(conv := conv, threads := w.threads + [Starting(key, Direct)], direct := w.direct + [key])
      else if |conv.queue| > |w.conv.queue| then
        w.(conv := conv, enqueued := w.enqueued + [conv.queue[|w.conv.queue|]])
      else
        w.(conv := conv)
    case StartReturns(t, outcome) =>
      var th := w.threads[t];
      var next := if outcome.Started? then Persisting(th.key, outcome.result)
                  else Failing(th.key, th.origin, outcome.error);
      w.(threads := w.threads[t := next],
         starts := if outcome.NotPrepared? then w.starts else w.starts + [th.key])
    case PersistResult(t, now) =>
      var th := w.threads[t];
      w.(conv := Persist(w.conv, th.key, th.result.response, th.result.runId, th.result.turnId, now),
         threads := w.threads[t := Waiting(th.key, th.result)])
    case WaitReturns(t, error) =>
      var th := w.threads[t];
      w.(threads := w.threads[t := Finishing(th.key, th.result, error)])
    case FinishRun(t, now) =>
      var th := w.threads[t];
      if th.Finishing? then
        w.(conv := Finish(w.conv, th.key, th.result.runId, th.result.turnId, th.waitError, now),
           threads := w.threads[t := Draining])
      else
        w.(conv := Finish(w.conv, th.key, "", "", Some(th.error), now),
           threads := w.threads[t := if th.origin.Direct? then Gone else Draining])
    case ClaimNext(t, now) =>
      var (conv, q) := Claim(w.conv, now);
      if q.None? then
        w.(conv := conv, threads := w.threads[t := Gone])
      else
        w.(conv := conv, threads := w.threads[t := Starting(q.value.key, Drained)],
           claimed := w.claimed + [q.value])
  }

  ghost predicate StepAt(ws: seq<World>, es: seq<Event>, i: nat)
    requires i < |es| && |ws| == |es| + 1
  {
    Enabled(ws[i], es[i]) && ws[i + 1] == Step(ws[i], es[i])
  }

  /** An execution: ws[i + 1] is what event es[i] makes of ws[i]. */
  ghost predicate Execution(ws: seq<World>, es: seq<Event>) {
    && |ws| == |es| + 1
    && forall i | 0 <= i < |es| :: StepAt(ws, es, i)
  }

  /** A goroutine can always make its own next step, whatever it meets: the
      runner may start the prompt or refuse it, a drained prompt's request may
      not even be prepared, and a run may end with any error or none. */
  lemma EveryOutcomePossible(w: World, t: nat)
    requires t < |w.threads|
    ensures var th := w.threads[t];
      && (forall outcome: StartOutcome :: Enabled(w, StartReturns(t, outcome)) <==>
            th.Starting? && (th.origin.Drained? || !outcome.NotPrepared?))
      && (forall error: Option<string> :: Enabled(w, WaitReturns(t, error)) <==> th.Waiting?)
      && (forall now: int :: Enabled(w, PersistResult(t, now)) <==> th.Persisting?)
      && (forall now: int :: Enabled(w, FinishRun(t, now)) <==> th.Finishing? || th.Failing?)
      && (forall now: int :: Enabled(w, ClaimNext(t, now)) <==> th.Draining?)
  {
  }

  // ----- The invariant -----

  /** A prompt runs exactly while one goroutine carries its key. */
  ghost predicate OneOwner(threads: seq<Thread>, key: string) {
    && (forall i | 0 <= i < |threads| && threads[i].Owner() :: threads[i].key == key)
    && (forall i, j | 0 <= i < j < |threads| :: !(threads[i].Owner() && threads[j].Owner()))
    && (key != "" <==> exists i :: 0 <= i < |threads| && threads[i].Owner())
  }

  /** Queued prompts come out in order and unchanged; every admitted key was
      either started directly or queued once. */
  ghost predicate Conserved(w: World) {
    && w.enqueued == w.claimed + w.conv.queue
    && DistinctKeys(w.enqueued)
    && Distinct(w.direct)
    && (forall k :: k in w.conv.requests <==> k in w.direct || k in Keys(w.enqueued))
    && (forall k :: !(k in w.direct && k in Keys(w.enqueued)))
  }

  /** No key is handed to Runner.Start twice. */
  ghost predicate StartedOnce(w: World) {
    && Distinct(w.starts)
    && (forall k | k in w.starts :: k in w.conv.requests && !w.conv.requests[k].status.Queued?)
    && (forall i | 0 <= i < |w.threads| && w.threads[i].Starting? :: w.threads[i].key !in w.starts)
  }

  ghost predicate Inv(w: World) {
    Consistent(w.conv) && OneOwner(w.threads, w.conv.activeKey) && Conserved(w) && StartedOnce(w)
  }

  /** Goroutine t moves on, still carrying the running key. */
  lemma OwnerMoves(threads: seq<Thread>, key: string, t: nat, th: Thread)
    requires OneOwner(threads, key) && t < |threads| && threads[t].Owner()
    requires th.Owner() && th.key == key
    ensures OneOwner(threads[t := th], key)
  {
    assert threads[t := th][t].Owner();
  }

  lemma OwnerLets(threads: seq<Thread>, key: string, t: nat, th: Thread)
    requires OneOwner(threads, key) && t < |threads| && threads[t].Owner() && !th.Owner()
    ensures OneOwner(threads[t := th], "")
  {
  }

  lemma OwnerTakes(threads: seq<Thread>, t: nat, th: Thread)
    requires OneOwner(threads, "") && t < |threads| && th.Owner() && th.key != ""
    ensures OneOwner(threads[t := th], th.key)
  {
    assert threads[t := th][t].Owner();
  }

  lemma OwnerSpawns(threads: seq<Thread>, th: Thread)
    requires OneOwner(threads, "") && th.Owner() && th.key != ""
    ensures OneOwner(threads + [th], th.key)
  {
    assert (threads + [th])[|threads|].Owner();
  }

  lemma BystanderMoves(threads: seq<Thread>, key: string, t: nat, th: Thread)
    requires OneOwner(threads, key) && t < |threads| && !threads[t].Owner() && !th.Owner()
    ensures OneOwner(threads[t := th], key)
  {
    if i :| 0 <= i < |threads| && threads[i].Owner() {
      assert threads[t := th][i].Owner();
    }
  }

  lemma StepKeepsOwner(w: World, e: Event)
    requires Inv(w) && Enabled(w, e)
    ensures var next := Step(w, e); Consistent(next.conv) && OneOwner(next.threads, next.conv.activeKey)
  {
    var next := Step(w, e);
    match e {
      case Submit(key, payload, metadata, now) =>
        if key != "" && key !in w.conv.requests {
          AdmissionIsExclusive(w.conv, key, payload, metadata, now);
          if w.conv.activeKey == "" {
            OwnerSpawns(w.threads, Starting(key, Direct));
          }
        }
      case StartReturns(t, outcome) =>
        OwnerMoves(w.threads, w.conv.activeKey, t, next.threads[t]);
      case PersistResult(t, now) =>
        var th := w.threads[t];
        OwnerMoves(w.threads, w.conv.activeKey, t, next.threads[t]);
        PersistKeepsOthers(w.conv, th.result.response, th.result.runId, th.result.turnId, now);
      case WaitReturns(t, error) =>
        OwnerMoves(w.threads, w.conv.activeKey, t, next.threads[t]);
      case FinishRun(t, now) =>
        OwnerLets(w.threads, w.conv.activeKey, t, next.threads[t]);
        FinishKeeps(w, t, now);
      case ClaimNext(t, now) =>
        ClaimTakesTheOldest(w.conv, now);
        if w.conv.activeKey == "" && w.conv.queue != [] {
          assert w.conv.queue[0].key in Keys(w.conv.queue);
          OwnerTakes(w.threads, t, next.threads[t]);
        } else {
          BystanderMoves(w.threads, w.conv.activeKey, t, Gone);
        }
    }
  }

  lemma FinishKeeps(w: World, t: nat, now: int)
    requires Inv(w) && Enabled(w, FinishRun(t, now))
    ensures var next := Step(w, FinishRun(t, now));
      && Consistent(next.conv)
      && next.conv.activeKey == "" && next.conv.queue == w.conv.queue
      && next.conv.requests.Keys == w.conv.requests.Keys
      && (forall k | k in w.conv.requests && k != w.conv.activeKey ::
            next.conv.requests[k] == w.conv.requests[k])
      && w.conv.activeKey in next.conv.requests
      && next.conv.requests[w.conv.activeKey].status.Terminal()
  {
    var th := w.threads[t];
    assert th.Owner();
    if th.Finishing? {
      FinishSettlesTheRun(w.conv, th.result.runId, th.result.turnId, th.waitError, now);
    } else {
      FinishSettlesTheRun(w.conv, "", "", Some(th.error), now);
    }
  }

  lemma SubmitConserves(w: World, e: Event)
    requires Inv(w) && e.Submit?
    ensures Conserved(Step(w, e))
  {
    var next := Step(w, e);
    if e.key != "" && e.key !in w.conv.requests {
      AdmissionIsExclusive(w.conv, e.key, e.payload, e.metadata, e.now);
      if w.conv.activeKey != "" {
        var q := QueuedChat(e.key, e.payload, e.metadata, e.now);
        assert next.enqueued == w.enqueued + [q];
        assert next.enqueued == next.claimed + next.conv.queue;
        AppendKeys(w.enqueued, q);
        forall i | 0 <= i < |w.enqueued| ensures w.enqueued[i].key != e.key {
          assert w.enqueued[i].key in Keys(w.enqueued);
        }
      }
    }
  }

  /** Steps that leave the queue, the histories and the set of records alone
      conserve. */
  lemma StillConserved(w: World, next: World)
    requires Conserved(w)
    requires next.conv.queue == w.conv.queue && next.conv.requests.Keys == w.conv.requests.Keys
    requires next.enqueued == w.enqueued && next.claimed == w.claimed && next.direct == w.direct
    ensures Conserved(next)
  {
    forall k ensures k in next.conv.requests <==> k in w.conv.requests {
      assert k in next.conv.requests <==> k in next.conv.requests.Keys;
    }
  }

  lemma StepConserves(w: World, e: Event)
    requires Inv(w) && Enabled(w, e)
    ensures Conserved(Step(w, e))
  {
    var next := Step(w, e);
    match e {
      case Submit(_, _, _, _) =>
        SubmitConserves(w, e);
      case StartReturns(_, _) =>
        StillConserved(w, next);
      case PersistResult(t, now) =>
        var th := w.threads[t];
        assert th.Owner();
        PersistKeepsOthers(w.conv, th.result.response, th.result.runId, th.result.turnId, now);
        StillConserved(w, next);
      case WaitReturns(_, _) =>
        StillConserved(w, next);
      case FinishRun(t, now) =>
        FinishKeeps(w, t, now);
        StillConserved(w, next);
      case ClaimNext(t, now) =>
        ClaimTakesTheOldest(w.conv, now);
        assert next.enqueued == next.claimed + next.conv.queue;
    }
  }

  lemma SubmitStartsOnce(w: World, e: Event)
    requires Inv(w) && e.Submit?
    ensures StartedOnce(Step(w, e))
  {
    if e.key != "" && e.key !in w.conv.requests {
      AdmissionIsExclusive(w.conv, e.key, e.payload, e.metadata, e.now);
    }
  }

  lemma StartStartsOnce(w: World, t: nat, outcome: StartOutcome)
    requires Inv(w) && Enabled(w, StartReturns(t, outcome))
    ensures StartedOnce(Step(w, StartReturns(t, outcome)))
  {
    assert w.threads[t].Owner();
  }

  lemma StepStartsOnce(w: World, e: Event)
    requires Inv(w) && Enabled(w, e)
    ensures StartedOnce(Step(w, e))
  {
    match e {
      case Submit(_, _, _, _) =>
        SubmitStartsOnce(w, e);
      case StartReturns(t, outcome) =>
        StartStartsOnce(w, t, outcome);
      case PersistResult(t, now) =>
        var th := w.threads[t];
        assert th.Owner();
        PersistKeepsOthers(w.conv, th.result.response, th.result.runId, th.result.turnId, now);
      case WaitReturns(_, _) =>
      case FinishRun(t, now) =>
        FinishKeeps(w, t, now);
      case ClaimNext(t, now) =>
        ClaimTakesTheOldest(w.conv, now);
    }
  }

  /** Over every interleaving, start failures included: the record of each key
      says where the key is, at most one prompt is in flight, queued prompts
      leave in order and unchanged, and no key is started twice. */
  lemma {:induction false} ExecutionKeepsInv(ws: seq<World>, es: seq<Event>, n: nat)
    requires Execution(ws, es) && Fresh(ws[0]) && n < |ws|
    ensures Inv(ws[n])
  {
    if n > 0 {
      ExecutionKeepsInv(ws, es, n - 1);
      assert StepAt(ws, es, n - 1);
      StepKeepsOwner(ws[n - 1], es[n - 1]);
      StepConserves(ws[n - 1], es[n - 1]);
      StepStartsOnce(ws[n - 1], es[n - 1]);
    }
  }

  // ----- Idempotency over whole runs -----

  /** What later steps may do to the records: a settled one is final and a
      started one is never queued again. */
  ghost predicate RecordsExtend(c: Conv, later: Conv) {
    forall k | k in c.requests ::
      && k in later.requests
      && (c.requests[k].status.Terminal() ==> later.requests[k] == c.requests[k])
      && (!c.requests[k].status.Queued? ==> !later.requests[k].status.Queued?)
  }

  ghost predicate HistoryExtends(w: World, later: World) {
    && w.enqueued <= later.enqueued && w.claimed <= later.claimed
    && w.direct <= later.direct && w.starts <= later.starts
  }

  lemma StepExtends(w: World, e: Event)
    requires Inv(w) && Enabled(w, e)
    ensures RecordsExtend(w.conv, Step(w, e).conv) && HistoryExtends(w, Step(w, e))
  {
    match e {
      case Submit(key, payload, metadata, now) =>
        SubmitExtends(w, e);
      case PersistResult(t, now) =>
        var th := w.threads[t];
        assert th.Owner();
        PersistKeepsOthers(w.conv, th.result.response, th.result.runId, th.result.turnId, now);
      case FinishRun(t, now) =>
        FinishKeeps(w, t, now);
      case ClaimNext(t, now) =>
        ClaimTakesTheOldest(w.conv, now);
      case _ =>
    }
  }

  lemma SubmitExtends(w: World, e: Event)
    requires Inv(w) && e.Submit?
    ensures RecordsExtend(w.conv, Step(w, e).conv) && HistoryExtends(w, Step(w, e))
  {
  }

  /** Histories only grow, and a prompt that completed or failed keeps its
      record for ever. */
  lemma {:induction false} SettledForever(ws: seq<World>, es: seq<Event>, m: nat, n: nat)
    requires Execution(ws, es) && Fresh(ws[0]) && m <= n < |ws|
    ensures RecordsExtend(ws[m].conv, ws[n].conv) && HistoryExtends(ws[m], ws[n])
  {
    if m < n {
      SettledForever(ws, es, m, n - 1);
      ExecutionKeepsInv(ws, es, n - 1);
      assert StepAt(ws, es, n - 1);
      StepExtends(ws[n - 1], es[n - 1]);
      ExtendsTransitively(ws[m], ws[n - 1], ws[n]);
    }
  }

  lemma ExtendsTransitively(a: World, b: World, c: World)
    requires RecordsExtend(a.conv, b.conv) && RecordsExtend(b.conv, c.conv)
    requires HistoryExtends(a, b) && HistoryExtends(b, c)
    ensures RecordsExtend(a.conv, c.conv) && HistoryExtends(a, c)
  {
  }

  function Count(keys: seq<string>, key: string): (n: nat) {
    if keys == [] then 0 else (if keys[0] == key then 1 else 0) + Count(keys[1..], key)
  }

  lemma {:induction false} CountOfDistinct(keys: seq<string>, key: string)
    requires Distinct(keys)
    ensures Count(keys, key) == if key in keys then 1 else 0
  {
    if keys != [] {
      CountOfDistinct(keys[1..], key);
      assert keys == [keys[0]] + keys[1..];
    }
  }

  /** A key submitted once is settled for the rest of the execution: later
      submissions of it start nothing, and Runner.Start sees it at most once. */
  lemma SubmittedOnceStartedOnce(ws: seq<World>, es: seq<Event>, m: nat, n: nat)
    requires Execution(ws, es) && Fresh(ws[0]) && m < n < |es|
    requires es[m].Submit? && es[n].Submit? && es[m].key == es[n].key != ""
    ensures Count(ws[|es|].starts, es[n].key) <= 1
    ensures ws[n + 1] == ws[n].(conv := ws[n].conv.(lastActivity := es[n].now))
    ensures var e := es[n];
      && Known(ws[n].conv, e.key)
      && Prepare(ws[n].conv, e.key, e.payload, e.metadata, e.now).1 ==
           Ok(SessionPreparation(false, if e.key in Keys(ws[n].conv.queue) then 202 else 200,
                                 ws[n].conv.requests[e.key].response.value))
  {
    ExecutionKeepsInv(ws, es, |es|);
    CountOfDistinct(ws[|es|].starts, es[n].key);
    ExecutionKeepsInv(ws, es, m);
    assert StepAt(ws, es, m);
    assert es[m].key in ws[m + 1].conv.requests;
    SettledForever(ws, es, m + 1, n);
    ExecutionKeepsInv(ws, es, n);
    assert StepAt(ws, es, n);
  }

  // ----- Building executions -----

  /** One step from w to next. */
  ghost predicate Steps(w: World, e: Event, next: World) {
    Enabled(w, e) && next == Step(w, e)
  }

  lemma Extend(ws: seq<World>, es: seq<Event>, e: Event, next: World) returns (longer: seq<World>)
    requires Execution(ws, es) && Steps(ws[|es|], e, next)
    ensures Execution(longer, es + [e]) && longer[0] == ws[0]
    ensures longer[|es|] == ws[|es|] && longer[|es| + 1] == next
  {
    longer := ws + [next];
    var events := es + [e];
    forall i | 0 <= i < |events| ensures StepAt(longer, events, i) {
      if i < |es| {
        assert StepAt(ws, es, i);
      }
    }
  }

  /** A prompt is running in its submitter's goroutine and one more waits. */
  ghost predicate OneWaiting(w: World, running: string, waiting: string) {
    && w.threads == [Starting(running, Direct)] && w.conv.activeKey == running
    && w.conv.requests.Keys == {running, waiting}
    && |w.conv.queue| == 1 && w.conv.queue[0].key == waiting
  }

  lemma SecondWaits(w: World, a: string, b: string) returns (w1: World, w2: World)
    requires Fresh(w) && a != b && a != "" && b != ""
    ensures Steps(w, Submit(a, "", None, 0), w1) && Steps(w1, Submit(b, "", None, 0), w2)
    ensures OneWaiting(w2, a, b)
  {
    w1 := Step(w, Submit(a, "", None, 0));
    assert w1.threads == [Starting(a, Direct)] && w1.conv.activeKey == a;
    assert w1.conv.requests.Keys == {a} && w1.conv.queue == [];
    w2 := Step(w1, Submit(b, "", None, 0));
  }

  lemma TwoSubmissions(w: World, a: string, b: string) returns (ws: seq<World>)
    requires Fresh(w) && a != b && a != "" && b != ""
    ensures Execution(ws, [Submit(a, "", None, 0), Submit(b, "", None, 0)]) && ws[0] == w
    ensures OneWaiting(ws[2], a, b)
  {
    var first, second := Submit(a, "", None, 0), Submit(b, "", None, 0);
    var w1, w2 := SecondWaits(w, a, b);
    ws := Extend([w], [], first, w1);
    assert [] + [first] == [first];
    ws := Extend(ws, [first], second, w2);
    assert [first] + [second] == [first, second];
  }
}
