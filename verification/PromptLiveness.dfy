/** Which prompts of the protocol are stranded, and that all others settle. */
module PromptLiveness {
  import opened Wrappers
  import opened SendQueue
  import opened ChatService
  import opened PromptProtocol

  ghost predicate AllGone(w: World) {
    forall i | 0 <= i < |w.threads| :: w.threads[i].Gone?
  }

  /** Waiting prompts have someone to take them. */
  ghost predicate Attended(w: World) {
    || w.conv.queue == []
    || w.conv.activeKey != ""
    || exists i :: 0 <= i < |w.threads| && w.threads[i].Draining?
  }

  /** Runner.Start refuses a prompt in its submitter's own goroutine. */
  predicate DirectStartFails(w: World, e: Event) {
    && e.StartReturns? && !e.outcome.Started?
    && e.t < |w.threads| && w.threads[e.t].Starting? && w.threads[e.t].origin.Direct?
  }

  /** The one step that leaves waiting prompts unattended: a submitter whose
      own start failed finishes behind a queue that nobody is draining. */
  ghost predicate Strands(w: World, e: Event) {
    && e.FinishRun? && e.t < |w.threads|
    && w.threads[e.t].Failing? && w.threads[e.t].origin.Direct?
    && w.conv.queue != []
    && !exists i :: 0 <= i < |w.threads| && w.threads[i].Draining?
  }

  lemma StrandedExactlyByDirectFailure(w: World, e: Event)
    requires Inv(w) && Attended(w) && Enabled(w, e)
    ensures !Attended(Step(w, e)) <==> Strands(w, e)
  {
    var next := Step(w, e);
    match e {
      case Submit(key, payload, metadata, now) =>
        if i :| 0 <= i < |w.threads| && w.threads[i].Draining? {
          assert next.threads[i].Draining?;
        }
      case StartReturns(t, outcome) =>
        assert w.threads[t].Owner();
      case PersistResult(t, now) =>
        assert w.threads[t].Owner();
      case WaitReturns(t, error) =>
        assert w.threads[t].Owner();
      case FinishRun(t, now) =>
        assert w.threads[t].Owner();
        if w.threads[t].Finishing? || w.threads[t].origin.Drained? {
          assert next.threads[t].Draining?;
        } else if i :| 0 <= i < |w.threads| && w.threads[i].Draining? {
          assert next.threads[i].Draining?;
        } else {
          assert forall i | 0 <= i < |next.threads| :: !next.threads[i].Draining?;
        }
      case ClaimNext(t, now) =>
        ClaimTakesTheOldest(w.conv, now);
        if w.conv.activeKey == "" && w.conv.queue != [] {
          assert w.conv.queue[0].key in Keys(w.conv.queue);
        }
    }
  }

  /** Throughout an execution waiting prompts have a run ahead of them or a
      drain about to claim them, exactly when no step strands them. */
  lemma {:induction false} AttendedExactly(ws: seq<World>, es: seq<Event>, n: nat)
    requires Execution(ws, es) && Fresh(ws[0]) && n < |ws|
    ensures (forall i | 0 <= i <= n :: Attended(ws[i])) <==> (forall i | 0 <= i < n :: !Strands(ws[i], es[i]))
  {
    if n > 0 {
      AttendedExactly(ws, es, n - 1);
      ExecutionKeepsInv(ws, es, n - 1);
      assert StepAt(ws, es, n - 1);
      if Attended(ws[n - 1]) {
        StrandedExactlyByDirectFailure(ws[n - 1], es[n - 1]);
      }
    }
  }

  /** A stranded queue waits for the next submission: nothing else can happen,
      and a submission puts a run ahead of the queue exactly when its key is
      new. */
  lemma StrandedUntilNewSubmission(w: World, e: Event)
    requires Inv(w) && !Attended(w) && Enabled(w, e)
    ensures e.Submit?
    ensures Attended(Step(w, e)) <==> e.key != "" && e.key !in w.conv.requests
  {
    assert AllGone(w) by {
      assert forall i | 0 <= i < |w.threads| :: !w.threads[i].Owner() && !w.threads[i].Draining?;
    }
    var next := Step(w, e);
    if e.key != "" && e.key !in w.conv.requests {
      AdmissionIsExclusive(w.conv, e.key, e.payload, e.metadata, e.now);
    } else {
      assert next.threads == w.threads && next.conv.activeKey == "" && next.conv.queue == w.conv.queue;
    }
  }

  /** In an execution where no submitter's own start fails, a waiting prompt
      always has a run ahead of it or a drain about to claim it. */
  lemma {:induction false} NoStrandedPrompts(ws: seq<World>, es: seq<Event>, n: nat)
    requires Execution(ws, es) && Fresh(ws[0]) && n < |ws|
    requires forall i | 0 <= i < n :: !DirectStartFails(ws[i], es[i])
    ensures Attended(ws[n])
    ensures forall i | 0 <= i < |ws[n].threads| && ws[n].threads[i].Failing? ::
              ws[n].threads[i].origin.Drained?
  {
    if n > 0 {
      NoStrandedPrompts(ws, es, n - 1);
      ExecutionKeepsInv(ws, es, n - 1);
      assert StepAt(ws, es, n - 1);
      StrandedExactlyByDirectFailure(ws[n - 1], es[n - 1]);
    }
  }

  // ----- Every prompt settles -----

  function TotalWeight(threads: seq<Thread>): (n: nat) {
    if threads == [] then 0 else threads[0].Weight() + TotalWeight(threads[1..])
  }

  /** Work left: goroutine steps, plus a whole life for each waiting prompt. */
  function Work(w: World): nat {
    TotalWeight(w.threads) + 5 * |w.conv.queue|
  }

  lemma {:induction false} WeightOfUpdate(threads: seq<Thread>, t: nat, th: Thread)
    requires t < |threads|
    ensures TotalWeight(threads[t := th]) == TotalWeight(threads) - threads[t].Weight() + th.Weight()
  {
    if t == 0 {
      assert threads[t := th][1..] == threads[1..];
    } else {
      assert threads[t := th][1..] == threads[1..][t - 1 := th];
      WeightOfUpdate(threads[1..], t - 1, th);
    }
  }

  lemma {:induction false} WeightOfZero(threads: seq<Thread>)
    requires TotalWeight(threads) == 0
    ensures forall i | 0 <= i < |threads| :: threads[i].Gone?
  {
    if threads != [] {
      assert threads[0].Gone?;
      WeightOfZero(threads[1..]);
      forall i | 0 <= i < |threads| ensures threads[i].Gone? {
        if i > 0 {
          assert threads[i] == threads[1..][i - 1];
        }
      }
    }
  }

  lemma StepUsesWork(w: World, e: Event)
    requires Inv(w) && Enabled(w, e) && !e.Submit?
    ensures Work(Step(w, e)) < Work(w)
  {
    var next := Step(w, e);
    WeightOfUpdate(w.threads, e.t, next.threads[e.t]);
    match e {
      case ClaimNext(t, now) =>
        ClaimTakesTheOldest(w.conv, now);
      case _ =>
    }
  }

  /** Once submissions stop, the goroutines take at most Work further steps. */
  lemma {:induction false} QuietRunsEnd(ws: seq<World>, es: seq<Event>, m: nat, n: nat)
    requires Execution(ws, es) && Fresh(ws[0]) && m <= n < |ws|
    requires forall i | m <= i < n :: !es[i].Submit?
    ensures Work(ws[n]) + (n - m) <= Work(ws[m])
  {
    if m < n {
      QuietRunsEnd(ws, es, m, n - 1);
      ExecutionKeepsInv(ws, es, n - 1);
      assert StepAt(ws, es, n - 1);
      StepUsesWork(ws[n - 1], es[n - 1]);
    }
  }

  /** Some goroutine can always move until all have gone. */
  lemma NeverStuck(w: World)
    requires Inv(w) && exists i :: 0 <= i < |w.threads| && !w.threads[i].Gone?
    ensures exists e: Event :: !e.Submit? && Enabled(w, e)
  {
    var t: nat :| t < |w.threads| && !w.threads[t].Gone?;
    var e := match w.threads[t]
             case Starting(_, _) => StartReturns(t, Started(StartResult(None, "", "")))
             case Failing(_, _, _) => FinishRun(t, 0)
             case Persisting(_, _) => PersistResult(t, 0)
             case Waiting(_, _) => WaitReturns(t, None)
             case Finishing(_, _, _) => FinishRun(t, 0)
             case Draining => ClaimNext(t, 0)
             case Gone => ClaimNext(t, 0);
    assert Enabled(w, e);
  }

  /** No work is left exactly when every goroutine has gone and the queue is
      empty. */
  lemma NoWorkLeft(w: World)
    ensures Work(w) == 0 <==> w.conv.queue == [] && AllGone(w)
  {
    if TotalWeight(w.threads) == 0 {
      WeightOfZero(w.threads);
    }
    if AllGone(w) {
      WeightOfGone(w.threads);
    }
  }

  lemma {:induction false} WeightOfGone(threads: seq<Thread>)
    requires forall i | 0 <= i < |threads| :: threads[i].Gone?
    ensures TotalWeight(threads) == 0
  {
    if threads != [] {
      WeightOfGone(threads[1..]);
    }
  }

  /** Every prompt ever admitted has completed or failed. */
  ghost predicate AllSettled(w: World) {
    && w.conv.queue == [] && w.conv.activeKey == "" && w.claimed == w.enqueued
    && forall k | k in w.direct || k in Keys(w.enqueued) ::
         k in w.conv.requests && w.conv.requests[k].status.Terminal()
  }

  /** Once every goroutine has gone, every prompt has settled exactly when none
      was stranded. */
  lemma SettledExactlyIfAttended(w: World)
    requires Inv(w) && AllGone(w)
    ensures AllSettled(w) <==> Attended(w)
  {
    assert w.conv.activeKey == "";
    if Attended(w) {
      assert w.conv.queue == [];
      assert w.claimed == w.enqueued;
      forall k | k in w.conv.requests ensures w.conv.requests[k].status.Terminal() {
        assert !w.conv.requests[k].status.Queued? && !w.conv.requests[k].status.Running?;
      }
    }
  }

  /** When every goroutine has gone and no submitter's own start failed, every
      prompt ever admitted has completed or failed and the queue is empty. */
  lemma EveryPromptSettles(ws: seq<World>, es: seq<Event>, n: nat)
    requires Execution(ws, es) && Fresh(ws[0]) && n < |ws|
    requires forall i | 0 <= i < n :: !DirectStartFails(ws[i], es[i])
    requires AllGone(ws[n])
    ensures AllSettled(ws[n])
  {
    ExecutionKeepsInv(ws, es, n);
    NoStrandedPrompts(ws, es, n);
    SettledExactlyIfAttended(ws[n]);
  }

  /** After as many steps without a submission as there was work, everything has
      settled. */
  lemma QuietRunsSettle(ws: seq<World>, es: seq<Event>, m: nat, n: nat)
    requires Execution(ws, es) && Fresh(ws[0]) && m <= n < |ws|
    requires forall i | m <= i < n :: !es[i].Submit?
    requires forall i | 0 <= i < n :: !DirectStartFails(ws[i], es[i])
    requires n - m >= Work(ws[m])
    ensures AllGone(ws[n]) && AllSettled(ws[n])
  {
    QuietRunsEnd(ws, es, m, n);
    NoWorkLeft(ws[n]);
    EveryPromptSettles(ws, es, n);
  }

  // ----- A stranded prompt -----

  lemma RefusedDirectly(w: World, a: string, b: string) returns (w1: World, w2: World)
    requires OneWaiting(w, a, b)
    ensures Steps(w, StartReturns(0, NotStarted("refused")), w1) && Steps(w1, FinishRun(0, 0), w2)
    ensures w2.threads == [Gone] && w2.conv.activeKey == "" && w2.conv.queue == w.conv.queue
  {
    w1 := Step(w, StartReturns(0, NotStarted("refused")));
    assert w1.threads == [Failing(a, Direct, "refused")];
    w2 := Step(w1, FinishRun(0, 0));
  }

  /** A submitter whose start fails leaves the prompt queued behind it with
      nobody to claim it. */
  lemma DirectFailureStrands(w: World) returns (ws: seq<World>, es: seq<Event>)
    requires Fresh(w)
    ensures Execution(ws, es) && ws[0] == w
    ensures var end := ws[|es|];
      !Attended(end) && AllGone(end) && |end.conv.queue| == 1 && end.conv.queue[0].key == "b"
  {
    var refused := StartReturns(0, NotStarted("refused"));
    ws := TwoSubmissions(w, "a", "b");
    es := [Submit("a", "", None, 0), Submit("b", "", None, 0)];
    var w3, w4 := RefusedDirectly(ws[2], "a", "b");
    ws := Extend(ws, es, refused, w3);
    es := es + [refused];
    ws := Extend(ws, es, FinishRun(0, 0), w4);
    es := es + [FinishRun(0, 0)];
  }
}
