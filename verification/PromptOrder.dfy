/** In which order prompts run: in the order of their admission, exactly as
    long as no submission overtakes a waiting prompt. */
module PromptOrder {
  import opened Wrappers
  import opened SendQueue
  import opened ChatService
  import opened PromptProtocol

  /** A new prompt is submitted while nothing runs but others wait: between a
      finish and its drain, or behind a stranded queue. */
  predicate Overtakes(w: World, e: Event) {
    && e.Submit? && e.key != "" && e.key !in w.conv.requests
    && w.conv.activeKey == "" && w.conv.queue != []
  }

  /** The key that gets a record in a step. */
  function AdmittedBy(w: World, e: Event, next: World): seq<string> {
    if e.Submit? && e.key !in w.conv.requests && e.key in next.conv.requests then [e.key] else []
  }

  /** The key that becomes the running one in a step. */
  function RanBy(w: World, next: World): seq<string> {
    if next.conv.activeKey != "" && next.conv.activeKey != w.conv.activeKey then [next.conv.activeKey] else []
  }

  /** Keys in the order of their admission during the first n steps. */
  function Admitted(ws: seq<World>, es: seq<Event>, n: nat): seq<string>
    requires n <= |es| && |ws| == |es| + 1
  {
    if n == 0 then [] else Admitted(ws, es, n - 1) + AdmittedBy(ws[n - 1], es[n - 1], ws[n])
  }

  /** Keys in the order in which they became the running one. */
  function Ran(ws: seq<World>, es: seq<Event>, n: nat): seq<string>
    requires n <= |es| && |ws| == |es| + 1
  {
    if n == 0 then [] else Ran(ws, es, n - 1) + RanBy(ws[n - 1], ws[n])
  }

  function KeysOf(queue: seq<QueuedChat>): seq<string> {
    seq(|queue|, i requires 0 <= i < |queue| => queue[i].key)
  }

  lemma SubmitInOrder(w: World, e: Event)
    requires Inv(w) && e.Submit? && !Overtakes(w, e)
    ensures var next := Step(w, e);
      RanBy(w, next) + KeysOf(next.conv.queue) == KeysOf(w.conv.queue) + AdmittedBy(w, e, next)
  {
    var next := Step(w, e);
    if e.key != "" && e.key !in w.conv.requests {
      AdmissionIsExclusive(w.conv, e.key, e.payload, e.metadata, e.now);
      if w.conv.activeKey == "" {
        assert KeysOf(w.conv.queue) == [] && KeysOf(next.conv.queue) == [];
      } else {
        assert KeysOf(next.conv.queue) == KeysOf(w.conv.queue) + [e.key];
      }
    }
  }

  lemma ClaimInOrder(w: World, t: nat, now: int)
    requires Inv(w) && Enabled(w, ClaimNext(t, now))
    ensures var next := Step(w, ClaimNext(t, now));
      RanBy(w, next) + KeysOf(next.conv.queue) == KeysOf(w.conv.queue)
  {
    var next := Step(w, ClaimNext(t, now));
    ClaimTakesTheOldest(w.conv, now);
    if w.conv.activeKey == "" && w.conv.queue != [] {
      assert w.conv.queue[0].key in w.conv.requests;
      assert KeysOf(w.conv.queue) == [w.conv.queue[0].key] + KeysOf(next.conv.queue);
    }
  }

  /** A step that overtakes nothing runs the prompts that waited first. */
  lemma StepInOrder(w: World, e: Event)
    requires Inv(w) && Enabled(w, e) && !Overtakes(w, e)
    ensures var next := Step(w, e);
      RanBy(w, next) + KeysOf(next.conv.queue) == KeysOf(w.conv.queue) + AdmittedBy(w, e, next)
  {
    var next := Step(w, e);
    match e {
      case Submit(_, _, _, _) =>
        SubmitInOrder(w, e);
      case PersistResult(t, now) =>
        var th := w.threads[t];
        assert th.Owner();
        PersistKeepsOthers(w.conv, th.result.response, th.result.runId, th.result.turnId, now);
      case FinishRun(t, now) =>
        FinishKeeps(w, t, now);
      case ClaimNext(t, now) =>
        ClaimInOrder(w, t, now);
      case _ =>
    }
  }

  /** Until the first overtaking, the keys that ran and then those that wait are
      the keys admitted. */
  lemma {:induction false} InOrderUntilOvertaken(ws: seq<World>, es: seq<Event>, n: nat)
    requires Execution(ws, es) && Fresh(ws[0]) && n < |ws|
    requires forall i | 0 <= i < n :: !Overtakes(ws[i], es[i])
    ensures Ran(ws, es, n) + KeysOf(ws[n].conv.queue) == Admitted(ws, es, n)
  {
    if n == 0 {
      assert KeysOf(ws[0].conv.queue) == [];
    } else {
      var w, e, next := ws[n - 1], es[n - 1], ws[n];
      InOrderUntilOvertaken(ws, es, n - 1);
      ExecutionKeepsInv(ws, es, n - 1);
      assert StepAt(ws, es, n - 1);
      StepInOrder(w, e);
      Regroup(Ran(ws, es, n - 1), RanBy(w, next), KeysOf(next.conv.queue), KeysOf(w.conv.queue), AdmittedBy(w, e, next));
    }
  }

  lemma Regroup(ran: seq<string>, runs: seq<string>, after: seq<string>, before: seq<string>, admits: seq<string>)
    requires runs + after == before + admits
    ensures ran + runs + after == ran + before + admits
  {
    assert ran + runs + after == ran + (runs + after);
    assert ran + before + admits == ran + (before + admits);
  }

  lemma {:induction false} OrdersGrow(ws: seq<World>, es: seq<Event>, m: nat, n: nat)
    requires |ws| == |es| + 1 && m <= n <= |es|
    ensures Ran(ws, es, m) <= Ran(ws, es, n) && Admitted(ws, es, m) <= Admitted(ws, es, n)
  {
    if m < n {
      OrdersGrow(ws, es, m, n - 1);
    }
  }

  /** An overtaking puts another key where the oldest waiting one belongs. */
  lemma OvertakingDiffers(w: World, e: Event, ran: seq<string>, admitted: seq<string>)
    requires Inv(w) && Overtakes(w, e) && ran + KeysOf(w.conv.queue) == admitted
    ensures |ran| < |admitted| && admitted[|ran|] == w.conv.queue[0].key
    ensures RanBy(w, Step(w, e)) == [e.key] && e.key != w.conv.queue[0].key
  {
    AdmissionIsExclusive(w.conv, e.key, e.payload, e.metadata, e.now);
    assert w.conv.queue[0].key in Keys(w.conv.queue);
    assert KeysOf(w.conv.queue)[0] == w.conv.queue[0].key;
  }

  lemma OvertakenAt(ws: seq<World>, es: seq<Event>, i: nat)
    requires Execution(ws, es) && Fresh(ws[0]) && i < |es|
    requires Overtakes(ws[i], es[i]) && forall j | 0 <= j < i :: !Overtakes(ws[j], es[j])
    ensures var at := |Ran(ws, es, i)|;
      && at < |Ran(ws, es, i + 1)| && at < |Admitted(ws, es, i)|
      && Ran(ws, es, i + 1)[at] != Admitted(ws, es, i)[at]
  {
    ExecutionKeepsInv(ws, es, i);
    InOrderUntilOvertaken(ws, es, i);
    assert StepAt(ws, es, i);
    var ran := Ran(ws, es, i);
    OvertakingDiffers(ws[i], es[i], ran, Admitted(ws, es, i));
    assert Ran(ws, es, i + 1) == ran + [es[i].key];
  }

  lemma OvertakenForEver(ws: seq<World>, es: seq<Event>, i: nat, n: nat)
    requires Execution(ws, es) && Fresh(ws[0]) && i < n < |ws|
    requires Overtakes(ws[i], es[i]) && forall j | 0 <= j < i :: !Overtakes(ws[j], es[j])
    ensures !(Ran(ws, es, n) <= Admitted(ws, es, n))
  {
    OvertakenAt(ws, es, i);
    OrdersGrow(ws, es, i + 1, n);
    OrdersGrow(ws, es, i, n);
    DifferAt(Ran(ws, es, i + 1), Ran(ws, es, n), Admitted(ws, es, i), Admitted(ws, es, n), |Ran(ws, es, i)|);
  }

  lemma DifferAt(ran: seq<string>, ranLater: seq<string>, admitted: seq<string>, admittedLater: seq<string>, at: nat)
    requires ran <= ranLater && admitted <= admittedLater
    requires at < |ran| && at < |admitted| && ran[at] != admitted[at]
    ensures !(ranLater <= admittedLater)
  {
    assert ranLater[at] == ran[at] && admittedLater[at] == admitted[at];
  }

  lemma {:induction false} FirstOvertaking(ws: seq<World>, es: seq<Event>, n: nat) returns (i: nat)
    requires n <= |es| && |ws| == |es| + 1
    requires exists j :: 0 <= j < n && Overtakes(ws[j], es[j])
    ensures i < n && Overtakes(ws[i], es[i]) && forall j | 0 <= j < i :: !Overtakes(ws[j], es[j])
  {
    if exists j :: 0 <= j < n - 1 && Overtakes(ws[j], es[j]) {
      i := FirstOvertaking(ws, es, n - 1);
    } else {
      i := n - 1;
    }
  }

  /** At any moment of any execution, prompts have run in the order of their
      admission exactly when no submission has overtaken a waiting prompt. */
  lemma OrderKeptExactly(ws: seq<World>, es: seq<Event>, n: nat)
    requires Execution(ws, es) && Fresh(ws[0]) && n < |ws|
    ensures Ran(ws, es, n) <= Admitted(ws, es, n) <==> forall i | 0 <= i < n :: !Overtakes(ws[i], es[i])
  {
    if forall i | 0 <= i < n :: !Overtakes(ws[i], es[i]) {
      InOrderUntilOvertaken(ws, es, n);
    } else {
      var i := FirstOvertaking(ws, es, n);
      OvertakenForEver(ws, es, i, n);
    }
  }

  // ----- A prompt that is overtaken -----

  lemma SubmitBetween(w: World, key: string) returns (next: World)
    requires w.conv.activeKey == "" && key != "" && key !in w.conv.requests
    ensures Steps(w, Submit(key, "", None, 0), next)
    ensures next.conv.activeKey == key && next.conv.queue == w.conv.queue
  {
    next := Step(w, Submit(key, "", None, 0));
  }

  lemma RunToDrain(w: World, key: string)
    returns (result: StartResult, w1: World, w2: World, w3: World, w4: World)
    requires w.threads == [Starting(key, Direct)] && w.conv.activeKey == key && key in w.conv.requests
    requires key != ""
    ensures Steps(w, StartReturns(0, Started(result)), w1) && Steps(w1, PersistResult(0, 0), w2)
    ensures Steps(w2, WaitReturns(0, None), w3) && Steps(w3, FinishRun(0, 0), w4)
    ensures w4.threads == [Draining] && w4.conv.activeKey == ""
    ensures w4.conv.queue == w.conv.queue && w4.conv.requests.Keys == w.conv.requests.Keys
  {
    result := StartResult(None, "r", "t");
    w1 := Step(w, StartReturns(0, Started(result)));
    assert w1.threads == [Persisting(key, result)];
    w2 := Step(w1, PersistResult(0, 0));
    assert w2.threads == [Waiting(key, result)];
    w3 := Step(w2, WaitReturns(0, None));
    assert w3.threads == [Finishing(key, result, None)];
    w4 := Step(w3, FinishRun(0, 0));
  }

  /** Between a finish and its drain, a new prompt overtakes a queued one. */
  lemma FreshSubmissionOvertakes(w: World) returns (ws: seq<World>, es: seq<Event>)
    requires Fresh(w)
    ensures Execution(ws, es) && ws[0] == w && |es| == 7
    ensures Overtakes(ws[6], es[6]) && ws[7].conv.activeKey == "c"
    ensures |ws[7].conv.queue| == 1 && ws[7].conv.queue[0].key == "b"
  {
    ws := TwoSubmissions(w, "a", "b");
    es := [Submit("a", "", None, 0), Submit("b", "", None, 0)];
    var result, w3, w4, w5, w6 := RunToDrain(ws[2], "a");
    var queue := ws[2].conv.queue;
    assert w6.conv.queue == queue && w6.conv.requests.Keys == {"a", "b"};
    ws := Extend(ws, es, StartReturns(0, Started(result)), w3);
    es := es + [StartReturns(0, Started(result))];
    ws := Extend(ws, es, PersistResult(0, 0), w4);
    es := es + [PersistResult(0, 0)];
    ws := Extend(ws, es, WaitReturns(0, None), w5);
    es := es + [WaitReturns(0, None)];
    ws := Extend(ws, es, FinishRun(0, 0), w6);
    es := es + [FinishRun(0, 0)];
    var w7 := SubmitBetween(w6, "c");
    var last := Submit("c", "", None, 0);
    ws := Extend(ws, es, last, w7);
    es := es + [last];
  }
}
