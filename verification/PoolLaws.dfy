/** What each event does to one connection of the pool and to its timer. */
module PoolLaws {
  import opened Wrappers
  import opened ConnectionPool

  // ----- Who is connected -----

  /** The event detaches the connection: it or everybody is closed, its writer
      gave up, or a frame for it finds its buffer full. */
  predicate Detaches(p: Pool, e: Event, config: Config, conn: Conn)
    requires conn in p.clients
  {
    || e == Removes(conn) || e == GivesUp(conn) || e.ClosesAll?
    || (|p.clients[conn].buffer| >= config.sendBuffer && e.Broadcasts? && e.data != "")
    || (|p.clients[conn].buffer| >= config.sendBuffer && e.SendsToOne? && e.conn == conn && e.data != "")
  }

  /** A connection is attached by its own addition alone and detached by exactly
      these events; it is closed exactly when it is not attached any more. */
  lemma ConnectedExactly(p: Pool, e: Event, config: Config, conn: Conn)
    requires Consistent(p) && Enabled(p, e)
    ensures var next := Step(p, e, config);
      && (conn in p.attached ==> (conn in next.attached <==> !Detaches(p, e, config, conn)))
      && (conn !in p.attached ==> (conn in next.attached <==> e == Adds(conn)))
      && (conn in next.clients <==> conn in p.clients || e == Adds(conn))
      && (conn in next.clients ==> (next.clients[conn].closed <==> conn !in next.attached))
  {
  }

  /** Closing everybody leaves nobody connected, nobody open and no timer. */
  lemma CloseAllCloses(p: Pool, config: Config)
    requires Consistent(p)
    ensures var next := Step(p, ClosesAll, config);
      && next.attached == {} && next.idleTimer == None
      && next.clients.Keys == p.clients.Keys
      && (forall c | c in next.clients :: next.clients[c].closed && next.clients[c] == p.clients[c].(closed := true))
  {
  }

  // ----- What reaches the socket -----

  /** What the event writes to the socket. */
  function Wrote(p: Pool, e: Event, conn: Conn): seq<string> {
    if e == Writes(conn, true) && conn in p.clients && p.clients[conn].hand.Some? then [p.clients[conn].hand.value]
    else []
  }

  lemma WritesExactly(p: Pool, e: Event, config: Config, conn: Conn)
    requires Consistent(p) && Enabled(p, e) && conn in p.clients
    ensures var c, next := p.clients[conn], Step(p, e, config).clients[conn];
      && next.written == c.written + Wrote(p, e, conn)
      && (next.stopped <==> c.stopped || e == Writes(conn, false))
      && (c.stopped ==> Wrote(p, e, conn) == [] && next.written == c.written)
      && (e == Takes(conn) ==> next.hand == Some(c.buffer[0]))
  {
  }

  /** A new connection has an empty buffer and a writer at work. While a writer
      has not failed, it can take the next frame or write the one it has; after
      that it can only give up. */
  lemma WriterCanGoOn(p: Pool, config: Config, conn: Conn)
    requires Consistent(p)
    ensures conn !in p.clients ==>
              Enabled(p, Adds(conn)) && Step(p, Adds(conn), config).clients[conn] == Client([], None, [], false, false)
    ensures conn in p.clients ==>
              var c := p.clients[conn];
              && (Enabled(p, Takes(conn)) <==> !c.stopped && c.hand.None? && |c.buffer| > 0)
              && (forall ok :: Enabled(p, Writes(conn, ok)) <==> !c.stopped && c.hand.Some?)
              && (Enabled(p, GivesUp(conn)) <==> c.stopped)
  {
  }

  /** A socket that failed once is written nothing any more. */
  lemma {:induction false} StoppedForGood(ps: seq<Pool>, es: seq<Event>, config: Config, conn: Conn, k: nat, n: nat)
    requires Execution(ps, es, config) && k <= n <= |es|
    requires conn in ps[k].clients && ps[k].clients[conn].stopped
    ensures conn in ps[n].clients && ps[n].clients[conn].stopped
    ensures ps[n].clients[conn].written == ps[k].clients[conn].written
  {
    if k < n {
      StoppedForGood(ps, es, config, conn, k, n - 1);
      UnheardBeforeAdd(ps, es, config, conn, n - 1);
      assert StepAt(ps, es, config, n - 1);
      ConnectedExactly(ps[n - 1], es[n - 1], config, conn);
      WritesExactly(ps[n - 1], es[n - 1], config, conn);
    }
  }

  // ----- The timer -----

  /** A running timer may go off at any time, one that did may take its turn, and
      one that decided may call back, whoever is connected by then; calls of the
      pool are always possible. */
  lemma TimersCanGoOn(p: Pool, timer: nat, conn: Conn, data: string)
    ensures Enabled(p, Fires(timer)) <==> timer in p.running
    ensures Enabled(p, Triggers(timer)) <==> timer in p.fired
    ensures Enabled(p, Calls(timer)) <==> timer in p.decided
    ensures Enabled(p, Removes(conn)) && Enabled(p, Broadcasts(data)) && Enabled(p, SendsToOne(conn, data))
    ensures Enabled(p, ClosesAll) && Enabled(p, CancelsTimer)
  {
  }

  /** A callback is owed from the timer's turn, if nobody is connected then, until
      it is made once. */
  lemma CallbackOwedExactly(p: Pool, e: Event, config: Config, timer: nat)
    requires Enabled(p, e)
    ensures timer in Step(p, e, config).decided <==>
              if timer in p.decided then e != Calls(timer) else e == Triggers(timer) && p.attached == {}
  {
  }

  /** The event ends with nobody connected and starts the timer anew. */
  predicate Rearms(p: Pool, e: Event, config: Config) {
    && Enabled(p, e) && Step(p, e, config).attached == {} && !e.ClosesAll?
    && (p.attached != {} || e.Removes?)
  }

  /** The event stops the timer for good. */
  predicate Disarms(p: Pool, e: Event) {
    e.ClosesAll? || e.CancelsTimer? || (e.Adds? && e.conn !in p.attached)
  }

  /** Losing the last connection arms a new timer, if one is configured;
      connecting, closing all and cancelling stop it; its turn forgets it; no
      other event touches it. */
  lemma TimerExactly(p: Pool, e: Event, config: Config)
    requires Consistent(p) && Enabled(p, e)
    ensures var next := Step(p, e, config);
      && (Rearms(p, e, config) ==>
            if config.idle then
              && next.idleTimer == Some(p.timersMade) && p.timersMade in next.running
              && next.timersMade == p.timersMade + 1
            else next.idleTimer == None && next.timersMade == p.timersMade)
      && (Rearms(p, e, config) || Disarms(p, e) ==>
            && (Disarms(p, e) ==> next.idleTimer == None)
            && (p.idleTimer.Some? && p.idleTimer.value != p.timersMade ==> p.idleTimer.value !in next.running))
      && (!Rearms(p, e, config) && !Disarms(p, e) ==>
            && next.idleTimer == (if e.Triggers? then None else p.idleTimer)
            && next.running == (if e.Fires? then p.running - {e.timer} else p.running)
            && next.timersMade == p.timersMade)
      && next.fired == (if e.Fires? then p.fired + {e.timer} else if e.Triggers? then p.fired - {e.timer} else p.fired)
  {
  }
}
