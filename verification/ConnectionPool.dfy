/** The websocket connections of a conversation: one bounded buffer and one
    writer goroutine per connection, and a timer that runs while nobody is
    connected. */
module ConnectionPool {
  import opened Wrappers

  type Conn = nat

  /** A poolClient and its writer: what waits in the channel, the frame taken
      out of it, and what reached the socket. A stopped writer failed to write
      the frame in its hand. */
  datatype Client = Client(
    buffer: seq<string>, hand: Option<string>, written: seq<string>,
    stopped: bool, closed: bool)
  {
    /** Everything that went into the channel, in order. */
    function Flow(): seq<string> {
      written + (if hand.Some? then [hand.value] else []) + buffer
    }
  }

  const JOINED := Client([], None, [], false, false)

  /** The pool: every client ever added, the attached ones, and the timers that
      can still go off, have gone off, or have decided under the lock to call
      back and not done so yet. */
  datatype Pool = Pool(
    clients: map<Conn, Client>, attached: set<Conn>,
    idleTimer: Option<nat>, running: set<nat>, fired: set<nat>, decided: set<nat>, timersMade: nat)

  const EMPTY := Pool(map[], {}, None, {}, {}, {}, 0)

  /** idle says whether a timeout and a callback are configured. */
  datatype Config = Config(sendBuffer: nat, idle: bool)

  function StopIdle(p: Pool): Pool {
    if p.idleTimer.None? then p
    else p.(idleTimer := None, running := p.running - {p.idleTimer.value})
  }

  function ScheduleIdle(p: Pool, config: Config): Pool {
    var q := StopIdle(p);
    if p.attached != {} || !config.idle then q
    else q.(idleTimer := Some(q.timersMade), running := q.running + {q.timersMade}, timersMade := q.timersMade + 1)
  }

  function Closed(p: Pool, conn: Conn): Pool {
    if conn in p.clients then p.(clients := p.clients[conn := p.clients[conn].(closed := true)]) else p
  }

  function Dropped(p: Pool, conn: Conn, config: Config): Pool {
    var q := if conn in p.attached then ScheduleIdle(p.(attached := p.attached - {conn}), config) else p;
    Closed(q, conn)
  }

  /** TrySend, or drop the connection whose buffer is full. */
  function Sent(p: Pool, conn: Conn, data: string, config: Config): Pool {
    if data == "" || conn !in p.attached || conn !in p.clients then p
    else if |p.clients[conn].buffer| < config.sendBuffer then
      p.(clients := p.clients[conn := p.clients[conn].(buffer := p.clients[conn].buffer + [data])])
    else Dropped(p, conn, config)
  }

  predicate Full(p: Pool, conn: Conn, config: Config) {
    conn in p.clients && |p.clients[conn].buffer| >= config.sendBuffer
  }

  /** A client after a broadcast it was attached for. */
  function Reached(c: Client, data: string, config: Config): Client {
    if |c.buffer| < config.sendBuffer then c.(buffer := c.buffer + [data]) else c.(closed := true)
  }

  /** Every attached client gets the frame or, if full, is dropped. */
  function Broadcasted(p: Pool, data: string, config: Config): Pool {
    if data == "" then p
    else
      var full := set c | c in p.attached && Full(p, c, config);
      var q := p.(
        clients := map c | c in p.clients :: if c in p.attached then Reached(p.clients[c], data, config)
                                             else p.clients[c],
        attached := p.attached - full);
      if full == {} then q else ScheduleIdle(q, config)
  }

  function ClosedClient(c: Client): Client {
    c.(closed := true)
  }

  /** Clients with those of some connections closed. */
  function ClosedAmong(clients: map<Conn, Client>, conns: set<Conn>): map<Conn, Client> {
    map c | c in clients :: if c in conns then ClosedClient(clients[c]) else clients[c]
  }

  function AllClosed(p: Pool): Pool {
    StopIdle(p.(attached := {}, clients := ClosedAmong(p.clients, p.attached)))
  }

  lemma ClosedOneMore(clients: map<Conn, Client>, conns: set<Conn>, conn: Conn)
    requires conn in clients && conn !in conns
    ensures var closed := ClosedAmong(clients, conns);
      closed[conn := ClosedClient(closed[conn])] == ClosedAmong(clients, conns + {conn})
  {
  }

  /** What triggerIdle does under the lock. */
  function Triggered(p: Pool, timer: nat): Pool {
    p.(fired := p.fired - {timer}, idleTimer := None,
       decided := if p.attached == {} then p.decided + {timer} else p.decided)
  }

  ghost predicate Consistent(p: Pool) {
    && p.attached <= p.clients.Keys
    && (p.idleTimer.Some? ==> p.attached == {})
    && (forall c | c in p.clients :: c in p.attached <==> !p.clients[c].closed)
  }

  class WsPool {
    const config: Config
    var clients: map<Conn, Client>
    var attached: set<Conn>
    var idleTimer: Option<nat>
    var running: set<nat>
    var fired: set<nat>
    var decided: set<nat>
    var timersMade: nat

    constructor (config: Config)
      ensures this.config == config && View() == EMPTY
    {
      this.config := config;
      clients, attached, idleTimer := map[], {}, None;
      running, fired, decided, timersMade := {}, {}, {}, 0;
    }

    function View(): Pool
      reads this
    {
      Pool(clients, attached, idleTimer, running, fired, decided, timersMade)
    }

    method StopIdleTimer()
      modifies this`idleTimer, this`running
      ensures View() == StopIdle(old(View()))
    {
      if idleTimer.Some? {
        running := running - {idleTimer.value};
        idleTimer := None;
      }
    }

    method ScheduleIdleTimer()
      modifies this`idleTimer, this`running, this`timersMade
      ensures View() == ScheduleIdle(old(View()), config)
    {
      StopIdleTimer();
      if attached != {} || !config.idle {
        return;
      }
      idleTimer := Some(timersMade);
      running := running + {timersMade};
      timersMade := timersMade + 1;
    }

    method Add(conn: Conn)
      modifies this
      ensures View() == if conn in old(attached) then old(View())
                        else StopIdle(old(View()).(clients := old(clients)[conn := JOINED],
                                                   attached := old(attached) + {conn}))
    {
      if conn in attached {
        return;
      }
      clients, attached := clients[conn := JOINED], attached + {conn};
      StopIdleTimer();
    }

    method CloseClient(conn: Conn)
      modifies this`clients
      ensures View() == Closed(old(View()), conn)
    {
      if conn in clients {
        clients := clients[conn := clients[conn].(closed := true)];
      }
    }

    method Remove(conn: Conn)
      modifies this
      ensures var p := ScheduleIdle(old(View()).(attached := old(attached) - {conn}), config);
        View() == if conn in old(attached) then Closed(p, conn) else p
    {
      var found := conn in attached;
      attached := attached - {conn};
      ScheduleIdleTimer();
      if found {
        CloseClient(conn);
      }
    }

    method DropClient(conn: Conn)
      modifies this
      ensures View() == Dropped(old(View()), conn, config)
    {
      if conn in attached {
        attached := attached - {conn};
        ScheduleIdleTimer();
      }
      CloseClient(conn);
    }

    method SendToOne(conn: Conn, data: string)
      requires Consistent(View())
      modifies this
      ensures View() == Sent(old(View()), conn, data, config)
    {
      if data == "" || conn !in attached {
        return;
      }
      var client := clients[conn];
      if |client.buffer| < config.sendBuffer {
        clients := clients[conn := client.(buffer := client.buffer + [data])];
      } else {
        DropClient(conn);
      }
    }

    /** The loop over the clients that were attached at its start. */
    method Broadcast(data: string)
      requires Consistent(View())
      modifies this
      ensures View() == Broadcasted(old(View()), data, config)
    {
      if data == "" {
        return;
      }
      ghost var before := View();
      var rest := attached;
      while rest != {}
        invariant rest <= before.attached
        invariant Midway(before, View(), data, config, rest)
        decreases |rest|
      {
        var conn :| conn in rest;
        label L:
        var client := clients[conn];
        if |client.buffer| < config.sendBuffer {
          clients := clients[conn := client.(buffer := client.buffer + [data])];
        } else {
          DropClient(conn);
        }
        MidwayStep(before, old@L(View()), View(), data, config, rest, conn);
        rest := rest - {conn};
      }
      MidwayEnd(before, View(), data, config);
    }

    method CloseEach(conns: set<Conn>)
      requires conns <= clients.Keys
      modifies this`clients
      ensures clients == ClosedAmong(old(clients), conns)
    {
      ghost var before := clients;
      var rest := conns;
      assert conns - rest == {};
      while rest != {}
        invariant rest <= conns
        invariant clients == ClosedAmong(before, conns - rest)
        decreases |rest|
      {
        var conn :| conn in rest;
        ClosedOneMore(before, conns - rest, conn);
        assert conns - rest + {conn} == conns - (rest - {conn});
        CloseClient(conn);
        rest := rest - {conn};
      }
      assert conns - rest == conns;
    }

    method CloseAll()
      requires Consistent(View())
      modifies this
      ensures View() == AllClosed(old(View()))
    {
      var all := attached;
      attached := {};
      StopIdleTimer();
      CloseEach(all);
    }

    /** The locked part of triggerIdle: whether to call back. */
    method TriggerIdle(timer: nat) returns (calling: bool)
      requires timer in fired
      modifies this
      ensures calling <==> old(attached) == {}
      ensures View() == Triggered(old(View()), timer)
    {
      calling := attached == {};
      idleTimer := None;
      fired := fired - {timer};
      if calling {
        decided := decided + {timer};
      }
    }

    /** The callback, run after the lock was given up; it meets whoever is
        connected by then. */
    method CallBack(timer: nat) returns (meets: bool)
      requires timer in decided
      modifies this`decided
      ensures meets <==> attached != {}
      ensures View() == old(View()).(decided := old(decided) - {timer})
    {
      decided := decided - {timer};
      meets := attached != {};
    }
  }

  /** The broadcast with the clients in rest still to be served. */
  ghost predicate Midway(before: Pool, now: Pool, data: string, config: Config, rest: set<Conn>) {
    var full := set c | c in before.attached - rest && Full(before, c, config);
    && rest <= now.attached
    && now.attached == before.attached - full
    && now.clients.Keys == before.clients.Keys
    && (forall c | c in before.clients ::
          now.clients[c] == if c in before.attached - rest then Reached(before.clients[c], data, config)
                            else before.clients[c])
    && now == (if full == {} then before.(clients := now.clients)
               else ScheduleIdle(before.(clients := now.clients, attached := now.attached), config))
  }

  lemma MidwayStep(before: Pool, at: Pool, next: Pool, data: string, config: Config, rest: set<Conn>, conn: Conn)
    requires Consistent(before) && rest <= before.attached && conn in rest
    requires Midway(before, at, data, config, rest)
    requires next == if |at.clients[conn].buffer| < config.sendBuffer
                     then at.(clients := at.clients[conn := Reached(at.clients[conn], data, config)])
                     else Dropped(at, conn, config)
    ensures Midway(before, next, data, config, rest - {conn})
  {
    var less := rest - {conn};
    var full := set c | c in before.attached - rest && Full(before, c, config);
    var fuller := set c | c in before.attached - less && Full(before, c, config);
    assert before.attached - less == (before.attached - rest) + {conn};
    if Full(before, conn, config) {
      assert fuller == full + {conn};
      assert at.idleTimer.None? && at.running == before.running;
    } else {
      assert fuller == full;
    }
  }

  lemma MidwayEnd(before: Pool, now: Pool, data: string, config: Config)
    requires data != "" && before.attached <= before.clients.Keys
    requires Midway(before, now, data, config, {})
    ensures now == Broadcasted(before, data, config)
  {
    assert before.attached - {} == before.attached;
    assert now.clients == map c | c in before.clients ::
      if c in before.attached then Reached(before.clients[c], data, config) else before.clients[c];
  }

  // ----- Runs -----

  datatype Event =
    | Adds(conn: Conn)
    | Removes(conn: Conn)
    | Broadcasts(data: string)
    | SendsToOne(conn: Conn, data: string)
    // a writer receives from its channel
    | Takes(conn: Conn)
    // a writer's WriteMessage returns
    | Writes(conn: Conn, ok: bool)
    // a writer that failed drops its client
    | GivesUp(conn: Conn)
    | ClosesAll
    | CancelsTimer
    | Fires(timer: nat)
    // a timer's callback decides under the lock
    | Triggers(timer: nat)
    // and calls back after it
    | Calls(timer: nat)

  /** A connection is added at most once. */
  predicate Enabled(p: Pool, e: Event) {
    match e
    case Adds(conn) => conn !in p.clients || conn in p.attached
    case Takes(conn) =>
      conn in p.clients && var c := p.clients[conn]; !c.stopped && c.hand.None? && c.buffer != []
    case Writes(conn, _) =>
      conn in p.clients && p.clients[conn].hand.Some? && !p.clients[conn].stopped
    case GivesUp(conn) => conn in p.clients && p.clients[conn].stopped
    case Fires(timer) => timer in p.running
    case Triggers(timer) => timer in p.fired
    case Calls(timer) => timer in p.decided
    case _ => true
  }

  function Step(p: Pool, e: Event, config: Config): Pool
    requires Enabled(p, e)
  {
    match e
    case Adds(conn) =>
      if conn in p.attached then p
      else StopIdle(p.(clients := p.clients[conn := JOINED], attached := p.attached + {conn}))
    case Removes(conn) =>
      var q := ScheduleIdle(p.(attached := p.attached - {conn}), config);
      if conn in p.attached then Closed(q, conn) else q
    case Broadcasts(data) => Broadcasted(p, data, config)
    case SendsToOne(conn, data) => Sent(p, conn, data, config)
    case Takes(conn) =>
      var c := p.clients[conn];
      p.(clients := p.clients[conn := c.(hand := Some(c.buffer[0]), buffer := c.buffer[1..])])
    case Writes(conn, ok) =>
      var c := p.clients[conn];
      p.(clients := p.clients[conn := if ok then c.(hand := None, written := c.written + [c.hand.value])
                                      else c.(stopped := true)])
    case GivesUp(conn) => Dropped(p, conn, config)
    case ClosesAll => AllClosed(p)
    case CancelsTimer => StopIdle(p)
    case Fires(timer) => p.(running := p.running - {timer}, fired := p.fired + {timer})
    case Triggers(timer) => Triggered(p, timer)
    case Calls(timer) => p.(decided := p.decided - {timer})
  }

  ghost predicate StepAt(ps: seq<Pool>, es: seq<Event>, config: Config, i: nat)
    requires i < |es| && |ps| == |es| + 1
  {
    Enabled(ps[i], es[i]) && ps[i + 1] == Step(ps[i], es[i], config)
  }

  ghost predicate Execution(ps: seq<Pool>, es: seq<Event>, config: Config) {
    |ps| == |es| + 1 && ps[0] == EMPTY && forall i | 0 <= i < |es| :: StepAt(ps, es, config, i)
  }

  /** The frame an event addresses to a connection. */
  function Addressed(p: Pool, e: Event, conn: Conn): seq<string> {
    if conn !in p.attached then []
    else match e
      case Broadcasts(data) => if data == "" then [] else [data]
      case SendsToOne(to, data) => if data == "" || to != conn then [] else [data]
      case _ => []
  }

  /** Every frame addressed to a connection in the first n steps. */
  function Heard(ps: seq<Pool>, es: seq<Event>, conn: Conn, n: nat): seq<string>
    requires n <= |es| && |ps| == |es| + 1
  {
    if n == 0 then [] else Heard(ps, es, conn, n - 1) + Addressed(ps[n - 1], es[n - 1], conn)
  }

  /** What went into a connection's channel is a prefix of what was addressed
      to it, and all of it while the connection is attached. */
  ghost predicate GapFree(p: Pool, conn: Conn, heard: seq<string>, config: Config) {
    conn in p.clients ==>
      && p.clients[conn].Flow() <= heard
      && (conn in p.attached ==> p.clients[conn].Flow() == heard)
      && |p.clients[conn].buffer| <= config.sendBuffer
  }

  lemma StepConsistent(p: Pool, e: Event, config: Config)
    requires Consistent(p) && Enabled(p, e)
    ensures Consistent(Step(p, e, config))
  {
  }

  /** A writer's step keeps the flow; nothing is addressed. */
  lemma WriterKeepsFlow(p: Pool, e: Event, config: Config, conn: Conn)
    requires Enabled(p, e) && (e.Takes? || e.Writes?) && conn in p.clients
    ensures var next := Step(p, e, config);
      && conn in next.clients && next.attached == p.attached
      && next.clients[conn].Flow() == p.clients[conn].Flow()
      && |next.clients[conn].buffer| <= |p.clients[conn].buffer|
  {
    var c := p.clients[conn];
    if e.Takes? && e.conn == conn {
      assert c.buffer == [c.buffer[0]] + c.buffer[1..];
    }
  }

  /** A frame sent to an attached client goes to its buffer or drops it. */
  lemma SenderExtendsFlow(p: Pool, e: Event, config: Config, conn: Conn)
    requires Consistent(p) && (e.Broadcasts? || e.SendsToOne?) && conn in p.clients
    ensures var next, sent := Step(p, e, config), Addressed(p, e, conn);
      && conn in next.clients && (conn in next.attached ==> conn in p.attached)
      && next.clients[conn].Flow() == p.clients[conn].Flow() + (if conn in next.attached then sent else [])
      && (|next.clients[conn].buffer| <= |p.clients[conn].buffer|
          || |next.clients[conn].buffer| <= config.sendBuffer)
  {
    FlowGrows(p.clients[conn], e.data);
    assert p.clients[conn].Flow() + [] == p.clients[conn].Flow();
    assert p.clients[conn].(closed := true).Flow() == p.clients[conn].Flow();
  }

  /** Every other step leaves the channels alone. */
  lemma OthersKeepFlow(p: Pool, e: Event, config: Config, conn: Conn)
    requires Enabled(p, e) && conn in p.clients
    requires !e.Takes? && !e.Writes? && !e.Broadcasts? && !e.SendsToOne?
    ensures var next := Step(p, e, config);
      && conn in next.clients && (conn in next.attached ==> conn in p.attached)
      && next.clients[conn].Flow() == p.clients[conn].Flow()
      && next.clients[conn].buffer == p.clients[conn].buffer
  {
  }

  lemma StepGapFree(p: Pool, e: Event, config: Config, conn: Conn, heard: seq<string>)
    requires Consistent(p) && Enabled(p, e) && GapFree(p, conn, heard, config)
    requires conn !in p.clients ==> heard == []
    ensures GapFree(Step(p, e, config), conn, heard + Addressed(p, e, conn), config)
  {
    if conn in p.clients {
      if e.Takes? || e.Writes? {
        WriterKeepsFlow(p, e, config, conn);
      } else if e.Broadcasts? || e.SendsToOne? {
        SenderExtendsFlow(p, e, config, conn);
      } else {
        OthersKeepFlow(p, e, config, conn);
      }
    }
  }

  lemma FlowGrows(c: Client, data: string)
    ensures c.(buffer := c.buffer + [data]).Flow() == c.Flow() + [data]
  {
  }

  lemma {:induction false} UnheardBeforeAdd(ps: seq<Pool>, es: seq<Event>, config: Config, conn: Conn, n: nat)
    requires Execution(ps, es, config) && n <= |es|
    ensures Consistent(ps[n])
    ensures conn !in ps[n].clients ==> Heard(ps, es, conn, n) == []
  {
    if n > 0 {
      UnheardBeforeAdd(ps, es, config, conn, n - 1);
      assert StepAt(ps, es, config, n - 1);
      StepConsistent(ps[n - 1], es[n - 1], config);
    }
  }

  lemma {:induction false} RunsGapFree(ps: seq<Pool>, es: seq<Event>, config: Config, conn: Conn, n: nat)
    requires Execution(ps, es, config) && n <= |es|
    ensures GapFree(ps[n], conn, Heard(ps, es, conn, n), config)
  {
    if n > 0 {
      RunsGapFree(ps, es, config, conn, n - 1);
      UnheardBeforeAdd(ps, es, config, conn, n - 1);
      assert StepAt(ps, es, config, n - 1);
      StepGapFree(ps[n - 1], es[n - 1], config, conn, Heard(ps, es, conn, n - 1));
    }
  }

  /** Over any interleaving of pool calls and writers, each socket has been
      written a prefix of the frames addressed to it since it was added; while
      it is attached, nothing addressed to it is missing from what was written,
      is in its writer's hand or waits in its bounded buffer. */
  lemma DeliveryHasNoGaps(ps: seq<Pool>, es: seq<Event>, config: Config, conn: Conn, n: nat)
    requires Execution(ps, es, config) && n <= |es| && conn in ps[n].clients
    ensures var c := ps[n].clients[conn];
      && c.written <= Heard(ps, es, conn, n)
      && |c.buffer| <= config.sendBuffer
      && (conn in ps[n].attached ==>
            Heard(ps, es, conn, n) == c.written + (if c.hand.Some? then [c.hand.value] else []) + c.buffer)
  {
    RunsGapFree(ps, es, config, conn, n);
    var c := ps[n].clients[conn];
    assert c.written <= c.Flow();
  }

  /** An armed idle timer means that nobody is connected, and a callback is
      decided on only at a moment when nobody is. */
  lemma IdleMeansEmpty(ps: seq<Pool>, es: seq<Event>, config: Config, n: nat)
    requires Execution(ps, es, config) && n < |es|
    ensures ps[n].idleTimer.Some? ==> ps[n].attached == {}
    ensures forall t | t in ps[n + 1].decided && t !in ps[n].decided :: es[n] == Triggers(t) && ps[n].attached == {}
  {
    UnheardBeforeAdd(ps, es, config, 0, n);
    assert StepAt(ps, es, config, n);
  }

  /** Every callback was decided on earlier, when nobody was connected. */
  lemma {:induction false} DecidedBefore(ps: seq<Pool>, es: seq<Event>, config: Config, t: nat, n: nat) returns (d: nat)
    requires Execution(ps, es, config) && n <= |es| && t in ps[n].decided
    ensures d < n && es[d] == Triggers(t) && ps[d].attached == {}
  {
    IdleMeansEmpty(ps, es, config, n - 1);
    if t in ps[n - 1].decided {
      d := DecidedBefore(ps, es, config, t, n - 1);
    } else {
      d := n - 1;
    }
  }

  /** The connection was added between two moments. */
  ghost predicate AddedBetween(es: seq<Event>, conn: Conn, d: nat, n: nat)
    requires n <= |es|
  {
    exists k :: d < k < n && es[k] == Adds(conn)
  }

  lemma {:induction false} AttachedByAdd(ps: seq<Pool>, es: seq<Event>, config: Config, conn: Conn, d: nat, n: nat)
    requires Execution(ps, es, config) && d < n <= |es|
    requires es[d].Triggers? && ps[d].attached == {} && conn in ps[n].attached
    ensures AddedBetween(es, conn, d, n)
  {
    assert StepAt(ps, es, config, n - 1);
    if d < n - 1 {
      if conn in ps[n - 1].attached {
        AttachedByAdd(ps, es, config, conn, d, n - 1);
      } else {
        assert es[n - 1] == Adds(conn);
      }
    }
  }

  /** A callback decided on at d and run at n meets a connection exactly when
      one was added in between and is still attached. */
  lemma CallbackMeetsExactly(ps: seq<Pool>, es: seq<Event>, config: Config, d: nat, n: nat)
    requires Execution(ps, es, config) && d < n < |es|
    requires es[d].Triggers? && ps[d].attached == {} && es[n] == Calls(es[d].timer)
    ensures ps[n].attached != {} <==> exists conn :: AddedBetween(es, conn, d, n) && conn in ps[n].attached
  {
    if ps[n].attached != {} {
      var conn :| conn in ps[n].attached;
      AttachedByAdd(ps, es, config, conn, d, n);
    }
  }

  /** Nobody is connected when the timer's turn comes; somebody connects before
      the callback runs. */
  lemma CallbackMeetsConnection(config: Config) returns (ps: seq<Pool>, es: seq<Event>)
    requires config.idle
    ensures Execution(ps, es, config) && |es| == 5
    ensures es[2] == Triggers(0) && es[4] == Calls(0) && ps[4].attached == {0}
  {
    var p1 := Step(EMPTY, Removes(0), config);
    var p2 := Step(p1, Fires(0), config);
    var p3 := Step(p2, Triggers(0), config);
    var p4 := Step(p3, Adds(0), config);
    assert p3.decided == {0} && p4.attached == {0};
    var p5 := Step(p4, Calls(0), config);
    ps := [EMPTY, p1, p2, p3, p4, p5];
    es := [Removes(0), Fires(0), Triggers(0), Adds(0), Calls(0)];
    forall i | 0 <= i < |es| ensures StepAt(ps, es, config, i) {
      assert i == 0 || i == 1 || i == 2 || i == 3 || i == 4;
    }
  }

  // ----- Timers -----

  /** Only the armed timer can still go off. */
  ghost predicate Tidy(p: Pool) {
    p.running <= if p.idleTimer.Some? then {p.idleTimer.value} else {}
  }

  /** Every timer was made before the next one will be. */
  ghost predicate Numbered(p: Pool) {
    && (forall t | t in p.running || t in p.fired :: t < p.timersMade)
    && (p.idleTimer.Some? ==> p.idleTimer.value < p.timersMade)
  }

  /** A callback that went off earlier runs behind a newer timer: it forgets
      the newer one without stopping it. */
  predicate Leaks(p: Pool, e: Event) {
    && e.Triggers? && p.idleTimer.Some?
    && p.idleTimer.value != e.timer && p.idleTimer.value in p.running
  }

  lemma StepNumbered(p: Pool, e: Event, config: Config)
    requires Numbered(p) && Enabled(p, e)
    ensures Numbered(Step(p, e, config)) && p.timersMade <= Step(p, e, config).timersMade <= p.timersMade + 1
    ensures forall t | t in Step(p, e, config).running :: t in p.running || t == p.timersMade < Step(p, e, config).timersMade
  {
  }

  /** A step leaves a timer running that nobody can stop exactly when a stale
      callback runs behind it. */
  lemma TidyExactly(p: Pool, e: Event, config: Config)
    requires Tidy(p) && Numbered(p) && Enabled(p, e)
    requires e.Triggers? ==> e.timer !in p.running
    ensures Tidy(Step(p, e, config)) <==> !Leaks(p, e)
  {
  }

  /** A timer goes off once. */
  ghost predicate FiredOnce(p: Pool) {
    forall t | t in p.running :: t !in p.fired
  }

  lemma StepFiresOnce(p: Pool, e: Event, config: Config)
    requires Numbered(p) && FiredOnce(p) && Enabled(p, e)
    ensures FiredOnce(Step(p, e, config))
  {
  }

  lemma {:induction false} RunsNumbered(ps: seq<Pool>, es: seq<Event>, config: Config, n: nat)
    requires Execution(ps, es, config) && n <= |es|
    ensures Numbered(ps[n]) && FiredOnce(ps[n])
  {
    if n > 0 {
      RunsNumbered(ps, es, config, n - 1);
      assert StepAt(ps, es, config, n - 1);
      StepNumbered(ps[n - 1], es[n - 1], config);
      StepFiresOnce(ps[n - 1], es[n - 1], config);
    }
  }

  /** Throughout a run only the armed timer can go off, exactly when no stale
      callback runs behind a newer timer. */
  lemma {:induction false} RunsTidyExactly(ps: seq<Pool>, es: seq<Event>, config: Config, n: nat)
    requires Execution(ps, es, config) && n <= |es|
    ensures (forall i | 0 <= i <= n :: Tidy(ps[i])) <==> (forall i | 0 <= i < n :: !Leaks(ps[i], es[i]))
  {
    if n > 0 {
      RunsTidyExactly(ps, es, config, n - 1);
      RunsNumbered(ps, es, config, n - 1);
      assert StepAt(ps, es, config, n - 1);
      if Tidy(ps[n - 1]) {
        TidyExactly(ps[n - 1], es[n - 1], config);
      }
    }
  }

  /** A timer that can still go off could all the time since it was made. */
  lemma {:induction false} RunningSince(ps: seq<Pool>, es: seq<Event>, config: Config, t: nat, k: nat, n: nat)
    requires Execution(ps, es, config) && k <= n <= |es|
    requires t in ps[n].running && t < ps[k].timersMade
    ensures t in ps[k].running
  {
    if k < n {
      RunsNumbered(ps, es, config, n - 1);
      assert StepAt(ps, es, config, n - 1);
      StepNumbered(ps[n - 1], es[n - 1], config);
      TimersOnlyGrow(ps, es, config, k, n - 1);
      RunningSince(ps, es, config, t, k, n - 1);
    }
  }

  lemma {:induction false} TimersOnlyGrow(ps: seq<Pool>, es: seq<Event>, config: Config, k: nat, n: nat)
    requires Execution(ps, es, config) && k <= n <= |es|
    ensures ps[k].timersMade <= ps[n].timersMade
  {
    if k < n {
      TimersOnlyGrow(ps, es, config, k, n - 1);
      RunsNumbered(ps, es, config, n - 1);
      assert StepAt(ps, es, config, n - 1);
      StepNumbered(ps[n - 1], es[n - 1], config);
    }
  }

  /** In a run without stale callbacks, a timer goes off only if nobody has been
      connected at any moment since it was armed. */
  lemma IdleAllAlong(ps: seq<Pool>, es: seq<Event>, config: Config, k: nat, n: nat)
    requires Execution(ps, es, config) && k <= n < |es|
    requires forall i | 0 <= i < n :: !Leaks(ps[i], es[i])
    requires es[n].Fires? && es[n].timer < ps[k].timersMade
    ensures ps[k].attached == {}
  {
    assert StepAt(ps, es, config, n);
    RunningSince(ps, es, config, es[n].timer, k, n);
    RunsTidyExactly(ps, es, config, n);
    assert Tidy(ps[k]);
    UnheardBeforeAdd(ps, es, config, 0, k);
  }

  /** Timer 0 goes off, and before its callback runs somebody connects and
      leaves, which arms timer 1. The callback makes timer 1 unstoppable: it
      still runs when the next connection is attached. */
  lemma StaleCallbackLeaks(config: Config) returns (ps: seq<Pool>, es: seq<Event>)
    requires config.idle
    ensures Execution(ps, es, config)
    ensures var end := ps[|es|]; 1 in end.running && end.idleTimer.None? && end.attached != {}
  {
    var p1 := Step(EMPTY, Removes(0), config);
    var p2 := Step(p1, Fires(0), config);
    var p3 := Step(p2, Adds(0), config);
    var p4 := Step(p3, Removes(0), config);
    assert p4.running == {1} && p4.idleTimer == Some(1) && p4.fired == {0};
    var p5 := Step(p4, Triggers(0), config);
    var p6 := Step(p5, Adds(1), config);
    ps := [EMPTY, p1, p2, p3, p4, p5, p6];
    es := [Removes(0), Fires(0), Adds(0), Removes(0), Triggers(0), Adds(1)];
    forall i | 0 <= i < |es| ensures StepAt(ps, es, config, i) {
      assert i == 0 || i == 1 || i == 2 || i == 3 || i == 4 || i == 5;
    }
  }

  /** A connection is dropped by a send exactly when its buffer is full, and
      leaving the pool empty arms the timer if one is configured. */
  lemma DropsExactlyTheFull(p: Pool, data: string, config: Config, conn: Conn)
    requires Consistent(p) && data != "" && conn in p.attached
    ensures var next := Broadcasted(p, data, config);
      && (conn !in next.attached <==> |p.clients[conn].buffer| >= config.sendBuffer)
      && next.clients[conn].closed == (conn !in next.attached)
      && (next.attached == {} && config.idle <==> next.idleTimer.Some?)
  {
  }
}
