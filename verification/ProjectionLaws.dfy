/** What the projector's caches and throttle amount to over whole streams of
    frames. */
module ProjectionLaws {
  import opened Wrappers
  import opened Text
  import opened Timeline
  import opened TimelineMemory
  import opened TimelineProjector

  /** A frame and the clock read while it is applied. */
  datatype Tick = Tick(frame: Frame, now: int)

  /** A projector and its conversation in the store. */
  datatype World = World(caches: Caches, conv: Conv)

  const FRESH := World(NO_CACHES, EMPTY)

  ghost function Apply(w: World, t: Tick, window: int, max: nat): World {
    var (caches, entity) := Project(w.caches, t.frame, t.now, window);
    World(caches, if entity.None? then w.conv
                  else Upserted(w.conv, Write(t.frame.seqNo, entity.value, t.now), max))
  }

  ghost function Run(w: World, ticks: seq<Tick>, window: int, max: nat): World
    decreases |ticks|
  {
    if ticks == [] then w else Run(Apply(w, ticks[0], window, max), ticks[1..], window, max)
  }

  // ----- The throttle does not show -----

  /** Frames of messages with these ids, and other frames writing these
      entities. */
  datatype Universe = Universe(messages: set<string>, others: set<string>) {
    predicate Has(f: Frame) {
      f.Live() ==>
        && (f.event.OfMessage() ==> f.id in messages)
        && (!f.event.OfMessage() && !f.event.Unhandled? ==> f.Target() in others)
    }

    /** No two message ids, and no message and other entity, share a target. */
    ghost predicate Separate() {
      && (forall a, b | a in messages && b in messages && TrimSpace(a) == TrimSpace(b) != "" :: a == b)
      && (forall a | a in messages && TrimSpace(a) != "" :: TrimSpace(a) !in others)
    }

    function Targets(): set<string> {
      (set m | m in messages :: TrimSpace(m)) + others
    }
  }

  ghost predicate Within(u: Universe, ticks: seq<Tick>) {
    forall i | 0 <= i < |ticks| :: u.Has(ticks[i].frame) && ticks[i].now >= WINDOW_MS
  }

  /** What a reader may not see differ: anything but the text of a message that
      is still streaming, the time of its last write and its version. */
  predicate LooksAlike(a: Entity, b: Entity) {
    && a.id == b.id && a.kind == b.kind && a.createdAtMs == b.createdAtMs
    && (a.props == b.props
        || (a.props.Message? && b.props.Message? && a.props.streaming && b.props.streaming
            && a.props.role == b.props.role))
  }

  ghost predicate ConvsAlike(a: Conv, b: Conv) {
    && Matched(a) && Matched(b)
    && a.entities.Keys == b.entities.Keys
    && forall id | id in a.entities :: LooksAlike(a.entities[id], b.entities[id])
  }

  ghost predicate SameText(a: Caches, b: Caches) {
    && a.roles == b.roles && a.contents == b.contents
    && a.toolNames == b.toolNames && a.toolInputs == b.toolInputs
  }

  /** A message with a remembered write is stored, streaming, in the role that
      the next delta would give it. */
  ghost predicate Remembered(w: World, u: Universe, id: string) {
    && id in u.messages && TrimSpace(id) != ""
    && TrimSpace(id) in w.conv.entities
    && var e := w.conv.entities[TrimSpace(id)];
       && e.kind == "message" && e.props.Message? && e.props.streaming
       && e.props.role == RoleOr(w.caches, id, "assistant")
  }

  ghost predicate ThrottleInv(w: World, u: Universe) {
    && Dated(w.conv, u)
    && (forall id | id in w.caches.lastWrite :: Remembered(w, u, id))
  }

  lemma TargetInUniverse(u: Universe, c: Caches, f: Frame, now: int, window: int)
    requires u.Has(f)
    ensures var e := Project(c, f, now, window).1;
      e.Some? ==> f.Live() && e.value.id == f.Target() && f.Target() in u.Targets() && e.value.createdAtMs == 0
  {
  }

  /** Few enough ids: nothing is evicted. */
  lemma NothingEvicted(c: Conv, w: Write, u: Universe, max: nat)
    requires Matched(c) && c.entities.Keys <= u.Targets() && w.entity.id in u.Targets() && |u.Targets()| <= max
    ensures Upserted(c, w, max) == Stored(c, w)
  {
    var stored := Stored(c, w);
    Fewer(stored.entities.Keys, u.Targets());
    assert |stored.entities| == |stored.entities.Keys|;
  }

  /** Without eviction, what one frame does. */
  function Applied(w: World, t: Tick, window: int): World {
    var (caches, entity) := Project(w.caches, t.frame, t.now, window);
    World(caches, if entity.None? then w.conv
                  else Stored(w.conv, Write(t.frame.seqNo, entity.value, t.now)))
  }

  lemma AppliedWithoutEviction(w: World, t: Tick, u: Universe, window: int, max: nat)
    requires ThrottleInv(w, u) && u.Has(t.frame) && |u.Targets()| <= max
    ensures Apply(w, t, window, max) == Applied(w, t, window)
  {
    var entity := Project(w.caches, t.frame, t.now, window).1;
    TargetInUniverse(u, w.caches, t.frame, t.now, window);
    if entity.Some? {
      NothingEvicted(w.conv, Write(t.frame.seqNo, entity.value, t.now), u, max);
    }
  }

  ghost predicate Dated(c: Conv, u: Universe) {
    && Matched(c) && c.entities.Keys <= u.Targets()
    && forall id | id in c.entities :: c.entities[id].createdAtMs > 0
  }

  lemma StoredDated(c: Conv, w: Write, u: Universe)
    requires Dated(c, u) && w.entity.id in u.Targets() && w.entity.createdAtMs == 0 && w.now > 0
    ensures Dated(Stored(c, w), u)
  {
  }

  /** Remembering survives steps that leave the role and the entity alone. */
  lemma StillRemembered(w: World, next: World, u: Universe, id: string)
    requires Remembered(w, u, id) && At(next.caches.roles, id) == At(w.caches.roles, id)
    requires TrimSpace(id) in next.conv.entities
    requires next.conv.entities[TrimSpace(id)] == w.conv.entities[TrimSpace(id)]
    ensures Remembered(next, u, id)
  {
  }

  lemma OthersRemembered(w: World, t: Tick, u: Universe, window: int, id: string)
    requires u.Has(t.frame) && u.Separate() && Remembered(w, u, id)
    requires !(t.frame.event.OfMessage() && t.frame.id == id)
    ensures Remembered(Applied(w, t, window), u, id)
  {
    var entity := Project(w.caches, t.frame, t.now, window).1;
    if entity.Some? {
      assert t.frame.Live() && entity.value.id == t.frame.Target() != TrimSpace(id);
    }
    StillRemembered(w, Applied(w, t, window), u, id);
  }

  lemma OwnRemembered(w: World, t: Tick, u: Universe, window: int)
    requires u.Has(t.frame) && t.frame.Live() && t.frame.event.OfMessage()
    requires t.frame.id in w.caches.lastWrite ==> Remembered(w, u, t.frame.id)
    requires t.frame.id in Applied(w, t, window).caches.lastWrite
    ensures Remembered(Applied(w, t, window), u, t.frame.id)
  {
    var f, next := t.frame, Applied(w, t, window);
    if f.event.Start? {
      assert next.caches.roles[f.id] == StartRole(f.event) != "";
    } else {
      assert f.event.Delta?;
      if Project(w.caches, f, t.now, window).1.None? {
        StillRemembered(w, next, u, f.id);
      }
    }
  }

  lemma StepKeepsInv(w: World, t: Tick, u: Universe, window: int)
    requires ThrottleInv(w, u) && u.Has(t.frame) && u.Separate() && t.now >= WINDOW_MS
    ensures ThrottleInv(Applied(w, t, window), u)
  {
    var f, next := t.frame, Applied(w, t, window);
    TargetInUniverse(u, w.caches, f, t.now, window);
    var entity := Project(w.caches, f, t.now, window).1;
    if entity.Some? {
      StoredDated(w.conv, Write(f.seqNo, entity.value, t.now), u);
    }
    forall id | id in next.caches.lastWrite ensures Remembered(next, u, id) {
      if f.Live() && f.event.OfMessage() && id == f.id {
        OwnRemembered(w, t, u, window);
      } else if f.Live() {
        OthersRemembered(w, t, u, window, id);
      }
    }
  }

  lemma BothStored(a: Conv, b: Conv, v: nat, entityA: Entity, entityB: Entity, now: int)
    requires ConvsAlike(a, b) && LooksAlike(entityA, entityB)
    ensures ConvsAlike(Stored(a, Write(v, entityA, now)), Stored(b, Write(v, entityB, now)))
  {
  }

  /** Writing more text of a streaming message does not show. */
  lemma OneStored(a: Conv, b: Conv, w: Write)
    requires ConvsAlike(a, b) && w.entity.id in b.entities && b.entities[w.entity.id].createdAtMs > 0
    requires LooksAlike(a.entities[w.entity.id],
                        w.entity.(createdAtMs := b.entities[w.entity.id].createdAtMs))
    ensures ConvsAlike(a, Stored(b, w))
  {
  }

  lemma AlikeSymmetric(a: Conv, b: Conv)
    requires ConvsAlike(a, b)
    ensures ConvsAlike(b, a)
  {
  }

  /** A delta, given to projectors that may throttle it differently. */
  lemma DeltaLooksAlike(a: World, b: World, t: Tick, u: Universe, windowA: int, windowB: int)
    requires SameText(a.caches, b.caches) && ConvsAlike(a.conv, b.conv)
    requires t.frame.Live() && t.frame.event.Delta? && t.now >= WINDOW_MS >= windowA && WINDOW_MS >= windowB
    requires t.frame.id in a.caches.lastWrite ==> Remembered(a, u, t.frame.id)
    requires t.frame.id in b.caches.lastWrite ==> Remembered(b, u, t.frame.id)
    requires forall id | id in a.conv.entities :: a.conv.entities[id].createdAtMs > 0
    ensures var x, y := Applied(a, t, windowA), Applied(b, t, windowB);
      SameText(x.caches, y.caches) && ConvsAlike(x.conv, y.conv)
  {
    var f := t.frame;
    var entityA := Project(a.caches, f, t.now, windowA).1;
    var entityB := Project(b.caches, f, t.now, windowB).1;
    if entityA.Some? && entityB.Some? {
      BothStored(a.conv, b.conv, f.seqNo, entityA.value, entityB.value, t.now);
    } else if entityB.Some? {
      assert f.id in a.caches.lastWrite;
      OneStored(a.conv, b.conv, Write(f.seqNo, entityB.value, t.now));
    } else if entityA.Some? {
      assert f.id in b.caches.lastWrite;
      AlikeSymmetric(a.conv, b.conv);
      OneStored(b.conv, a.conv, Write(f.seqNo, entityA.value, t.now));
      AlikeSymmetric(b.conv, Applied(a, t, windowA).conv);
    }
  }

  lemma ClosedAlike(a: Caches, b: Caches, id: string, text: string, fallback: string)
    requires SameText(a, b)
    ensures SameText(Closed(a, id, text, fallback).0, Closed(b, id, text, fallback).0)
    ensures Closed(a, id, text, fallback).1 == Closed(b, id, text, fallback).1
  {
  }

  /** Any other frame comes out the same whatever was throttled before. */
  lemma OtherProjectsAlike(a: Caches, b: Caches, f: Frame, now: int, windowA: int, windowB: int)
    requires SameText(a, b) && !f.event.Delta?
    ensures SameText(Project(a, f, now, windowA).0, Project(b, f, now, windowB).0)
    ensures Project(a, f, now, windowA).1 == Project(b, f, now, windowB).1
  {
    match f.event
    case Final(text) => ClosedAlike(a, b, f.id, text, "assistant");
    case ThinkingSummary(text) => ClosedAlike(a, b, f.id, text, "thinking");
    case _ =>
  }

  lemma OtherLooksAlike(a: World, b: World, t: Tick, windowA: int, windowB: int)
    requires SameText(a.caches, b.caches) && ConvsAlike(a.conv, b.conv) && !t.frame.event.Delta?
    ensures SameText(Applied(a, t, windowA).caches, Applied(b, t, windowB).caches)
    ensures ConvsAlike(Applied(a, t, windowA).conv, Applied(b, t, windowB).conv)
  {
    var f := t.frame;
    OtherProjectsAlike(a.caches, b.caches, f, t.now, windowA, windowB);
    var entity := Project(a.caches, f, t.now, windowA).1;
    if entity.Some? {
      BothStored(a.conv, b.conv, f.seqNo, entity.value, entity.value, t.now);
    }
  }

  /** One frame, given to a throttled projector and to one with no window. */
  lemma StepLooksAlike(a: World, b: World, t: Tick, u: Universe)
    requires ThrottleInv(a, u) && ThrottleInv(b, u)
    requires SameText(a.caches, b.caches) && ConvsAlike(a.conv, b.conv) && t.now >= WINDOW_MS
    ensures var x, y := Applied(a, t, WINDOW_MS), Applied(b, t, 0);
      SameText(x.caches, y.caches) && ConvsAlike(x.conv, y.conv)
  {
    if t.frame.Live() && t.frame.event.Delta? {
      DeltaLooksAlike(a, b, t, u, WINDOW_MS, 0);
    } else if !t.frame.event.Delta? {
      OtherLooksAlike(a, b, t, WINDOW_MS, 0);
    }
  }

  lemma {:induction false} RunsLookAlike(a: World, b: World, ticks: seq<Tick>, u: Universe, max: nat)
    requires ThrottleInv(a, u) && ThrottleInv(b, u)
    requires SameText(a.caches, b.caches) && ConvsAlike(a.conv, b.conv)
    requires u.Separate() && |u.Targets()| <= max && Within(u, ticks)
    ensures ConvsAlike(Run(a, ticks, WINDOW_MS, max).conv, Run(b, ticks, 0, max).conv)
    decreases |ticks|
  {
    if ticks != [] {
      var t := ticks[0];
      AppliedWithoutEviction(a, t, u, WINDOW_MS, max);
      AppliedWithoutEviction(b, t, u, 0, max);
      StepKeepsInv(a, t, u, WINDOW_MS);
      StepKeepsInv(b, t, u, 0);
      StepLooksAlike(a, b, t, u);
      RunsLookAlike(Applied(a, t, WINDOW_MS), Applied(b, t, 0), ticks[1..], u, max);
    }
  }

  /** Two ids that name one target, and a frame that closes or replaces the
      entity between two deltas 50 ms apart. */
  function Clash(a: string, between: Frame): seq<Tick> {
    [Tick(Frame(true, a, 1, Delta("x", "")), 250),
     Tick(between, 300),
     Tick(Frame(true, a, 3, Delta("y", "")), 300)]
  }

  lemma RunOfThree(w: World, t1: Tick, t2: Tick, t3: Tick, window: int, max: nat)
    ensures Run(w, [t1, t2, t3], window, max)
         == Apply(Apply(Apply(w, t1, window, max), t2, window, max), t3, window, max)
  {
    var w1 := Apply(w, t1, window, max);
    var w2 := Apply(w1, t2, window, max);
    assert [t1, t2, t3][1..] == [t2, t3] && [t2, t3][1..] == [t3] && [t3][1..] == [];
    assert Run(w2, [t3], window, max) == Apply(w2, t3, window, max);
    assert Run(w1, [t2, t3], window, max) == Run(w2, [t3], window, max);
  }

  /** The only entity there is can always be written again. */
  lemma OneEntity(c: Conv, w: Write, max: nat)
    requires max > 0 && c.entities.Keys <= {w.entity.id}
    ensures Upserted(c, w, max) == Stored(c, w)
    ensures Stored(c, w).entities.Keys == {w.entity.id}
  {
    var stored := Stored(c, w);
    assert stored.entities.Keys == {w.entity.id};
    assert |stored.entities| == |stored.entities.Keys| == 1;
  }

  lemma FirstDelta(a: string, window: int, max: nat) returns (w: World)
    requires TrimSpace(a) != "" && max > 0 && window <= WINDOW_MS
    ensures w == Apply(FRESH, Tick(Frame(true, a, 1, Delta("x", "")), 250), window, max)
    ensures w.caches.lastWrite == map[a := 250] && At(w.caches.contents, a) == "x"
    ensures w.conv.entities.Keys == {TrimSpace(a)}
  {
    var e := MessageEntity(a, "assistant", "x", true);
    OneEntity(EMPTY, Write(1, e, 250), max);
    w := Apply(FRESH, Tick(Frame(true, a, 1, Delta("x", "")), 250), window, max);
  }

  /** After the clashing frame the throttled projector skips the second delta
      and the other one does not. */
  lemma SecondDelta(w: World, a: string, max: nat)
    requires TrimSpace(a) != "" && max > 0 && w.conv.entities.Keys == {TrimSpace(a)}
    requires w.caches.lastWrite == map[a := 250] && At(w.caches.contents, a) == "x"
    ensures var t := Tick(Frame(true, a, 3, Delta("y", "")), 300);
      && Apply(w, t, WINDOW_MS, max).conv == w.conv
      && TrimSpace(a) in Apply(w, t, 0, max).conv.entities
      && var e := Apply(w, t, 0, max).conv.entities[TrimSpace(a)];
         e.kind == "message" && e.props.Message? && e.props.streaming
  {
    var e := MessageEntity(a, RoleOr(w.caches, a, "assistant"), "xy", true);
    OneEntity(w.conv, Write(3, e, 300), max);
  }

  /** The clashing frame, in either projector. */
  lemma BetweenDeltas(w: World, a: string, f: Frame, window: int, max: nat)
    requires TrimSpace(a) != "" && max > 0 && w.conv.entities.Keys == {TrimSpace(a)}
    requires w.caches.lastWrite == map[a := 250] && At(w.caches.contents, a) == "x"
    requires f == Frame(true, f.id, 2, f.event) && TrimSpace(f.id) == TrimSpace(a)
    requires (f.event == Final("done") && f.id != a) || f.event == ToolStart("", "")
    ensures var next := Apply(w, Tick(f, 300), window, max);
      && next.conv.entities.Keys == {TrimSpace(a)}
      && next.caches.lastWrite == map[a := 250] && At(next.caches.contents, a) == "x"
      && var e := next.conv.entities[TrimSpace(a)];
         !(e.props.Message? && e.props.streaming)
  {
    var entity := Project(w.caches, f, 300, window).1;
    if f.event.Final? {
      assert TrimSpace("done") != "" by {
        TrimKeepsInk("done", 0);
      }
      assert w.caches.lastWrite - {f.id} == w.caches.lastWrite;
    }
    OneEntity(w.conv, Write(2, entity.value, 300), max);
  }

  lemma ClashShows(a: string, f: Frame, max: nat)
    requires TrimSpace(a) != "" && max > 0
    requires f == Frame(true, f.id, 2, f.event) && TrimSpace(f.id) == TrimSpace(a)
    requires (f.event == Final("done") && f.id != a) || f.event == ToolStart("", "")
    ensures !ConvsAlike(Run(FRESH, Clash(a, f), WINDOW_MS, max).conv, Run(FRESH, Clash(a, f), 0, max).conv)
  {
    var ticks := Clash(a, f);
    RunOfThree(FRESH, ticks[0], ticks[1], ticks[2], WINDOW_MS, max);
    RunOfThree(FRESH, ticks[0], ticks[1], ticks[2], 0, max);
    assert ticks == [ticks[0], ticks[1], ticks[2]];
    var x1 := FirstDelta(a, WINDOW_MS, max);
    var y1 := FirstDelta(a, 0, max);
    BetweenDeltas(x1, a, f, WINDOW_MS, max);
    BetweenDeltas(y1, a, f, 0, max);
    SecondDelta(Apply(x1, ticks[1], WINDOW_MS, max), a, max);
    SecondDelta(Apply(y1, ticks[1], 0, max), a, max);
    var x := Run(FRESH, ticks, WINDOW_MS, max).conv;
    assert !LooksAlike(x.entities[TrimSpace(a)], Run(FRESH, ticks, 0, max).conv.entities[TrimSpace(a)]);
  }

  /** The throttle never shows, for all frames of a universe and all clocks
      from 250 on, exactly when its ids do not share targets. */
  lemma ThrottleHiddenExactly(u: Universe, max: nat)
    requires |u.Targets()| <= max
    ensures u.Separate() <==>
              forall ticks | Within(u, ticks) ::
                ConvsAlike(Run(FRESH, ticks, WINDOW_MS, max).conv, Run(FRESH, ticks, 0, max).conv)
  {
    if u.Separate() {
      forall ticks | Within(u, ticks)
        ensures ConvsAlike(Run(FRESH, ticks, WINDOW_MS, max).conv, Run(FRESH, ticks, 0, max).conv)
      {
        RunsLookAlike(FRESH, FRESH, ticks, u, max);
      }
    } else {
      var ticks := RunThatShows(u, max);
    }
  }

  lemma RunThatShows(u: Universe, max: nat) returns (ticks: seq<Tick>)
    requires !u.Separate() && |u.Targets()| <= max
    ensures Within(u, ticks)
    ensures !ConvsAlike(Run(FRESH, ticks, WINDOW_MS, max).conv, Run(FRESH, ticks, 0, max).conv)
  {
    var a, f := FindClash(u);
    TargetsOfMessage(u, a);
    ClashShows(a, f, max);
    ClashWithin(u, a, f);
    ticks := Clash(a, f);
  }

  lemma TargetsOfMessage(u: Universe, a: string)
    requires a in u.messages
    ensures |u.Targets()| > 0
  {
    assert TrimSpace(a) in u.Targets();
  }

  lemma ClashWithin(u: Universe, a: string, f: Frame)
    requires a in u.messages && u.Has(f)
    ensures Within(u, Clash(a, f))
  {
  }

  lemma FindClash(u: Universe) returns (a: string, f: Frame)
    requires !u.Separate()
    ensures a in u.messages && TrimSpace(a) != "" && u.Has(f)
    ensures f == Frame(true, f.id, 2, f.event) && TrimSpace(f.id) == TrimSpace(a)
    ensures (f.event == Final("done") && f.id != a) || f.event == ToolStart("", "")
  {
    if c, d :| c in u.messages && d in u.messages && TrimSpace(c) == TrimSpace(d) != "" && c != d {
      a, f := c, Frame(true, d, 2, Final("done"));
    } else {
      a :| a in u.messages && TrimSpace(a) != "" && TrimSpace(a) in u.others;
      TrimIdempotent(a);
      f := Frame(true, TrimSpace(a), 2, ToolStart("", ""));
    }
  }

  // ----- How often it writes -----

  /** Times at which deltas of one message are written. */
  function DeltaWrites(c: Caches, ticks: seq<Tick>, id: string, window: int): (times: seq<int>)
    decreases |ticks|
  {
    if ticks == [] then []
    else
      var f, now := ticks[0].frame, ticks[0].now;
      var (next, entity) := Project(c, f, now, window);
      (if f.event.Delta? && f.id == id && entity.Some? then [now] else [])
      + DeltaWrites(next, ticks[1..], id, window)
  }

  ghost predicate Spaced(times: seq<int>, gap: int) {
    forall i | 0 < i < |times| :: times[i] - times[i - 1] >= gap
  }

  /** What one frame does to the remembered write of a message. */
  lemma WriteClock(c: Caches, f: Frame, now: int, window: int, id: string)
    requires f.id == id ==> !f.event.Closes()
    ensures var (next, entity) := Project(c, f, now, window);
      if f.event.Delta? && f.id == id && entity.Some? then
        id in next.lastWrite && next.lastWrite[id] == now
        && (id in c.lastWrite ==> now - c.lastWrite[id] >= window)
      else
        id in c.lastWrite ==> id in next.lastWrite && next.lastWrite[id] == c.lastWrite[id]
  {
  }

  /** Between closing frames of a message its delta writes are a window apart,
      starting from the last one before. */
  lemma {:induction false} DeltaWritesSpaced(c: Caches, ticks: seq<Tick>, id: string, window: int)
    requires forall i | 0 <= i < |ticks| && ticks[i].frame.id == id :: !ticks[i].frame.event.Closes()
    ensures Spaced(DeltaWrites(c, ticks, id, window), window)
    ensures id in c.lastWrite && DeltaWrites(c, ticks, id, window) != [] ==>
              DeltaWrites(c, ticks, id, window)[0] - c.lastWrite[id] >= window
    decreases |ticks|
  {
    if ticks != [] {
      var f, now := ticks[0].frame, ticks[0].now;
      var next := Project(c, f, now, window).0;
      WriteClock(c, f, now, window, id);
      DeltaWritesSpaced(next, ticks[1..], id, window);
    }
  }

  lemma {:induction false} SpacedSpan(times: seq<int>, gap: int, n: nat)
    requires Spaced(times, gap) && n < |times|
    ensures times[n] - times[0] >= n * gap
  {
    if n > 0 {
      SpacedSpan(times, gap, n - 1);
      assert n * gap == (n - 1) * gap + gap;
    }
  }

  /** A span of T ms holds at most T / 250 + 1 delta writes. */
  lemma WriteRateBound(c: Caches, ticks: seq<Tick>, id: string)
    requires forall i | 0 <= i < |ticks| && ticks[i].frame.id == id :: !ticks[i].frame.event.Closes()
    ensures var times := DeltaWrites(c, ticks, id, WINDOW_MS);
      times != [] ==> |times| <= (times[|times| - 1] - times[0]) / 250 + 1
  {
    var times := DeltaWrites(c, ticks, id, WINDOW_MS);
    DeltaWritesSpaced(c, ticks, id, WINDOW_MS);
    if times != [] {
      SpacedSpan(times, WINDOW_MS, |times| - 1);
    }
  }

  // ----- How text is carried -----

  function Concat(parts: seq<string>): string {
    if parts == [] then "" else parts[0] + Concat(parts[1..])
  }

  /** A delta that carries the increment, or the text so far with or without
      the increment. */
  predicate Carries(e: Event, sofar: string, inc: string) {
    && e.Delta?
    && ((e.cumulative == "" && e.delta == inc)
        || (e.cumulative == sofar + inc && (e.delta == "" || e.delta == inc)))
  }

  /** The frames of message id carry these increments after the text so far;
      frames of other ids may come in between. */
  ghost predicate Encodes(ticks: seq<Tick>, id: string, sofar: string, incs: seq<string>)
    decreases |ticks|
  {
    if ticks == [] then incs == []
    else if ticks[0].frame.id == id then
      && ticks[0].frame.Live() && incs != []
      && Carries(ticks[0].frame.event, sofar, incs[0])
      && Encodes(ticks[1..], id, sofar + incs[0], incs[1..])
    else
      Encodes(ticks[1..], id, sofar, incs)
  }

  ghost function CachesAfter(c: Caches, ticks: seq<Tick>, window: int): Caches
    decreases |ticks|
  {
    if ticks == [] then c
    else CachesAfter(Project(c, ticks[0].frame, ticks[0].now, window).0, ticks[1..], window)
  }

  lemma DeltaGrows(c: Caches, f: Frame, now: int, window: int, inc: string)
    requires f.Live() && Carries(f.event, At(c.contents, f.id), inc)
    ensures var next := Project(c, f, now, window).0;
      At(next.contents, f.id) == At(c.contents, f.id) + inc && At(next.roles, f.id) == At(c.roles, f.id)
  {
    assert At(c.contents, f.id) + inc == "" ==> At(c.contents, f.id) == "" && inc == "";
  }

  lemma OthersKeepText(c: Caches, f: Frame, now: int, window: int, id: string)
    requires f.id != id
    ensures var next := Project(c, f, now, window).0;
      At(next.contents, id) == At(c.contents, id) && At(next.roles, id) == At(c.roles, id)
  {
    match f.event
    case Start(_, _) => OtherKey(c.contents, f.id, "", id);
    case Delta(_, _) => DeltaKeepsOthers(c, f, now, window, id);
    case Final(text) => ClosingKeepsOthers(c, f.id, text, "assistant", id);
    case ThinkingSummary(text) => ClosingKeepsOthers(c, f.id, text, "thinking", id);
    case _ =>
  }

  lemma OtherKey(m: map<string, string>, key: string, text: string, id: string)
    requires key != id
    ensures At(m[key := text], id) == At(m, id)
  {
  }

  lemma DeltaKeepsOthers(c: Caches, f: Frame, now: int, window: int, id: string)
    requires f.id != id && f.event.Delta?
    ensures var next := Project(c, f, now, window).0;
      At(next.contents, id) == At(c.contents, id) && next.roles == c.roles
  {
  }

  lemma ClosingKeepsOthers(c: Caches, closed: string, text: string, fallback: string, id: string)
    ensures var next := Closed(c, closed, text, fallback).0;
      && (closed != id ==> At(next.contents, id) == At(c.contents, id)) && next.roles == c.roles
      && next.toolNames == c.toolNames && next.toolInputs == c.toolInputs
  {
  }

  lemma {:induction false} ContentsAccumulate(c: Caches, ticks: seq<Tick>, id: string, incs: seq<string>, window: int)
    requires Encodes(ticks, id, At(c.contents, id), incs)
    ensures var after := CachesAfter(c, ticks, window);
      && At(after.contents, id) == At(c.contents, id) + Concat(incs)
      && At(after.roles, id) == At(c.roles, id)
    decreases |ticks|
  {
    var text := At(c.contents, id);
    if ticks == [] {
      assert text + Concat(incs) == text;
    } else {
      var f := ticks[0].frame;
      var next := Project(c, f, ticks[0].now, window).0;
      if f.id == id {
        DeltaGrows(c, f, ticks[0].now, window, incs[0]);
        ContentsAccumulate(next, ticks[1..], id, incs[1..], window);
        assert text + incs[0] + Concat(incs[1..]) == text + Concat(incs);
      } else {
        OthersKeepText(c, f, ticks[0].now, window, id);
        ContentsAccumulate(next, ticks[1..], id, incs, window);
      }
    }
  }

  /** However the increments of a message are carried, and whatever is
      throttled, closing it writes exactly their concatenation, no longer
      streaming, in the role of its start. */
  lemma EncodingDoesNotMatter(c: Caches, start: Tick, ticks: seq<Tick>, close: Tick,
                              incs: seq<string>, window: int)
    requires start.frame.Live() && start.frame.event.Start?
    requires Encodes(ticks, start.frame.id, "", incs)
    requires close.frame.Live() && close.frame.id == start.frame.id && close.frame.event.Closes()
    requires close.frame.event.ThinkingFinal? || TrimSpace(close.frame.event.text) == ""
    ensures var begun := Project(c, start.frame, start.now, window).0;
      Project(CachesAfter(begun, ticks, window), close.frame, close.now, window).1
      == Some(MessageEntity(start.frame.id, StartRole(start.frame.event), Concat(incs), false))
  {
    var begun := Project(c, start.frame, start.now, window).0;
    var id := start.frame.id;
    assert At(begun.contents, id) == "" && At(begun.roles, id) == StartRole(start.frame.event);
    ContentsAccumulate(begun, ticks, id, incs, window);
    assert "" + Concat(incs) == Concat(incs);
  }

  // ----- Tool calls -----

  lemma ToolStartRemembers(c: Caches, f: Frame, now: int, window: int)
    requires f.Live() && f.event.ToolStart?
    ensures var next := Project(c, f, now, window).0;
      At(next.toolNames, f.id) == f.event.name && At(next.toolInputs, f.id) == f.event.input
  {
  }

  lemma ToolDoneWrites(c: Caches, f: Frame, now: int, window: int)
    requires f.Live() && f.event.ToolDone?
    ensures Project(c, f, now, window).1
         == Some(Entity(TrimSpace(f.id), "tool_call", 0, 0,
                        ToolCall(At(c.toolNames, f.id), At(c.toolInputs, f.id), "completed", 1, true)))
  {
  }

  lemma ToolsKept(c: Caches, f: Frame, now: int, window: int, id: string)
    requires f.id == id ==> !f.event.ToolStart?
    ensures var next := Project(c, f, now, window).0;
      At(next.toolNames, id) == At(c.toolNames, id) && At(next.toolInputs, id) == At(c.toolInputs, id)
  {
    match f.event
    case Final(text) => ClosingKeepsOthers(c, f.id, text, "assistant", id);
    case ThinkingSummary(text) => ClosingKeepsOthers(c, f.id, text, "thinking", id);
    case _ =>
  }

  lemma {:induction false} ToolRemembered(c: Caches, ticks: seq<Tick>, id: string, window: int)
    requires forall i | 0 <= i < |ticks| && ticks[i].frame.id == id :: !ticks[i].frame.event.ToolStart?
    ensures var after := CachesAfter(c, ticks, window);
      At(after.toolNames, id) == At(c.toolNames, id) && At(after.toolInputs, id) == At(c.toolInputs, id)
    decreases |ticks|
  {
    if ticks != [] {
      var next := Project(c, ticks[0].frame, ticks[0].now, window).0;
      ToolsKept(c, ticks[0].frame, ticks[0].now, window, id);
      ToolRemembered(next, ticks[1..], id, window);
    }
  }

  /** A finished tool call is written with the name and input it last started
      with, whatever frames come in between. */
  lemma ToolCallCompletes(c: Caches, start: Tick, ticks: seq<Tick>, done: Tick, window: int)
    requires start.frame.Live() && start.frame.event.ToolStart?
    requires done.frame.Live() && done.frame.event.ToolDone? && done.frame.id == start.frame.id
    requires forall i | 0 <= i < |ticks| && ticks[i].frame.id == start.frame.id ::
               !ticks[i].frame.event.ToolStart?
    ensures var begun := Project(c, start.frame, start.now, window).0;
      Project(CachesAfter(begun, ticks, window), done.frame, done.now, window).1
      == Some(Entity(TrimSpace(start.frame.id), "tool_call", 0, 0,
                     ToolCall(start.frame.event.name, start.frame.event.input, "completed", 1, true)))
  {
    var begun := Project(c, start.frame, start.now, window).0;
    ToolStartRemembers(c, start.frame, start.now, window);
    ToolRemembered(begun, ticks, start.frame.id, window);
    ToolDoneWrites(CachesAfter(begun, ticks, window), done.frame, done.now, window);
  }
}
