/** A client that keeps itself current by overlaying incremental snapshots. */
module Hydration {
  import opened Timeline
  import opened TimelineMemory

  datatype Client = Client(view: map<string, Entity>, version: nat)

  function Overlay(view: map<string, Entity>, entities: seq<Entity>): map<string, Entity>
    decreases |entities|
  {
    if entities == [] then view
    else Overlay(view, entities[..|entities| - 1])[entities[|entities| - 1].id := entities[|entities| - 1]]
  }

  function Received(client: Client, reply: Snapshot): Client {
    Client(Overlay(client.view, reply.entities), reply.version)
  }

  /** Ask for what changed since the version seen last. */
  ghost function Polled(client: Client, c: Conv, limit: int): Client {
    Received(client, SnapshotOf(c, "", client.version, limit))
  }

  ghost predicate Untruncated(client: Client, c: Conv, limit: int) {
    |Listed(c, client.version)| <= Limit(limit)
  }

  predicate Shows(client: Client, c: Conv, id: string)
    requires id in c.entities
  {
    id in client.view && client.view[id] == c.entities[id]
  }

  /** The client agrees with the store on every stored id. */
  ghost predicate Agrees(client: Client, c: Conv) {
    forall id | id in c.entities :: Shows(client, c, id)
  }

  lemma {:induction false} OverlayLookup(view: map<string, Entity>, entities: seq<Entity>, id: string)
    requires forall i, j | 0 <= i < j < |entities| :: entities[i].id != entities[j].id
    ensures forall i | 0 <= i < |entities| && entities[i].id == id ::
              id in Overlay(view, entities) && Overlay(view, entities)[id] == entities[i]
    ensures (forall i | 0 <= i < |entities| :: entities[i].id != id) ==>
              (id in Overlay(view, entities) <==> id in view)
              && (id in view ==> Overlay(view, entities)[id] == view[id])
    decreases |entities|
  {
    if entities != [] {
      OverlayLookup(view, entities[..|entities| - 1], id);
    }
  }

  /** The id is among the entities that the reply has room for. */
  ghost predicate Delivered(client: Client, c: Conv, limit: int, id: string) {
    exists i :: 0 <= i < |Listed(c, client.version)| && i < Limit(limit) && Listed(c, client.version)[i].id == id
  }

  /** After any poll, cut short or not, a stored id is current at the client
      exactly when the reply had room for it or it was current before. */
  lemma PollShows(client: Client, c: Conv, limit: int, id: string)
    requires Matched(c) && id in c.entities
    ensures Shows(Polled(client, c, limit), c, id) <==> Delivered(client, c, limit, id) || Shows(client, c, id)
  {
    var list := Listed(c, client.version);
    var sent := Take(list, Limit(limit));
    ListedMeaning(c, client.version);
    assert SnapshotOf(c, "", client.version, limit).entities == sent;
    OverlayLookup(client.view, sent, id);
    if Delivered(client, c, limit, id) {
      var i :| 0 <= i < |list| && i < Limit(limit) && list[i].id == id;
      assert sent[i] == list[i];
    } else {
      assert forall i | 0 <= i < |sent| :: sent[i] == list[i];
    }
  }

  /** A complete reply has room for exactly the changed ids. */
  lemma DeliveredUntruncated(client: Client, c: Conv, limit: int, id: string)
    requires Matched(c) && Untruncated(client, c, limit)
    ensures Delivered(client, c, limit, id) <==> id in Changed(c, client.version)
  {
    var list := Listed(c, client.version);
    ListedMeaning(c, client.version);
    if id in Changed(c, client.version) {
      var i :| 0 <= i < |list| && list[i].id == id;
    }
  }

  /** One untruncated poll makes the client complete exactly when it was
      already right about everything written up to its version. */
  lemma PollCompletesExactly(client: Client, c: Conv, limit: int)
    requires Matched(c) && Untruncated(client, c, limit)
    ensures Agrees(Polled(client, c, limit), c) <==>
              forall id | id in c.entities && id !in Changed(c, client.version) :: Shows(client, c, id)
  {
    forall id | id in c.entities
      ensures Shows(Polled(client, c, limit), c, id) <==>
                id in Changed(c, client.version) || Shows(client, c, id)
    {
      PollShows(client, c, limit, id);
      DeliveredUntruncated(client, c, limit, id);
    }
  }

  // ----- Polling over a whole run -----

  /** An accepted write, or a poll of the client. */
  datatype Action = Put(w: Write) | Poll(limit: int)

  datatype Session = Session(conv: Conv, client: Client)

  ghost function After(s: Session, a: Action, max: nat): Session {
    match a
    case Put(w) => s.(conv := Upserted(s.conv, w, max))
    case Poll(limit) => s.(client := Polled(s.client, s.conv, limit))
  }

  const START := Session(EMPTY, Client(map[], 0))

  /** The session after these actions. */
  ghost function Follow(actions: seq<Action>, max: nat): Session {
    if actions == [] then START else After(Follow(actions[..|actions| - 1], max), actions[|actions| - 1], max)
  }

  /** No version is 0, and no reply is cut short. */
  ghost predicate Served(actions: seq<Action>, max: nat) {
    actions == [] ||
    var before, last := Follow(actions[..|actions| - 1], max), actions[|actions| - 1];
    && Served(actions[..|actions| - 1], max)
    && (last.Put? ==> last.w.version > 0)
    && (last.Poll? ==> Untruncated(before.client, before.conv, last.limit))
  }

  ghost predicate Sound(s: Session) {
    && Matched(s.conv) && s.client.version <= s.conv.version
    && (forall id | id in s.conv.entities :: 0 < s.conv.entityVersion[id] <= s.conv.version)
  }

  /** The client will not ask for the entity, and does not show it. */
  ghost predicate Stale(s: Session, id: string) {
    && id in s.conv.entities && id in s.conv.entityVersion
    && s.conv.entityVersion[id] <= s.client.version && !Shows(s.client, s.conv, id)
  }

  /** Eviction only forgets: what stays is as it was. */
  ghost predicate Keeps(c: Conv, kept: Conv) {
    && kept.version == c.version
    && forall id | id in kept.entities ::
         && id in c.entities && id in c.entityVersion && id in kept.entityVersion
         && kept.entities[id] == c.entities[id] && kept.entityVersion[id] == c.entityVersion[id]
  }

  lemma EvictionKeeps(c: Conv, max: nat)
    requires Matched(c)
    ensures Matched(Evicted(c, max)) && Keeps(c, Evicted(c, max))
  {
    EvictedBounds(c, max);
  }

  /** One write: its own entity is stale exactly when it does not exceed the
      client's version and is not what the client shows; others stay as they
      are, if they stay. */
  lemma PutStale(s: Session, w: Write, max: nat, id: string)
    requires Sound(s) && w.version > 0
    ensures var next := After(s, Put(w), max);
      && Sound(next)
      && (Stale(next, id) <==>
            && id in next.conv.entities
            && if id == w.entity.id then w.version <= s.client.version && !Shows(s.client, next.conv, id)
               else Stale(s, id))
  {
    EvictionKeeps(Stored(s.conv, w), max);
  }

  /** A complete poll neither makes nor mends a stale entity; it brings every
      other one up to date. */
  lemma PollStale(s: Session, limit: int, id: string)
    requires Sound(s) && Untruncated(s.client, s.conv, limit)
    ensures var next := After(s, Poll(limit), 0);
      && Sound(next)
      && (Stale(next, id) <==> Stale(s, id))
      && (id in s.conv.entities ==> (Shows(next.client, next.conv, id) <==> !Stale(s, id)))
  {
    if id in s.conv.entities {
      PollShows(s.client, s.conv, limit, id);
      DeliveredUntruncated(s.client, s.conv, limit, id);
    }
  }

  /** The action is the last write of the id. */
  predicate LastPut(actions: seq<Action>, k: nat, id: string) {
    && k < |actions| && actions[k].Put? && actions[k].w.entity.id == id
    && forall j | k < j < |actions| && actions[j].Put? :: actions[j].w.entity.id != id
  }

  /** A write that the client misses: it does not exceed the version the client
      has then, is kept, and is not what the client shows. */
  ghost predicate Missed(actions: seq<Action>, k: nat, max: nat) {
    && k < |actions| && actions[k].Put?
    && var client, conv, w := Follow(actions[..k], max).client, Follow(actions[..k + 1], max).conv, actions[k].w;
       && w.version <= client.version
       && w.entity.id in conv.entities && !Shows(client, conv, w.entity.id)
  }

  ghost predicate MissedLast(actions: seq<Action>, id: string, max: nat) {
    exists k :: LastPut(actions, k, id) && Missed(actions, k, max)
  }

  lemma MissedLastAfterOther(init: seq<Action>, last: Action, id: string, max: nat)
    requires !(last.Put? && last.w.entity.id == id)
    ensures MissedLast(init + [last], id, max) <==> MissedLast(init, id, max)
  {
    var all := init + [last];
    forall k | 0 <= k < |init| ensures Missed(all, k, max) <==> Missed(init, k, max) {
      assert all[..k] == init[..k] && all[..k + 1] == init[..k + 1];
    }
    forall k: nat | k < |init| ensures LastPut(all, k, id) <==> LastPut(init, k, id) {
      assert all[|init|] == last && forall j | 0 <= j < |init| :: all[j] == init[j];
    }
    if MissedLast(init, id, max) {
      var k: nat :| LastPut(init, k, id) && Missed(init, k, max);
      assert LastPut(all, k, id) && Missed(all, k, max);
    }
    if MissedLast(all, id, max) {
      var k: nat :| LastPut(all, k, id) && Missed(all, k, max);
      assert LastPut(init, k, id) && Missed(init, k, max);
    }
  }

  lemma MissedLastAfterOwn(init: seq<Action>, w: Write, max: nat)
    ensures var before, next := Follow(init, max), After(Follow(init, max), Put(w), max);
      MissedLast(init + [Put(w)], w.entity.id, max) <==>
        w.version <= before.client.version
        && w.entity.id in next.conv.entities && !Shows(before.client, next.conv, w.entity.id)
  {
    var all := init + [Put(w)];
    assert all[..|init|] == init && all[..|init| + 1] == all && all[|init|] == Put(w);
    FollowStep(init, Put(w), max);
    assert LastPut(all, |init|, w.entity.id);
    forall k: nat | LastPut(all, k, w.entity.id) ensures k == |init| {
      assert all[|init|] == Put(w);
    }
    assert MissedLast(all, w.entity.id, max) <==> Missed(all, |init|, max);
  }

  lemma FollowStep(init: seq<Action>, last: Action, max: nat)
    ensures Follow(init + [last], max) == After(Follow(init, max), last, max)
  {
    assert (init + [last])[..|init|] == init;
  }

  lemma StaleStep(init: seq<Action>, last: Action, max: nat, id: string)
    requires var s := Follow(init, max);
      && Sound(s) && (Stale(s, id) <==> id in s.conv.entities && MissedLast(init, id, max))
      && (last.Put? ==> last.w.version > 0)
      && (last.Poll? ==> Untruncated(s.client, s.conv, last.limit))
    ensures var s := After(Follow(init, max), last, max);
      Sound(s) && (Stale(s, id) <==> id in s.conv.entities && MissedLast(init + [last], id, max))
  {
    var s := Follow(init, max);
    match last {
      case Put(w) =>
        PutStale(s, w, max, id);
        if w.entity.id == id {
          MissedLastAfterOwn(init, w, max);
        } else {
          MissedLastAfterOther(init, last, id, max);
          EvictionKeeps(Stored(s.conv, w), max);
        }
      case Poll(limit) =>
        PollStale(s, limit, id);
        MissedLastAfterOther(init, last, id, max);
    }
  }

  /** At any moment of a run the stale entities are the stored ones whose last
      write the client missed. */
  lemma {:induction false} StaleExactly(actions: seq<Action>, max: nat, id: string)
    requires Served(actions, max)
    ensures Sound(Follow(actions, max))
    ensures Stale(Follow(actions, max), id) <==>
              id in Follow(actions, max).conv.entities && MissedLast(actions, id, max)
  {
    if actions != [] {
      var init, last := actions[..|actions| - 1], actions[|actions| - 1];
      assert actions == init + [last];
      StaleExactly(init, max, id);
      StaleStep(init, last, max, id);
      FollowStep(init, last, max);
    }
  }

  /** After a poll of any run with complete replies, evictions included, the
      client agrees with the store exactly when it missed the last write of no
      entity still stored. */
  lemma HydrationExactly(actions: seq<Action>, limit: int, max: nat)
    requires Served(actions + [Poll(limit)], max)
    ensures var end := Follow(actions + [Poll(limit)], max);
      Agrees(end.client, end.conv) <==> forall id | id in end.conv.entities :: !MissedLast(actions, id, max)
  {
    var all := actions + [Poll(limit)];
    assert all[..|all| - 1] == actions;
    var before := Follow(actions, max);
    forall id | id in before.conv.entities
      ensures Shows(Follow(all, max).client, before.conv, id) <==> !MissedLast(actions, id, max)
    {
      StaleExactly(actions, max, id);
      PollStale(before, limit, id);
    }
  }

  /** Each write exceeds the version that the client has then. Versions may
      repeat or go down between two polls. */
  ghost predicate Ahead(actions: seq<Action>, max: nat) {
    forall k | 0 <= k < |actions| && actions[k].Put? ::
      actions[k].w.version > Follow(actions[..k], max).client.version
  }

  /** After every poll of a run whose writes exceed the version of the client,
      with complete replies, the client agrees with the store, evictions
      included. */
  lemma HydrationIsComplete(actions: seq<Action>, limit: int, max: nat)
    requires Served(actions + [Poll(limit)], max) && Ahead(actions, max)
    ensures var end := Follow(actions + [Poll(limit)], max); Agrees(end.client, end.conv)
  {
    HydrationExactly(actions, limit, max);
    forall id ensures !MissedLast(actions, id, max) {
      assert forall k | 0 <= k < |actions| :: !Missed(actions, k, max);
    }
  }

  /** A write that does not exceed the version a client has seen, as when
      frames of one event share it, is not delivered by the next poll: the
      client shows it only if it showed exactly that entity before. */
  lemma SharedVersionIsMissed(client: Client, c: Conv, w: Write, max: nat, limit: int)
    requires Matched(c) && 0 < client.version && w.version <= client.version
    ensures var after := Upserted(c, w, max);
      w.entity.id in after.entities && Untruncated(client, after, limit) ==>
        (Shows(Polled(client, after, limit), after, w.entity.id) <==> Shows(client, after, w.entity.id))
  {
    var stored := Stored(c, w);
    EvictedBounds(stored, max);
    var after := Upserted(c, w, max);
    if w.entity.id in after.entities && Untruncated(client, after, limit) {
      assert after.entityVersion[w.entity.id] == stored.entityVersion[w.entity.id];
      PollShows(client, after, limit, w.entity.id);
      DeliveredUntruncated(client, after, limit, w.entity.id);
    }
  }
}
