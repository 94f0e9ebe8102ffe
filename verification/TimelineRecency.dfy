/** The bounded memory store, written with increasing versions, keeps exactly
    the entities written most recently. */
module TimelineRecency {
  import opened Text
  import opened Ranked
  import opened Timeline
  import opened TimelineMemory

  ghost predicate IncreasingVersions(ws: seq<Write>) {
    forall i, j | 0 <= i < j < |ws| :: ws[i].version < ws[j].version
  }

  // ----- Which ids were written most recently -----

  function Drop(ids: seq<string>, x: string): seq<string> {
    if ids == [] then [] else if ids[0] == x then ids[1..] else [ids[0]] + Drop(ids[1..], x)
  }

  /** The distinct ids written, least recent first. */
  function Recency(ws: seq<Write>): seq<string> {
    if ws == [] then []
    else
      var id := ws[|ws| - 1].entity.id;
      Drop(Recency(ws[..|ws| - 1]), id) + [id]
  }

  function LastOf<T>(s: seq<T>, n: nat): seq<T> {
    if |s| <= n then s else s[|s| - n..]
  }

  /** Position of the last write of an id, or -1. */
  function LastIndex(ws: seq<Write>, id: string): (i: int)
    ensures -1 <= i < |ws|
    ensures i >= 0 ==> ws[i].entity.id == id
    ensures forall j | i < j < |ws| :: ws[j].entity.id != id
  {
    if ws == [] then -1
    else if ws[|ws| - 1].entity.id == id then |ws| - 1
    else LastIndex(ws[..|ws| - 1], id)
  }

  function Set(ids: seq<string>): set<string> {
    set i | 0 <= i < |ids| :: ids[i]
  }

  lemma {:induction false} DropOne(ids: seq<string>, x: string)
    requires Distinct(ids)
    ensures Distinct(Drop(ids, x)) && Set(Drop(ids, x)) == Set(ids) - {x}
    ensures |Drop(ids, x)| == |ids| - (if x in ids then 1 else 0)
    ensures x !in ids ==> Drop(ids, x) == ids
  {
    if ids != [] {
      var rest := ids[1..];
      DropOne(rest, x);
      assert ids == [ids[0]] + rest;
      SetOfCons(ids[0], rest);
      if ids[0] != x {
        SetOfCons(ids[0], Drop(rest, x));
        assert Drop(ids, x) == [ids[0]] + Drop(rest, x);
        forall j | 0 < j < |Drop(ids, x)| ensures Drop(ids, x)[j] != ids[0] {
          assert Drop(rest, x)[j - 1] in Set(Drop(rest, x));
        }
      }
    }
  }

  lemma SetOfCons(x: string, rest: seq<string>)
    ensures Set([x] + rest) == {x} + Set(rest)
  {
    var s := [x] + rest;
    assert s[0] == x;
    forall y | y in Set(rest) ensures y in Set(s) {
      var i :| 0 <= i < |rest| && rest[i] == y;
      assert s[i + 1] == y;
    }
  }

  lemma SetOfConcat(a: seq<string>, b: seq<string>)
    ensures Set(a + b) == Set(a) + Set(b)
  {
    forall y | y in Set(a) ensures y in Set(a + b) {
      var i :| 0 <= i < |a| && a[i] == y;
      assert (a + b)[i] == y;
    }
    forall y | y in Set(b) ensures y in Set(a + b) {
      var i :| 0 <= i < |b| && b[i] == y;
      assert (a + b)[|a| + i] == y;
    }
  }

  lemma {:induction false} DropConcat(a: seq<string>, b: seq<string>, x: string)
    ensures Drop(a + b, x) == if x in a then Drop(a, x) + b else a + Drop(b, x)
  {
    if a == [] {
      assert a + b == b;
    } else {
      var first, rest := a[0], a[1..];
      assert (a + b)[1..] == rest + b && (a + b)[0] == first;
      DropConcat(rest, b, x);
      if first != x {
        assert x in a <==> x in rest by {
          assert a == [first] + rest;
        }
        Regroup(first, if x in rest then Drop(rest, x) else rest, if x in rest then b else Drop(b, x));
        assert !(x in rest) ==> [first] + rest == a;
      }
    }
  }

  lemma Regroup(first: string, middle: seq<string>, end: seq<string>)
    ensures [first] + (middle + end) == [first] + middle + end
  {
  }

  lemma {:induction false} DropIsSublist(ids: seq<string>, x: string)
    ensures forall id | id in Drop(ids, x) :: id in ids
  {
    if ids != [] && ids[0] != x {
      DropIsSublist(ids[1..], x);
      forall id | id in Drop(ids, x) ensures id in ids {
        assert id == ids[0] || id in ids[1..];
      }
    }
  }

  lemma {:induction false} DropKeepsOrder(ws: seq<Write>, ids: seq<string>, x: string)
    requires Ascending(ws, ids)
    ensures Ascending(ws, Drop(ids, x))
  {
    if ids != [] && ids[0] != x {
      var rest := Drop(ids[1..], x);
      DropKeepsOrder(ws, ids[1..], x);
      DropIsSublist(ids[1..], x);
      AscendingCons(ws, ids[0], ids[1..], rest);
    }
  }

  lemma AscendingCons(ws: seq<Write>, first: string, all: seq<string>, some: seq<string>)
    requires Ascending(ws, [first] + all) && Ascending(ws, some)
    requires forall id | id in some :: id in all
    ensures Ascending(ws, [first] + some)
  {
    forall j | 0 <= j < |some| ensures LastIndex(ws, first) < LastIndex(ws, some[j]) {
      assert some[j] in all;
      var i :| 0 <= i < |all| && all[i] == some[j];
      assert ([first] + all)[0] == first && ([first] + all)[i + 1] == some[j];
    }
  }

  /** Ids in the order of their last writes. */
  ghost predicate Ascending(ws: seq<Write>, ids: seq<string>) {
    forall i, j | 0 <= i < j < |ids| :: LastIndex(ws, ids[i]) < LastIndex(ws, ids[j])
  }

  /** Moving the id just written to the end keeps the order of last writes. */
  lemma WindowAscends(ws: seq<Write>, ids: seq<string>)
    requires ws != [] && Distinct(ids) && Ascending(ws[..|ws| - 1], ids)
    requires forall id | id in ids :: LastIndex(ws[..|ws| - 1], id) >= 0
    ensures var x := ws[|ws| - 1].entity.id;
      Ascending(ws, Drop(ids, x) + [x]) && Distinct(Drop(ids, x) + [x])
  {
    var init, x := ws[..|ws| - 1], ws[|ws| - 1].entity.id;
    DropOne(ids, x);
    DropKeepsOrder(init, ids, x);
    var after := Drop(ids, x);
    forall i | 0 <= i < |after|
      ensures after[i] != x && LastIndex(ws, after[i]) == LastIndex(init, after[i])
    {
      assert after[i] in Set(after);
    }
  }

  /** Recency lists every written id once, in the order of last writes. */
  lemma {:induction false} RecencyMeaning(ws: seq<Write>)
    ensures Distinct(Recency(ws)) && Ascending(ws, Recency(ws))
    ensures forall id :: id in Recency(ws) <==> LastIndex(ws, id) >= 0
  {
    if ws != [] {
      var init, x := ws[..|ws| - 1], ws[|ws| - 1].entity.id;
      RecencyMeaning(init);
      WindowAscends(ws, Recency(init));
      forall id ensures id in Recency(ws) <==> LastIndex(ws, id) >= 0 {
        MovedToEnd(Recency(init), x, id);
      }
    }
  }

  lemma MovedToEnd(ids: seq<string>, x: string, id: string)
    requires Distinct(ids)
    ensures id in Drop(ids, x) + [x] <==> id == x || id in ids
  {
    DropOne(ids, x);
    assert id in Set(Drop(ids, x)) <==> id in Drop(ids, x);
    assert id in Set(ids) <==> id in ids;
  }

  lemma LastOfConcat<T>(a: seq<T>, b: seq<T>, n: nat)
    requires |b| >= n
    ensures LastOf(a + b, n) == LastOf(b, n)
  {
  }

  /** One more id: the window of the n most recent shifts by at most one. */
  lemma WindowShift(ids: seq<string>, x: string, n: nat)
    requires Distinct(ids) && n > 0
    ensures var window := Drop(LastOf(ids, n), x) + [x];
      LastOf(Drop(ids, x) + [x], n) == (if |window| <= n then window else window[1..])
  {
    var kept := LastOf(ids, n);
    var older := ids[..|ids| - |kept|];
    assert ids == older + kept;
    DropConcat(older, kept, x);
    if x in older {
      InEarlierPart(older, kept, x);
      NothingDropped(kept, x);
      ShiftBy(Drop(older, x), kept, x, n);
    } else {
      DropShortens(kept, x);
      ShiftBy(older, Drop(kept, x), x, n);
    }
  }

  lemma NothingDropped(ids: seq<string>, x: string)
    requires x !in ids
    ensures Drop(ids, x) == ids
  {
    if ids != [] {
      NothingDropped(ids[1..], x);
      assert ids == [ids[0]] + ids[1..];
    }
  }

  lemma DropShortens(ids: seq<string>, x: string)
    ensures |ids| - 1 <= |Drop(ids, x)| <= |ids|
  {
    if ids != [] {
      DropShortens(ids[1..], x);
    }
  }

  lemma ShiftBy(older: seq<string>, kept: seq<string>, x: string, n: nat)
    requires |kept| <= n && (|kept| + 1 >= n || older == [])
    ensures var window := kept + [x];
      LastOf(older + kept + [x], n) == (if |window| <= n then window else window[1..])
  {
    var window := kept + [x];
    assert older + kept + [x] == older + window;
    if older == [] {
      assert older + window == window;
    } else {
      LastOfConcat(older, window, n);
    }
  }

  lemma InEarlierPart(a: seq<string>, b: seq<string>, x: string)
    requires Distinct(a + b) && x in a
    ensures x !in b
  {
    var i :| 0 <= i < |a| && a[i] == x;
    assert (a + b)[i] == x;
    forall j | 0 <= j < |b| ensures b[j] != x {
      assert (a + b)[|a| + j] == b[j];
    }
  }

  // ----- The store against the window -----

  function LastVersion(ws: seq<Write>, id: string): nat
    requires LastIndex(ws, id) >= 0
  {
    ws[LastIndex(ws, id)].version
  }

  /** The stored entity is the last write of its id, creation time aside. */
  ghost predicate HoldsLast(c: Conv, ws: seq<Write>, id: string) {
    && LastIndex(ws, id) >= 0
    && id in c.entities && id in c.entityVersion
    && var w := ws[LastIndex(ws, id)];
       && c.entityVersion[id] == w.version
       && c.entities[id] == w.entity.(createdAtMs := c.entities[id].createdAtMs, updatedAtMs := w.now)
  }

  ghost predicate HoldsExactly(c: Conv, ws: seq<Write>, ids: seq<string>) {
    && c.entities.Keys == c.entityVersion.Keys == Set(ids)
    && forall id | id in Set(ids) :: HoldsLast(c, ws, id)
  }

  lemma StoredHolds(c: Conv, ws: seq<Write>, w: Write, ids: seq<string>)
    requires HoldsExactly(c, ws, ids) && Distinct(ids)
    ensures HoldsExactly(Stored(c, w), ws + [w], Drop(ids, w.entity.id) + [w.entity.id])
  {
    var x, after := w.entity.id, Stored(c, w);
    DropOne(ids, x);
    SetOfConcat(Drop(ids, x), [x]);
    assert Set([x]) == {x} by {
      assert [x][0] == x;
    }
    var longer := ws + [w];
    assert longer[..|ws|] == ws;
    forall id | id in Set(Drop(ids, x) + [x]) ensures HoldsLast(after, longer, id) {
      if id != x {
        assert HoldsLast(c, ws, id);
        assert LastIndex(longer, id) == LastIndex(ws, id);
      }
    }
  }

  /** The stored ages of ids, in their order. */
  ghost function AgesOf(ws: seq<Write>, ids: seq<string>): (ages: seq<Item>)
    requires forall id | id in ids :: LastIndex(ws, id) >= 0
    ensures |ages| == |ids|
    ensures forall i | 0 <= i < |ids| :: ages[i] == Item(LastVersion(ws, ids[i]), ids[i])
  {
    seq(|ids|, i requires 0 <= i < |ids| => Item(LastVersion(ws, ids[i]), ids[i]))
  }

  lemma AgesElements(c: Conv, ws: seq<Write>, ids: seq<string>)
    requires HoldsExactly(c, ws, ids)
    requires forall id | id in ids :: LastIndex(ws, id) >= 0
    ensures Elements(AgesOf(ws, ids)) == Ages(c)
  {
    var ages := AgesOf(ws, ids);
    forall x | x in Ages(c) ensures x in Elements(ages) {
      assert HoldsLast(c, ws, x.id);
      var i :| 0 <= i < |ids| && ids[i] == x.id;
      assert ages[i] == x;
    }
    forall x | x in Elements(ages) ensures x in Ages(c) {
      var i :| 0 <= i < |ages| && ages[i] == x;
      assert ids[i] in Set(ids) && HoldsLast(c, ws, ids[i]);
    }
  }

  /** With increasing versions, age order is write order. */
  lemma AgesInWriteOrder(c: Conv, ws: seq<Write>, ids: seq<string>)
    requires IncreasingVersions(ws) && Ascending(ws, ids) && HoldsExactly(c, ws, ids)
    ensures |Ordered(Ages(c))| == |ids|
    ensures forall i | 0 <= i < |ids| :: Ordered(Ages(c))[i].id == ids[i]
  {
    forall id | id in ids ensures LastIndex(ws, id) >= 0 {
      assert id in Set(ids) && HoldsLast(c, ws, id);
    }
    AgesElements(c, ws, ids);
    OrderedUnique(AgesOf(ws, ids), Ages(c));
  }

  lemma FirstIsEvicted(c: Conv, ws: seq<Write>, ids: seq<string>)
    requires IncreasingVersions(ws) && Ascending(ws, ids) && HoldsExactly(c, ws, ids)
    requires ids != [] && |c.entities| == |ids|
    ensures Evicted(c, |ids| - 1) == Without(c, {ids[0]})
  {
    AgesInWriteOrder(c, ws, ids);
    var ages := Ordered(Ages(c));
    assert ages[..1][0].id == ids[0];
    assert Ids(ages[..1]) == {ids[0]};
  }

  lemma WithoutFirst(c: Conv, ws: seq<Write>, ids: seq<string>)
    requires Distinct(ids) && ids != [] && HoldsExactly(c, ws, ids)
    ensures HoldsExactly(Without(c, {ids[0]}), ws, ids[1..])
  {
    var kept := Without(c, {ids[0]});
    assert ids == [ids[0]] + ids[1..];
    SetOfCons(ids[0], ids[1..]);
    assert ids[0] !in Set(ids[1..]);
    forall id | id in Set(ids[1..]) ensures HoldsLast(kept, ws, id) {
      assert HoldsLast(c, ws, id);
    }
  }

  lemma EvictedHolds(c: Conv, ws: seq<Write>, ids: seq<string>, max: nat)
    requires IncreasingVersions(ws) && Ascending(ws, ids) && Distinct(ids) && HoldsExactly(c, ws, ids)
    requires |ids| <= max + 1
    ensures HoldsExactly(Evicted(c, max), ws, if |ids| <= max then ids else ids[1..])
  {
    SizeOf(ids);
    assert |c.entities| == |c.entities.Keys| == |ids|;
    if |ids| > max {
      FirstIsEvicted(c, ws, ids);
      WithoutFirst(c, ws, ids);
    }
  }

  lemma {:induction false} SizeOf(ids: seq<string>)
    requires Distinct(ids)
    ensures |Set(ids)| == |ids|
  {
    if ids != [] {
      SizeOf(ids[1..]);
      assert ids == [ids[0]] + ids[1..];
      SetOfCons(ids[0], ids[1..]);
    }
  }

  lemma LastOfKeeps(ws: seq<Write>, ids: seq<string>, n: nat)
    requires Distinct(ids) && Ascending(ws, ids)
    ensures Distinct(LastOf(ids, n)) && Ascending(ws, LastOf(ids, n))
    ensures forall id | id in LastOf(ids, n) :: id in ids
  {
    var kept := LastOf(ids, n);
    var offset := |ids| - |kept|;
    assert ids[offset..] == kept;
    forall i, j | 0 <= i < j < |kept|
      ensures kept[i] != kept[j] && LastIndex(ws, kept[i]) < LastIndex(ws, kept[j])
    {
      assert kept[i] == ids[offset + i] && kept[j] == ids[offset + j];
    }
  }

  lemma LruStep(c: Conv, init: seq<Write>, w: Write, max: nat)
    requires IncreasingVersions(init + [w]) && max > 0
    requires HoldsExactly(c, init, LastOf(Recency(init), max))
    ensures HoldsExactly(Upserted(c, w, max), init + [w], LastOf(Recency(init + [w]), max))
  {
    var ws, ids, x := init + [w], LastOf(Recency(init), max), w.entity.id;
    assert ws[..|ws| - 1] == init;
    RecencyMeaning(init);
    LastOfKeeps(init, Recency(init), max);
    StoredHolds(c, init, w, ids);
    WindowShift(Recency(init), x, max);
    WindowAscends(ws, ids);
    DropShortens(ids, x);
    EvictedHolds(Stored(c, w), ws, Drop(ids, x) + [x], max);
  }

  lemma {:induction false} ReplayIsWriteLru(ws: seq<Write>, max: nat)
    requires IncreasingVersions(ws) && max > 0
    ensures HoldsExactly(Replay(ws, max), ws, LastOf(Recency(ws), max))
  {
    if ws != [] {
      var init := ws[..|ws| - 1];
      assert ws == init + [ws[|ws| - 1]];
      ReplayIsWriteLru(init, max);
      LruStep(Replay(init, max), init, ws[|ws| - 1], max);
    }
  }

  /** If the versions it accepts increase, the store holds exactly the max
      distinct ids written most recently, each with its last write. */
  lemma StoreIsWriteLru(ws: seq<Write>, max: nat)
    requires IncreasingVersions(Accepted(ws)) && max > 0
    ensures HoldsExactly(AfterCalls(EMPTY, ws, max), Accepted(ws), LastOf(Recency(Accepted(ws)), max))
  {
    CallsReplay(ws, max);
    ReplayIsWriteLru(Accepted(ws), max);
  }
}
