/** Middlewares of a runtime: an ordered list in which a later use of a key
    overrides an earlier one in place. */
module RuntimeMiddlewares {
  import opened Wrappers
  import opened Text

  datatype MiddlewareUse = MiddlewareUse(
    name: string, id: string, enabled: Option<bool>, config: map<string, string>)
  {
    function Normal(): MiddlewareUse {
      this.(name := TrimSpace(name), id := TrimSpace(id))
    }

    /** runtimeMiddlewareKey. */
    function Key(): string {
      if TrimSpace(id) == "" then TrimSpace(name) else TrimSpace(name) + "\0" + TrimSpace(id)
    }
  }

  lemma NormalTwice(use: MiddlewareUse)
    ensures use.Normal().Normal() == use.Normal() && use.Normal().Key() == use.Key()
  {
    TrimIdempotent(use.name);
    TrimIdempotent(use.id);
  }

  /** Position of the use with this key, or the length. */
  function Find(uses: seq<MiddlewareUse>, key: string): (i: nat)
    ensures i <= |uses|
    ensures i < |uses| ==> uses[i].Key() == key
    ensures forall j | 0 <= j < i :: uses[j].Key() != key
  {
    if uses == [] || uses[0].Key() == key then 0 else 1 + Find(uses[1..], key)
  }

  function Place(out: seq<MiddlewareUse>, use: MiddlewareUse): seq<MiddlewareUse> {
    var i := Find(out, use.Key());
    if i < |out| then out[i := use.Normal()] else out + [use.Normal()]
  }

  function Overlay(out: seq<MiddlewareUse>, uses: seq<MiddlewareUse>): seq<MiddlewareUse>
    decreases |uses|
  {
    if uses == [] then out else Overlay(Place(out, uses[0]), uses[1..])
  }

  /** Normal uses under pairwise distinct keys. */
  ghost predicate Settled(out: seq<MiddlewareUse>) {
    && (forall i | 0 <= i < |out| :: out[i].Normal() == out[i])
    && (forall i, j | 0 <= i < j < |out| :: out[i].Key() != out[j].Key())
  }

  ghost predicate Indexed(out: seq<MiddlewareUse>, positions: map<string, nat>) {
    && Settled(out)
    && (forall i | 0 <= i < |out| :: out[i].Key() in positions && positions[out[i].Key()] == i)
    && (forall k | k in positions :: positions[k] < |out| && out[positions[k]].Key() == k)
  }

  method AppendUse(out: seq<MiddlewareUse>, positions: map<string, nat>, use: MiddlewareUse)
    returns (longer: seq<MiddlewareUse>, index: map<string, nat>)
    requires Indexed(out, positions)
    ensures Indexed(longer, index) && longer == Place(out, use)
  {
    NormalTwice(use);
    var key := use.Key();
    if key in positions {
      longer, index := out[positions[key] := use.Normal()], positions;
    } else {
      longer, index := out + [use.Normal()], positions[key := |out|];
    }
  }

  method AppendUses(out: seq<MiddlewareUse>, positions: map<string, nat>, uses: seq<MiddlewareUse>)
    returns (longer: seq<MiddlewareUse>, index: map<string, nat>)
    requires Indexed(out, positions)
    ensures Indexed(longer, index) && longer == Overlay(out, uses)
  {
    longer, index := out, positions;
    for i := 0 to |uses|
      invariant Indexed(longer, index) && Overlay(longer, uses[i..]) == Overlay(out, uses)
    {
      assert uses[i..][1..] == uses[i + 1..];
      longer, index := AppendUse(longer, index, uses[i]);
    }
  }

  method MergeRuntimeMiddlewares(base: seq<MiddlewareUse>, overlay: seq<MiddlewareUse>)
    returns (out: seq<MiddlewareUse>)
    ensures out == Overlay([], base + overlay)
  {
    if |base| == 0 && |overlay| == 0 {
      return [];
    }
    var positions: map<string, nat> := map[];
    out, positions := AppendUses([], positions, base);
    out, positions := AppendUses(out, positions, overlay);
    OverlayConcat([], base, overlay);
  }

  lemma {:induction false} OverlayAppend(out: seq<MiddlewareUse>, uses: seq<MiddlewareUse>, use: MiddlewareUse)
    ensures Overlay(out, uses + [use]) == Place(Overlay(out, uses), use)
    decreases |uses|
  {
    if uses == [] {
      assert uses + [use] == [use];
    } else {
      assert (uses + [use])[1..] == uses[1..] + [use];
      OverlayAppend(Place(out, uses[0]), uses[1..], use);
    }
  }

  lemma {:induction false} OverlayConcat(out: seq<MiddlewareUse>, a: seq<MiddlewareUse>, b: seq<MiddlewareUse>)
    ensures Overlay(out, a + b) == Overlay(Overlay(out, a), b)
    decreases |a|
  {
    if a == [] {
      assert a + b == b;
    } else {
      assert (a + b)[1..] == a[1..] + b;
      OverlayConcat(Place(out, a[0]), a[1..], b);
    }
  }

  lemma PlaceSettles(out: seq<MiddlewareUse>, use: MiddlewareUse)
    requires Settled(out)
    ensures Settled(Place(out, use))
  {
    NormalTwice(use);
  }

  lemma {:induction false} OverlaySettles(out: seq<MiddlewareUse>, uses: seq<MiddlewareUse>)
    requires Settled(out)
    ensures Settled(Overlay(out, uses))
    decreases |uses|
  {
    if uses != [] {
      PlaceSettles(out, uses[0]);
      OverlaySettles(Place(out, uses[0]), uses[1..]);
    }
  }

  /** The first position with a key decides where a use is placed. */
  lemma PlaceAt(out: seq<MiddlewareUse>, key: string, use: MiddlewareUse, i: nat)
    requires use.Key() == key && FirstAt(out, key, i)
    ensures Place(out, use) == if i < |out| then out[i := use.Normal()] else out + [use.Normal()]
  {
  }

  /** Two placements under different keys commute once the second is present. */
  lemma PlaceCommutes(out: seq<MiddlewareUse>, a: MiddlewareUse, b: MiddlewareUse)
    requires a.Key() != b.Key() && Find(out, b.Key()) < |out|
    ensures Place(Place(out, a), b) == Place(Place(out, b), a)
  {
    NormalTwice(a);
    NormalTwice(b);
    CommuteAt(out, a, Find(out, a.Key()), b, Find(out, b.Key()));
  }

  /** The entry with this key is at i: a use with that key replaces it. */
  ghost predicate FirstAt(out: seq<MiddlewareUse>, key: string, i: nat) {
    && i <= |out| && (i < |out| ==> out[i].Key() == key)
    && (forall k | 0 <= k < i :: out[k].Key() != key)
  }

  lemma FirstAtAfter(out: seq<MiddlewareUse>, key: string, i: nat, other: MiddlewareUse, j: nat)
    requires FirstAt(out, key, i) && FirstAt(out, other.Key(), j) && key != other.Key()
    requires i < |out| || j < |out|
    ensures FirstAt(Place(out, other), key, i)
  {
    NormalTwice(other);
    PlaceAt(out, other.Key(), other, j);
  }

  /** Placing b after a, when b replaces the entry at j. */
  lemma ReplacedAfter(out: seq<MiddlewareUse>, a: MiddlewareUse, i: nat, b: MiddlewareUse, j: nat)
    requires a.Key() != b.Key() && j < |out|
    requires FirstAt(out, a.Key(), i) && FirstAt(out, b.Key(), j)
    ensures Place(Place(out, a), b) == (if i < |out| then out[i := a.Normal()] else out + [a.Normal()])[j := b.Normal()]
  {
    PlaceAt(out, a.Key(), a, i);
    FirstAtAfter(out, b.Key(), j, a, i);
    PlaceAt(Place(out, a), b.Key(), b, j);
  }

  /** Placing a after b has replaced the entry at j. */
  lemma PlacedAfter(out: seq<MiddlewareUse>, a: MiddlewareUse, i: nat, b: MiddlewareUse, j: nat)
    requires a.Key() != b.Key() && j < |out|
    requires FirstAt(out, a.Key(), i) && FirstAt(out, b.Key(), j)
    ensures var replaced := out[j := b.Normal()];
      Place(Place(out, b), a) == if i < |out| then replaced[i := a.Normal()] else replaced + [a.Normal()]
  {
    PlaceAt(out, b.Key(), b, j);
    FirstAtAfter(out, a.Key(), i, b, j);
    PlaceAt(Place(out, b), a.Key(), a, i);
  }

  lemma CommuteAt(out: seq<MiddlewareUse>, a: MiddlewareUse, i: nat, b: MiddlewareUse, j: nat)
    requires a.Key() != b.Key() && j < |out|
    requires FirstAt(out, a.Key(), i) && FirstAt(out, b.Key(), j)
    ensures Place(Place(out, a), b) == Place(Place(out, b), a)
  {
    ReplacedAfter(out, a, i, b, j);
    PlacedAfter(out, a, i, b, j);
    if i < |out| {
      UpdatesCommute(out, i, a.Normal(), j, b.Normal());
    } else {
      UpdateBeforeEnd(out, a.Normal(), j, b.Normal());
    }
  }

  lemma UpdateBeforeEnd<T>(s: seq<T>, x: T, j: nat, y: T)
    requires j < |s|
    ensures (s + [x])[j := y] == s[j := y] + [x]
  {
  }

  lemma UpdatesCommute<T>(s: seq<T>, i: nat, x: T, j: nat, y: T)
    requires i < |s| && j < |s| && i != j
    ensures s[i := x][j := y] == s[j := y][i := x]
  {
  }

  lemma FindIs(out: seq<MiddlewareUse>, key: string, i: nat)
    requires i <= |out| && (forall j | 0 <= j < i :: out[j].Key() != key)
    requires i < |out| ==> out[i].Key() == key
    ensures Find(out, key) == i
  {
  }

  lemma PlaceTwice(out: seq<MiddlewareUse>, a: MiddlewareUse, b: MiddlewareUse)
    requires Settled(out) && a.Key() == b.Key()
    ensures Place(Place(out, a), b) == Place(out, b)
  {
    NormalTwice(a);
    var i := Find(out, a.Key());
    FindIs(Place(out, a), a.Key(), i);
  }

  lemma PlaceInTail(d: seq<MiddlewareUse>, use: MiddlewareUse)
    requires d != [] && d[0].Key() != use.Key()
    ensures Place(d, use)[0] == d[0] && Place(d, use)[1..] == Place(d[1..], use)
  {
    var i, rest := Find(d, use.Key()), d[1..];
    FindIs(rest, use.Key(), i - 1);
    if i < |d| {
      assert d[i := use.Normal()][1..] == rest[i - 1 := use.Normal()];
    } else {
      assert (d + [use.Normal()])[1..] == rest + [use.Normal()];
    }
  }

  lemma PlaceOverHead(out: seq<MiddlewareUse>, d: seq<MiddlewareUse>, use: MiddlewareUse)
    requires Settled(out) && Settled(d) && d != [] && d[0].Key() == use.Key()
    ensures Overlay(out, Place(d, use)) == Place(Overlay(out, d), use)
  {
    var rest := d[1..];
    PlacesLikeNormal(d, out, use);
    PlaceTwice(out, d[0], use);
    PlaceSettles(out, d[0]);
    forall j | 0 <= j < |rest| ensures rest[j].Key() != use.Key() {
      assert rest[j] == d[j + 1];
    }
    OverlayCommutes(Place(out, d[0]), rest, use);
  }

  /** Placing over the first entry, and overlaying what results. */
  lemma PlacesLikeNormal(d: seq<MiddlewareUse>, out: seq<MiddlewareUse>, use: MiddlewareUse)
    requires d != [] && d[0].Key() == use.Key()
    ensures Overlay(out, Place(d, use)) == Overlay(Place(out, use), d[1..])
  {
    NormalTwice(use);
    assert Place(d, use) == [use.Normal()] + d[1..];
    assert Place(out, use.Normal()) == Place(out, use);
  }

  /** Overriding an entry before or after overlaying is the same. */
  lemma {:induction false} PlaceThenOverlay(out: seq<MiddlewareUse>, d: seq<MiddlewareUse>, use: MiddlewareUse)
    requires Settled(out) && Settled(d)
    ensures Overlay(out, Place(d, use)) == Place(Overlay(out, d), use)
    decreases |d|
  {
    NormalTwice(use);
    var i := Find(d, use.Key());
    if i == |d| {
      OverlayAppend(out, d, use.Normal());
      assert Place(Overlay(out, d), use.Normal()) == Place(Overlay(out, d), use);
    } else if i == 0 {
      PlaceOverHead(out, d, use);
    } else {
      PlaceInTail(d, use);
      PlaceSettles(out, d[0]);
      PlaceThenOverlay(Place(out, d[0]), d[1..], use);
    }
  }

  lemma {:induction false} OverlayCommutes(out: seq<MiddlewareUse>, rest: seq<MiddlewareUse>, use: MiddlewareUse)
    requires Settled(out) && Find(out, use.Key()) < |out|
    requires forall j | 0 <= j < |rest| :: rest[j].Key() != use.Key()
    ensures Overlay(Place(out, use), rest) == Place(Overlay(out, rest), use)
    decreases |rest|
  {
    if rest != [] {
      PlaceCommutes(out, rest[0], use);
      PlaceSettles(out, rest[0]);
      PlaceKeeps(out, rest[0], use.Key());
      OverlayCommutes(Place(out, rest[0]), rest[1..], use);
    }
  }

  lemma PlaceKeeps(out: seq<MiddlewareUse>, a: MiddlewareUse, key: string)
    requires Find(out, key) < |out|
    ensures Find(Place(out, a), key) < |Place(out, a)|
  {
    NormalTwice(a);
    var i := Find(out, key);
    assert Place(out, a)[i].Key() == key;
  }

  /** Merging the overlay first changes nothing. */
  lemma {:induction false} OverlayOfMerged(out: seq<MiddlewareUse>, uses: seq<MiddlewareUse>)
    requires Settled(out)
    ensures Overlay(out, Overlay([], uses)) == Overlay(out, uses)
    decreases |uses|
  {
    if uses != [] {
      var init, last := uses[..|uses| - 1], uses[|uses| - 1];
      assert uses == init + [last];
      OverlayOfMerged(out, init);
      OverlayAppend([], init, last);
      OverlayAppend(out, init, last);
      OverlaySettles([], init);
      PlaceThenOverlay(out, Overlay([], init), last);
    }
  }

  lemma MergedInFront(a: seq<MiddlewareUse>, b: seq<MiddlewareUse>)
    ensures Overlay([], Overlay([], a) + b) == Overlay([], a + b)
  {
    OverlayConcat([], Overlay([], a), b);
    OverlayOfMerged([], a);
    OverlayConcat([], a, b);
  }

  lemma MergedBehind(a: seq<MiddlewareUse>, b: seq<MiddlewareUse>)
    ensures Overlay([], a + Overlay([], b)) == Overlay([], a + b)
  {
    OverlaySettles([], a);
    OverlayConcat([], a, Overlay([], b));
    OverlayOfMerged(Overlay([], a), b);
    OverlayConcat([], a, b);
  }

  lemma MergedEitherSide(a: seq<MiddlewareUse>, ab: seq<MiddlewareUse>, bc: seq<MiddlewareUse>, c: seq<MiddlewareUse>)
    requires ab + c == a + bc
    ensures Overlay([], Overlay([], ab) + c) == Overlay([], a + Overlay([], bc))
  {
    MergedInFront(ab, c);
    MergedBehind(a, bc);
  }

  lemma MergedMiddlewaresAssociative(a: seq<MiddlewareUse>, b: seq<MiddlewareUse>, c: seq<MiddlewareUse>)
    ensures Overlay([], Overlay([], a + b) + c) == Overlay([], a + Overlay([], b + c))
  {
    var ab, bc := a + b, b + c;
    assert ab + c == a + bc;
    MergedEitherSide(a, ab, bc, c);
  }

  // ----- What overlaying amounts to -----

  /** The separator in keys. */
  predicate Separates(text: string) {
    '\0' in text
  }

  lemma {:induction false} TrimKeepsSeparator(s: string)
    ensures Separates(TrimSpace(s)) ==> Separates(s)
  {
    var front, back := TrimMeaning(s);
  }

  lemma SeparatorNoEarlier(a: string, b: string, c: string, d: string)
    requires !Separates(c) && a + "\0" + b == c + "\0" + d
    ensures |c| <= |a|
  {
    assert (a + "\0" + b)[|a|] == '\0';
    assert forall i | 0 <= i < |c| :: (c + "\0" + d)[i] == c[i] && c[i] in c;
  }

  lemma JoinedApart(a: string, b: string, c: string, d: string)
    requires !Separates(a) && !Separates(c)
    ensures a + "\0" + b == c + "\0" + d ==> a == c && b == d
  {
    var x, y := a + "\0" + b, c + "\0" + d;
    if x == y {
      SeparatorNoEarlier(a, b, c, d);
      SeparatorNoEarlier(c, d, a, b);
      assert x[..|a|] == a && y[..|c|] == c && x[|a| + 1..] == b && y[|c| + 1..] == d;
    }
  }

  /** Without the separator in names, two uses share an entry exactly when their
      trimmed names and ids agree. */
  lemma KeysTellUsesApart(a: MiddlewareUse, b: MiddlewareUse)
    requires !Separates(a.name) && !Separates(b.name)
    ensures a.Key() == b.Key() <==> TrimSpace(a.name) == TrimSpace(b.name) && TrimSpace(a.id) == TrimSpace(b.id)
  {
    TrimKeepsSeparator(a.name);
    TrimKeepsSeparator(b.name);
    var x, y := TrimSpace(a.name), TrimSpace(b.name);
    JoinedApart(x, TrimSpace(a.id), y, TrimSpace(b.id));
    assert (x + "\0" + TrimSpace(a.id))[|x|] == '\0' && (y + "\0" + TrimSpace(b.id))[|y|] == '\0';
  }

  /** With it they may not: a name that contains the separator overrides a name
      and an id. */
  lemma SeparatorConfuses(enabled: Option<bool>, config: map<string, string>)
    ensures var a, b := MiddlewareUse("a", "b", None, map[]), MiddlewareUse("a\0b", "", enabled, config);
      Overlay([], [a, b]) == [b]
  {
    var a, b := MiddlewareUse("a", "b", None, map[]), MiddlewareUse("a\0b", "", enabled, config);
    assert TrimLeft("a") == "a" == TrimRight("a") && TrimLeft("b") == "b" == TrimRight("b");
    assert TrimLeft("a\0b") == "a\0b" == TrimRight("a\0b");
    assert [a, b][1..] == [b] && [b][1..] == [];
    assert a.Key() == "a" + "\0" + "b" == "a\0b" == b.Key();
    assert Place([], a) == [a];
    assert Place([a], b) == [b];
    assert Overlay([a], [b]) == Overlay([b], []);
  }

  /** Keys in order of their first use. */
  function FirstKeys(uses: seq<MiddlewareUse>): seq<string> {
    if uses == [] then []
    else
      var keys, key := FirstKeys(uses[..|uses| - 1]), uses[|uses| - 1].Key();
      if key in keys then keys else keys + [key]
  }

  /** The last use under a key. */
  function LastUse(uses: seq<MiddlewareUse>, key: string): MiddlewareUse
    requires key in FirstKeys(uses)
  {
    var last := uses[|uses| - 1];
    if last.Key() == key then last else LastUse(uses[..|uses| - 1], key)
  }

  /** One entry per key, in order of first use, with the flag, the settings and
      the trimmed name and id of last use. */
  ghost predicate Means(out: seq<MiddlewareUse>, uses: seq<MiddlewareUse>) {
    && |out| == |FirstKeys(uses)|
    && (forall i | 0 <= i < |out| :: MeansAt(out, uses, i))
  }

  ghost predicate MeansAt(out: seq<MiddlewareUse>, uses: seq<MiddlewareUse>, i: nat)
    requires i < |out| == |FirstKeys(uses)|
  {
    var last := LastUse(uses, FirstKeys(uses)[i]);
    && out[i].Key() == FirstKeys(uses)[i]
    && out[i].name == TrimSpace(last.name) && out[i].id == TrimSpace(last.id)
    && out[i].enabled == last.enabled && out[i].config == last.config
  }

  lemma LaterUse(init: seq<MiddlewareUse>, last: MiddlewareUse, key: string)
    ensures FirstKeys(init + [last]) ==
              FirstKeys(init) + (if last.Key() in FirstKeys(init) then [] else [last.Key()])
    ensures LastUse(init + [last], last.Key()) == last
    ensures key in FirstKeys(init) && key != last.Key() ==>
              LastUse(init + [last], key) == LastUse(init, key)
  {
    var uses := init + [last];
    assert uses[..|uses| - 1] == init;
  }

  lemma UsedAgain(before: seq<MiddlewareUse>, init: seq<MiddlewareUse>, last: MiddlewareUse, at: nat)
    requires Means(before, init) && Settled(before)
    requires at < |before| && before[at].Key() == last.Key()
    ensures Means(before[at := last.Normal()], init + [last])
  {
    var after, uses := before[at := last.Normal()], init + [last];
    NormalTwice(last);
    assert MeansAt(before, init, at);
    LaterUse(init, last, "");
    forall i | 0 <= i < |after| ensures MeansAt(after, uses, i) {
      assert MeansAt(before, init, i);
      LaterUse(init, last, FirstKeys(init)[i]);
      assert i < at ==> before[i].Key() != before[at].Key();
    }
  }

  lemma UsedFirst(before: seq<MiddlewareUse>, init: seq<MiddlewareUse>, last: MiddlewareUse)
    requires Means(before, init) && last.Key() !in FirstKeys(init)
    ensures Means(before + [last.Normal()], init + [last])
  {
    var after, uses := before + [last.Normal()], init + [last];
    NormalTwice(last);
    LaterUse(init, last, "");
    forall i | 0 <= i < |after| ensures MeansAt(after, uses, i) {
      if i < |before| {
        assert MeansAt(before, init, i);
        LaterUse(init, last, FirstKeys(init)[i]);
      }
    }
  }

  lemma AnotherUse(before: seq<MiddlewareUse>, init: seq<MiddlewareUse>, last: MiddlewareUse)
    requires Means(before, init) && Settled(before)
    ensures Means(Place(before, last), init + [last])
  {
    var at := Find(before, last.Key());
    if at < |before| {
      UsedAgain(before, init, last, at);
    } else {
      forall i | 0 <= i < |before| ensures FirstKeys(init)[i] != last.Key() {
        assert MeansAt(before, init, i);
      }
      UsedFirst(before, init, last);
    }
  }

  /** Overlaying keeps the order of first use and the value of last use. */
  lemma {:induction false} OverlayMeaning(uses: seq<MiddlewareUse>)
    ensures Means(Overlay([], uses), uses)
    decreases |uses|
  {
    if uses != [] {
      var init, last := uses[..|uses| - 1], uses[|uses| - 1];
      assert uses == init + [last];
      OverlayMeaning(init);
      OverlayAppend([], init, last);
      OverlaySettles([], init);
      AnotherUse(Overlay([], init), init, last);
    }
  }
}
