/** Sorting by a number and then by an id, the one order both timeline stores
    use: first-seen order for snapshots, version order for eviction. */
module Ranked {
  import opened Text

  datatype Item = Item(rank: int, id: string) {
    predicate Before(other: Item) {
      rank < other.rank || (rank == other.rank && Less(id, other.id))
    }
  }

  ghost predicate Sorted(items: seq<Item>) {
    forall i, j | 0 <= i < j < |items| :: items[i].Before(items[j])
  }

  function Elements(items: seq<Item>): set<Item> {
    set i | 0 <= i < |items| :: items[i]
  }

  lemma BeforeIsStrict(a: Item, b: Item, c: Item)
    ensures !a.Before(a)
    ensures a.Before(b) && b.Before(c) ==> a.Before(c)
    ensures a == b || a.Before(b) || b.Before(a)
  {
    LessIrreflexive(a.id);
    LessTotal(a.id, b.id);
    if Less(a.id, b.id) && Less(b.id, c.id) {
      LessTransitive(a.id, b.id, c.id);
    }
  }

  ghost predicate IsFirst(m: Item, s: set<Item>) {
    m in s && forall x | x in s && x != m :: m.Before(x)
  }

  lemma {:induction false} FirstExists(s: set<Item>)
    requires s != {}
    ensures exists m :: IsFirst(m, s)
  {
    var a :| a in s;
    if s == {a} {
      assert IsFirst(a, s);
    } else {
      FirstExists(s - {a});
      var m :| IsFirst(m, s - {a});
      BeforeIsStrict(a, m, m);
      if a.Before(m) {
        FirstExtends(a, m, s);
      } else {
        assert IsFirst(m, s);
      }
    }
  }

  lemma FirstExtends(a: Item, m: Item, s: set<Item>)
    requires a in s && IsFirst(m, s - {a}) && a.Before(m)
    ensures IsFirst(a, s)
  {
    forall x | x in s && x != a ensures a.Before(x) {
      BeforeIsStrict(a, m, x);
    }
  }

  /** The elements of a set in order. */
  ghost function Ordered(s: set<Item>): (items: seq<Item>) {
    if s == {} then []
    else
      FirstExists(s);
      var m :| IsFirst(m, s);
      [m] + Ordered(s - {m})
  }

  lemma ElementsOfCons(m: Item, rest: seq<Item>)
    ensures Elements([m] + rest) == {m} + Elements(rest)
  {
    var items := [m] + rest;
    assert items[0] == m;
    forall x | x in Elements(rest) ensures x in Elements(items) {
      var i :| 0 <= i < |rest| && rest[i] == x;
      assert items[i + 1] == x;
    }
  }

  lemma SortedCons(m: Item, rest: seq<Item>)
    requires Sorted(rest) && forall x | x in Elements(rest) :: m.Before(x)
    ensures Sorted([m] + rest)
  {
    forall j | 0 <= j < |rest| ensures m.Before(rest[j]) {
      assert rest[j] in Elements(rest);
    }
  }

  lemma {:induction false} OrderedIsSorted(s: set<Item>)
    ensures Sorted(Ordered(s)) && Elements(Ordered(s)) == s && |Ordered(s)| == |s|
  {
    if s != {} {
      FirstExists(s);
      var m, rest := Ordered(s)[0], Ordered(s)[1..];
      assert IsFirst(m, s) && Ordered(s) == [m] + rest && rest == Ordered(s - {m});
      OrderedIsSorted(s - {m});
      ElementsOfCons(m, rest);
      SortedCons(m, rest);
    }
  }

  /** A sorted sequence is determined by its elements. */
  lemma {:induction false} SortedUnique(a: seq<Item>, b: seq<Item>)
    requires Sorted(a) && Sorted(b) && Elements(a) == Elements(b)
    ensures a == b
  {
    assert a != [] ==> a[0] in Elements(a);
    assert b != [] ==> b[0] in Elements(b);
    if a != [] {
      var i :| 0 <= i < |b| && b[i] == a[0];
      var j :| 0 <= j < |a| && a[j] == b[0];
      BeforeIsStrict(a[0], b[0], a[0]);
      assert a[0] == b[0];
      TailElements(a);
      TailElements(b);
      SortedUnique(a[1..], b[1..]);
    }
  }

  lemma TailElements(a: seq<Item>)
    requires a != [] && Sorted(a)
    ensures Elements(a[1..]) == Elements(a) - {a[0]}
  {
    forall x | x in Elements(a) && x != a[0] ensures x in Elements(a[1..]) {
      var i :| 0 <= i < |a| && a[i] == x;
      assert a[1..][i - 1] == x;
    }
    forall x | x in Elements(a[1..]) ensures x in Elements(a) && x != a[0] {
      var i :| 0 <= i < |a[1..]| && a[1..][i] == x;
      assert a[i + 1] == x;
      BeforeIsStrict(a[0], x, x);
    }
  }

  lemma OrderedUnique(items: seq<Item>, s: set<Item>)
    requires Sorted(items) && Elements(items) == s
    ensures items == Ordered(s)
  {
    OrderedIsSorted(s);
    SortedUnique(items, Ordered(s));
  }

  lemma AppendElement(items: seq<Item>, x: Item)
    ensures Elements(items + [x]) == Elements(items) + {x}
  {
    assert (items + [x])[|items|] == x;
    forall y | y in Elements(items) ensures y in Elements(items + [x]) {
      var i :| 0 <= i < |items| && items[i] == y;
      assert (items + [x])[i] == y;
    }
  }

  method Insert(items: seq<Item>, x: Item) returns (longer: seq<Item>)
    requires Sorted(items) && x !in Elements(items)
    ensures Sorted(longer) && Elements(longer) == Elements(items) + {x}
  {
    var i := |items|;
    while i > 0 && x.Before(items[i - 1])
      invariant 0 <= i <= |items|
      invariant forall j | i <= j < |items| :: x.Before(items[j])
    {
      i := i - 1;
    }
    longer := items[..i] + [x] + items[i..];
    forall j | 0 <= j < i ensures items[j].Before(x) {
      assert items[j] in Elements(items);
      BeforeIsStrict(x, items[i - 1], x);
      assert items[i - 1] in Elements(items);
      BeforeIsStrict(items[j], items[i - 1], x);
    }
    assert longer[i] == x;
    forall y | y in Elements(items) ensures y in Elements(longer) {
      var j :| 0 <= j < |items| && items[j] == y;
      assert longer[if j < i then j else j + 1] == y;
    }
  }

  /** sort.Slice over distinct items. */
  method Sort(items: seq<Item>) returns (sorted: seq<Item>)
    requires forall i, j | 0 <= i < j < |items| :: items[i] != items[j]
    ensures sorted == Ordered(Elements(items))
  {
    sorted := [];
    for i := 0 to |items|
      invariant Sorted(sorted) && Elements(sorted) == Elements(items[..i])
    {
      assert items[i] !in Elements(items[..i]);
      sorted := Insert(sorted, items[i]);
      assert Elements(items[..i + 1]) == Elements(items[..i]) + {items[i]} by {
        assert items[..i + 1] == items[..i] + [items[i]];
        assert items[..i + 1][i] == items[i];
        forall x | x in Elements(items[..i]) ensures x in Elements(items[..i + 1]) {
          var j :| 0 <= j < i && items[..i][j] == x;
          assert items[..i + 1][j] == x;
        }
      }
    }
    assert items[..|items|] == items;
    OrderedUnique(sorted, Elements(items));
  }
}
