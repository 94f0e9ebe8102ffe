/** A client that pages through cut-short replies of the SQLite store, each page
    asking for what is newer than the last row of the page before. */
module Paging {
  import opened Numbers
  import opened Ranked
  import opened Timeline
  import opened TimelineMemory
  import opened TimelineSqlite
  import opened Hydration

  const NEW_CLIENT := Client(map[], 0)

  /** Rows hold their entity under its id, at versions up to the table's. */
  ghost predicate Keyed(t: Tables) {
    forall id | id in t.rows :: t.rows[id].entity.id == id && 0 < t.rows[id].version <= t.version
  }

  /** Whatever calls made a table, it is keyed. */
  lemma {:induction false} CallsKeyed(ws: seq<Write>)
    ensures Keyed(AfterSqlCalls(ws))
  {
    if ws != [] {
      CallsKeyed(ws[..|ws| - 1]);
    }
  }

  /** The client after a reply with room for n of these rows. */
  function PageOf(client: Client, version: nat, rows: seq<Row>, n: nat): Client {
    Received(client, Snapshot("", if 0 < n < |rows| then rows[n - 1].version else version, EntitiesOf(Take(rows, n))))
  }

  ghost function NextPage(client: Client, t: Tables, limit: int): Client {
    Received(client, SqlSnapshotOf(t, "", client.version, limit))
  }

  lemma NextPageIs(client: Client, t: Tables, limit: int)
    ensures NextPage(client, t, limit) == PageOf(client, t.version, Query(t, client.version), Limit(limit))
  {
  }

  predicate RowShown(client: Client, t: Tables, id: string)
    requires id in t.rows
  {
    id in client.view && client.view[id] == t.rows[id].entity
  }

  ghost predicate AllShown(client: Client, t: Tables) {
    forall id | id in t.rows :: RowShown(client, t, id)
  }

  predicate Changed(t: Tables, since: nat, id: string) {
    id in t.rows && (since == 0 || t.rows[id].version > since)
  }

  /** The rows are exactly the changed ones, each once. */
  ghost predicate Lists(t: Tables, since: nat, rows: seq<Row>) {
    && (forall i | 0 <= i < |rows| :: Changed(t, since, rows[i].entity.id) && rows[i] == t.rows[rows[i].entity.id])
    && (forall id | Changed(t, since, id) :: exists i :: 0 <= i < |rows| && rows[i].entity.id == id)
    && (forall i, j | 0 <= i < j < |rows| :: rows[i].entity.id != rows[j].entity.id)
  }

  lemma QueryLists(t: Tables, since: nat)
    requires Keyed(t)
    ensures Lists(t, since, Query(t, since))
  {
    var chosen := Selected(t, since);
    var items := Ordered(chosen);
    OrderedIsSorted(chosen);
    QueryIs(t, since, items);
    ItemsList(t, since, items);
  }

  lemma QueryIs(t: Tables, since: nat, items: seq<Item>)
    requires items == Ordered(Selected(t, since))
    ensures Ids(items) <= t.rows.Keys && Query(t, since) == RowsOf(t, items)
  {
    OrderedIsSorted(Selected(t, since));
    IdsOfElements(items);
  }

  lemma ItemsList(t: Tables, since: nat, items: seq<Item>)
    requires Keyed(t) && Sorted(items) && Elements(items) == Selected(t, since) && Ids(items) <= t.rows.Keys
    ensures Lists(t, since, RowsOf(t, items))
  {
    var rows := RowsOf(t, items);
    forall i | 0 <= i < |items|
      ensures rows[i].entity.id == items[i].id && items[i] in Selected(t, since)
    {
      assert items[i] in Elements(items) && items[i].id in Ids(items);
    }
    forall id | Changed(t, since, id) ensures exists i :: 0 <= i < |rows| && rows[i].entity.id == id {
      assert Item(t.rows[id].createdAtMs, id) in Selected(t, since);
      var i :| 0 <= i < |items| && items[i] == Item(t.rows[id].createdAtMs, id);
      assert rows[i].entity.id == id;
    }
    forall i, j | 0 <= i < j < |items| ensures items[i].id != items[j].id {
      assert items[i].Before(items[j]);
      BeforeIsStrict(items[i], items[j], items[i]);
    }
  }

  /** The row is among the first n. */
  ghost predicate OnPage(rows: seq<Row>, n: nat, id: string) {
    exists i :: 0 <= i < |rows| && i < n && rows[i].entity.id == id
  }

  lemma OnPageAt(t: Tables, since: nat, rows: seq<Row>, n: nat, j: nat)
    requires Lists(t, since, rows) && j < |rows|
    ensures OnPage(rows, n, rows[j].entity.id) <==> j < n
  {
  }

  lemma OnPageIsChanged(t: Tables, since: nat, rows: seq<Row>, n: nat, id: string)
    requires Lists(t, since, rows)
    ensures OnPage(rows, n, id) ==> Changed(t, since, id)
    ensures n >= |rows| && Changed(t, since, id) ==> OnPage(rows, n, id)
  {
  }

  /** After a page a row is shown exactly when the page had room for it or it
      was shown before. */
  lemma PageShows(client: Client, t: Tables, version: nat, rows: seq<Row>, n: nat, id: string)
    requires Lists(t, client.version, rows) && id in t.rows
    ensures RowShown(PageOf(client, version, rows, n), t, id) <==> OnPage(rows, n, id) || RowShown(client, t, id)
  {
    var sent := EntitiesOf(Take(rows, n));
    assert forall i | 0 <= i < |sent| :: sent[i] == rows[i].entity;
    OverlayLookup(client.view, sent, id);
    if OnPage(rows, n, id) {
      var i :| 0 <= i < |rows| && i < n && rows[i].entity.id == id;
      assert sent[i].id == id;
    }
  }

  // ----- One page and the rest -----

  /** The client shows what is not newer than its version. */
  ghost predicate Current(client: Client, t: Tables) {
    forall id | id in t.rows && t.rows[id].version <= client.version :: RowShown(client, t, id)
  }

  /** Row j is cut off, the next page will not ask for it, and the client does
      not show it. */
  ghost predicate Skipped(client: Client, t: Tables, rows: seq<Row>, n: nat, j: nat) {
    && 0 < n <= j < |rows| && rows[j].version <= rows[n - 1].version
    && rows[j].entity.id in t.rows && !RowShown(client, t, rows[j].entity.id)
  }

  lemma RestShows(client: Client, t: Tables, rows: seq<Row>, n: nat, rest: seq<Row>, m: nat, id: string)
    requires Keyed(t) && Current(client, t) && id in t.rows
    requires Lists(t, client.version, rows) && 0 < n < |rows|
    requires Lists(t, rows[n - 1].version, rest) && |rest| <= m
    ensures var page := PageOf(client, t.version, rows, n);
      RowShown(PageOf(page, t.version, rest, m), t, id) <==>
        !exists j: nat :: Skipped(client, t, rows, n, j) && rows[j].entity.id == id
  {
    var page := PageOf(client, t.version, rows, n);
    PageShows(client, t, t.version, rows, n, id);
    PageShows(page, t, t.version, rest, m, id);
    OnPageIsChanged(t, page.version, rest, m, id);
    assert Changed(t, client.version, rows[n - 1].entity.id);
    assert OnPage(rest, m, id) <==> t.rows[id].version > rows[n - 1].version;
    if Changed(t, client.version, id) {
      var j: nat :| j < |rows| && rows[j].entity.id == id;
      OnPageAt(t, client.version, rows, n, j);
      assert rows[j] == t.rows[id];
      assert forall i: nat | i < |rows| && rows[i].entity.id == id :: i == j;
    } else {
      OnPageIsChanged(t, client.version, rows, n, id);
      assert forall i: nat | i < |rows| :: rows[i].entity.id != id;
    }
  }

  /** After a page that was cut short, everything newer completes the client
      exactly when no row that was cut off is as old as the last row sent, or
      older, unless the client showed it already. */
  lemma PageThenRestExactly(client: Client, t: Tables, limit: int, rest: int)
    requires Keyed(t) && Current(client, t)
    ensures var rows, page := Query(t, client.version), NextPage(client, t, limit);
      |rows| > Limit(limit) && |Query(t, page.version)| <= Limit(rest) ==>
        (AllShown(NextPage(page, t, rest), t) <==> forall j: nat :: !Skipped(client, t, rows, Limit(limit), j))
  {
    var rows, n, page := Query(t, client.version), Limit(limit), NextPage(client, t, limit);
    NextPageIs(client, t, limit);
    if |rows| > n && |Query(t, page.version)| <= Limit(rest) {
      QueryLists(t, client.version);
      QueryLists(t, page.version);
      NextPageIs(page, t, rest);
      AllRestShown(client, t, rows, n, Query(t, page.version), Limit(rest));
    }
  }

  lemma AllRestShown(client: Client, t: Tables, rows: seq<Row>, n: nat, rest: seq<Row>, m: nat)
    requires Keyed(t) && Current(client, t)
    requires Lists(t, client.version, rows) && 0 < n < |rows|
    requires Lists(t, rows[n - 1].version, rest) && |rest| <= m
    ensures var page := PageOf(client, t.version, rows, n);
      AllShown(PageOf(page, t.version, rest, m), t) <==> forall j: nat :: !Skipped(client, t, rows, n, j)
  {
    var end := PageOf(PageOf(client, t.version, rows, n), t.version, rest, m);
    forall id | id in t.rows
      ensures RowShown(end, t, id) <==> !exists j: nat :: Skipped(client, t, rows, n, j) && rows[j].entity.id == id
    {
      RestShows(client, t, rows, n, rest, m, id);
    }
  }

  // ----- Page after page -----

  ghost function Pages(t: Tables, limit: int, k: nat): Client {
    if k == 0 then NEW_CLIENT else NextPage(Pages(t, limit, k - 1), t, limit)
  }

  /** Versions increase along the list. */
  ghost predicate Increasing(rows: seq<Row>) {
    forall i, j | 0 <= i < j < |rows| :: rows[i].version < rows[j].version
  }

  /** In version order, what is newer than a row is listed after it. */
  lemma NewerIsLater(t: Tables, rows: seq<Row>, m: nat)
    requires Keyed(t) && rows == Query(t, 0) && Increasing(rows) && 0 < m <= |rows|
    ensures Query(t, rows[m - 1].version) == rows[m..]
  {
    var items, since := Ordered(Selected(t, 0)), rows[m - 1].version;
    OrderedIsSorted(Selected(t, 0));
    QueryIs(t, 0, items);
    assert since > 0 by {
      QueryLists(t, 0);
      assert Changed(t, 0, rows[m - 1].entity.id);
    }
    LaterItems(t, items, rows, since, m);
    SortedSuffix(items, m);
    OrderedUnique(items[m..], Selected(t, since));
    QueryIs(t, since, items[m..]);
    RowsOfSuffix(t, items, m);
  }

  lemma SortedSuffix(items: seq<Item>, m: nat)
    requires Sorted(items) && m <= |items|
    ensures Sorted(items[m..])
  {
    var later := items[m..];
    forall i, j | 0 <= i < j < |later| ensures later[i].Before(later[j]) {
      assert later[i] == items[m + i] && later[j] == items[m + j];
    }
  }

  lemma RowsOfSuffix(t: Tables, items: seq<Item>, m: nat)
    requires m <= |items| && Ids(items) <= t.rows.Keys && Ids(items[m..]) <= t.rows.Keys
    ensures RowsOf(t, items[m..]) == RowsOf(t, items)[m..]
  {
  }

  lemma LaterItems(t: Tables, items: seq<Item>, rows: seq<Row>, since: nat, m: nat)
    requires Elements(items) == Selected(t, 0) && Ids(items) <= t.rows.Keys && rows == RowsOf(t, items)
    requires Increasing(rows) && 0 < m <= |rows| && since == rows[m - 1].version > 0
    ensures Elements(items[m..]) == Selected(t, since)
  {
    var later := items[m..];
    forall i | 0 <= i < |items|
      ensures items[i] in Selected(t, 0) && (t.rows[items[i].id].version > since <==> i >= m)
    {
      assert items[i] in Elements(items) && items[i].id in Ids(items);
      assert rows[i] == t.rows[items[i].id];
    }
    forall x | x in Selected(t, since) ensures x in Elements(later) {
      assert x in Selected(t, 0);
      var i :| 0 <= i < |items| && items[i] == x;
      assert later[i - m] == x;
    }
    forall x | x in Elements(later) ensures x in Selected(t, since) {
      var i :| 0 <= i < |later| && later[i] == x;
      assert items[m + i] == x;
    }
  }

  /** The first m rows are shown, and the client asks for what comes after. */
  ghost predicate Through(client: Client, t: Tables, rows: seq<Row>, m: int) {
    && 0 <= m <= |rows|
    && (forall i | 0 <= i < m :: rows[i].entity.id in t.rows && RowShown(client, t, rows[i].entity.id))
    && (m < |rows| ==> client.version == if m == 0 then 0 else rows[m - 1].version)
  }

  lemma PageGoesThrough(client: Client, t: Tables, rows: seq<Row>, m: nat, asked: seq<Row>, n: nat)
    requires Lists(t, 0, rows) && Through(client, t, rows, m)
    requires Lists(t, client.version, asked) && n > 0
    requires m < |rows| ==> asked == rows[m..]
    ensures Through(PageOf(client, t.version, asked, n), t, rows, Min(m + n, |rows|))
  {
    var page, upTo := PageOf(client, t.version, asked, n), Min(m + n, |rows|);
    forall i | 0 <= i < upTo ensures rows[i].entity.id in t.rows && RowShown(page, t, rows[i].entity.id) {
      assert Changed(t, 0, rows[i].entity.id);
      PageShows(client, t, t.version, asked, n, rows[i].entity.id);
      if i >= m {
        assert asked[i - m] == rows[i];
        OnPageAt(t, client.version, asked, n, i - m);
      }
    }
    assert m + n < |rows| ==> asked[n - 1] == rows[m + n - 1];
  }

  lemma NextPageGoesThrough(client: Client, t: Tables, rows: seq<Row>, m: nat, limit: int)
    requires Keyed(t) && rows == Query(t, 0) && Increasing(rows) && limit > 0
    requires Through(client, t, rows, m)
    ensures Through(NextPage(client, t, limit), t, rows, Min(m + limit, |rows|))
  {
    QueryLists(t, 0);
    QueryLists(t, client.version);
    if 0 < m < |rows| {
      NewerIsLater(t, rows, m);
    }
    PageGoesThrough(client, t, rows, m, Query(t, client.version), limit);
    NextPageIs(client, t, limit);
  }

  /** How many of all rows k pages can hold. */
  function Reach(limit: int, k: nat, all: nat): (m: int)
    requires limit > 0
    ensures 0 <= m <= all
  {
    if k == 0 then 0 else Min(Reach(limit, k - 1, all) + limit, all)
  }

  lemma {:induction false} ReachIs(limit: int, k: nat, all: nat)
    requires limit > 0
    ensures Reach(limit, k, all) == Min(k * limit, all)
  {
    if k > 0 {
      ReachIs(limit, k - 1, all);
      assert k * limit == (k - 1) * limit + limit;
    }
  }

  lemma {:induction false} PagesGoThrough(t: Tables, rows: seq<Row>, limit: int, k: nat) returns (end: Client, m: int)
    requires Keyed(t) && rows == Query(t, 0) && Increasing(rows) && limit > 0
    ensures end == Pages(t, limit, k) && m == Reach(limit, k, |rows|) && Through(end, t, rows, m)
  {
    if k == 0 {
      end, m := NEW_CLIENT, 0;
    } else {
      var before, reached := PagesGoThrough(t, rows, limit, k - 1);
      NextPageGoesThrough(before, t, rows, reached, limit);
      end, m := NextPage(before, t, limit), Min(reached + limit, |rows|);
    }
  }

  /** Asking for newer rows only never goes back. */
  lemma PageVersion(client: Client, t: Tables, rows: seq<Row>, n: nat)
    requires Keyed(t) && client.version <= t.version && Lists(t, client.version, rows)
    ensures client.version <= PageOf(client, t.version, rows, n).version <= t.version
  {
    if 0 < n < |rows| {
      assert Changed(t, client.version, rows[n - 1].entity.id);
    }
  }

  /** A row cut off behind a newer one, or one as new, is never delivered. */
  lemma {:induction false} NeverDelivered(t: Tables, rows: seq<Row>, limit: int, k: nat, j: nat)
    requires Keyed(t) && rows == Query(t, 0)
    requires 0 < limit <= j < |rows| && rows[j].version <= rows[limit - 1].version
    ensures rows[j].entity.id in t.rows && !RowShown(Pages(t, limit, k), t, rows[j].entity.id)
    ensures Pages(t, limit, k).version <= t.version
    ensures k > 0 ==> Pages(t, limit, k).version >= rows[limit - 1].version
  {
    var id := rows[j].entity.id;
    QueryLists(t, 0);
    assert Changed(t, 0, id) && rows[j] == t.rows[id];
    if k > 0 {
      NeverDelivered(t, rows, limit, k - 1, j);
      var before := Pages(t, limit, k - 1);
      var asked := Query(t, before.version);
      QueryLists(t, before.version);
      NextPageIs(before, t, limit);
      PageShows(before, t, t.version, asked, limit, id);
      PageVersion(before, t, asked, limit);
      if k == 1 {
        OnPageAt(t, 0, rows, limit, j);
      } else {
        OnPageIsChanged(t, before.version, asked, limit, id);
      }
    }
  }

  /** k pages have room for all rows. */
  predicate Enough(limit: int, k: nat, all: nat) {
    limit > 0 && k * limit >= all
  }

  /** Enough pages of any size complete a new client exactly when the rows, in
      the order in which they are listed, were last written in that order. */
  lemma PagingCompletesExactly(t: Tables)
    requires Keyed(t)
    ensures Increasing(Query(t, 0)) <==>
              forall limit: int, k: nat | Enough(limit, k, |Query(t, 0)|) :: AllShown(Pages(t, limit, k), t)
  {
    var rows := Query(t, 0);
    if Increasing(rows) {
      forall limit: int, k: nat | Enough(limit, k, |rows|) ensures AllShown(Pages(t, limit, k), t) {
        PagesComplete(t, rows, limit, k);
      }
    } else {
      var limit := NeverComplete(t, rows);
    }
  }

  lemma PagesComplete(t: Tables, rows: seq<Row>, limit: int, k: nat)
    requires Keyed(t) && rows == Query(t, 0) && Increasing(rows) && Enough(limit, k, |rows|)
    ensures AllShown(Pages(t, limit, k), t)
  {
    QueryLists(t, 0);
    var end, m := PagesGoThrough(t, rows, limit, k);
    ReachIs(limit, k, |rows|);
    ThroughIsAll(end, t, rows);
  }

  lemma ThroughIsAll(client: Client, t: Tables, rows: seq<Row>)
    requires Lists(t, 0, rows) && Through(client, t, rows, |rows|)
    ensures AllShown(client, t)
  {
    forall id | id in t.rows ensures RowShown(client, t, id) {
      assert Changed(t, 0, id);
      var i :| 0 <= i < |rows| && rows[i].entity.id == id;
    }
  }

  lemma EnoughOfSize(i: nat, all: nat)
    ensures Enough(i + 1, all, all)
  {
    assert all * (i + 1) == all * i + all;
  }

  lemma NeverComplete(t: Tables, rows: seq<Row>) returns (limit: int)
    requires Keyed(t) && rows == Query(t, 0) && !Increasing(rows)
    ensures Enough(limit, |rows|, |rows|) && !AllShown(Pages(t, limit, |rows|), t)
  {
    var i: nat, j: nat :| i < j < |rows| && rows[i].version >= rows[j].version;
    limit := i + 1;
    EnoughOfSize(i, |rows|);
    NeverDelivered(t, rows, limit, |rows|, j);
  }

  /** Two rows, the one listed first written last: with room for one row on a
      page, the other is never delivered. */
  lemma PagingSkips(a: Entity, b: Entity, k: nat) returns (t: Tables)
    requires a.id == "a" && b.id == "b"
    ensures Keyed(t) && t.rows.Keys == {"a", "b"} && !RowShown(Pages(t, 1, k), t, "b")
  {
    var rowA, rowB := Row("message", 1, 1, 10, a), Row("message", 2, 2, 5, b);
    t := Tables(10, map["a" := rowA, "b" := rowB]);
    var items := [Item(1, "a"), Item(2, "b")];
    TwoItems(t, items, rowA, rowB);
    OrderedUnique(items, Selected(t, 0));
    QueryIs(t, 0, items);
    NeverDelivered(t, Query(t, 0), 1, k, 1);
  }

  lemma TwoItems(t: Tables, items: seq<Item>, rowA: Row, rowB: Row)
    requires t.rows == map["a" := rowA, "b" := rowB]
    requires items == [Item(rowA.createdAtMs, "a"), Item(rowB.createdAtMs, "b")]
    ensures Elements(items) == Selected(t, 0)
  {
    forall x | x in Selected(t, 0) ensures x in Elements(items) {
      assert x == items[0] || x == items[1];
    }
    assert "a" in t.rows && "b" in t.rows;
    forall x | x in Elements(items) ensures x in Selected(t, 0) {
      assert x == items[0] || x == items[1];
    }
  }
}
