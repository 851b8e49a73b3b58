/**
 What the invoice list shows, by the times, the characters of the ids and the numbers of the
 query: which rows, in which order, and from which to which.
 */
module InvoiceListOrder {
  import opened Common
  import opened InvoicePaging

  // ----- the order, by characters ------------------------------------------

  /** a and b agree in their first n characters, and then b is over or a has the larger character. */
  predicate LargerFrom(a: string, b: string, n: nat) {
    n < |a| && n <= |b| && a[..n] == b[..n] && (n == |b| || a[n] > b[n])
  }

  ghost predicate LargerId(a: string, b: string) {
    exists n: nat :: LargerFrom(a, b, n)
  }

  lemma {:induction false} LargerExact(a: string, b: string)
    ensures LargerId(a, b) <==> TextLess(b, a)
    decreases a
  {
    if a == "" {
    } else if b == "" {
      assert LargerFrom(a, b, 0);
    } else if a[0] != b[0] {
      DiffersAtOnce(a, b);
    } else {
      LargerExact(a[1..], b[1..]);
      SameFirst(a, b);
    }
  }

  lemma DiffersAtOnce(a: string, b: string)
    requires a != "" && b != "" && a[0] != b[0]
    ensures LargerId(a, b) <==> a[0] > b[0]
  {
    if a[0] > b[0] {
      assert LargerFrom(a, b, 0);
    }
    forall n: nat | LargerFrom(a, b, n)
      ensures a[0] > b[0]
    {
      if n > 0 {
        assert a[..n][0] == b[..n][0];
      }
    }
  }

  lemma SameFirst(a: string, b: string)
    requires a != "" && b != "" && a[0] == b[0]
    ensures LargerId(a, b) <==> LargerId(a[1..], b[1..])
  {
    forall n: nat | LargerFrom(a, b, n)
      ensures LargerId(a[1..], b[1..])
    {
      assert n > 0;
      assert a[1..][..n - 1] == a[..n][1..] == b[..n][1..] == b[1..][..n - 1];
      assert LargerFrom(a[1..], b[1..], n - 1);
    }
    forall n: nat | LargerFrom(a[1..], b[1..], n)
      ensures LargerId(a, b)
    {
      assert a[..n + 1] == [a[0]] + a[1..][..n] == b[..n + 1];
      assert LargerFrom(a, b, n + 1);
    }
  }

  /** The later of two invoices; of two of one time that with the larger id. */
  ghost predicate Newer(a: Key, b: Key) {
    a.createdAt > b.createdAt || (a.createdAt == b.createdAt && LargerId(a.id, b.id))
  }

  lemma NewerExact()
    ensures forall a, b :: Newer(a, b) <==> Before(a, b)
  {
    forall a: Key, b: Key
      ensures Newer(a, b) <==> Before(a, b)
    {
      LargerExact(a.id, b.id);
    }
  }

  ghost predicate NewestFirst(rows: seq<Invoice>) {
    forall i, j :: 0 <= i < j < |rows| ==> Newer(rows[i].key, rows[j].key)
  }

  // ----- the rows asked for ------------------------------------------------

  /** It has the status and the merchant asked for, and is older than the cursor. */
  ghost predicate Asked(x: Invoice, filters: Filters, after: Option<Key>) {
    && (filters.status.Some? ==> x.status == filters.status.value)
    && (filters.merchant.Some? ==> x.merchant == filters.merchant.value)
    && (after.Some? ==> Newer(after.value, x.key))
  }

  /** The whole list that a query selects. */
  ghost predicate Listing(rows: seq<Invoice>, table: seq<Invoice>, filters: Filters, after: Option<Key>) {
    NewestFirst(rows) && forall x :: x in rows <==> x in table && Asked(x, filters, after)
  }

  lemma ListingExact(rows: seq<Invoice>, table: seq<Invoice>, filters: Filters, after: Option<Key>)
    requires UniqueIds(table)
    ensures Listing(rows, table, filters, after) <==> rows == Sort(Find(table, filters, after))
  {
    NewerExact();
    FoundRows(table, filters, after);
    var found := Sort(Find(table, filters, after));
    assert Listing(found, table, filters, after);
    if Listing(rows, table, filters, after) {
      DescendingUnique(rows, found);
    }
  }

  // ----- the route ---------------------------------------------------------

  /** The cursors that are taken, by the numbers, and the key each stands for; all others are refused. */
  lemma CursorsTaken(p: Payload)
    ensures
      DecodeCursor(p) ==
      if p.Payload? && p.createdAt.Integer? && 0 <= p.createdAt.n <= 8_640_000_000_000_000
         && p.invoiceId.Text? && |p.invoiceId.s| > 0
      then Ok(Key(p.createdAt.n, p.invoiceId.s)) else Invalid
  {
  }

  /** Pages have twenty rows unless the query says otherwise, and never more than a hundred. */
  predicate PageSize(q: Query, limit: nat) {
    if q.limit.None? then limit == 20
    else if q.limit.value > 100 then limit == 100
    else limit == q.limit.value
  }

  /** Where the page begins: an offset goes before a page number, and both count from the newest row. */
  predicate PageStart(q: Query, limit: nat, start: nat) {
    if q.offset.Some? then start == q.offset.value
    else if q.page.Some? then start + limit == q.page.value * limit
    else start == 0
  }

  ghost predicate Slice(page: Page, rows: seq<Invoice>, start: nat, limit: nat)
    requires limit > 0
  {
    && |page.data| == (if |rows| <= start then 0 else Min(limit, |rows| - start))
    && (forall k :: 0 <= k < |page.data| ==> page.data[k] == rows[start + k])
    && page.next.Some? == (start + limit < |rows|)
    && (page.next.Some? ==> page.next.value == EncodeCursor(rows[start + limit - 1].key))
  }

  lemma SizeAndStart(q: Query)
    requires ValidQuery(q)
    ensures PageSize(q, LimitOf(q)) && PageStart(q, LimitOf(q), OffsetOf(q))
  {
    if q.offset.None? && q.page.Some? {
      StartOfPage(q.page.value, LimitOf(q));
    }
  }

  lemma StartOfPage(page: nat, limit: nat)
    requires page > 0
    ensures OffsetOfPage(page, limit) + limit == page * limit
  {
  }

  lemma SliceOf(rows: seq<Invoice>, start: nat, limit: nat)
    requires limit > 0
    ensures Slice(PageOf(Skip(rows, start), limit), rows, start, limit)
  {
  }

  /** A slice is determined by the list and the numbers. */
  lemma OneSlice(a: Page, b: Page, rows: seq<Invoice>, start: nat, limit: nat)
    requires limit > 0 && Slice(a, rows, start, limit) && Slice(b, rows, start, limit)
    ensures a == b
  {
  }

  /**
   What the route answers is the part of the listing that the numbers of the query name, with a
   cursor at its last row exactly if there are more; and there is always one such answer.
   */
  lemma RouteExact(table: seq<Invoice>, filters: Filters, q: Query, page: Page)
    requires UniqueIds(table) && q.limit != Some(0) && q.page != Some(0)
    requires q.cursor == None || (q.page == None && q.offset == None)
    ensures
      page == PageOf(Skip(Sort(Find(table, filters, AfterOf(q))), OffsetOf(q)), LimitOf(q)) <==>
      RoutePage(page, table, filters, q)
  {
    var rows := Sort(Find(table, filters, AfterOf(q)));
    var start, limit := OffsetOf(q), LimitOf(q);
    var listed := PageOf(Skip(rows, start), limit);
    ListingExact(rows, table, filters, AfterOf(q));
    SizeAndStart(q);
    SliceOf(rows, start, limit);
    assert Shown(listed, table, filters, q, rows, start, limit);
    if RoutePage(page, table, filters, q) {
      var all, from, size :| Shown(page, table, filters, q, all, from, size);
      ListingExact(all, table, filters, AfterOf(q));
      OneStart(q, size, from, start);
      OneSlice(page, listed, rows, start, limit);
    }
  }

  lemma OneStart(q: Query, limit: nat, a: nat, b: nat)
    requires PageStart(q, limit, a) && PageStart(q, limit, b)
    ensures a == b
  {
  }

  ghost predicate Shown(
      page: Page, table: seq<Invoice>, filters: Filters, q: Query, rows: seq<Invoice>, start: nat, limit: nat)
  {
    && Listing(rows, table, filters, AfterOf(q)) && limit > 0 && PageSize(q, limit)
    && PageStart(q, limit, start) && Slice(page, rows, start, limit)
  }

  ghost predicate RoutePage(page: Page, table: seq<Invoice>, filters: Filters, q: Query) {
    exists rows, start, limit :: Shown(page, table, filters, q, rows, start, limit)
  }

  // ----- pages and walks ---------------------------------------------------

  /**
   The first page: rows of the table with the status and merchant asked for, newest first; what it
   leaves out of them is older than every row on it, and it leaves nothing out unless it is full.
   */
  lemma FirstPageNewest(table: seq<Invoice>, filters: Filters, limit: nat)
    requires UniqueIds(table) && limit > 0
    ensures
      var rows := FetchPage(table, filters, None, limit).data;
      && NewestFirst(rows) && |rows| <= limit
      && (forall x :: x in rows ==> x in table && Asked(x, filters, None))
      && (forall x :: x in table && Asked(x, filters, None) && x !in rows ==>
            |rows| == limit && OlderThanAll(x.key, rows))
  {
    var all := Sort(Find(table, filters, None));
    ListingExact(all, table, filters, None);
    SliceOf(all, 0, limit);
    assert Skip(all, 0) == all;
    var rows := FetchPage(table, filters, None, limit).data;
    forall x | x in table && Asked(x, filters, None) && x !in rows
      ensures |rows| == limit && OlderThanAll(x.key, rows)
    {
      assert x in all;
      LeftOut(all, limit, x);
    }
  }

  ghost predicate OlderThanAll(key: Key, rows: seq<Invoice>) {
    forall y :: y in rows ==> Newer(y.key, key)
  }

  lemma LeftOut(all: seq<Invoice>, limit: nat, x: Invoice)
    requires NewestFirst(all) && limit > 0 && x in all && x !in PageOf(all, limit).data
    ensures |PageOf(all, limit).data| == limit && OlderThanAll(x.key, PageOf(all, limit).data)
  {
    var rows := PageOf(all, limit).data;
    var j :| 0 <= j < |all| && all[j] == x;
    assert forall k :: 0 <= k < |rows| ==> all[k] in rows;
  }

  ghost predicate InSome(x: Invoice, tables: seq<seq<Invoice>>) {
    exists i :: 0 <= i < |tables| && x in tables[i]
  }

  ghost predicate AllAsked(
      rows: seq<Invoice>, tables: seq<seq<Invoice>>, filters: Filters, after: Option<Key>)
  {
    forall x :: x in rows ==> InSome(x, tables) && Asked(x, filters, after)
  }

  lemma PageAsked(table: seq<Invoice>, filters: Filters, after: Option<Key>, limit: nat)
    requires UniqueIds(table) && limit > 0
    ensures forall x :: x in FetchPage(table, filters, after, limit).data ==>
      x in table && Asked(x, filters, after)
  {
    PageKeeps(table, filters, after, limit);
    NewerExact();
  }

  /** The filters hold of all rows of a walk. */
  lemma {:induction false} WalkAsked(tables: seq<seq<Invoice>>, filters: Filters, after: Option<Key>, limit: nat)
    requires limit > 0 && GoodTables(tables)
    ensures AllAsked(Returned(Follow(tables, filters, after, limit)), tables, filters, None)
    decreases tables
  {
    if tables != [] {
      var first, last := RowsOfWalk(tables, filters, after, limit);
      assert GoodTable(tables[0]);
      PageAsked(tables[0], filters, after, limit);
      assert AllAsked(first, tables, filters, None);
      if last.Some? {
        var rest := Returned(Follow(tables[1..], filters, last, limit));
        WalkAsked(tables[1..], filters, last, limit);
        LaterTables(rest, tables, filters);
      }
    }
  }

  lemma LaterTables(rows: seq<Invoice>, tables: seq<seq<Invoice>>, filters: Filters)
    requires tables != [] && AllAsked(rows, tables[1..], filters, None)
    ensures AllAsked(rows, tables, filters, None)
  {
    forall x | x in rows
      ensures InSome(x, tables)
    {
      var i :| 0 <= i < |tables[1..]| && x in tables[1..][i];
      assert x in tables[i + 1];
    }
  }

  /**
   All rows that a client gets by following the cursors, however the collection changes between
   the requests: newest first over all the pages, older than the cursor it starts from, and every
   one of them with the status and merchant asked for.
   */
  lemma WalkNewestFirst(tables: seq<seq<Invoice>>, filters: Filters, after: Option<Key>, limit: nat)
    requires limit > 0 && GoodTables(tables)
    ensures
      var rows := Returned(Follow(tables, filters, after, limit));
      NewestFirst(rows) && AllAsked(rows, tables, filters, after)
  {
    WalkDescends(tables, filters, after, limit);
    WalkAsked(tables, filters, after, limit);
    NewerExact();
  }
}
