/**
 Keyset pagination of the invoice list: pages follow a cursor down the order of
 (created_at, invoice_id), while the collection may change between requests.
 */
module InvoicePaging {
  import opened Common

  // ----- the order of the list ---------------------------------------------

  datatype Key = Key(createdAt: int, id: string)

  datatype Filters = Filters(status: Option<string>, merchant: Option<string>)

  /** A document of the collection; its key never changes, and ids are unique. */
  datatype Invoice = Invoice(key: Key, status: string, merchant: string)

  predicate TextLess(a: string, b: string) {
    if b == "" then false
    else if a == "" then true
    else if a[0] != b[0] then a[0] < b[0]
    else TextLess(a[1..], b[1..])
  }

  /** a comes before b in the list, which runs from new to old and from large ids to small ones. */
  predicate Before(a: Key, b: Key) {
    b.createdAt < a.createdAt || (b.createdAt == a.createdAt && TextLess(b.id, a.id))
  }

  lemma {:induction false} TextLessTotal(a: string, b: string)
    ensures TextLess(a, b) || TextLess(b, a) || a == b
    decreases a
  {
    if a != "" && b != "" && a[0] == b[0] {
      TextLessTotal(a[1..], b[1..]);
      assert a == [a[0]] + a[1..] && b == [b[0]] + b[1..];
    }
  }

  lemma {:induction false} TextLessIrreflexive(a: string)
    ensures !TextLess(a, a)
    decreases a
  {
    if a != "" {
      TextLessIrreflexive(a[1..]);
    }
  }

  lemma {:induction false} TextLessTransitive(a: string, b: string, c: string)
    requires TextLess(a, b) && TextLess(b, c)
    ensures TextLess(a, c)
    decreases a
  {
    if a != "" && a[0] == b[0] == c[0] {
      TextLessTransitive(a[1..], b[1..], c[1..]);
    }
  }

  lemma BeforeTransitive(a: Key, b: Key, c: Key)
    requires Before(a, b) && Before(b, c)
    ensures Before(a, c)
  {
    if a.createdAt == b.createdAt == c.createdAt {
      TextLessTransitive(c.id, b.id, a.id);
    }
  }

  lemma BeforeTotal(a: Key, b: Key)
    ensures !Before(a, a)
    ensures Before(a, b) || Before(b, a) || a == b
  {
    TextLessIrreflexive(a.id);
    TextLessTotal(a.id, b.id);
  }

  ghost predicate Descending(rows: seq<Invoice>) {
    forall i, j :: 0 <= i < j < |rows| ==> Before(rows[i].key, rows[j].key)
  }

  // ----- the database query ------------------------------------------------

  predicate Passes(filter: Option<string>, value: string) {
    filter == None || filter == Some(value)
  }

  predicate Past(after: Option<Key>, key: Key) {
    after == None || Before(after.value, key)
  }

  predicate Wanted(filters: Filters, after: Option<Key>, invoice: Invoice) {
    Passes(filters.status, invoice.status) && Passes(filters.merchant, invoice.merchant) && Past(after, invoice.key)
  }

  function Find(table: seq<Invoice>, filters: Filters, after: Option<Key>): seq<Invoice> {
    if table == [] then []
    else (if Wanted(filters, after, table[0]) then [table[0]] else []) + Find(table[1..], filters, after)
  }

  function Insert(x: Invoice, rows: seq<Invoice>): seq<Invoice> {
    if rows == [] || Before(x.key, rows[0].key) then [x] + rows
    else [rows[0]] + Insert(x, rows[1..])
  }

  /** sort({ created_at: -1, invoice_id: -1 }); ids being unique, the further _id never decides. */
  function Sort(rows: seq<Invoice>): seq<Invoice> {
    if rows == [] then [] else Insert(rows[0], Sort(rows[1..]))
  }

  lemma {:induction false} FindHas(table: seq<Invoice>, filters: Filters, after: Option<Key>)
    ensures forall x :: x in Find(table, filters, after) <==> x in table && Wanted(filters, after, x)
    decreases table
  {
    if table != [] {
      assert table == [table[0]] + table[1..];
      FindHas(table[1..], filters, after);
    }
  }

  lemma {:induction false} InsertHas(x: Invoice, rows: seq<Invoice>)
    ensures forall y :: y in Insert(x, rows) <==> y == x || y in rows
    decreases rows
  {
    if rows != [] {
      assert rows == [rows[0]] + rows[1..];
      InsertHas(x, rows[1..]);
    }
  }

  lemma {:induction false} SortHas(rows: seq<Invoice>)
    ensures forall y :: y in Sort(rows) <==> y in rows
    decreases rows
  {
    if rows != [] {
      assert rows == [rows[0]] + rows[1..];
      SortHas(rows[1..]);
      InsertHas(rows[0], Sort(rows[1..]));
    }
  }

  ghost predicate HasId(rows: seq<Invoice>, id: string) {
    exists x :: x in rows && x.key.id == id
  }

  ghost predicate UniqueIds(rows: seq<Invoice>) {
    rows == [] || (!HasId(rows[1..], rows[0].key.id) && UniqueIds(rows[1..]))
  }

  lemma {:induction false} InsertDescending(x: Invoice, rows: seq<Invoice>)
    requires Descending(rows) && forall y :: y in rows ==> y.key != x.key
    ensures Descending(Insert(x, rows))
    decreases rows
  {
    if rows == [] {
    } else if Before(x.key, rows[0].key) {
      forall i | 0 < i < |rows|
        ensures Before(x.key, rows[i].key)
      {
        BeforeTransitive(x.key, rows[0].key, rows[i].key);
      }
    } else {
      var tail := Insert(x, rows[1..]);
      InsertHas(x, rows[1..]);
      InsertDescending(x, rows[1..]);
      BeforeTotal(x.key, rows[0].key);
      assert rows[0] in rows;
      DescendingCons(rows[0], tail);
    }
  }

  lemma DescendingCons(first: Invoice, tail: seq<Invoice>)
    requires Descending(tail) && forall y :: y in tail ==> Before(first.key, y.key)
    ensures Descending([first] + tail)
  {
    forall i, j | 0 <= i < j < |tail| + 1
      ensures Before(([first] + tail)[i].key, ([first] + tail)[j].key)
    {
      assert tail[j - 1] in tail;
    }
  }

  lemma {:induction false} FindUnique(table: seq<Invoice>, filters: Filters, after: Option<Key>)
    requires UniqueIds(table)
    ensures UniqueIds(Find(table, filters, after))
    decreases table
  {
    if table != [] {
      var first, rest := table[0], Find(table[1..], filters, after);
      FindUnique(table[1..], filters, after);
      FindHas(table[1..], filters, after);
      assert !HasId(rest, first.key.id);
      assert ([first] + rest)[1..] == rest && [] + rest == rest;
    }
  }

  lemma {:induction false} SortDescending(rows: seq<Invoice>)
    requires UniqueIds(rows)
    ensures Descending(Sort(rows))
    decreases rows
  {
    if rows != [] {
      SortDescending(rows[1..]);
      SortHas(rows[1..]);
      forall y | y in Sort(rows[1..])
        ensures y.key != rows[0].key
      {
        assert y in rows[1..] && !HasId(rows[1..], rows[0].key.id);
      }
      InsertDescending(rows[0], Sort(rows[1..]));
    }
  }

  /** Two descending lists of the same rows are the same list. */
  lemma {:induction false} DescendingUnique(a: seq<Invoice>, b: seq<Invoice>)
    requires Descending(a) && Descending(b) && forall x :: x in a <==> x in b
    ensures a == b
    decreases a
  {
    if a == [] {
      if b != [] {
        SameHead(b, a);
      }
    } else {
      SameHead(a, b);
      TailRows(a, b);
      TailRows(b, a);
      DescendingUnique(a[1..], b[1..]);
      assert a == [a[0]] + a[1..] && b == [b[0]] + b[1..];
    }
  }

  lemma SameHead(a: seq<Invoice>, b: seq<Invoice>)
    requires Descending(a) && Descending(b) && a != [] && forall x :: x in a <==> x in b
    ensures b != [] && a[0] == b[0]
  {
    assert a[0] in a && a[0] in b;
    assert b[0] in b && b[0] in a;
    if a[0] != b[0] {
      BeforeTransitive2(a[0].key, b[0].key);
    }
  }

  lemma BeforeTransitive2(a: Key, b: Key)
    ensures !(Before(a, b) && Before(b, a))
  {
    if Before(a, b) && Before(b, a) {
      BeforeTransitive(a, b, a);
      BeforeTotal(a, a);
    }
  }

  lemma TailRows(a: seq<Invoice>, b: seq<Invoice>)
    requires Descending(a) && a != [] && b != [] && a[0] == b[0] && forall x :: x in a <==> x in b
    ensures forall x :: x in a[1..] ==> x in b[1..]
  {
    forall x | x in a[1..]
      ensures x in b[1..]
    {
      assert x in a;
      BeforeTotal(a[0].key, a[0].key);
      assert b == [b[0]] + b[1..];
    }
  }

  // ----- cursors -----------------------------------------------------------

  const MAX_TIME := 8_640_000_000_000_000
  const MAX_SAFE_INTEGER := 9_007_199_254_740_991

  /** What a property of a decoded JSON object can be. */
  datatype Json = Absent | Integer(n: int) | Text(s: string) | OtherJson

  /** The content of a cursor; base64url and JSON give back the text they were given. */
  datatype Payload = Malformed | Payload(createdAt: Json, invoiceId: Json)

  datatype Decoded = Ok(key: Key) | Invalid

  function EncodeCursor(key: Key): Payload {
    Payload(Integer(key.createdAt), Text(key.id))
  }

  function DecodeCursor(p: Payload): Decoded {
    if p.Malformed? then Invalid
    else if !p.createdAt.Integer? || !(-MAX_SAFE_INTEGER <= p.createdAt.n <= MAX_SAFE_INTEGER) then Invalid
    else if p.createdAt.n < 0 || p.createdAt.n > MAX_TIME then Invalid
    else if !p.invoiceId.Text? || p.invoiceId.s == "" then Invalid
    else Ok(Key(p.createdAt.n, p.invoiceId.s))
  }

  /** Keys whose cursors are taken back: created from 1970 on, within the range of dates, with an id. */
  predicate ValidKey(key: Key) {
    0 <= key.createdAt <= MAX_TIME && key.id != ""
  }

  /** Decoding gives back the key for exactly those, and never another one. */
  lemma CursorRoundTrip(key: Key)
    ensures DecodeCursor(EncodeCursor(key)) == if ValidKey(key) then Ok(key) else Invalid
  {
  }

  // ----- a page ------------------------------------------------------------

  datatype Page = Page(data: seq<Invoice>, next: Option<Payload>)

  /** The first `limit` rows and, if there are more, a cursor after the last of them. */
  function PageOf(rows: seq<Invoice>, limit: nat): Page
    requires limit > 0
  {
    if |rows| > limit then Page(rows[..limit], Some(EncodeCursor(rows[limit - 1].key))) else Page(rows, None)
  }

  function FetchPage(table: seq<Invoice>, filters: Filters, after: Option<Key>, limit: nat): Page
    requires limit > 0
  {
    PageOf(Sort(Find(table, filters, after)), limit)
  }

  datatype Query = Query(cursor: Option<Payload>, limit: Option<nat>, page: Option<nat>, offset: Option<nat>)

  datatype Answer = BadRequest | Listed(page: Page, limit: nat)

  /** The query schema: positive limit and page, and no cursor together with page or offset. */
  predicate ValidQuery(q: Query) {
    && (q.limit.Some? ==> q.limit.value > 0) && (q.page.Some? ==> q.page.value > 0)
    && (q.cursor.Some? ==> q.page.None? && q.offset.None?)
  }

  function LimitOf(q: Query): (limit: nat)
    requires ValidQuery(q)
    ensures 0 < limit <= 100
  {
    Min(100, q.limit.GetOr(20))
  }

  function OffsetOf(q: Query): nat
    requires ValidQuery(q)
  {
    if q.cursor.Some? || (q.page.None? && q.offset.None?) then 0
    else if q.offset.Some? then q.offset.value
    else OffsetOfPage(q.page.value, LimitOf(q))
  }

  function OffsetOfPage(page: nat, limit: nat): nat
    requires page > 0
  {
    (page - 1) * limit
  }

  function AfterOf(q: Query): Option<Key> {
    CursorKey(q.cursor)
  }

  function CursorKey(cursor: Option<Payload>): Option<Key> {
    if cursor.None? then None
    else
      match DecodeCursor(cursor.value)
      case Ok(key) => Some(key)
      case Invalid => None
  }

  method ReadCursor(cursor: Option<Payload>) returns (ok: bool, after: Option<Key>)
    ensures ok <==> cursor.None? || DecodeCursor(cursor.value).Ok?
    ensures after == CursorKey(cursor)
  {
    if cursor.None? {
      return true, None;
    }
    var decoded := DecodeCursor(cursor.value);
    if decoded.Invalid? {
      return false, None;
    }
    return true, Some(decoded.key);
  }

  /** skip(n) */
  function Skip(rows: seq<Invoice>, n: nat): seq<Invoice> {
    if n <= |rows| then rows[n..] else []
  }

  /** The list route, up to the totals of the deprecated page and offset parameters. */
  method ListInvoices(table: seq<Invoice>, filters: Filters, q: Query) returns (answer: Answer)
    requires ValidQuery(q)
    ensures answer ==
      if q.cursor.Some? && DecodeCursor(q.cursor.value).Invalid? then BadRequest
      else Listed(PageOf(Skip(Sort(Find(table, filters, AfterOf(q))), OffsetOf(q)), LimitOf(q)), LimitOf(q))
  {
    var ok, after := ReadCursor(q.cursor);
    if !ok {
      return BadRequest;
    }
    var found := Sort(Find(table, filters, after));
    var page, limit := PageFrom(found, q);
    return Listed(page, limit);
  }

  method PageFrom(found: seq<Invoice>, q: Query) returns (listed: Page, limit: nat)
    requires ValidQuery(q)
    ensures limit == LimitOf(q) && listed == PageOf(Skip(found, OffsetOf(q)), LimitOf(q))
  {
    limit := Min(100, q.limit.GetOr(20));
    var rows := SkipRows(found, q, limit);
    listed := TakePage(rows, limit);
  }

  method SkipRows(found: seq<Invoice>, q: Query, limit: nat) returns (rows: seq<Invoice>)
    requires ValidQuery(q) && limit == LimitOf(q)
    ensures rows == Skip(found, OffsetOf(q))
  {
    var legacy := q.cursor.None? && (q.page.Some? || q.offset.Some?);
    var page := q.page.GetOr(1);
    NoSkip(found);
    if !legacy {
      return found;
    }
    var offset := if q.offset.Some? then q.offset.value else OffsetOfPage(page, limit);
    return Skip(found, offset);
  }

  lemma NoSkip(rows: seq<Invoice>)
    ensures Skip(rows, 0) == rows
  {
  }

  /** One row more than the limit is asked for, to see whether there are more. */
  method TakePage(found: seq<Invoice>, limit: nat) returns (page: Page)
    requires limit > 0
    ensures page == PageOf(found, limit)
  {
    var rows := found[..Min(limit + 1, |found|)];
    var hasMore := |rows| > limit;
    var data := rows[..Min(limit, |rows|)];
    var next := if hasMore && |data| > 0 then Some(EncodeCursor(data[|data| - 1].key)) else None;
    assert data == found[..Min(limit, |found|)];
    return Page(data, next);
  }

  /** Without page or offset the route gives the page after the cursor. */
  lemma CursorPage(table: seq<Invoice>, filters: Filters, q: Query)
    requires ValidQuery(q) && q.page.None? && q.offset.None?
    ensures PageOf(Skip(Sort(Find(table, filters, AfterOf(q))), OffsetOf(q)), LimitOf(q)) ==
            FetchPage(table, filters, AfterOf(q), LimitOf(q))
  {
    NoSkip(Sort(Find(table, filters, AfterOf(q))));
  }

  lemma FoundRows(table: seq<Invoice>, filters: Filters, after: Option<Key>)
    requires UniqueIds(table)
    ensures Descending(Sort(Find(table, filters, after)))
    ensures forall x :: x in Sort(Find(table, filters, after)) <==> x in table && Wanted(filters, after, x)
  {
    FindHas(table, filters, after);
    SortHas(Find(table, filters, after));
    FindUnique(table, filters, after);
    SortDescending(Find(table, filters, after));
  }

  lemma TopRows(rows: seq<Invoice>, limit: nat)
    requires Descending(rows) && limit > 0
    ensures
      var page := PageOf(rows, limit);
      && Descending(page.data)
      && (forall x :: x in page.data ==> x in rows)
      && (page.next.Some? ==> page.data != [] && page.next.value == EncodeCursor(page.data[|page.data| - 1].key))
      && (forall x :: x in rows ==>
            x in page.data || (page.next.Some? && Before(page.data[|page.data| - 1].key, x.key)))
  {
    if |rows| > limit {
      forall x | x in rows
        ensures x in rows[..limit] || Before(rows[limit - 1].key, x.key)
      {
        var i :| 0 <= i < |rows| && rows[i] == x;
        if i < limit {
          assert rows[..limit][i] == x;
        }
      }
    }
  }

  ghost predicate RowsOf(rows: seq<Invoice>, table: seq<Invoice>, filters: Filters, after: Option<Key>) {
    Descending(rows) && forall x :: x in rows <==> x in table && Wanted(filters, after, x)
  }

  lemma TopRowsOf(
      rows: seq<Invoice>, table: seq<Invoice>, filters: Filters, after: Option<Key>, page: Page, limit: nat)
    requires limit > 0 && RowsOf(rows, table, filters, after) && page == PageOf(rows, limit)
    ensures Descending(page.data)
    ensures forall x :: x in page.data ==> x in table && Wanted(filters, after, x)
    ensures page.next.Some? ==> page.data != [] && page.next.value == EncodeCursor(page.data[|page.data| - 1].key)
    ensures forall x :: x in table && Wanted(filters, after, x) ==>
      x in page.data || (page.next.Some? && Before(page.data[|page.data| - 1].key, x.key))
  {
    TopRows(rows, limit);
    forall x | x in table && Wanted(filters, after, x)
      ensures x in page.data || (page.next.Some? && Before(page.data[|page.data| - 1].key, x.key))
    {
      assert x in rows;
    }
  }

  /** A page holds wanted rows only, in order, and leaves out only rows after its cursor. */
  lemma PageKeeps(table: seq<Invoice>, filters: Filters, after: Option<Key>, limit: nat)
    requires UniqueIds(table) && limit > 0
    ensures
      var page := FetchPage(table, filters, after, limit);
      && Descending(page.data)
      && (forall x :: x in page.data ==> x in table && Wanted(filters, after, x))
      && (page.next.Some? ==> page.data != [] && page.next.value == EncodeCursor(page.data[|page.data| - 1].key))
      && (forall x :: x in table && Wanted(filters, after, x) ==>
            x in page.data || (page.next.Some? && Before(page.data[|page.data| - 1].key, x.key)))
  {
    var rows := Sort(Find(table, filters, after));
    FoundRows(table, filters, after);
    TopRowsOf(rows, table, filters, after, PageOf(rows, limit), limit);
  }

  // ----- following the cursor ----------------------------------------------

  /** The pages a client gets by following next_cursor; tables[i] is the collection at request i. */
  function Follow(tables: seq<seq<Invoice>>, filters: Filters, after: Option<Key>, limit: nat): seq<Page>
    requires limit > 0
    decreases tables
  {
    if tables == [] then []
    else
      var page := FetchPage(tables[0], filters, after, limit);
      if page.next.None? then [page]
      else
        match DecodeCursor(page.next.value)
        case Invalid => [page]
        case Ok(key) => [page] + Follow(tables[1..], filters, Some(key), limit)
  }

  function Returned(pages: seq<Page>): seq<Invoice> {
    if pages == [] then [] else pages[0].data + Returned(pages[1..])
  }

  predicate Ended(pages: seq<Page>) {
    pages != [] && pages[|pages| - 1].next.None?
  }

  ghost predicate GoodTable(table: seq<Invoice>) {
    UniqueIds(table) && forall x :: x in table ==> ValidKey(x.key)
  }

  ghost predicate GoodTables(tables: seq<seq<Invoice>>) {
    forall i :: 0 <= i < |tables| ==> GoodTable(tables[i])
  }

  /** The invoice is there, and passes the filters, in every one of the tables. */
  ghost predicate PresentThroughout(tables: seq<seq<Invoice>>, filters: Filters, key: Key) {
    forall i :: 0 <= i < |tables| ==> Present(tables[i], filters, key)
  }

  ghost predicate Present(table: seq<Invoice>, filters: Filters, key: Key) {
    exists x :: x in table && x.key == key && Wanted(filters, None, x)
  }

  ghost predicate HasKey(rows: seq<Invoice>, key: Key) {
    exists x :: x in rows && x.key == key
  }

  /** One request of a walk: the pages it starts with and how the walk goes on. */
  lemma FollowStep(tables: seq<seq<Invoice>>, filters: Filters, after: Option<Key>, limit: nat)
    requires limit > 0 && tables != [] && GoodTables(tables)
    ensures
      var page := FetchPage(tables[0], filters, after, limit);
      Follow(tables, filters, after, limit) ==
      if page.next.None? || page.data == [] then [page]
      else [page] + Follow(tables[1..], filters, Some(page.data[|page.data| - 1].key), limit)
  {
    var page := FetchPage(tables[0], filters, after, limit);
    assert GoodTable(tables[0]);
    PageKeeps(tables[0], filters, after, limit);
    if page.next.Some? {
      var last := page.data[|page.data| - 1];
      assert last in page.data;
      CursorRoundTrip(last.key);
    }
  }

  lemma ReturnedCons(page: Page, pages: seq<Page>)
    ensures Returned([page] + pages) == page.data + Returned(pages)
    ensures pages != [] ==> (Ended([page] + pages) <==> Ended(pages))
  {
    assert ([page] + pages)[1..] == pages;
  }

  /** What a walk returns, from what its first page and the rest of the walk return. */
  lemma ReturnedStep(tables: seq<seq<Invoice>>, filters: Filters, after: Option<Key>, limit: nat)
    requires limit > 0 && tables != [] && GoodTables(tables)
    ensures
      var page := FetchPage(tables[0], filters, after, limit);
      var pages := Follow(tables, filters, after, limit);
      if page.next.None? then Ended(pages) && |pages| == 1 && Returned(pages) == page.data
      else
        page.data != [] &&
        var rest := Follow(tables[1..], filters, Some(page.data[|page.data| - 1].key), limit);
        && Returned(pages) == page.data + Returned(rest)
        && |pages| == 1 + |rest|
        && (Ended(pages) <==> Ended(rest))
  {
    var page := FetchPage(tables[0], filters, after, limit);
    assert GoodTable(tables[0]);
    PageKeeps(tables[0], filters, after, limit);
    FollowStep(tables, filters, after, limit);
    if page.next.None? {
      OnePage(page);
    } else {
      var rest := Follow(tables[1..], filters, Some(page.data[|page.data| - 1].key), limit);
      ReturnedCons(page, rest);
      assert rest == [] ==> [page] + rest == [page];
    }
  }

  lemma OnePage(page: Page)
    ensures Returned([page]) == page.data
  {
    assert [page] + [] == [page];
    ReturnedCons(page, []);
    assert page.data + Returned([]) == page.data;
  }

  lemma DescendingConcat(a: seq<Invoice>, b: seq<Invoice>)
    requires Descending(a) && Descending(b)
    requires a != [] && forall x :: x in b ==> Before(a[|a| - 1].key, x.key)
    ensures Descending(a + b)
  {
    var last := a[|a| - 1].key;
    forall i, j | 0 <= i < j < |a + b|
      ensures Before((a + b)[i].key, (a + b)[j].key)
    {
      if i < |a| <= j {
        assert b[j - |a|] in b;
        if i < |a| - 1 {
          BeforeTransitive(a[i].key, last, b[j - |a|].key);
        }
      }
    }
  }

  ghost predicate InOrderAfter(rows: seq<Invoice>, after: Option<Key>) {
    Descending(rows) && forall x :: x in rows ==> Past(after, x.key)
  }

  lemma InOrderConcat(a: seq<Invoice>, b: seq<Invoice>, after: Option<Key>)
    requires InOrderAfter(a, after) && a != [] && InOrderAfter(b, Some(a[|a| - 1].key))
    ensures InOrderAfter(a + b, after)
  {
    DescendingConcat(a, b);
    PastAll(a, b, after);
  }

  lemma PageInOrder(table: seq<Invoice>, filters: Filters, after: Option<Key>, limit: nat)
    requires UniqueIds(table) && limit > 0
    ensures InOrderAfter(FetchPage(table, filters, after, limit).data, after)
    ensures forall x :: x in FetchPage(table, filters, after, limit).data ==> x in table
  {
    PageKeeps(table, filters, after, limit);
  }

  lemma RowsOfWalk(tables: seq<seq<Invoice>>, filters: Filters, after: Option<Key>, limit: nat)
    returns (first: seq<Invoice>, last: Option<Key>)
    requires limit > 0 && tables != [] && GoodTables(tables)
    ensures first == FetchPage(tables[0], filters, after, limit).data
    ensures
      var rows := Returned(Follow(tables, filters, after, limit));
      if last.None? then rows == first
      else
        && first != [] && last.value == first[|first| - 1].key
        && rows == first + Returned(Follow(tables[1..], filters, last, limit))
  {
    var page := FetchPage(tables[0], filters, after, limit);
    ReturnedStep(tables, filters, after, limit);
    first := page.data;
    last := if page.next.None? then None else Some(page.data[|page.data| - 1].key);
  }

  /** The rows of the first page, the key they end with if there are more, and the rows after them. */
  lemma FirstRows(tables: seq<seq<Invoice>>, filters: Filters, after: Option<Key>, limit: nat)
    returns (first: seq<Invoice>, last: Option<Key>)
    requires limit > 0 && tables != [] && GoodTables(tables)
    ensures InOrderAfter(first, after) && forall x :: x in first ==> x in tables[0]
    ensures
      var rows := Returned(Follow(tables, filters, after, limit));
      if last.None? then rows == first
      else
        && first != [] && last.value == first[|first| - 1].key
        && rows == first + Returned(Follow(tables[1..], filters, last, limit))
  {
    first, last := RowsOfWalk(tables, filters, after, limit);
    assert GoodTable(tables[0]);
    PageInOrder(tables[0], filters, after, limit);
  }

  /** However the collection changes, the rows come in strictly descending order. */
  lemma {:induction false} WalkDescends(tables: seq<seq<Invoice>>, filters: Filters, after: Option<Key>, limit: nat)
    requires limit > 0 && GoodTables(tables)
    ensures InOrderAfter(Returned(Follow(tables, filters, after, limit)), after)
    decreases tables
  {
    if tables != [] {
      var first, last := FirstRows(tables, filters, after, limit);
      if last.Some? {
        WalkDescends(tables[1..], filters, last, limit);
        InOrderConcat(first, Returned(Follow(tables[1..], filters, last, limit)), after);
      }
    }
  }

  lemma PastAll(a: seq<Invoice>, b: seq<Invoice>, after: Option<Key>)
    requires a != [] && (forall x :: x in a ==> Past(after, x.key))
    requires forall x :: x in b ==> Before(a[|a| - 1].key, x.key)
    ensures forall x :: x in a + b ==> Past(after, x.key)
  {
    forall x | x in b
      ensures Past(after, x.key)
    {
      if after.Some? {
        assert a[|a| - 1] in a;
        BeforeTransitive(after.value, a[|a| - 1].key, x.key);
      }
    }
  }

  /** As in the collection, where the time and the id of an invoice are written once. */
  ghost predicate KeysKept(rows: seq<Invoice>, keyOf: map<string, Key>) {
    forall x :: x in rows ==> x.key.id in keyOf && keyOf[x.key.id] == x.key
  }

  ghost predicate KeysKeptThroughout(tables: seq<seq<Invoice>>, keyOf: map<string, Key>) {
    forall i :: 0 <= i < |tables| ==> KeysKept(tables[i], keyOf)
  }

  /** What a walk returns comes from the tables. */
  lemma {:induction false} WalkKeepsKeys(
      tables: seq<seq<Invoice>>, filters: Filters, after: Option<Key>, limit: nat, keyOf: map<string, Key>)
    requires limit > 0 && GoodTables(tables) && KeysKeptThroughout(tables, keyOf)
    ensures KeysKept(Returned(Follow(tables, filters, after, limit)), keyOf)
    decreases tables
  {
    if tables != [] {
      var first, last := FirstRows(tables, filters, after, limit);
      assert KeysKept(tables[0], keyOf);
      if last.Some? {
        WalkKeepsKeys(tables[1..], filters, last, limit, keyOf);
      }
    }
  }

  /** However the collection changes, no id comes twice, if every id keeps its key. */
  lemma NoneTwice(tables: seq<seq<Invoice>>, filters: Filters, limit: nat, keyOf: map<string, Key>)
    requires limit > 0 && GoodTables(tables) && KeysKeptThroughout(tables, keyOf)
    ensures
      var rows := Returned(Follow(tables, filters, None, limit));
      forall i, j :: 0 <= i < j < |rows| ==> rows[i].key.id != rows[j].key.id
  {
    var rows := Returned(Follow(tables, filters, None, limit));
    WalkDescends(tables, filters, None, limit);
    WalkKeepsKeys(tables, filters, None, limit, keyOf);
    IdsDiffer(rows, keyOf);
  }

  lemma IdsDiffer(rows: seq<Invoice>, keyOf: map<string, Key>)
    requires Descending(rows) && KeysKept(rows, keyOf)
    ensures forall i, j :: 0 <= i < j < |rows| ==> rows[i].key.id != rows[j].key.id
  {
    forall i, j | 0 <= i < j < |rows|
      ensures rows[i].key.id != rows[j].key.id
    {
      assert rows[i] in rows && rows[j] in rows;
      BeforeTotal(rows[i].key, rows[j].key);
    }
  }

  /** A walk that came to its end returned every invoice that was there throughout. */
  lemma {:induction false} WalkComplete(
      tables: seq<seq<Invoice>>, filters: Filters, after: Option<Key>, limit: nat, key: Key)
    requires limit > 0 && GoodTables(tables) && PresentThroughout(tables, filters, key) && Past(after, key)
    requires Ended(Follow(tables, filters, after, limit))
    ensures HasKey(Returned(Follow(tables, filters, after, limit)), key)
    decreases tables
  {
    var page := FetchPage(tables[0], filters, after, limit);
    assert GoodTable(tables[0]) && Present(tables[0], filters, key);
    ReturnedStep(tables, filters, after, limit);
    PageHas(tables[0], filters, after, limit, key);
    if page.next.Some? {
      var last := page.data[|page.data| - 1].key;
      if Before(last, key) {
        assert PresentThroughout(tables[1..], filters, key);
        WalkComplete(tables[1..], filters, Some(last), limit, key);
      }
      HasKeyConcat(page.data, Returned(Follow(tables[1..], filters, Some(last), limit)), key);
    }
  }

  lemma PageHas(table: seq<Invoice>, filters: Filters, after: Option<Key>, limit: nat, key: Key)
    requires UniqueIds(table) && limit > 0 && Present(table, filters, key) && Past(after, key)
    ensures
      var page := FetchPage(table, filters, after, limit);
      HasKey(page.data, key) || (page.next.Some? && page.data != [] && Before(page.data[|page.data| - 1].key, key))
  {
    PageKeeps(table, filters, after, limit);
    var x :| x in table && x.key == key && Wanted(filters, None, x);
    assert Wanted(filters, after, x);
  }

  lemma HasKeyConcat(a: seq<Invoice>, b: seq<Invoice>, key: Key)
    ensures HasKey(a, key) || HasKey(b, key) ==> HasKey(a + b, key)
  {
    if HasKey(a, key) {
      var x :| x in a && x.key == key;
      assert x in a + b;
    }
    if HasKey(b, key) {
      var x :| x in b && x.key == key;
      assert x in a + b;
    }
  }

  // ----- a collection that does not change ---------------------------------

  function PagesFor(rows: nat, limit: nat): nat
    requires limit > 0
  {
    if rows <= limit then 1 else 1 + PagesFor(rows - limit, limit)
  }

  /** The rows after the last row of a page are the rest of the list. */
  lemma RestOfList(table: seq<Invoice>, filters: Filters, after: Option<Key>, limit: nat)
    requires UniqueIds(table) && 0 < limit < |Sort(Find(table, filters, after))|
    ensures
      var rows := Sort(Find(table, filters, after));
      Sort(Find(table, filters, Some(rows[limit - 1].key))) == rows[limit..]
  {
    var rows := Sort(Find(table, filters, after));
    var last := rows[limit - 1].key;
    var next := Sort(Find(table, filters, Some(last)));
    FoundRows(table, filters, after);
    FoundRows(table, filters, Some(last));
    assert rows[limit - 1] in rows;
    forall x
      ensures x in rows[limit..] <==> x in next
    {
      RestHas(rows, limit, x);
      if after.Some? && Before(last, x.key) {
        BeforeTransitive(after.value, last, x.key);
      }
    }
    DescendingUnique(rows[limit..], next);
  }

  lemma RestHas(rows: seq<Invoice>, limit: nat, x: Invoice)
    requires Descending(rows) && 0 < limit < |rows|
    ensures x in rows[limit..] <==> x in rows && Before(rows[limit - 1].key, x.key)
  {
    if x in rows && Before(rows[limit - 1].key, x.key) {
      var i :| 0 <= i < |rows| && rows[i] == x;
      if i < limit {
        BeforeTotal(x.key, x.key);
        BeforeTransitive2(x.key, rows[limit - 1].key);
      }
    }
  }

  ghost predicate Quiet(tables: seq<seq<Invoice>>, table: seq<Invoice>) {
    forall i :: 0 <= i < |tables| ==> tables[i] == table
  }

  lemma QuietTables(tables: seq<seq<Invoice>>, table: seq<Invoice>)
    requires Quiet(tables, table) && GoodTable(table)
    ensures GoodTables(tables) && (tables != [] ==> tables[0] == table && Quiet(tables[1..], table))
  {
  }

  lemma FirstPage(rows: seq<Invoice>, limit: nat)
    requires limit > 0
    ensures
      var page := PageOf(rows, limit);
      if |rows| <= limit then page == Page(rows, None)
      else page.next.Some? && page.data == rows[..limit] && page.data[|page.data| - 1] == rows[limit - 1]
  {
  }

  /** One request of a walk over a collection that does not change. */
  lemma QuietStep(
      table: seq<Invoice>, tables: seq<seq<Invoice>>, filters: Filters, after: Option<Key>, limit: nat,
      rows: seq<Invoice>)
    requires limit > 0 && GoodTable(table) && Quiet(tables, table) && tables != []
    requires rows == Sort(Find(table, filters, after))
    ensures
      var pages := Follow(tables, filters, after, limit);
      if |rows| <= limit then Ended(pages) && |pages| == 1 && Returned(pages) == rows
      else
        var rest := Follow(tables[1..], filters, Some(rows[limit - 1].key), limit);
        && Returned(pages) == rows[..limit] + Returned(rest)
        && |pages| == 1 + |rest|
        && (Ended(pages) <==> Ended(rest))
  {
    QuietTables(tables, table);
    FirstPage(rows, limit);
    ReturnedStep(tables, filters, after, limit);
  }

  ghost predicate WholeWalk(pages: seq<Page>, rows: seq<Invoice>, limit: nat)
    requires limit > 0
  {
    Ended(pages) && |pages| == PagesFor(|rows|, limit) && Returned(pages) == rows
  }

  lemma WholeWalkStep(pages: seq<Page>, rest: seq<Page>, rows: seq<Invoice>, limit: nat)
    requires 0 < limit < |rows| && WholeWalk(rest, rows[limit..], limit)
    requires Returned(pages) == rows[..limit] + Returned(rest) && |pages| == 1 + |rest|
    requires Ended(pages) <==> Ended(rest)
    ensures WholeWalk(pages, rows, limit)
  {
  }

  /** Without changes the walk ends, and its pages put together are the whole sorted list. */
  lemma {:induction false} QuietWalk(
      table: seq<Invoice>, tables: seq<seq<Invoice>>, filters: Filters, after: Option<Key>, limit: nat,
      rows: seq<Invoice>)
    requires limit > 0 && GoodTable(table) && Quiet(tables, table)
    requires rows == Sort(Find(table, filters, after)) && |tables| >= PagesFor(|rows|, limit)
    ensures WholeWalk(Follow(tables, filters, after, limit), rows, limit)
    decreases tables
  {
    QuietStep(table, tables, filters, after, limit, rows);
    if |rows| > limit {
      var last := Some(rows[limit - 1].key);
      QuietTables(tables, table);
      RestOfList(table, filters, after, limit);
      QuietWalk(table, tables[1..], filters, last, limit, rows[limit..]);
      WholeWalkStep(
        Follow(tables, filters, after, limit), Follow(tables[1..], filters, last, limit), rows, limit);
    }
  }
}
