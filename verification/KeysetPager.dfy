/** Keyset pages, newest first over `(created_at, id)`: `listAccess` of `packages/audit/src/list-access.ts`,
    `selectEngagementFacts` of `packages/db/src/retrieval.ts` and `packages/core/src/pagination.ts`.

    A table is the rows a query sees.  The column holds microseconds
    (`packages/db/src/columns/_helpers.ts`); the cursor goes through a JavaScript `Date` and carries
    whole milliseconds, so it can lie below the row it was made from.  */
module KeysetPager {
  import opened Options
  import opened Sorting

  /** `createdAt` in microseconds. */
  datatype Row = Row(id: string, createdAt: int, engagement: Option<string>, actor: Option<string>, action: string)

  // ---------------------------------------------------------------------------
  // pagination.ts
  // ---------------------------------------------------------------------------

  const DEFAULT_LIMIT := 100
  const MAX_LIMIT := 500

  datatype Requested = Unset | NotFinite | Of(limit: int)

  function ResolveLimit(requested: Requested): (limit: nat)
    ensures 1 <= limit <= 500
    ensures requested.Of? && 1 <= requested.limit <= 500 ==> limit == requested.limit
  {
    match requested
    case Unset => DEFAULT_LIMIT
    case NotFinite => 1
    case Of(n) => if n < 1 then 1 else if n > MAX_LIMIT then MAX_LIMIT else n
  }

  /** What a limit outside the range becomes. */
  lemma LimitOutside(requested: Requested)
    ensures requested.Unset? ==> ResolveLimit(requested) == 100
    ensures requested.NotFinite? || (requested.Of? && requested.limit < 1) ==> ResolveLimit(requested) == 1
    ensures requested.Of? && requested.limit > 500 ==> ResolveLimit(requested) == 500
  {
  }

  /** A decoded cursor, or what `decodeCursor` throws on. */
  datatype Cursor = Start | At(createdAt: int, id: string) | Malformed

  /** What `toISOString` keeps of a time. */
  function Millis(t: int): int {
    t - t % 1000
  }

  /** `encodeCursor` of a row, decoded again. */
  function CursorOf(r: Row): Cursor {
    At(Millis(r.createdAt), r.id)
  }

  // ---------------------------------------------------------------------------
  // The query
  // ---------------------------------------------------------------------------

  datatype Filter = Filter(
    engagement: Option<string>,
    actor: Option<string>,
    action: Option<string>,
    since: Option<int>,
    until: Option<int>)

  /** An unset filter, or an empty one, drops out. */
  predicate Drops(wanted: Option<string>) {
    wanted.None? || wanted.value == ""
  }

  predicate Matches(f: Filter, r: Row) {
    && (Drops(f.engagement) || r.engagement == f.engagement)
    && (Drops(f.actor) || r.actor == f.actor)
    && (Drops(f.action) || r.action == f.action.value)
    && (f.since.None? || f.since.value <= r.createdAt)
    && (f.until.None? || r.createdAt <= f.until.value)
  }

  /** `(t, i)` comes strictly before `(u, j)` in time, ties broken by id. */
  predicate Older(t: int, i: string, u: int, j: string) {
    t < u || (t == u && StringLt(i, j))
  }

  predicate OlderRow(a: Row, b: Row) {
    Older(a.createdAt, a.id, b.createdAt, b.id)
  }

  predicate Below(c: Cursor, r: Row) {
    c.At? ==> Older(r.createdAt, r.id, c.createdAt, c.id)
  }

  predicate NewestFirst(a: Row, b: Row) {
    a.createdAt > b.createdAt || (a.createdAt == b.createdAt && StringLe(b.id, a.id))
  }

  function SortRows(rows: seq<Row>): (r: seq<Row>)
    ensures forall x :: x in r <==> x in rows
  {
    Sort(NewestFirst, rows)
  }

  function Select(f: Filter, c: Cursor, table: seq<Row>): seq<Row> {
    if table == [] then []
    else
      var last := table[|table| - 1];
      Select(f, c, table[..|table| - 1]) + if Matches(f, last) && Below(c, last) then [last] else []
  }

  datatype Page = Page(rows: seq<Row>, next: Cursor) | BadCursor

  /** One row more than the page is fetched, to know whether another page follows. */
  function PageOf(sorted: seq<Row>, limit: nat): Page
    requires limit > 0
  {
    var fetched := if |sorted| > limit + 1 then sorted[..limit + 1] else sorted;
    if |fetched| > limit then Page(fetched[..limit], CursorOf(fetched[limit - 1]))
    else Page(fetched, Start)
  }

  /** `listAccess`; `selectEngagementFacts` is the filter on one engagement.  `next` is `Start` when
      there is no next cursor. */
  function ListAccess(table: seq<Row>, f: Filter, requested: Requested, c: Cursor): Page {
    if c.Malformed? then BadCursor
    else PageOf(SortRows(Select(f, c, table)), ResolveLimit(requested))
  }

  // ---------------------------------------------------------------------------
  // One page
  // ---------------------------------------------------------------------------

  ghost predicate UniqueIds(table: seq<Row>) {
    forall i, j :: 0 <= i < j < |table| ==> table[i].id != table[j].id
  }

  ghost predicate Descending(rows: seq<Row>) {
    forall i, j :: 0 <= i < j < |rows| ==> OlderRow(rows[j], rows[i])
  }

  lemma {:induction false} SelectContents(f: Filter, c: Cursor, table: seq<Row>)
    ensures forall r :: r in Select(f, c, table) <==> r in table && Matches(f, r) && Below(c, r)
  {
    if table != [] {
      SelectContents(f, c, table[..|table| - 1]);
      assert table == table[..|table| - 1] + [table[|table| - 1]];
    }
  }

  lemma {:induction false} SelectUnique(f: Filter, c: Cursor, table: seq<Row>)
    requires UniqueIds(table)
    ensures UniqueIds(Select(f, c, table))
  {
    if table != [] {
      var rest, last := table[..|table| - 1], table[|table| - 1];
      SelectUnique(f, c, rest);
      SelectContents(f, c, rest);
      assert forall r :: r in rest ==> r.id != last.id;
    }
  }

  lemma NewestFirstIsTotalPreorder()
    ensures TotalPreorder(NewestFirst)
  {
    forall a, b ensures NewestFirst(a, b) || NewestFirst(b, a) {
      StringLeTotal(a.id, b.id);
    }
    forall a, b, c | NewestFirst(a, b) && NewestFirst(b, c) ensures NewestFirst(a, c) {
      if a.createdAt == c.createdAt {
        StringLeTransitive(c.id, b.id, a.id);
      }
    }
  }

  lemma SortedDescends(rows: seq<Row>)
    requires UniqueIds(rows)
    ensures Descending(SortRows(rows))
  {
    var r := SortRows(rows);
    NewestFirstIsTotalPreorder();
    SortSorts(NewestFirst, rows);
    SortDistinct(NewestFirst, rows);
    forall i, j | 0 <= i < j < |r| ensures OlderRow(r[j], r[i]) {
      assert NewestFirst(r[i], r[j]) && r[i] != r[j];
      assert r[i] in rows && r[j] in rows;
      if r[i].id == r[j].id {
        SameIdSameRow(rows, r[i], r[j]);
      }
    }
  }

  lemma SameIdSameRow(rows: seq<Row>, a: Row, b: Row)
    requires UniqueIds(rows) && a in rows && b in rows && a.id == b.id
    ensures a == b
  {
  }

  lemma OlderIsAsymmetric(a: Row, b: Row)
    requires OlderRow(a, b)
    ensures !OlderRow(b, a) && a != b
  {
    StringLeTotal(a.id, b.id);
  }

  lemma FirstOfDescending(sorted: seq<Row>, limit: nat, k: nat)
    requires Descending(sorted) && 1 <= limit <= |sorted| && k < |sorted|
    ensures k < limit <==> !OlderRow(sorted[k], sorted[limit - 1])
  {
    if k < limit - 1 {
      OlderIsAsymmetric(sorted[limit - 1], sorted[k]);
    }
  }

  lemma FirstRows(sorted: seq<Row>, limit: nat, r: Row)
    requires Descending(sorted) && 1 <= limit <= |sorted|
    ensures r in sorted[..limit] <==> r in sorted && !OlderRow(r, sorted[limit - 1])
  {
    if k :| 0 <= k < |sorted| && sorted[k] == r {
      FirstOfDescending(sorted, limit, k);
      if k < limit {
        assert sorted[..limit][k] == r;
      }
    }
    if r in sorted[..limit] {
      var k :| 0 <= k < limit && sorted[..limit][k] == r;
      FirstOfDescending(sorted, limit, k);
    }
  }

  /** `rows` are the newest of the matching rows below `c`, at most `limit` of them; when there are
      more, `next` is made from the last. */
  ghost predicate ExactPage(table: seq<Row>, f: Filter, limit: nat, c: Cursor, rows: seq<Row>, next: Cursor) {
    && |rows| <= limit && !next.Malformed? && Descending(rows)
    && (next.At? ==> |rows| == limit > 0 && next == CursorOf(rows[limit - 1]))
    && forall r :: r in rows <==>
         r in table && Matches(f, r) && Below(c, r) && !(next.At? && OlderRow(r, rows[|rows| - 1]))
  }

  /** A page is exactly the newest matching rows from below its cursor down to its last row. */
  lemma {:induction false} PageIsExact(table: seq<Row>, f: Filter, requested: Requested, c: Cursor)
    requires UniqueIds(table) && !c.Malformed?
    ensures var page := ListAccess(table, f, requested, c);
      page.Page? && ExactPage(table, f, ResolveLimit(requested), c, page.rows, page.next)
  {
    SelectedDescend(f, c, table);
    CutIsExact(table, f, ResolveLimit(requested), c, SortRows(Select(f, c, table)));
  }

  lemma CutIsExact(table: seq<Row>, f: Filter, limit: nat, c: Cursor, sorted: seq<Row>)
    requires Descending(sorted) && limit > 0
    requires forall r :: r in sorted <==> r in table && Matches(f, r) && Below(c, r)
    ensures var page := PageOf(sorted, limit);
      page.Page? && ExactPage(table, f, limit, c, page.rows, page.next)
  {
    PageOfSorted(sorted, limit);
  }

  lemma SelectedDescend(f: Filter, c: Cursor, table: seq<Row>)
    requires UniqueIds(table)
    ensures var sorted := SortRows(Select(f, c, table));
      Descending(sorted) && forall r :: r in sorted <==> r in table && Matches(f, r) && Below(c, r)
  {
    SelectUnique(f, c, table);
    SelectContents(f, c, table);
    SortedDescends(Select(f, c, table));
  }

  lemma PageOfSorted(sorted: seq<Row>, limit: nat)
    requires Descending(sorted) && limit > 0
    ensures var page := PageOf(sorted, limit);
      && page.Page? && |page.rows| <= limit && !page.next.Malformed? && Descending(page.rows)
      && (page.next.At? ==> |page.rows| == limit && page.next == CursorOf(page.rows[limit - 1]))
      && forall r :: r in page.rows <==> r in sorted && !(page.next.At? && OlderRow(r, page.rows[|page.rows| - 1]))
  {
    if |sorted| > limit {
      assert (if |sorted| > limit + 1 then sorted[..limit + 1] else sorted)[..limit] == sorted[..limit];
      forall r ensures r in sorted[..limit] <==> r in sorted && !OlderRow(r, sorted[limit - 1]) {
        FirstRows(sorted, limit, r);
      }
    }
  }

  // ---------------------------------------------------------------------------
  // A page, field by field
  // ---------------------------------------------------------------------------

  /** What a filter asks: an engagement, an actor or an action that is set and not empty has to be the row's,
      and the row's time has to lie between the bounds that are set. */
  ghost predicate Wanted(f: Filter, r: Row) {
    && (forall e :: f.engagement == Some(e) && e != "" ==> r.engagement == Some(e))
    && (forall a :: f.actor == Some(a) && a != "" ==> r.actor == Some(a))
    && (forall a :: f.action == Some(a) && a != "" ==> r.action == a)
    && (f.since.Some? ==> f.since.value <= r.createdAt)
    && (f.until.Some? ==> r.createdAt <= f.until.value)
  }

  /** Earlier in a listing that goes from new to old, ids descending within one time. */
  ghost predicate Newer(a: Row, b: Row) {
    a.createdAt > b.createdAt || (a.createdAt == b.createdAt && a.id != b.id && StringLe(b.id, a.id))
  }

  ghost predicate PastCursor(c: Cursor, r: Row) {
    c.At? ==> r.createdAt < c.createdAt || (r.createdAt == c.createdAt && r.id != c.id && StringLe(r.id, c.id))
  }

  /** A page, newest first, has exactly the wanted rows past its cursor, down to where the page is full; the
      next cursor is the id and the whole milliseconds of its last row. */
  lemma {:induction false} PageInFields(table: seq<Row>, f: Filter, requested: Requested, c: Cursor)
    requires UniqueIds(table) && !c.Malformed?
    ensures var page := ListAccess(table, f, requested, c);
      && page.Page? && |page.rows| <= ResolveLimit(requested)
      && (forall i, j :: 0 <= i < j < |page.rows| ==> Newer(page.rows[i], page.rows[j]))
      && (forall r :: r in page.rows ==> r in table && Wanted(f, r) && PastCursor(c, r))
      && (forall r :: r in table && Wanted(f, r) && PastCursor(c, r) && r !in page.rows ==>
            page.next.At? && |page.rows| == ResolveLimit(requested) && Newer(page.rows[|page.rows| - 1], r))
      && (page.next.At? ==>
            && |page.rows| > 0 && page.next.id == page.rows[|page.rows| - 1].id
            && page.next.createdAt == 1000 * (page.rows[|page.rows| - 1].createdAt / 1000))
  {
    var page := ListAccess(table, f, requested, c);
    PageIsExact(table, f, requested, c);
    ExactInFields(table, f, ResolveLimit(requested), c, page.rows, page.next);
  }

  lemma ExactInFields(table: seq<Row>, f: Filter, limit: nat, c: Cursor, rows: seq<Row>, next: Cursor)
    requires ExactPage(table, f, limit, c, rows, next)
    ensures forall i, j :: 0 <= i < j < |rows| ==> Newer(rows[i], rows[j])
    ensures forall r :: r in rows ==> r in table && Wanted(f, r) && PastCursor(c, r)
    ensures forall r :: r in table && Wanted(f, r) && PastCursor(c, r) && r !in rows ==>
      next.At? && |rows| == limit && Newer(rows[|rows| - 1], r)
    ensures next.At? ==>
      |rows| > 0 && next.id == rows[|rows| - 1].id && next.createdAt == 1000 * (rows[|rows| - 1].createdAt / 1000)
  {
    forall r ensures Wanted(f, r) <==> Matches(f, r) {
      WantedExactly(f, r);
    }
    forall i, j | 0 <= i < j < |rows| ensures Newer(rows[i], rows[j]) {
      assert OlderRow(rows[j], rows[i]);
    }
  }

  lemma WantedExactly(f: Filter, r: Row)
    ensures Wanted(f, r) <==> Matches(f, r)
  {
    assert f.engagement.Some? ==> f.engagement == Some(f.engagement.value);
    assert f.actor.Some? ==> f.actor == Some(f.actor.value);
    assert f.action.Some? ==> f.action == Some(f.action.value);
  }

  /** The cursor of a row is never above the row. */
  lemma BelowCursorIsOlder(last: Row, r: Row)
    requires Below(CursorOf(last), r)
    ensures OlderRow(r, last)
  {
  }

  // ---------------------------------------------------------------------------
  // Following the cursor while rows are inserted
  // ---------------------------------------------------------------------------

  /** One request: the table as it is then, and the page size asked for. */
  datatype Request = Request(table: seq<Row>, requested: Requested)

  /** All rows received by following `nextCursor` from `c`, for as long as requests are made. */
  function Follow(requests: seq<Request>, f: Filter, c: Cursor): seq<Row> {
    if requests == [] then []
    else
      match ListAccess(requests[0].table, f, requests[0].requested, c)
      case BadCursor => []
      case Page(rows, next) => if next.At? then rows + Follow(requests[1..], f, next) else rows
  }

  /** A page without a next cursor was reached. */
  predicate ReachesEnd(requests: seq<Request>, f: Filter, c: Cursor) {
    requests != [] &&
    match ListAccess(requests[0].table, f, requests[0].requested, c)
    case BadCursor => false
    case Page(_, next) => next.At? ==> ReachesEnd(requests[1..], f, next)
  }

  /** Rows are only added between requests, and ids are unique. */
  ghost predicate OnlyInserts(requests: seq<Request>) {
    && (forall i :: 0 <= i < |requests| ==> UniqueIds(requests[i].table))
    && (forall i, j :: 0 <= i <= j < |requests| ==> Within(requests[i].table, requests[j].table))
  }

  lemma LaterInserts(requests: seq<Request>)
    requires requests != [] && OnlyInserts(requests)
    ensures OnlyInserts(requests[1..])
  {
  }

  ghost predicate Within(a: seq<Row>, b: seq<Row>) {
    forall r :: r in a ==> r in b
  }

  lemma OlderIsTransitive(t: int, i: string, u: int, j: string, v: int, k: string)
    requires Older(t, i, u, j) && Older(u, j, v, k)
    ensures Older(t, i, v, k)
  {
    if t == v {
      StringLeTransitive(i, j, k);
      StringLeTotal(j, k);
    }
  }

  lemma NextIsBelow(c: Cursor, last: Row, r: Row)
    requires !c.Malformed? && Below(c, last) && Below(CursorOf(last), r)
    ensures Below(c, r)
  {
    BelowCursorIsOlder(last, r);
    if c.At? {
      OlderIsTransitive(r.createdAt, r.id, last.createdAt, last.id, c.createdAt, c.id);
    }
  }

  lemma DescendingAppend(a: seq<Row>, b: seq<Row>)
    requires a != [] && Descending(a) && Descending(b)
    requires forall r :: r in b ==> OlderRow(r, a[|a| - 1])
    ensures Descending(a + b)
  {
    var last := a[|a| - 1];
    forall i, j | 0 <= i < |a| && 0 <= j < |b| ensures OlderRow(b[j], a[i]) {
      assert b[j] in b;
      if i < |a| - 1 {
        OlderIsTransitive(b[j].createdAt, b[j].id, last.createdAt, last.id, a[i].createdAt, a[i].id);
      }
    }
  }

  lemma JoinPages(c: Cursor, rows: seq<Row>, more: seq<Row>)
    requires !c.Malformed? && Descending(rows) && Descending(more) && rows != []
    requires (forall r :: r in rows ==> Below(c, r)) && forall r :: r in more ==> Below(CursorOf(rows[|rows| - 1]), r)
    ensures Descending(rows + more) && forall r :: r in rows + more ==> Below(c, r)
  {
    var last := rows[|rows| - 1];
    assert last in rows;
    forall r | r in more ensures OlderRow(r, last) && Below(c, r) {
      BelowCursorIsOlder(last, r);
      NextIsBelow(c, last, r);
    }
    DescendingAppend(rows, more);
  }

  lemma PageDescends(table: seq<Row>, f: Filter, requested: Requested, c: Cursor, page: Page)
    requires UniqueIds(table) && !c.Malformed? && page == ListAccess(table, f, requested, c)
    ensures page.Page? && !page.next.Malformed? && Descending(page.rows)
    ensures forall r :: r in page.rows ==> Matches(f, r) && Below(c, r)
    ensures page.next.At? ==> page.rows != [] && page.next == CursorOf(page.rows[|page.rows| - 1])
  {
    PageIsExact(table, f, requested, c);
    ExactDescends(table, f, ResolveLimit(requested), c, page.rows, page.next);
  }

  lemma ExactDescends(table: seq<Row>, f: Filter, limit: nat, c: Cursor, rows: seq<Row>, next: Cursor)
    requires ExactPage(table, f, limit, c, rows, next)
    ensures !next.Malformed? && Descending(rows)
    ensures forall r :: r in rows ==> Matches(f, r) && Below(c, r)
    ensures next.At? ==> rows != [] && next == CursorOf(rows[|rows| - 1])
  {
  }

  /** Newest first throughout, so no row twice; and only matching rows below the cursor. */
  lemma {:induction false} FollowDescends(requests: seq<Request>, f: Filter, c: Cursor)
    requires OnlyInserts(requests) && !c.Malformed?
    ensures Descending(Follow(requests, f, c))
    ensures forall r :: r in Follow(requests, f, c) ==> Matches(f, r) && Below(c, r)
  {
    if requests != [] {
      var page := ListAccess(requests[0].table, f, requests[0].requested, c);
      PageDescends(requests[0].table, f, requests[0].requested, c, page);
      if page.next.At? {
        LaterInserts(requests);
        FollowDescends(requests[1..], f, page.next);
        JoinPages(c, page.rows, Follow(requests[1..], f, page.next));
      }
    }
  }

  /** Nothing is made up: each received row was in the table at one of the requests. */
  lemma {:induction false} FollowIsSound(requests: seq<Request>, f: Filter, c: Cursor, r: Row)
    requires OnlyInserts(requests) && !c.Malformed? && r in Follow(requests, f, c)
    ensures r in requests[|requests| - 1].table && Matches(f, r)
  {
    var page := ListAccess(requests[0].table, f, requests[0].requested, c);
    PageIsExact(requests[0].table, f, requests[0].requested, c);
    assert Within(requests[0].table, requests[|requests| - 1].table);
    if r !in page.rows {
      FollowIsSound(requests[1..], f, page.next, r);
    }
  }

  ghost predicate ExactlyOnce(r: Row, rows: seq<Row>) {
    exists i :: 0 <= i < |rows| && rows[i] == r && forall j :: 0 <= j < |rows| && rows[j] == r ==> j == i
  }

  lemma DescendingOnce(rows: seq<Row>, r: Row)
    requires Descending(rows) && r in rows
    ensures ExactlyOnce(r, rows)
  {
    var i :| 0 <= i < |rows| && rows[i] == r;
    forall j | 0 <= j < |rows| && rows[j] == r ensures j == i {
      if j < i {
        OlderIsAsymmetric(rows[i], rows[j]);
      } else if i < j {
        OlderIsAsymmetric(rows[j], rows[i]);
      }
    }
  }

  // ---------------------------------------------------------------------------
  // When no row is lost
  // ---------------------------------------------------------------------------

  /** A page that ends at `s` does not put its cursor below `r`. */
  predicate Separates(s: Row, r: Row) {
    OlderRow(r, s) ==> Below(CursorOf(s), r)
  }

  /** ... for any two matching rows that there will ever be. */
  ghost predicate CursorsSeparate(f: Filter, rows: seq<Row>) {
    forall r, s :: r in rows && s in rows && Matches(f, r) && Matches(f, s) ==> Separates(s, r)
  }

  /** A row from which every row separates is received by the end. */
  lemma {:induction false} FollowIsComplete(requests: seq<Request>, f: Filter, c: Cursor, r: Row)
    requires OnlyInserts(requests) && !c.Malformed? && ReachesEnd(requests, f, c)
    requires r in requests[0].table && Matches(f, r) && Below(c, r)
    requires forall s :: s in requests[|requests| - 1].table && Matches(f, s) ==> Separates(s, r)
    ensures r in Follow(requests, f, c)
  {
    var page := ListAccess(requests[0].table, f, requests[0].requested, c);
    PageIsExact(requests[0].table, f, requests[0].requested, c);
    var limit := ResolveLimit(requests[0].requested);
    if page.next.At? && r !in page.rows {
      PassedOn(requests[0].table, requests[|requests| - 1].table, f, limit, c, page.rows, page.next, r);
      assert r in requests[1].table;
      LaterInserts(requests);
      FollowIsComplete(requests[1..], f, page.next, r);
    }
  }

  lemma PassedOn(table: seq<Row>, final: seq<Row>, f: Filter, limit: nat, c: Cursor, rows: seq<Row>, next: Cursor,
      r: Row)
    requires ExactPage(table, f, limit, c, rows, next) && Within(table, final) && next.At?
    requires r in table && Matches(f, r) && Below(c, r) && r !in rows
    requires forall s :: s in final && Matches(f, s) ==> Separates(s, r)
    ensures Below(next, r)
  {
    var last := rows[|rows| - 1];
    assert last in rows && OlderRow(r, last);
    assert last in final && Separates(last, r);
  }

  /** Every matching row there at the first request is received exactly once by the end. */
  ghost predicate ReceivesEach(requests: seq<Request>, f: Filter) {
    forall r :: requests != [] && r in requests[0].table && Matches(f, r) ==> ExactlyOnce(r, Follow(requests, f, Start))
  }

  /** Requests to the end of the list, over rows of `rows` only. */
  ghost predicate Walk(requests: seq<Request>, f: Filter, rows: seq<Row>) {
    OnlyInserts(requests) && ReachesEnd(requests, f, Start) && Within(requests[|requests| - 1].table, rows)
  }

  lemma {:induction false} SeparateWalksReceiveEach(requests: seq<Request>, f: Filter, rows: seq<Row>)
    requires CursorsSeparate(f, rows) && Walk(requests, f, rows)
    ensures ReceivesEach(requests, f)
  {
    forall r | r in requests[0].table && Matches(f, r) ensures ExactlyOnce(r, Follow(requests, f, Start)) {
      assert Within(requests[0].table, requests[|requests| - 1].table);
      FollowIsComplete(requests, f, Start, r);
      FollowDescends(requests, f, Start);
      DescendingOnce(Follow(requests, f, Start), r);
    }
  }

  /** Pages of one row: whatever comes after a row is below that row's cursor. */
  lemma {:induction false} OneByOneSeparates(requests: seq<Request>, f: Filter, c: Cursor, r: Row, s: Row)
    requires OnlyInserts(requests) && !c.Malformed?
    requires forall i :: 0 <= i < |requests| ==> requests[i].requested == Of(1)
    requires r in Follow(requests, f, c) && s in Follow(requests, f, c) && OlderRow(r, s)
    ensures Below(CursorOf(s), r)
  {
    var page := ListAccess(requests[0].table, f, Of(1), c);
    PageIsExact(requests[0].table, f, Of(1), c);
    var more := if page.next.At? then Follow(requests[1..], f, page.next) else [];
    if page.next.At? {
      FollowDescends(requests[1..], f, page.next);
    }
    FirstOrLater(page.rows, page.next, more, r, s);
    if s !in page.rows {
      OneByOneSeparates(requests[1..], f, page.next, r, s);
    }
  }

  /** Of two rows behind a page of at most one, the newer one is that page or both come later. */
  lemma FirstOrLater(rows: seq<Row>, next: Cursor, more: seq<Row>, r: Row, s: Row)
    requires |rows| <= 1 && r in rows + more && s in rows + more && OlderRow(r, s)
    requires if next.At? then |rows| == 1 && next == CursorOf(rows[0]) else more == []
    requires forall x :: x in more ==> Below(next, x)
    ensures next.At? && if s in rows then Below(CursorOf(s), r) else r in more && s in more
  {
    OlderIsAsymmetric(r, s);
    if r in rows && s in more {
      BelowCursorIsOlder(r, s);
      OlderIsAsymmetric(s, r);
    }
  }

  function Repeat(request: Request, n: nat): seq<Request> {
    seq(n, i => request)
  }

  /** Reading a table that does not change row by row loses a row as soon as two do not separate. */
  lemma {:induction false} OneByOneLoses(f: Filter, rows: seq<Row>)
    requires UniqueIds(rows) && !CursorsSeparate(f, rows)
    ensures var requests := Repeat(Request(rows, Of(1)), |rows| + 1);
      Walk(requests, f, rows) && !ReceivesEach(requests, f)
  {
    var requests := Repeat(Request(rows, Of(1)), |rows| + 1);
    StillWalk(f, rows);
    if ReceivesEach(requests, f) {
      AllReceivedSeparate(requests, f, rows);
    }
  }

  lemma StillWalk(f: Filter, rows: seq<Row>)
    requires UniqueIds(rows)
    ensures Walk(Repeat(Request(rows, Of(1)), |rows| + 1), f, rows)
  {
    var requests := Repeat(Request(rows, Of(1)), |rows| + 1);
    assert forall i :: 0 <= i < |requests| ==> requests[i] == Request(rows, Of(1));
    SelectIsShort(f, Start, rows);
    StillTableEnds(rows, f, requests, Start);
  }

  lemma AllReceivedSeparate(requests: seq<Request>, f: Filter, rows: seq<Row>)
    requires OnlyInserts(requests) && requests != [] && requests[0].table == rows && ReceivesEach(requests, f)
    requires forall i :: 0 <= i < |requests| ==> requests[i].requested == Of(1)
    ensures CursorsSeparate(f, rows)
  {
    forall r, s | r in rows && s in rows && Matches(f, r) && Matches(f, s) ensures Separates(s, r) {
      if OlderRow(r, s) {
        assert ExactlyOnce(r, Follow(requests, f, Start)) && ExactlyOnce(s, Follow(requests, f, Start));
        OneByOneSeparates(requests, f, Start, r, s);
      }
    }
  }

  /** For all page sizes and all inserts among `rows`, each matching row present at the start is
      received exactly once, if and only if the cursor of each row separates it from all older ones. */
  lemma {:induction false} EachRowOnceExactly(f: Filter, rows: seq<Row>)
    requires UniqueIds(rows)
    ensures (forall requests :: Walk(requests, f, rows) ==> ReceivesEach(requests, f)) <==> CursorsSeparate(f, rows)
  {
    if CursorsSeparate(f, rows) {
      forall requests | Walk(requests, f, rows) ensures ReceivesEach(requests, f) {
        SeparateWalksReceiveEach(requests, f, rows);
      }
    } else {
      OneByOneLoses(f, rows);
    }
  }

  /** Two rows of one transaction share their time.  Unless it is a whole millisecond, the older one
      is never received when a page ends at the newer one. */
  lemma {:induction false} SharedTimeLosesRow(f: Filter, newer: Row, older: Row)
    requires Matches(f, newer) && Matches(f, older)
    requires newer.createdAt == older.createdAt && StringLt(older.id, newer.id) && newer.createdAt % 1000 != 0
    ensures var requests := Repeat(Request([newer, older], Of(1)), 2);
      ReachesEnd(requests, f, Start) && Follow(requests, f, Start) == [newer]
  {
    var table := [newer, older];
    var requests := Repeat(Request(table, Of(1)), 2);
    FirstOfTwo(f, newer, older);
    SelectNone(f, CursorOf(newer), table);
    NothingSelected(f, CursorOf(newer), table);
    assert requests[0] == Request(table, Of(1)) && requests[1..][0] == Request(table, Of(1));
    assert Follow(requests[1..], f, CursorOf(newer)) == [];
  }

  lemma NothingSelected(f: Filter, c: Cursor, table: seq<Row>)
    requires Select(f, c, table) == [] && !c.Malformed?
    ensures ListAccess(table, f, Of(1), c) == Page([], Start)
  {
    assert SortRows([]) == [];
  }

  lemma {:induction false} SelectNone(f: Filter, c: Cursor, table: seq<Row>)
    requires forall r :: r in table ==> !Below(c, r)
    ensures Select(f, c, table) == []
  {
    if table != [] {
      SelectNone(f, c, table[..|table| - 1]);
      assert table[|table| - 1] in table;
    }
  }

  lemma FirstOfTwo(f: Filter, newer: Row, older: Row)
    requires Matches(f, newer) && Matches(f, older) && OlderRow(older, newer)
    ensures ListAccess([newer, older], f, Of(1), Start) == Page([newer], CursorOf(newer))
  {
    var table := [newer, older];
    assert table[..1] == [newer] && table[..1][..0] == [];
    assert Select(f, Start, [newer]) == [newer];
    assert Select(f, Start, table) == table;
    OlderIsAsymmetric(older, newer);
    assert Sort(NewestFirst, [older]) == [older];
    assert table[1..] == [older];
    assert SortRows(table) == table;
  }

  /** Where all times are whole milliseconds every cursor separates. */
  lemma {:induction false} WholeMillisSeparate(f: Filter, rows: seq<Row>)
    requires forall r :: r in rows ==> r.createdAt % 1000 == 0
    ensures CursorsSeparate(f, rows)
  {
  }

  /** So there, each matching row present at the start is received exactly once, whatever page sizes
      are asked for and whatever is inserted meanwhile. */
  lemma {:induction false} EachInitialRowOnce(requests: seq<Request>, f: Filter, r: Row)
    requires OnlyInserts(requests) && ReachesEnd(requests, f, Start)
    requires forall s :: s in requests[|requests| - 1].table ==> s.createdAt % 1000 == 0
    requires r in requests[0].table && Matches(f, r)
    ensures ExactlyOnce(r, Follow(requests, f, Start))
  {
    var rows := requests[|requests| - 1].table;
    WholeMillisSeparate(f, rows);
    SeparateWalksReceiveEach(requests, f, rows);
  }

  // ---------------------------------------------------------------------------
  // The walk ends
  // ---------------------------------------------------------------------------

  /** On a table that does not change the walk reaches a page without a next cursor. */
  lemma {:induction false} StillTableEnds(table: seq<Row>, f: Filter, requests: seq<Request>, c: Cursor)
    requires UniqueIds(table) && !c.Malformed?
    requires forall i :: 0 <= i < |requests| ==> requests[i].table == table
    requires |requests| > |Select(f, c, table)|
    ensures ReachesEnd(requests, f, c)
    decreases |requests|
  {
    var page := ListAccess(table, f, requests[0].requested, c);
    PageIsExact(table, f, requests[0].requested, c);
    if page.next.At? {
      var last := page.rows[|page.rows| - 1];
      assert last in page.rows;
      forall r | Below(page.next, r) ensures Below(c, r) {
        NextIsBelow(c, last, r);
      }
      if Below(page.next, last) {
        BelowCursorIsOlder(last, last);
        OlderIsAsymmetric(last, last);
      }
      SelectFewer(table, f, c, page.next, last);
      StillTableEnds(table, f, requests[1..], page.next);
    }
  }

  lemma {:induction false} SelectIsShort(f: Filter, c: Cursor, table: seq<Row>)
    ensures |Select(f, c, table)| <= |table|
  {
    if table != [] {
      SelectIsShort(f, c, table[..|table| - 1]);
    }
  }

  lemma {:induction false} SelectFewer(table: seq<Row>, f: Filter, c: Cursor, next: Cursor, last: Row)
    requires forall r :: Below(next, r) ==> Below(c, r)
    ensures |Select(f, next, table)| <= |Select(f, c, table)|
    ensures last in table && Matches(f, last) && Below(c, last) && !Below(next, last) ==>
      |Select(f, next, table)| < |Select(f, c, table)|
  {
    if table != [] {
      SelectFewer(table[..|table| - 1], f, c, next, last);
      assert table == table[..|table| - 1] + [table[|table| - 1]];
    }
  }
}
