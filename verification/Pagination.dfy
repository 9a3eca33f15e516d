/**
Keyset pagination of the request log: newest first, ties broken by id, each page asked for from the last row of the
one before. Ids are taken as their rank in the database's order.
*/
module Pagination {
  import opened Wrappers

  datatype Log = Log(id: int, startedAt: int)

  /** The cursor's two halves as a caller may give them. */
  datatype Cursor = Cursor(time: Option<int>, id: Option<int>)

  const START := Cursor(None, None)

  datatype Page = Page(items: seq<Log>, hasMore: bool, next: Cursor)

  datatype PageError = BadLimit | HalfCursor | NegativeTime

  // ----- the query

  /** `a` is listed before `b`. */
  predicate Before(a: Log, b: Log) {
    a.startedAt > b.startedAt || (a.startedAt == b.startedAt && a.id > b.id)
  }

  predicate Listed(s: seq<Log>) {
    forall i, j :: 0 <= i < j < |s| ==> Before(s[i], s[j])
  }

  function Insert(x: Log, s: seq<Log>): seq<Log> {
    if s == [] || Before(x, s[0]) then [x] + s else [s[0]] + Insert(x, s[1..])
  }

  /** The cursor's condition on a row. */
  predicate Past(c: Cursor, r: Log) {
    c.time.Some? && c.id.Some? ==> r.startedAt < c.time.value || (r.startedAt == c.time.value && r.id < c.id.value)
  }

  /** The rows that match the filter and lie past the cursor, in listing order. */
  function Query(rows: seq<Log>, matches: Log -> bool, c: Cursor): seq<Log> {
    if rows == [] then []
    else
      var rest := Query(rows[..|rows| - 1], matches, c);
      var last := rows[|rows| - 1];
      if matches(last) && Past(c, last) then Insert(last, rest) else rest
  }

  predicate UniqueIds(rows: seq<Log>) {
    forall i, j :: 0 <= i < j < |rows| ==> rows[i].id != rows[j].id
  }

  // ----- one page

  function Limit(limit: int): int { if limit == 0 then 50 else limit }

  function PageOf(rows: seq<Log>, matches: Log -> bool, c: Cursor, limit: int): Result<Page, PageError> {
    var n := Limit(limit);
    if n < 1 || n > 200 then Err(BadLimit)
    else if c.time.None? != c.id.None? then Err(HalfCursor)
    else if c.time.Some? && c.time.value < 0 then Err(NegativeTime)
    else
      var found := Query(rows, matches, c);
      if |found| <= n then Ok(Page(found, false, START))
      else Ok(Page(found[..n], true, Cursor(Some(found[n - 1].startedAt), Some(found[n - 1].id))))
  }

  /** The page as it is read: one row more than asked for tells whether there is another page. */
  method ListPage(rows: seq<Log>, matches: Log -> bool, c: Cursor, limit: int) returns (result: Result<Page, PageError>)
    ensures result == PageOf(rows, matches, c, limit)
  {
    var n := limit;
    if n == 0 {
      n := 50;
    }
    if n < 1 || n > 200 {
      return Err(BadLimit);
    }
    if c.time.None? != c.id.None? {
      return Err(HalfCursor);
    }
    if c.time.Some? && c.time.value < 0 {
      return Err(NegativeTime);
    }
    var found := Query(rows, matches, c);
    var items: seq<Log> := [];
    while |items| < |found| && |items| < n + 1
      invariant |items| <= |found| && |items| <= n + 1 && items == found[..|items|]
      decreases |found| - |items|
    {
      items := items + [found[|items|]];
    }
    assert found[..|found|] == found;
    if |items| <= n {
      return Ok(Page(items, false, START));
    }
    assert items[..n] == found[..n];
    items := items[..n];
    var last := items[n - 1];
    return Ok(Page(items, true, Cursor(Some(last.startedAt), Some(last.id))));
  }

  /** A page is refused exactly for a limit outside 1..200 (none given means 50), half a cursor, or a negative time. */
  lemma RefusedPages(rows: seq<Log>, matches: Log -> bool, c: Cursor, limit: int)
    ensures PageOf(rows, matches, c, limit).Err? <==>
      || limit < 0 || limit > 200 || c.time.Some? != c.id.Some? || (c.time.Some? && c.time.value < 0)
    ensures limit == 0 ==> PageOf(rows, matches, c, limit) == PageOf(rows, matches, c, 50)
    ensures PageOf(rows, matches, c, limit) == Err(BadLimit) <==> limit < 0 || limit > 200
    ensures 0 < limit <= 200 ==>
      (PageOf(rows, matches, c, limit) == Err(HalfCursor) <==> c.time.Some? != c.id.Some?)
  {
  }

  // ----- what the query returns

  lemma {:induction false} InsertLists(x: Log, s: seq<Log>)
    requires Listed(s) && forall y :: y in s ==> y.id != x.id
    ensures Listed(Insert(x, s))
    ensures forall y :: y in Insert(x, s) <==> y == x || y in s
    ensures |Insert(x, s)| == |s| + 1
  {
    if s == [] {
    } else if Before(x, s[0]) {
      assert forall y :: y in s ==> Before(x, y);
    } else {
      assert forall y :: y in s <==> y == s[0] || y in s[1..];
      InsertLists(x, s[1..]);
      assert forall y :: y in Insert(x, s[1..]) ==> Before(s[0], y);
    }
  }

  /** The query returns exactly the matching rows past the cursor, each once, in strict listing order. */
  lemma {:induction false} QueryIs(rows: seq<Log>, matches: Log -> bool, c: Cursor)
    requires UniqueIds(rows)
    ensures Listed(Query(rows, matches, c))
    ensures forall r :: r in Query(rows, matches, c) <==> r in rows && matches(r) && Past(c, r)
  {
    if rows != [] {
      var n := |rows| - 1;
      QueryIs(rows[..n], matches, c);
      assert forall r :: r in rows <==> r == rows[n] || r in rows[..n];
      if matches(rows[n]) && Past(c, rows[n]) {
        InsertLists(rows[n], Query(rows[..n], matches, c));
      }
    }
  }

  lemma FirstIsLeast(s: seq<Log>, r: Log)
    requires Listed(s) && r in s
    ensures r == s[0] || Before(s[0], r)
  {
    var i :| 0 <= i < |s| && s[i] == r;
  }

  lemma ListedOrder(s: seq<Log>, i: nat, k: nat)
    requires Listed(s) && i < |s| && k < |s| && Before(s[i], s[k])
    ensures i < k
  {
  }

  /** A listing is determined by its rows. */
  lemma {:induction false} ListingIsUnique(a: seq<Log>, b: seq<Log>)
    requires Listed(a) && Listed(b) && forall r :: r in a <==> r in b
    ensures a == b
  {
    assert b == [] || b[0] in b;
    if a != [] {
      assert a[0] in b;
      FirstIsLeast(b, a[0]);
      FirstIsLeast(a, b[0]);
      Tail(a);
      Tail(b);
      ListingIsUnique(a[1..], b[1..]);
    }
  }

  lemma Tail(s: seq<Log>)
    requires s != [] && Listed(s)
    ensures Listed(s[1..]) && forall r :: r in s[1..] <==> r in s && r != s[0]
  {
    assert forall r :: r in s <==> r == s[0] || r in s[1..];
  }

  /** The rows past the last one of a page are the rest of the listing. */
  lemma RestOfListing(rows: seq<Log>, matches: Log -> bool, c: Cursor, n: nat)
    requires UniqueIds(rows) && 0 < n <= |Query(rows, matches, c)|
    ensures var found := Query(rows, matches, c);
      Query(rows, matches, Cursor(Some(found[n - 1].startedAt), Some(found[n - 1].id))) == found[n..]
  {
    var found := Query(rows, matches, c);
    var last := found[n - 1];
    var next := Cursor(Some(last.startedAt), Some(last.id));
    QueryIs(rows, matches, c);
    QueryIs(rows, matches, next);
    assert last in found;
    forall r ensures r in found[n..] <==> r in rows && matches(r) && Past(next, r) {
      if r in found[n..] {
        var k :| n <= k < |found| && found[k] == r;
        assert Before(found[n - 1], found[k]);
      }
      if r in rows && matches(r) && Past(next, r) {
        assert Past(c, r);
        var k :| 0 <= k < |found| && found[k] == r;
        ListedOrder(found, n - 1, k);
        assert found[n..][k - n] == r;
      }
    }
    assert Listed(found[n..]);
    ListingIsUnique(Query(rows, matches, next), found[n..]);
  }

  lemma Shrinks(rows: seq<Log>, matches: Log -> bool, c: Cursor, n: nat)
    requires UniqueIds(rows) && 0 < n <= |Query(rows, matches, c)|
    ensures var last := Query(rows, matches, c)[n - 1];
      |Query(rows, matches, Cursor(Some(last.startedAt), Some(last.id)))| < |Query(rows, matches, c)|
  {
    RestOfListing(rows, matches, c, n);
  }

  // ----- following the pages

  /** All the items of the pages from a cursor on; None when a page is refused. */
  ghost function Follow(rows: seq<Log>, matches: Log -> bool, c: Cursor, limit: int): Option<seq<Log>>
    requires UniqueIds(rows)
    decreases |Query(rows, matches, c)|
  {
    match PageOf(rows, matches, c, limit)
    case Err(_) => None
    case Ok(page) =>
      if !page.hasMore then Some(page.items)
      else
        Shrinks(rows, matches, c, Limit(limit));
        match Follow(rows, matches, page.next, limit)
        case None => None
        case Some(rest) => Some(page.items + rest)
  }

  /** Every page but the last is full. */
  lemma PagesAreFull(rows: seq<Log>, matches: Log -> bool, c: Cursor, limit: int)
    requires PageOf(rows, matches, c, limit).Ok?
    ensures var page := PageOf(rows, matches, c, limit).value;
      && |page.items| <= Limit(limit)
      && (page.hasMore ==> |page.items| == Limit(limit) && page.next.time.Some? && page.next.id.Some?)
      && (page.hasMore <==> |Query(rows, matches, c)| > Limit(limit))
  {
  }

  /** How many pages are asked for from a cursor on, up to the first that is refused. */
  ghost function Pages(rows: seq<Log>, matches: Log -> bool, c: Cursor, limit: int): nat
    requires UniqueIds(rows)
    decreases |Query(rows, matches, c)|
  {
    match PageOf(rows, matches, c, limit)
    case Err(_) => 1
    case Ok(page) =>
      if !page.hasMore then 1
      else
        Shrinks(rows, matches, c, Limit(limit));
        1 + Pages(rows, matches, page.next, limit)
  }

  /** As many pages as the listing needs: all full but the last, which is empty only for an empty listing. */
  predicate PagesFor(pages: nat, rows: nat, n: nat) {
    pages > 0 && rows <= pages * n && (pages == 1 || (pages - 1) * n < rows)
  }

  lemma {:induction false} PagesNeeded(rows: seq<Log>, matches: Log -> bool, c: Cursor, limit: int)
    requires UniqueIds(rows) && 1 <= Limit(limit) <= 200
    requires c.time.None? == c.id.None? && (c.time.Some? ==> c.time.value >= 0)
    requires Resumable(Query(rows, matches, c), Limit(limit))
    ensures PagesFor(Pages(rows, matches, c, limit), |Query(rows, matches, c)|, Limit(limit))
    decreases |Query(rows, matches, c)|
  {
    PagesAreFull(rows, matches, c, limit);
    var page := PageOf(rows, matches, c, limit).value;
    if page.hasMore {
      RestOfListing(rows, matches, c, Limit(limit));
      PagesNeeded(rows, matches, page.next, limit);
      OneMorePage(Pages(rows, matches, page.next, limit), |Query(rows, matches, page.next)|, Limit(limit));
    }
  }

  lemma OneMorePage(pages: nat, rows: nat, n: nat)
    requires PagesFor(pages, rows, n) && rows > 0
    ensures PagesFor(pages + 1, rows + n, n)
  {
    assert (pages + 1) * n == pages * n + n;
    assert pages * n == (pages - 1) * n + n;
  }

  /** No page but the last ends with a row from before the epoch, which a cursor cannot name. */
  predicate Resumable(listing: seq<Log>, n: nat)
    requires n > 0
    decreases |listing|
  {
    |listing| <= n || (listing[n - 1].startedAt >= 0 && Resumable(listing[n..], n))
  }

  lemma {:induction false} FollowFrom(rows: seq<Log>, matches: Log -> bool, c: Cursor, limit: int)
    requires UniqueIds(rows) && 1 <= Limit(limit) <= 200
    requires c.time.None? == c.id.None? && (c.time.Some? ==> c.time.value >= 0)
    ensures var listing := Query(rows, matches, c);
      Follow(rows, matches, c, limit) == if Resumable(listing, Limit(limit)) then Some(listing) else None
    decreases |Query(rows, matches, c)|
  {
    var found, n := Query(rows, matches, c), Limit(limit);
    if |found| > n {
      var next := Cursor(Some(found[n - 1].startedAt), Some(found[n - 1].id));
      RestOfListing(rows, matches, c, n);
      FollowNext(rows, matches, c, limit);
      if found[n - 1].startedAt >= 0 {
        FollowFrom(rows, matches, next, limit);
        assert found == found[..n] + found[n..];
      }
    }
  }

  /** Following from a page that is not the last: refused at a negative time, otherwise its items and those after it. */
  lemma FollowNext(rows: seq<Log>, matches: Log -> bool, c: Cursor, limit: int)
    requires UniqueIds(rows) && 1 <= Limit(limit) <= 200 && |Query(rows, matches, c)| > Limit(limit)
    requires c.time.None? == c.id.None? && (c.time.Some? ==> c.time.value >= 0)
    ensures var found, n := Query(rows, matches, c), Limit(limit);
      var next := Cursor(Some(found[n - 1].startedAt), Some(found[n - 1].id));
      && (found[n - 1].startedAt < 0 ==> Follow(rows, matches, c, limit) == None)
      && (var rest := Follow(rows, matches, next, limit);
          Follow(rows, matches, c, limit) == if rest.None? then None else Some(found[..n] + rest.value))
  {
    var found, n := Query(rows, matches, c), Limit(limit);
    var next := Cursor(Some(found[n - 1].startedAt), Some(found[n - 1].id));
    assert PageOf(rows, matches, c, limit) == Ok(Page(found[..n], true, next));
  }

  /** Following the cursors ends, and yields the filtered log in listing order with no row lost or repeated, in as many
      pages as its length needs, for every limit and any number of equal timestamps; it fails exactly when a page would
      have to resume at a negative time. */
  lemma PagesAreExact(rows: seq<Log>, matches: Log -> bool, limit: int)
    requires UniqueIds(rows) && 1 <= Limit(limit) <= 200
    ensures var listing := Query(rows, matches, START);
      && Listed(listing) && (forall r :: r in listing <==> r in rows && matches(r))
      && Follow(rows, matches, START, limit) == if Resumable(listing, Limit(limit)) then Some(listing) else None
    ensures (forall r :: r in rows ==> r.startedAt >= 0) ==>
      && Follow(rows, matches, START, limit) == Some(Query(rows, matches, START))
      && PagesFor(Pages(rows, matches, START, limit), |Query(rows, matches, START)|, Limit(limit))
  {
    QueryIs(rows, matches, START);
    FollowFrom(rows, matches, START, limit);
    if forall r :: r in rows ==> r.startedAt >= 0 {
      NonNegative(Query(rows, matches, START), Limit(limit));
      PagesNeeded(rows, matches, START, limit);
    }
  }

  lemma {:induction false} NonNegative(listing: seq<Log>, n: nat)
    requires n > 0 && forall r :: r in listing ==> r.startedAt >= 0
    ensures Resumable(listing, n)
    decreases |listing|
  {
    if |listing| > n {
      assert listing[n - 1] in listing;
      assert forall r :: r in listing[n..] ==> r in listing;
      NonNegative(listing[n..], n);
    }
  }

  /** A log from before the epoch that cannot be paged through. */
  lemma NegativeTimesCannotBeResumed()
    ensures var rows := [Log(2, -1), Log(1, -2)];
      UniqueIds(rows) && Follow(rows, (_: Log) => true, START, 1) == None
  {
    var rows := [Log(2, -1), Log(1, -2)];
    var listing := Query(rows, (_: Log) => true, START);
    FollowFrom(rows, (_: Log) => true, START, 1);
    QueryIs(rows, (_: Log) => true, START);
    assert rows[0] in listing && rows[1] in listing;
    assert |listing| > 1 && listing[0] in rows;
    assert listing[0].startedAt < 0;
  }
}
