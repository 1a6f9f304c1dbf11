/**
 Keyset pagination of a wallet's transactions. The database keeps timestamps in
 microseconds; the cursor carries one in milliseconds, as a JavaScript Date does.
 */
module HistoryPages {
  import opened Options

  /** A transaction; createdAt is in microseconds. */
  datatype Row = Row(createdAt: int, id: int, from: Option<string>, to: Option<string>)

  datatype Cursor = Cursor(createdAt: int, id: int)

  /** What the request carries: nothing, text that does not decode, or a decoded cursor. */
  datatype CursorParam = Absent | Malformed | Given(c: Cursor)

  /** (t.created_at, t.id) compared with the cursor, in the direction of the listing. */
  predicate Beyond(asc: bool, c: Cursor, r: Row) {
    if asc then r.createdAt > c.createdAt || (r.createdAt == c.createdAt && r.id > c.id)
    else r.createdAt < c.createdAt || (r.createdAt == c.createdAt && r.id < c.id)
  }

  predicate Precedes(asc: bool, a: Row, b: Row) {
    Beyond(asc, Cursor(a.createdAt, a.id), b)
  }

  /** Rows in the listing's order; (created_at, id) pairs are distinct. */
  predicate Ordered(asc: bool, rows: seq<Row>) {
    forall i, j :: 0 <= i < j < |rows| ==> Precedes(asc, rows[i], rows[j])
  }

  /** SERIAL ids start at 1. */
  predicate PositiveIds(rows: seq<Row>) {
    forall i :: 0 <= i < |rows| ==> rows[i].id > 0
  }

  function Truncated(micros: int): int {
    micros - micros % 1000
  }

  /** The cursor made from a page's last row. */
  function CursorOf(r: Row): Cursor {
    Cursor(Truncated(r.createdAt), r.id)
  }

  /** Math.min(Math.max(1, parseInt(limit) || 25), 100); None is NaN. */
  function SafeLimit(limit: Option<int>): (n: Limit)
    ensures n <= 100
    ensures limit.Some? && 1 <= limit.value <= 100 ==> n == limit.value
    ensures limit.None? || limit.value == 0 ==> n == 25
    ensures limit.Some? && limit.value < 0 ==> n == 1
    ensures limit.Some? && limit.value > 100 ==> n == 100
  {
    var parsed := if limit.None? || limit.value == 0 then 25 else limit.value;
    if parsed < 1 then 1 else if parsed > 100 then 100 else parsed
  }

  /** A cursor that does not decode, or that lacks a truthy id, is ignored. */
  function Effective(param: CursorParam): Option<Cursor> {
    if param.Given? && param.c.id != 0 then Some(param.c) else None
  }

  /** WHERE ... AND cursor clause, of rows in listing order. */
  function Remaining(asc: bool, rows: seq<Row>, cursor: Option<Cursor>): seq<Row> {
    if cursor.None? || rows == [] then rows
    else (if Beyond(asc, cursor.value, rows[0]) then [rows[0]] else []) + Remaining(asc, rows[1..], cursor)
  }

  datatype Page = Page(data: seq<Row>, nextCursor: Option<Cursor>, hasMore: bool)

  /** getUserTransactionsCursor over a wallet's rows in listing order. */
  function PageOf(asc: bool, rows: seq<Row>, param: CursorParam, limit: Option<int>): Page {
    LimitedPage(asc, rows, param, SafeLimit(limit))
  }

  type Limit = n: nat | n >= 1 witness 1

  function LimitedPage(asc: bool, rows: seq<Row>, param: CursorParam, limit: Limit): Page {
    Cut(Remaining(asc, rows, Effective(param)), limit)
  }

  /** LIMIT limit + 1, of which the last row only tells that there is more. */
  function Cut(rest: seq<Row>, limit: Limit): Page {
    var found := if |rest| > limit + 1 then rest[..limit + 1] else rest;
    var more := |found| > limit;
    var data := if more then found[..limit] else found;
    Page(data, if more then Some(CursorOf(data[|data| - 1])) else None, more)
  }

  // ---------------------------------------------------------------- the wallet's rows

  /** WHERE from_wallet = w OR to_wallet = w. */
  function WalletRows(table: seq<Row>, w: string): seq<Row> {
    if table == [] then []
    else (if table[0].from == Some(w) || table[0].to == Some(w) then [table[0]] else []) + WalletRows(table[1..], w)
  }

  lemma {:induction false} WalletRowsOf(table: seq<Row>, w: string, r: Row)
    ensures r in WalletRows(table, w) <==> r in table && (r.from == Some(w) || r.to == Some(w))
  {
    if table != [] {
      WalletRowsOf(table[1..], w, r);
      assert table == [table[0]] + table[1..];
    }
  }

  lemma {:induction false} WalletRowsKeepOrder(asc: bool, table: seq<Row>, w: string)
    requires Ordered(asc, table)
    ensures Ordered(asc, WalletRows(table, w))
  {
    if table != [] {
      WalletRowsKeepOrder(asc, table[1..], w);
      var later := WalletRows(table[1..], w);
      forall i | 0 <= i < |later|
        ensures Precedes(asc, table[0], later[i])
      {
        WalletRowsOf(table[1..], w, later[i]);
      }
    }
  }

  function Reversed(rows: seq<Row>): (r: seq<Row>)
    ensures |r| == |rows| && forall i :: 0 <= i < |rows| ==> r[i] == rows[|rows| - 1 - i]
  {
    if rows == [] then [] else Reversed(rows[1..]) + [rows[0]]
  }

  lemma ReversedIsOrdered(asc: bool, rows: seq<Row>)
    requires Ordered(asc, rows)
    ensures Ordered(!asc, Reversed(rows))
  {
    forall i, j | 0 <= i < j < |rows|
      ensures Precedes(!asc, Reversed(rows)[i], Reversed(rows)[j])
    {
      assert Precedes(asc, rows[|rows| - 1 - j], rows[|rows| - 1 - i]);
    }
  }

  // ---------------------------------------------------------------- following the cursor

  /** What a client has after some pages. */
  datatype Trail = Trail(got: seq<Row>, next: CursorParam, done: bool)

  function Fetch(asc: bool, rows: seq<Row>, limit: Limit, t: Trail): Trail {
    if t.done then t
    else Appended(t.got, LimitedPage(asc, rows, t.next, limit))
  }

  function Appended(got: seq<Row>, page: Page): Trail {
    Trail(got + page.data,
          if page.nextCursor.Some? then Given(page.nextCursor.value) else Absent,
          page.nextCursor.None?)
  }

  /** The client after n requests; tables(k) is the listing when request k arrives. */
  function Follow(asc: bool, tables: nat -> seq<Row>, limit: Limit, n: nat): Trail {
    if n == 0 then BEGINNING
    else Fetch(asc, tables(n - 1), limit, Follow(asc, tables, limit, n - 1))
  }

  const BEGINNING := Trail([], Absent, false)

  function Iterate(step: Trail -> Trail, n: nat): Trail {
    if n == 0 then BEGINNING else step(Iterate(step, n - 1))
  }

  function Client(asc: bool, rows: seq<Row>, limit: Limit): Trail -> Trail {
    (t: Trail) => Fetch(asc, rows, limit, t)
  }

  /** The client after n requests, of a listing that stays as it is. */
  function FollowFixed(asc: bool, rows: seq<Row>, limit: Limit, n: nat): Trail {
    Iterate(Client(asc, rows, limit), n)
  }

  /** The rows on m full pages, m * limit. */
  function Span(m: nat, limit: Limit): (n: nat)
    ensures n >= m
  {
    if m == 0 then 0 else Span(m - 1, limit) + limit
  }

  lemma {:induction false} SpanIsProduct(m: nat, limit: Limit)
    ensures Span(m, limit) == m * limit
  {
    if m > 0 {
      SpanIsProduct(m - 1, limit);
      assert m * limit == (m - 1) * limit + limit;
    }
  }

  /** max(1, ceil(n / limit)). */
  function PageCount(n: nat, limit: Limit): (pages: nat)
    ensures pages >= 1
  {
    if n == 0 then 1 else (n + limit - 1) / limit
  }

  // ---------------------------------------------------------------- one page boundary

  /**
   The page that ends at row j is continued exactly: listing downwards, the next row is below
   the truncated cursor; listing upwards, truncation loses nothing of row j's own timestamp.
   */
  predicate BoundaryHolds(asc: bool, rows: seq<Row>, j: nat)
    requires j + 1 < |rows|
  {
    if asc then rows[j].createdAt % 1000 == 0 else Beyond(false, CursorOf(rows[j]), rows[j + 1])
  }

  /** A filter that everything from k on passes and nothing before k does leaves the rows from k on. */
  lemma {:induction false} RemainingIsSuffix(asc: bool, rows: seq<Row>, c: Cursor, k: nat)
    requires k <= |rows|
    requires forall i :: 0 <= i < |rows| ==> (Beyond(asc, c, rows[i]) <==> k <= i)
    ensures Remaining(asc, rows, Some(c)) == rows[k..]
  {
    if rows != [] {
      RemainingIsSuffix(asc, rows[1..], c, if k == 0 then 0 else k - 1);
    }
  }

  lemma {:induction false} RemainingMember(asc: bool, rows: seq<Row>, c: Cursor, r: Row)
    ensures r in Remaining(asc, rows, Some(c)) <==> r in rows && Beyond(asc, c, r)
  {
    if rows != [] {
      RemainingMember(asc, rows[1..], c, r);
      assert rows == [rows[0]] + rows[1..];
    }
  }

  lemma BeyondBoundary(asc: bool, rows: seq<Row>, j: nat, i: nat)
    requires Ordered(asc, rows) && j + 1 < |rows| && i < |rows| && BoundaryHolds(asc, rows, j)
    ensures Beyond(asc, CursorOf(rows[j]), rows[i]) <==> j < i
  {
    assert i < j ==> Precedes(asc, rows[i], rows[j]);
    assert j < i ==> Precedes(asc, rows[j], rows[i]);
    assert j + 1 < i ==> Precedes(asc, rows[j + 1], rows[i]);
  }

  /** The next page starts at row j + 1 when the boundary holds ... */
  lemma HeldBoundary(asc: bool, rows: seq<Row>, j: nat)
    requires Ordered(asc, rows) && j + 1 < |rows| && BoundaryHolds(asc, rows, j)
    ensures Remaining(asc, rows, Some(CursorOf(rows[j]))) == rows[j + 1..]
  {
    forall i | 0 <= i < |rows|
      ensures Beyond(asc, CursorOf(rows[j]), rows[i]) <==> j < i
    {
      BeyondBoundary(asc, rows, j, i);
    }
    RemainingIsSuffix(asc, rows, CursorOf(rows[j]), j + 1);
  }

  lemma {:induction false} FirstRemaining(asc: bool, rows: seq<Row>, c: Cursor)
    ensures var rest := Remaining(asc, rows, Some(c));
            (rest == [] <==> forall i :: 0 <= i < |rows| ==> !Beyond(asc, c, rows[i]))
    ensures var rest := Remaining(asc, rows, Some(c));
            rest != [] ==> exists i :: 0 <= i < |rows| && FirstBeyond(asc, rows, c, i) && rest[0] == rows[i]
  {
    if rows != [] {
      FirstRemaining(asc, rows[1..], c);
      var rest := Remaining(asc, rows[1..], Some(c));
      if !Beyond(asc, c, rows[0]) && rest != [] {
        var i :| 0 <= i < |rows[1..]| && FirstBeyond(asc, rows[1..], c, i) && rest[0] == rows[1..][i];
        assert FirstBeyond(asc, rows, c, i + 1);
      } else if Beyond(asc, c, rows[0]) {
        assert FirstBeyond(asc, rows, c, 0);
      }
    }
  }

  predicate FirstBeyond(asc: bool, rows: seq<Row>, c: Cursor, i: nat)
    requires i < |rows|
  {
    Beyond(asc, c, rows[i]) && forall k :: 0 <= k < i ==> !Beyond(asc, c, rows[k])
  }

  /** ... and otherwise it does not: going down, row j + 1 is skipped; going up, row j or an earlier one comes again. */
  lemma LostBoundary(asc: bool, rows: seq<Row>, j: nat)
    requires Ordered(asc, rows) && j + 1 < |rows| && !BoundaryHolds(asc, rows, j)
    ensures var rest := Remaining(asc, rows, Some(CursorOf(rows[j]))); rest == [] || rest[0] != rows[j + 1]
  {
    var c := CursorOf(rows[j]);
    FirstRemaining(asc, rows, c);
    var rest := Remaining(asc, rows, Some(c));
    if rest != [] {
      var i :| 0 <= i < |rows| && FirstBeyond(asc, rows, c, i) && rest[0] == rows[i];
      assert asc ==> Beyond(asc, c, rows[j]);
      assert i < j + 1 ==> Precedes(asc, rows[i], rows[j + 1]);
      assert j + 1 < i ==> Precedes(asc, rows[j + 1], rows[i]);
    }
  }

  // ---------------------------------------------------------------- a whole traversal

  /** The first k pages end at boundaries that hold. */
  predicate BoundariesHold(asc: bool, rows: seq<Row>, limit: Limit, k: nat)
  {
    forall m :: 1 <= m <= k ==> Held(asc, rows, limit, m)
  }

  predicate Held(asc: bool, rows: seq<Row>, limit: Limit, m: nat)
    requires m >= 1
  {
    Span(m, limit) >= |rows| || BoundaryHolds(asc, rows, Span(m, limit) - 1)
  }

  /** Where a client that has received the first `count` rows, and is to go on or not, should be. */
  function OnTrack(rows: seq<Row>, count: nat): Trail
    requires 1 <= count
  {
    if count < |rows| then Trail(rows[..count], Given(CursorOf(rows[count - 1])), false)
    else Trail(rows, Absent, true)
  }

  lemma CutContinues(rows: seq<Row>, got: seq<Row>, rest: seq<Row>, limit: Limit)
    requires rows == got + rest
    ensures Appended(got, Cut(rest, limit)) == OnTrack(rows, |got| + limit)
  {
    if |rest| > limit {
      assert (if |rest| > limit + 1 then rest[..limit + 1] else rest)[..limit] == rest[..limit];
      assert got + rest[..limit] == rows[..|got| + limit];
    }
  }

  lemma FirstPage(asc: bool, rows: seq<Row>, limit: Limit)
    ensures Fetch(asc, rows, limit, BEGINNING) == OnTrack(rows, limit)
  {
    CutContinues(rows, [], rows, limit);
  }

  lemma FetchBeyond(asc: bool, rows: seq<Row>, limit: Limit, got: seq<Row>, c: Cursor, rest: seq<Row>)
    requires c.id != 0 && Remaining(asc, rows, Some(c)) == rest
    ensures Fetch(asc, rows, limit, Trail(got, Given(c), false)) == Appended(got, Cut(rest, limit))
  {
  }

  lemma FetchRest(asc: bool, rows: seq<Row>, limit: Limit, got: seq<Row>, c: Cursor, rest: seq<Row>)
    requires rows == got + rest && c.id != 0 && Remaining(asc, rows, Some(c)) == rest
    ensures Fetch(asc, rows, limit, Trail(got, Given(c), false)) == OnTrack(rows, |got| + limit)
  {
    hide Fetch, Remaining, Cut, Appended, OnTrack;
    FetchBeyond(asc, rows, limit, got, c, rest);
    CutContinues(rows, got, rest, limit);
  }

  lemma NextPage(asc: bool, rows: seq<Row>, limit: Limit, count: nat)
    requires Ordered(asc, rows) && PositiveIds(rows) && 1 <= count < |rows| && BoundaryHolds(asc, rows, count - 1)
    ensures Fetch(asc, rows, limit, OnTrack(rows, count)) == OnTrack(rows, count + limit)
  {
    assert CursorOf(rows[count - 1]).id != 0;
    hide Fetch, Remaining, CursorOf, Ordered, PositiveIds, BoundaryHolds;
    HeldBoundary(asc, rows, count - 1);
    FetchRest(asc, rows, limit, rows[..count], CursorOf(rows[count - 1]), rows[count..]);
  }

  lemma PageAfter(asc: bool, rows: seq<Row>, limit: Limit, at: nat)
    requires Ordered(asc, rows) && PositiveIds(rows) && at >= 1
    requires at < |rows| ==> BoundaryHolds(asc, rows, at - 1)
    ensures Client(asc, rows, limit)(OnTrack(rows, at)) == OnTrack(rows, at + limit)
  {
    if at < |rows| {
      NextPage(asc, rows, limit, at);
    }
  }

  /** The request after m full pages keeps the client on track. */
  predicate StepOnTrack(step: Trail -> Trail, rows: seq<Row>, limit: Limit, m: nat)
    requires m >= 1
  {
    step(OnTrack(rows, Span(m, limit))) == OnTrack(rows, Span(m + 1, limit))
  }

  lemma {:induction false} StepsSoFar(step: Trail -> Trail, rows: seq<Row>, limit: Limit, n: nat)
    requires n >= 1 && step(BEGINNING) == OnTrack(rows, limit)
    requires forall m :: 1 <= m < n ==> StepOnTrack(step, rows, limit, m)
    ensures Iterate(step, n) == OnTrack(rows, Span(n, limit))
  {
    if n > 1 {
      StepsSoFar(step, rows, limit, n - 1);
      assert StepOnTrack(step, rows, limit, n - 1);
    }
  }

  /** While the boundaries hold, n pages give the first n * limit rows, in order and each once. */
  lemma PagesSoFar(asc: bool, rows: seq<Row>, limit: Limit, n: nat)
    requires Ordered(asc, rows) && PositiveIds(rows) && n >= 1
    requires BoundariesHold(asc, rows, limit, n - 1)
    ensures FollowFixed(asc, rows, limit, n) == OnTrack(rows, Span(n, limit))
  {
    var step := Client(asc, rows, limit);
    FirstPage(asc, rows, limit);
    forall m | 1 <= m < n
      ensures StepOnTrack(step, rows, limit, m)
    {
      assert Held(asc, rows, limit, m);
      PageAfterHeld(asc, rows, limit, m);
    }
    StepsSoFar(step, rows, limit, n);
  }

  lemma PageAfterHeld(asc: bool, rows: seq<Row>, limit: Limit, m: nat)
    requires Ordered(asc, rows) && PositiveIds(rows) && m >= 1 && Held(asc, rows, limit, m)
    ensures StepOnTrack(Client(asc, rows, limit), rows, limit, m)
  {
    PageAfter(asc, rows, limit, Span(m, limit));
  }

  lemma PageCountSuffices(n: nat, limit: Limit)
    ensures PageCount(n, limit) >= 1 && Span(PageCount(n, limit), limit) >= n
    ensures PageCount(n, limit) > 1 ==> Span(PageCount(n, limit) - 1, limit) < n
  {
    var k := PageCount(n, limit);
    if n > 0 {
      var q := n + limit - 1;
      assert q == q / limit * limit + q % limit;
      assert k >= 1 by {
        assert q >= limit;
      }
      SpanIsProduct(k, limit);
      SpanIsProduct(k - 1, limit);
      assert (k - 1) * limit == k * limit - limit;
    }
  }

  /** A request keeps what was received, and a client that is done stays as it is. */
  ghost predicate Keeps(step: Trail -> Trail) {
    forall t: Trail :: t.got <= step(t).got && (t.done ==> step(t) == t)
  }

  lemma ClientKeeps(asc: bool, rows: seq<Row>, limit: Limit)
    ensures Keeps(Client(asc, rows, limit))
  {
  }

  lemma {:induction false} GotGrows(step: Trail -> Trail, n: nat, m: nat)
    requires Keeps(step) && n <= m
    ensures Iterate(step, n).got <= Iterate(step, m).got
    ensures Iterate(step, n).done ==> Iterate(step, m) == Iterate(step, n)
    decreases m
  {
    if n < m {
      GotGrows(step, n, m - 1);
    }
  }

  /** The client has stopped, with exactly the wallet's rows in order. */
  predicate Complete(rows: seq<Row>, t: Trail) {
    t.done && t.got == rows
  }

  /** Past a lost boundary the client never ends up with the rows. */
  lemma LostBoundaryIsFatal(asc: bool, rows: seq<Row>, limit: Limit, k: nat, n: nat)
    requires Ordered(asc, rows) && PositiveIds(rows) && k >= 1
    requires BoundariesHold(asc, rows, limit, k - 1) && !Held(asc, rows, limit, k)
    ensures !Complete(rows, FollowFixed(asc, rows, limit, n))
  {
    var at := Span(k, limit);
    var step := Client(asc, rows, limit);
    PagesSoFar(asc, rows, limit, k);
    LostBoundary(asc, rows, at - 1);
    WrongPage(asc, rows, limit, at);
    ClientKeeps(asc, rows, limit);
    NeverRecovers(step, rows, at, k, n);
  }

  lemma NeverRecovers(step: Trail -> Trail, rows: seq<Row>, at: nat, k: nat, n: nat)
    requires Keeps(step) && 1 <= at < |rows| && Iterate(step, k) == OnTrack(rows, at) &&
             Wrong(rows, at, step(OnTrack(rows, at)))
    ensures !Complete(rows, Iterate(step, n))
  {
    if n <= k {
      GotGrows(step, n, k);
    } else {
      GotGrows(step, k + 1, n);
      StaysWrong(rows, at, Iterate(step, k + 1), Iterate(step, n));
    }
  }

  /** After `at` rows the client went wrong: it stopped short or its next row is another one. */
  predicate Wrong(rows: seq<Row>, at: nat, t: Trail)
    requires at < |rows|
  {
    (t.done && t.got == rows[..at]) || (|t.got| > at && t.got[at] != rows[at])
  }

  lemma StaysWrong(rows: seq<Row>, at: nat, t: Trail, t': Trail)
    requires at < |rows| && Wrong(rows, at, t) && t.got <= t'.got && (t.done ==> t' == t)
    ensures !Complete(rows, t')
  {
  }

  lemma WrongPage(asc: bool, rows: seq<Row>, limit: Limit, at: nat)
    requires PositiveIds(rows) && 1 <= at < |rows|
    requires var rest := Remaining(asc, rows, Some(CursorOf(rows[at - 1]))); rest == [] || rest[0] != rows[at]
    ensures Wrong(rows, at, Fetch(asc, rows, limit, OnTrack(rows, at)))
  {
    var rest := Remaining(asc, rows, Some(CursorOf(rows[at - 1])));
    CutStartsWith(rest, limit);
    var page := Cut(rest, limit);
    assert rest == [] ==> rows[..at] + page.data == rows[..at];
    assert rest != [] ==> (rows[..at] + page.data)[at] == page.data[0];
  }

  lemma CutStartsWith(rest: seq<Row>, limit: Limit)
    ensures rest == [] ==> Cut(rest, limit) == Page([], None, false)
    ensures rest != [] ==> |Cut(rest, limit).data| >= 1 && Cut(rest, limit).data[0] == rest[0]
  {
  }

  /** The first lost boundary among k, if there is one. */
  lemma {:induction false} FirstLost(asc: bool, rows: seq<Row>, limit: Limit, k: nat) returns (m: nat)
    requires !BoundariesHold(asc, rows, limit, k)
    ensures 1 <= m <= k && BoundariesHold(asc, rows, limit, m - 1) && !Held(asc, rows, limit, m)
  {
    if BoundariesHold(asc, rows, limit, k - 1) {
      m := k;
    } else {
      m := FirstLost(asc, rows, limit, k - 1);
    }
  }

  /** Following nextCursor ends, with exactly the rows. */
  ghost predicate Completes(asc: bool, rows: seq<Row>, limit: Limit) {
    exists n: nat :: Complete(rows, FollowFixed(asc, rows, limit, n))
  }

  /**
   Main result, for every listing, limit and timestamp precision: following nextCursor ends with
   exactly the rows, in order and each once, if and only if every page boundary holds; and then
   it takes max(1, ceil(n / limit)) pages.
   */
  lemma TraversalIsCompleteIff(asc: bool, rows: seq<Row>, limit: Limit)
    requires Ordered(asc, rows) && PositiveIds(rows)
    ensures Completes(asc, rows, limit) <==> BoundariesHold(asc, rows, limit, PageCount(|rows|, limit) - 1)
    ensures Completes(asc, rows, limit) ==> CompleteAfter(asc, rows, limit, PageCount(|rows|, limit))
  {
    var pages := PageCount(|rows|, limit);
    PageCountSuffices(|rows|, limit);
    if BoundariesHold(asc, rows, limit, pages - 1) {
      HeldTraversal(asc, rows, limit);
      assert Complete(rows, FollowFixed(asc, rows, limit, pages));
    } else {
      LostTraversal(asc, rows, limit, pages - 1);
    }
  }

  lemma LostTraversal(asc: bool, rows: seq<Row>, limit: Limit, k: nat)
    requires Ordered(asc, rows) && PositiveIds(rows) && !BoundariesHold(asc, rows, limit, k)
    ensures !Completes(asc, rows, limit)
  {
    var first := FirstLost(asc, rows, limit, k);
    forall n: nat
      ensures !Complete(rows, FollowFixed(asc, rows, limit, n))
    {
      LostBoundaryIsFatal(asc, rows, limit, first, n);
    }
  }

  /** Complete after that many pages, and not before. */
  predicate CompleteAfter(asc: bool, rows: seq<Row>, limit: Limit, pages: nat) {
    && Complete(rows, FollowFixed(asc, rows, limit, pages))
    && pages >= 1 && !FollowFixed(asc, rows, limit, pages - 1).done
  }

  lemma HeldTraversal(asc: bool, rows: seq<Row>, limit: Limit)
    requires Ordered(asc, rows) && PositiveIds(rows)
    requires BoundariesHold(asc, rows, limit, PageCount(|rows|, limit) - 1)
    ensures CompleteAfter(asc, rows, limit, PageCount(|rows|, limit))
  {
    hide PageCount, Ordered, PositiveIds, Held, Span;
    var pages := PageCount(|rows|, limit);
    PageCountSuffices(|rows|, limit);
    PagesSoFar(asc, rows, limit, pages);
    if pages > 1 {
      PagesSoFar(asc, rows, limit, pages - 1);
    }
  }

  // ---------------------------------------------------------------- consequences

  function Listing(asc: bool, table: seq<Row>, w: string): seq<Row> {
    if asc then WalletRows(table, w) else Reversed(WalletRows(table, w))
  }

  /** Each of the client's requests gets the page that the source's query and its cut give for this page size. */
  ghost predicate FetchesPages(asc: bool, rows: seq<Row>, requested: Option<int>) {
    forall t: Trail :: !t.done ==>
      Fetch(asc, rows, SafeLimit(requested), t) == Appended(t.got, PageOf(asc, rows, t.next, requested))
  }

  /** A wallet's history, whatever page size is asked for: complete exactly when its page boundaries hold. */
  lemma WalletHistoryIsCompleteIff(asc: bool, table: seq<Row>, w: string, requested: Option<int>)
    requires Ordered(true, table) && PositiveIds(table)
    ensures var rows := Listing(asc, table, w);
            var limit := SafeLimit(requested);
            && (Completes(asc, rows, limit) <==> BoundariesHold(asc, rows, limit, PageCount(|rows|, limit) - 1))
            && FetchesPages(asc, rows, requested)
  {
    var rows := Listing(asc, table, w);
    WalletRowsKeepOrder(true, table, w);
    ReversedIsOrdered(true, WalletRows(table, w));
    forall i | 0 <= i < |WalletRows(table, w)|
      ensures WalletRows(table, w)[i].id > 0
    {
      WalletRowsOf(table, w, WalletRows(table, w)[i]);
    }
    TraversalIsCompleteIff(asc, rows, SafeLimit(requested));
  }

  /** Every timestamp is a whole number of milliseconds. */
  predicate Precise(rows: seq<Row>) {
    forall i :: 0 <= i < |rows| ==> rows[i].createdAt % 1000 == 0
  }

  /** With timestamps at the cursor's precision no boundary is lost, in either direction. */
  lemma PreciseTraversal(asc: bool, rows: seq<Row>, limit: Limit)
    requires Ordered(asc, rows) && PositiveIds(rows) && Precise(rows)
    ensures CompleteAfter(asc, rows, limit, PageCount(|rows|, limit))
  {
    forall m | 1 <= m <= PageCount(|rows|, limit) - 1
      ensures Held(asc, rows, limit, m)
    {
      var at := Span(m, limit);
      assert at < |rows| ==> Precedes(asc, rows[at - 1], rows[at]);
    }
    HeldTraversal(asc, rows, limit);
  }

  /** Listing upwards gives the listing downwards in reverse, whatever the two page sizes. */
  lemma AscendingIsReversedDescending(table: seq<Row>, w: string, up: Limit, down: Limit, n: nat, m: nat)
    requires Ordered(true, table) && PositiveIds(table) && Precise(table)
    requires FollowFixed(true, WalletRows(table, w), up, n).done
    requires FollowFixed(false, Reversed(WalletRows(table, w)), down, m).done
    ensures FollowFixed(true, WalletRows(table, w), up, n).got == WalletRows(table, w)
    ensures FollowFixed(true, WalletRows(table, w), up, n).got ==
            Reversed(FollowFixed(false, Reversed(WalletRows(table, w)), down, m).got)
  {
    var rows := WalletRows(table, w);
    WalletRowsKeepOrder(true, table, w);
    WalletRowsAreRows(table, w);
    ReversedIsOrdered(true, rows);
    DoneMeansComplete(true, rows, up, n);
    DoneMeansComplete(false, Reversed(rows), down, m);
  }

  lemma WalletRowsAreRows(table: seq<Row>, w: string)
    requires PositiveIds(table) && Precise(table)
    ensures PositiveIds(WalletRows(table, w)) && Precise(WalletRows(table, w))
  {
    forall i | 0 <= i < |WalletRows(table, w)|
      ensures WalletRows(table, w)[i] in table
    {
      WalletRowsOf(table, w, WalletRows(table, w)[i]);
    }
  }

  lemma DoneMeansComplete(asc: bool, rows: seq<Row>, limit: Limit, n: nat)
    requires Ordered(asc, rows) && PositiveIds(rows) && Precise(rows) && FollowFixed(asc, rows, limit, n).done
    ensures FollowFixed(asc, rows, limit, n).got == rows
  {
    PreciseTraversal(asc, rows, limit);
    var pages := PageCount(|rows|, limit);
    ClientKeeps(asc, rows, limit);
    if n <= pages {
      GotGrows(Client(asc, rows, limit), n, pages);
    } else {
      GotGrows(Client(asc, rows, limit), pages, n);
    }
  }

  /** Rows newer than all of `rows`, in a listing downwards. */
  predicate Extends(rows: seq<Row>, rows': seq<Row>) {
    Ordered(false, rows') && |rows| <= |rows'| && rows'[|rows'| - |rows|..] == rows
  }

  lemma {:induction false} NewerRowsAreNotBeyond(rows: seq<Row>, newer: seq<Row>, j: nat)
    requires j < |rows| && Ordered(false, newer + rows)
    ensures Remaining(false, newer + rows, Some(CursorOf(rows[j]))) == Remaining(false, rows, Some(CursorOf(rows[j])))
  {
    if newer == [] {
      assert newer + rows == rows;
    } else {
      var all := newer + rows;
      assert all[1..] == newer[1..] + rows;
      assert all[|newer| + j] == rows[j];
      assert Precedes(false, all[0], all[|newer| + j]);
      NewerRowsAreNotBeyond(rows, newer[1..], j);
    }
  }

  /** After its first page a client goes on from a row of the listing it began with. */
  predicate Anchored(rows: seq<Row>, t: Trail) {
    t.done || exists j :: 0 <= j < |rows| && t.next == Given(CursorOf(rows[j]))
  }

  lemma CutEndsWith(rest: seq<Row>, limit: Limit)
    ensures var page := Cut(rest, limit);
            page.nextCursor.Some? ==> |rest| >= limit && page.nextCursor == Some(CursorOf(rest[limit - 1]))
  {
  }

  lemma FetchStaysAnchored(asc: bool, rows: seq<Row>, limit: Limit, t: Trail)
    ensures t.done || Anchored(rows, Fetch(asc, rows, limit, t))
  {
    var e := Effective(t.next);
    var rest := Remaining(asc, rows, e);
    CutEndsWith(rest, limit);
    if Cut(rest, limit).nextCursor.Some? {
      var last := rest[limit - 1];
      if e.Some? {
        RemainingMember(asc, rows, e.value, last);
      }
      assert last in rows;
    }
  }

  lemma NewerRowsDoNotShow(rows: seq<Row>, rows': seq<Row>, limit: Limit, t: Trail)
    requires PositiveIds(rows) && Extends(rows, rows') && Anchored(rows, t)
    ensures Fetch(false, rows', limit, t) == Fetch(false, rows, limit, t)
  {
    if !t.done {
      var j :| 0 <= j < |rows| && t.next == Given(CursorOf(rows[j]));
      var newer := rows'[..|rows'| - |rows|];
      assert rows' == newer + rows;
      NewerRowsAreNotBeyond(rows, newer, j);
    }
  }

  /** Rows inserted above the listing between pages leave a traversal downwards as it would have been without them. */
  lemma {:induction false} InsertsDoNotDisturb(tables: nat -> seq<Row>, rows: seq<Row>, limit: Limit, n: nat)
    requires PositiveIds(rows) && tables(0) == rows && forall k: nat :: Extends(rows, tables(k))
    ensures Follow(false, tables, limit, n) == FollowFixed(false, rows, limit, n)
    ensures n >= 1 ==> Anchored(rows, FollowFixed(false, rows, limit, n))
  {
    if n > 0 {
      InsertsDoNotDisturb(tables, rows, limit, n - 1);
      var t := FollowFixed(false, rows, limit, n - 1);
      assert Extends(rows, tables(n - 1));
      if n > 1 {
        NewerRowsDoNotShow(rows, tables(n - 1), limit, t);
      }
      FetchStaysAnchored(false, rows, limit, t);
    }
  }

  ghost predicate CompletesAmidInserts(tables: nat -> seq<Row>, rows: seq<Row>, limit: Limit) {
    exists n: nat :: Complete(rows, Follow(false, tables, limit, n))
  }

  /**
   So it ends with exactly the rows that were there at its first page, under the very
   condition a listing without inserts needs; timestamps in whole milliseconds meet it.
   */
  lemma DescendingSurvivesInserts(tables: nat -> seq<Row>, rows: seq<Row>, limit: Limit)
    requires Ordered(false, rows) && PositiveIds(rows)
    requires tables(0) == rows && forall k: nat :: Extends(rows, tables(k))
    ensures CompletesAmidInserts(tables, rows, limit) <==>
            BoundariesHold(false, rows, limit, PageCount(|rows|, limit) - 1)
    ensures Precise(rows) ==> Complete(rows, Follow(false, tables, limit, PageCount(|rows|, limit)))
  {
    forall n: nat
      ensures Follow(false, tables, limit, n) == FollowFixed(false, rows, limit, n)
    {
      InsertsDoNotDisturb(tables, rows, limit, n);
    }
    TraversalIsCompleteIff(false, rows, limit);
    if Completes(false, rows, limit) {
      assert Complete(rows, Follow(false, tables, limit, PageCount(|rows|, limit)));
    }
    if CompletesAmidInserts(tables, rows, limit) {
      var n: nat :| Complete(rows, Follow(false, tables, limit, n));
      assert Complete(rows, FollowFixed(false, rows, limit, n));
    }
    if Precise(rows) {
      PreciseTraversal(false, rows, limit);
    }
  }

  /** Two rows in one millisecond, a page apart: going down, the second is never shown. */
  lemma SubMillisecondRowIsSkipped(from: Option<string>, to: Option<string>, n: nat)
    ensures var rows := [Row(2_000_700, 2, from, to), Row(2_000_300, 1, from, to)];
            Ordered(false, rows) && PositiveIds(rows) && !Complete(rows, FollowFixed(false, rows, 1, n))
  {
    var rows := [Row(2_000_700, 2, from, to), Row(2_000_300, 1, from, to)];
    assert !BoundaryHolds(false, rows, 0);
    assert Span(1, 1) == 1;
    LostBoundaryIsFatal(false, rows, 1, 1, n);
  }

  /**
   Going up, a row between milliseconds is its own successor: a page that ends with it never lets
   the client past it.
   */
  lemma SubMillisecondRowRepeats(rows: seq<Row>, j: nat)
    requires Ordered(true, rows) && j < |rows| && rows[j].createdAt % 1000 != 0
    ensures rows[j] in Remaining(true, rows, Some(CursorOf(rows[j])))
  {
    RemainingMember(true, rows, CursorOf(rows[j]), rows[j]);
  }
}
