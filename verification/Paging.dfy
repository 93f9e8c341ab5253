/**
  Paging of `execute_sql` across both languages: `handleExecuteSql` (src/tools/execute-sql.ts) asks for
  offset + limit rows, `handleExecute` (sidecar/driverplugin/handlers.go) puts 500 for a count that is not
  positive, `executeRead` (sidecar/driverplugin/execute.go) stops there, and TypeScript cuts the offset off.
*/
module Paging {
  import opened Common

  type Row = seq<string>

  /** What the database hands over row by row: a row that fails to scan is None, and the stream may end
      in an error instead of at its end. */
  datatype Cursor = Cursor(rows: seq<Option<Row>>, broken: bool)

  datatype Page = Page(rows: seq<Row>, rowCount: nat, hasMore: bool)

  datatype Failure = ScanFailed | IterationFailed

  const DEFAULT_MAX_ROWS := 500

  /** A cursor that yields exactly full. */
  function Whole(full: seq<Row>): Cursor {
    Cursor(seq(|full|, i requires 0 <= i < |full| => Some(full[i])), false)
  }

  /** The rows of c[..n], all of which scan. */
  function Scanned(c: Cursor, n: nat): seq<Row>
    requires n <= |c.rows| && forall i :: 0 <= i < n ==> c.rows[i].Some?
  {
    seq(n, i requires 0 <= i < n => c.rows[i].value)
  }

  /** What reading up to maxRows rows of c must come to: the first rows and whether there are more, and an
      error only if it strikes among the rows asked for. */
  predicate Reads(c: Cursor, maxRows: int, result: Result<Page, Failure>)
    requires maxRows > 0
  {
    var n := if |c.rows| < maxRows then |c.rows| else maxRows;
    match result
    case Err(ScanFailed) => exists i :: 0 <= i < n && c.rows[i].None?
    case Err(IterationFailed) => c.broken && |c.rows| <= maxRows && forall i :: 0 <= i < n ==> c.rows[i].Some?
    case Ok(page) =>
      && (forall i :: 0 <= i < n ==> c.rows[i].Some?)
      && !(c.broken && |c.rows| <= maxRows)
      && page == Page(Scanned(c, n), n, |c.rows| > maxRows)
  }

  method ExecuteRead(c: Cursor, maxRows: int) returns (result: Result<Page, Failure>)
    requires maxRows > 0
    ensures Reads(c, maxRows, result)
  {
    var rows: seq<Row> := [];
    var hasMore := false;
    var i := 0;
    while i < |c.rows|
      invariant 0 <= i <= |c.rows| && i <= maxRows
      invariant forall j :: 0 <= j < i ==> c.rows[j].Some?
      invariant rows == Scanned(c, i) && !hasMore
    {
      if |rows| >= maxRows {
        hasMore := true;
        break;
      }
      if c.rows[i].None? {
        return Err(ScanFailed);
      }
      rows := rows + [c.rows[i].value];
      i := i + 1;
    }
    if c.broken && !hasMore {
      return Err(IterationFailed);
    }
    return Ok(Page(rows, |rows|, hasMore));
  }

  /** The count `handleExecute` passes on. */
  function Effective(requested: int): (n: int)
    ensures n > 0
  {
    if requested <= 0 then DEFAULT_MAX_ROWS else requested
  }

  method HandleExecute(c: Cursor, requested: int) returns (result: Result<Page, Failure>)
    ensures Reads(c, Effective(requested), result)
  {
    var maxRows := requested;
    if maxRows <= 0 {
      maxRows := DEFAULT_MAX_ROWS;
    }
    result := ExecuteRead(c, maxRows);
  }

  /** What the sidecar returns of full when asked for requested rows. */
  function Fetched(full: seq<Row>, requested: int): Page {
    var n := Effective(requested);
    if |full| <= n then Page(full, |full|, false) else Page(full[..n], n, true)
  }

  lemma WholeIsFetched(full: seq<Row>, requested: int, result: Result<Page, Failure>)
    requires Reads(Whole(full), Effective(requested), result)
    ensures result == Ok(Fetched(full, requested))
  {
    var n := Effective(requested);
    if |full| <= n {
      assert Scanned(Whole(full), |full|) == full;
    } else {
      assert Scanned(Whole(full), n) == full[..n];
    }
  }

  /** `Array.prototype.slice`: a negative bound counts from the end, and bounds are clamped. */
  function JsSlice<T>(s: seq<T>, from: int, to: int): seq<T> {
    var lo, hi := Clamp(from, |s|), Clamp(to, |s|);
    if lo < hi then s[lo..hi] else []
  }

  function Clamp(i: int, n: nat): (k: nat)
    ensures k <= n
  {
    if i < 0 then (if n + i < 0 then 0 else n + i) else if i < n then i else n
  }

  function Cut(p: Page, limit: int, offset: int): Page {
    if offset <= 0 then p
    else var rows := JsSlice(p.rows, offset, offset + limit); Page(rows, |rows|, p.hasMore)
  }

  /** The page served of a query whose result is full. */
  function Served(full: seq<Row>, limit: int, offset: int): Page {
    Cut(Fetched(full, offset + limit), limit, offset)
  }

  /** No limit at no offset: the first 500 rows. */
  lemma ZeroMeansFiveHundred(full: seq<Row>)
    ensures Served(full, 0, 0) ==
      if |full| <= 500 then Page(full, |full|, false) else Page(full[..500], 500, true)
  {
  }

  /** A negative offset shortens the page: the first offset + limit rows, if that is any number of rows. */
  lemma NegativeOffset(full: seq<Row>, limit: int, offset: int)
    requires offset < 0 < offset + limit
    ensures Served(full, limit, offset).rows == if |full| <= offset + limit then full else full[..offset + limit]
    ensures Served(full, limit, offset).hasMore <==> |full| > offset + limit
  {
  }

  /** Slicing, bound by bound: an index counted from the end where negative, and never outside the sequence. */
  lemma SliceMeans<T>(s: seq<T>, from: int, to: int, k: nat)
    ensures k < |JsSlice(s, from, to)| <==>
      && k < |s| && (if from >= 0 then from else if |s| + from > 0 then |s| + from else 0) + k < |s|
      && (if from >= 0 then from else if |s| + from > 0 then |s| + from else 0) + k < (if to >= 0 then to else |s| + to)
    ensures k < |JsSlice(s, from, to)| ==>
      JsSlice(s, from, to)[k] == s[(if from >= 0 then from else if |s| + from > 0 then |s| + from else 0) + k]
  {
  }

  /** The page asked for: the rows from offset on, at most limit of them. */
  function Wanted(full: seq<Row>, limit: nat, offset: nat): seq<Row> {
    if |full| <= offset then []
    else if |full| - offset <= limit then full[offset..]
    else full[offset..offset + limit]
  }

  /** For limit and offset not negative the page served is the page asked for, with `truncated` exactly when
      rows follow it, if and only if some row was asked for or there is none: zero rows at offset zero come
      back as up to 500. */
  lemma ServedIsWanted(full: seq<Row>, limit: nat, offset: nat)
    ensures
      var wanted := Wanted(full, limit, offset);
      (Served(full, limit, offset) == Page(wanted, |wanted|, |full| > offset + limit))
      <==> (limit + offset > 0 || full == [])
  {
    var p := Fetched(full, offset + limit);
    if limit + offset > 0 && offset > 0 && |full| > offset + limit {
      assert full[..offset + limit][offset..] == full[offset..offset + limit];
    }
  }

  /** Errors pass through; else the offset is cut off, and the count follows the rows left. */
  method HandleExecuteSql(c: Cursor, limit: int, offset: int) returns (result: Result<Page, Failure>)
    ensures result.Err? ==> Reads(c, Effective(offset + limit), result)
    ensures result.Ok? ==>
      exists raw :: Reads(c, Effective(offset + limit), Ok(raw)) && result.value == Cut(raw, limit, offset)
    ensures forall full :: c == Whole(full) && limit >= 0 && offset >= 0 && limit + offset > 0 ==>
      var wanted := Wanted(full, limit, offset);
      result == Ok(Page(wanted, |wanted|, |full| > offset + limit))
  {
    var fetchRows := offset + limit;
    result := HandleExecute(c, fetchRows);
    forall full | c == Whole(full) ensures result == Ok(Fetched(full, fetchRows)) {
      WholeIsFetched(full, fetchRows, result);
    }
    forall full | limit >= 0 && offset >= 0
      ensures limit + offset > 0 ==>
        var wanted := Wanted(full, limit, offset);
        Served(full, limit, offset) == Page(wanted, |wanted|, |full| > offset + limit)
    {
      ServedIsWanted(full, limit, offset);
    }
    if result.Err? {
      return;
    }
    var page := result.value;
    if offset > 0 {
      page := page.(rows := JsSlice(page.rows, offset, offset + limit));
      page := page.(rowCount := |page.rows|);
    }
    assert page == Cut(result.value, limit, offset);
    result := Ok(page);
  }

  /** Where page k starts. */
  function Start(k: nat, limit: nat): nat {
    k * limit
  }

  lemma StartZero(limit: nat)
    ensures Start(0, limit) == 0
  {
  }

  lemma StartNext(n: nat, limit: nat)
    requires n > 0
    ensures Start(n, limit) == Start(n - 1, limit) + limit
  {
  }

  /** The first n pages, each of limit rows, one after the other. */
  function Pages(full: seq<Row>, limit: nat, n: nat): seq<Row> {
    if n == 0 then [] else Pages(full, limit, n - 1) + Served(full, limit, Start(n - 1, limit)).rows
  }

  /** Successive pages put together are the result itself, up to where they reach. */
  lemma {:induction false} PagesConcatenate(full: seq<Row>, limit: nat, n: nat)
    requires limit > 0
    ensures Pages(full, limit, n) == if |full| <= Start(n, limit) then full else full[..Start(n, limit)]
  {
    hide Served, Start;
    if n == 0 {
      StartZero(limit);
    } else {
      StartNext(n, limit);
      PagesConcatenate(full, limit, n - 1);
      ServedIsWanted(full, limit, Start(n - 1, limit));
      NextPage(full, limit, Start(n - 1, limit));
    }
  }

  lemma NextPage(full: seq<Row>, limit: nat, offset: nat)
    ensures (if |full| <= offset then full else full[..offset]) + Wanted(full, limit, offset)
      == if |full| <= offset + limit then full else full[..offset + limit]
  {
  }

  /** So a reader who stops at the first page not truncated has everything, and not sooner. */
  lemma StopAtLastPage(full: seq<Row>, limit: nat, n: nat)
    requires limit > 0 && n > 0
    ensures !Served(full, limit, Start(n - 1, limit)).hasMore <==> Pages(full, limit, n) == full
  {
    hide Served, Start;
    StartNext(n, limit);
    PagesConcatenate(full, limit, n);
    ServedIsWanted(full, limit, Start(n - 1, limit));
  }
}
