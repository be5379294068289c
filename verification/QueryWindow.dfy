/** Limits and offsets in account_query.go: the window of sqlQuery, and the shortcuts First and Only. */
module QueryWindow {
  import opened Support
  import opened QueryBuilder

  const MAX_INT32 := 0x7FFF_FFFF

  // ---------- windows ----------

  function Drop<R>(n: nat, rows: seq<R>): (r: seq<R>)
    ensures |r| == (if n <= |rows| then |rows| - n else 0) && forall i :: 0 <= i < |r| ==> r[i] == rows[n + i]
  {
    if n <= |rows| then rows[n..] else []
  }

  function Take<R>(n: nat, rows: seq<R>): (r: seq<R>)
    ensures |r| == (if n <= |rows| then n else |rows|) && forall i :: 0 <= i < |r| ==> r[i] == rows[i]
  {
    if n <= |rows| then rows[..n] else rows
  }

  /** What a caller asks for: skip the offset, then keep the limit. */
  function Window<R>(offset: Option<nat>, limit: Option<nat>, rows: seq<R>): seq<R> {
    var rest := if offset.Some? then Drop(offset.value, rows) else rows;
    if limit.Some? then Take(limit.value, rest) else rest
  }

  /** The offset and limit sqlQuery puts on the selector: an offset brings a limit along. */
  method SelectorWindow(offset: Option<nat>, limit: Option<nat>) returns (o: Option<nat>, l: Option<nat>)
    ensures o == offset && l == SelectorLimit(offset, limit)
  {
    o, l := None, None;
    if offset.Some? {
      o, l := offset, Some(MAX_INT32);
    }
    if limit.Some? {
      l := limit;
    }
  }

  function SelectorLimit(offset: Option<nat>, limit: Option<nat>): Option<nat> {
    if limit.Some? then limit else if offset.Some? then Some(MAX_INT32) else None
  }

  /** The selector's window is the one asked for, unless there is an offset without a limit and more
      than 2^31 - 1 rows follow it; then, and only then, rows are lost. */
  lemma SelectorWindowIff<R>(offset: Option<nat>, limit: Option<nat>, rows: seq<R>)
    ensures Window(offset, SelectorLimit(offset, limit), rows) == Window(offset, limit, rows) <==>
            limit.Some? || offset.None? || |rows| <= offset.value + 2147483647
  {
    if limit.None? && offset.Some? {
      var rest := Drop(offset.value, rows);
      assert |Take(MAX_INT32, rest)| == if |rest| <= MAX_INT32 then |rest| else MAX_INT32;
    }
  }

  // ---------- shortcuts ----------

  datatype QueryError = NotFound | NotSingular | Failed(code: int)

  /** The store: the rows of a query, in order, before its window is applied; or an error. */
  type Store<!R> = Meaning -> Result<seq<R>, int>

  function Natural(n: Option<int>): Option<nat> {
    if n.Some? && n.value >= 0 then Some(n.value) else None
  }

  function Unwindowed(m: Meaning): Meaning {
    m.(clauses := m.clauses.(limit := None, offset := None))
  }

  /** All rows of a query. */
  function All<R>(store: Store<R>, m: Meaning): Result<seq<R>, QueryError> {
    match store(Unwindowed(m))
    case Err(code) => Err(Failed(code))
    case Ok(rows) => Ok(Window(Natural(m.clauses.offset), Natural(m.clauses.limit), rows))
  }

  /** A query returns the store's rows from its offset on, as many as its limit allows; a limit or
      offset that is not set, or negative, counts for nothing. */
  lemma AllMeaning<R>(store: Store<R>, m: Meaning)
    ensures match store(Unwindowed(m))
            case Err(code) => All(store, m) == Err(Failed(code))
            case Ok(rows) =>
              && All(store, m).Ok?
              && var skipped := if m.clauses.offset.Some? && m.clauses.offset.value >= 0 then m.clauses.offset.value else 0;
              && var left := if skipped <= |rows| then |rows| - skipped else 0;
              && var limited := m.clauses.limit.Some? && 0 <= m.clauses.limit.value < left;
              && |All(store, m).value| == (if limited then m.clauses.limit.value else left)
              && forall i :: 0 <= i < |All(store, m).value| ==> All(store, m).value[i] == rows[skipped + i]
  {
  }

  function WithoutLimit(m: Meaning): Meaning {
    m.(clauses := m.clauses.(limit := None))
  }

  /** The first row of a result. */
  function Head<R>(r: Result<seq<R>, QueryError>): Result<R, QueryError> {
    match r case Err(e) => Err(e) case Ok(rows) => if rows == [] then Err(NotFound) else Ok(rows[0])
  }

  /** The row of a result that has just one. */
  function Single<R>(r: Result<seq<R>, QueryError>): Result<R, QueryError> {
    match r
    case Err(e) => Err(e)
    case Ok(rows) => if rows == [] then Err(NotFound) else if |rows| == 1 then Ok(rows[0]) else Err(NotSingular)
  }

  lemma LimitedAll<R>(store: Store<R>, m: Meaning, n: nat)
    requires |m.edges| == EDGES
    ensures All(store, After(m, Limit(n))) ==
            match All(store, WithoutLimit(m)) case Err(e) => Err(e) case Ok(rows) => Ok(Take(n, rows))
  {
    assert Unwindowed(After(m, Limit(n))) == Unwindowed(WithoutLimit(m)) == Unwindowed(m);
  }

  /** First: the head of what the query would return without any limit. The query keeps limit one. */
  method First<R>(q: AccountQuery, store: Store<R>, spare: nat) returns (r: Result<R, QueryError>)
    requires q.Valid()
    modifies q.Repr
    ensures q.Valid() && fresh(q.Repr - old(q.Repr)) && q.View() == After(old(q.View()), Limit(1))
    ensures r == Head(All(store, WithoutLimit(old(q.View()))))
  {
    ghost var m := q.View();
    q.Call(Limit(1), spare);
    LimitedAll(store, m, 1);
    var nodes := All(store, q.View());
    if nodes.Err? {
      return Err(nodes.error);
    }
    if |nodes.value| == 0 {
      return Err(NotFound);
    }
    return Ok(nodes.value[0]);
  }

  /** Only: the single row of what the query would return without any limit, or which of none and
      many there are; two rows are enough to tell. The query keeps limit two. */
  method Only<R>(q: AccountQuery, store: Store<R>, spare: nat) returns (r: Result<R, QueryError>)
    requires q.Valid()
    modifies q.Repr
    ensures q.Valid() && fresh(q.Repr - old(q.Repr)) && q.View() == After(old(q.View()), Limit(2))
    ensures r == Single(All(store, WithoutLimit(old(q.View()))))
  {
    ghost var m := q.View();
    q.Call(Limit(2), spare);
    LimitedAll(store, m, 2);
    var nodes := All(store, q.View());
    if nodes.Err? {
      return Err(nodes.error);
    }
    match |nodes.value|
    case 1 => return Ok(nodes.value[0]);
    case 0 => return Err(NotFound);
    case _ => return Err(NotSingular);
  }

  /** A caller's own limit counts for nothing with Only: its answer is that of the limited result
      exactly if there was no limit, or it was two or more, or it cut nothing off. */
  lemma OnlyIgnoresLimit<R>(store: Store<R>, m: Meaning)
    requires All(store, WithoutLimit(m)).Ok?
    ensures var limit, rows := Natural(m.clauses.limit), All(store, WithoutLimit(m)).value;
            Single(All(store, WithoutLimit(m))) == Single(All(store, m)) <==>
            limit.None? || limit.value >= 2 || |rows| <= limit.value
  {
    assert Unwindowed(WithoutLimit(m)) == Unwindowed(m);
  }
}
