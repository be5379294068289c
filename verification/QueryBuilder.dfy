/** AccountQuery as a builder in account_query.go: the calls that change a query, and Clone. */
module QueryBuilder {
  import opened Support
  import opened GoSlice

  // ---------- what a query means ----------

  /** A predicate, order option, interceptor or selector modifier, or a step of a selector: an opaque function. */
  type Func = nat

  /** A query without its eager-loaded edges. */
  datatype Clauses = Clauses(
    fields: seq<string>, unique: Option<bool>, limit: Option<int>, offset: Option<int>,
    order: seq<Func>, predicates: seq<Func>, modifiers: seq<Func>, inters: seq<Func>, sql: Option<seq<Func>>)

  /** A new query has the interceptors of its client. */
  function NewClauses(inters: seq<Func>): Clauses {
    Clauses([], None, None, None, [], [], [], inters, None)
  }

  function NewMeaning(inters: seq<Func>): Meaning {
    Meaning(NewClauses(inters), NoEdges)
  }

  /** A query and the queries of the edges it eager-loads, by edge. */
  datatype Meaning = Meaning(clauses: Clauses, edges: seq<Option<Meaning>>)

  /** Edges of an account; queries of other entities leave the ones they do not have unused. */
  const EDGES := 5

  type EdgeNumber = e: nat | e < EDGES

  const NoEdges: seq<Option<Meaning>> := [None, None, None, None, None]

  /** A builder call. With configures a new query, of a client with interceptors, for the edge by calls
      on it. Prepare and Refine are what running a query with a path does to it: the selector that the
      path makes is kept, and then extended in place. */
  datatype Call =
    | Where(ps: seq<Func>) | Limit(n: int) | Offset(n: int) | Unique(b: bool) | Order(os: seq<Func>)
    | Select(names: seq<string>) | GroupBy(name: string, names: seq<string>) | Modify(m: Func)
    | Prepare(steps: seq<Func>) | Refine(step: Func)
    | With(edge: EdgeNumber, inters: seq<Func>, opts: seq<Call>)

  function ClausesAfter(c: Clauses, call: Call): Clauses {
    match call
    case Where(ps) => c.(predicates := c.predicates + ps)
    case Limit(n) => c.(limit := Some(n))
    case Offset(n) => c.(offset := Some(n))
    case Unique(b) => c.(unique := Some(b))
    case Order(os) => c.(order := c.order + os)
    case Select(names) => c.(fields := c.fields + names)
    case GroupBy(name, names) => c.(fields := [name] + names)
    case Modify(m) => c.(modifiers := c.modifiers + [m])
    case Prepare(steps) => c.(sql := Some(steps))
    case Refine(step) => if c.sql.Some? then c.(sql := Some(c.sql.value + [step])) else c
    case With(_, _, _) => c
  }

  function After(q: Meaning, call: Call): Meaning
    requires |q.edges| == EDGES
    ensures |After(q, call).edges| == EDGES
    decreases call, 0
  {
    match call
    case With(edge, inters, opts) => q.(edges := q.edges[edge := Some(AfterAll(NewMeaning(inters), opts))])
    case _ => q.(clauses := ClausesAfter(q.clauses, call))
  }

  function AfterAll(q: Meaning, calls: seq<Call>): Meaning
    requires |q.edges| == EDGES
    ensures |AfterAll(q, calls).edges| == EDGES
    decreases calls, |calls|
  {
    if calls == [] then q else After(AfterAll(q, calls[..|calls| - 1]), calls[|calls| - 1])
  }

  // ---------- what a list of calls makes of a query ----------

  /** What the last call that has it says, or else what was there. */
  function LastSaid<T>(says: Call -> Option<T>, calls: seq<Call>, otherwise: T): T {
    if calls == [] then otherwise
    else if says(calls[|calls| - 1]).Some? then says(calls[|calls| - 1]).value
    else LastSaid(says, calls[..|calls| - 1], otherwise)
  }

  lemma {:induction false} LastSaidMeaning<T>(says: Call -> Option<T>, calls: seq<Call>, otherwise: T, k: nat)
    requires k < |calls| ==> says(calls[k]).Some?
    requires k <= |calls| && forall j :: k < j < |calls| ==> says(calls[j]).None?
    requires k == |calls| ==> forall j :: 0 <= j < |calls| ==> says(calls[j]).None?
    ensures LastSaid(says, calls, otherwise) == if k < |calls| then says(calls[k]).value else otherwise
  {
    var n := |calls| - 1;
    if calls != [] && k != n {
      LastSaidMeaning(says, calls[..n], otherwise, if k < n then k else n);
    }
  }

  /** All that the calls bring, in order, in an additive clause. */
  function Brought<T>(brings: Call -> seq<T>, calls: seq<Call>): seq<T> {
    Flatten(Map(brings, calls))
  }

  lemma BroughtStep<T>(brings: Call -> seq<T>, calls: seq<Call>)
    requires calls != []
    ensures Brought(brings, calls) == Brought(brings, calls[..|calls| - 1]) + brings(calls[|calls| - 1])
  {
    var k := |calls| - 1;
    assert calls == calls[..k] + [calls[k]];
    MapAppend(brings, calls[..k], calls[k]);
    FlattenStep(Map(brings, calls[..k]), brings(calls[k]));
  }

  /** The position behind the last call that starts a clause anew, or 0. */
  function Restart(starts: Call -> bool, calls: seq<Call>): (n: nat)
    ensures n <= |calls| && (n > 0 ==> starts(calls[n - 1])) && forall j :: n <= j < |calls| ==> !starts(calls[j])
  {
    if calls == [] then 0
    else if starts(calls[|calls| - 1]) then |calls|
    else Restart(starts, calls[..|calls| - 1])
  }

  function Wheres(call: Call): seq<Func> {
    if call.Where? then call.ps else []
  }

  function Orders(call: Call): seq<Func> {
    if call.Order? then call.os else []
  }

  function Modifies(call: Call): seq<Func> {
    if call.Modify? then [call.m] else []
  }

  /** Conditions, orders and modifiers add up in the order of the calls; the interceptors stay. */
  lemma {:induction false} CallsAddUp(q: Meaning, calls: seq<Call>)
    requires |q.edges| == EDGES
    ensures var c := AfterAll(q, calls).clauses;
            && c.predicates == q.clauses.predicates + Brought(Wheres, calls)
            && c.order == q.clauses.order + Brought(Orders, calls)
            && c.modifiers == q.clauses.modifiers + Brought(Modifies, calls)
            && c.inters == q.clauses.inters
  {
    if calls != [] {
      CallsAddUp(q, calls[..|calls| - 1]);
      BroughtStep(Wheres, calls);
      BroughtStep(Orders, calls);
      BroughtStep(Modifies, calls);
    }
  }

  /** The last Limit, Offset and Unique count, and for each edge its last With. */
  lemma {:induction false} LastCallsCount(q: Meaning, calls: seq<Call>, e: EdgeNumber)
    requires |q.edges| == EDGES
    ensures var m := AfterAll(q, calls);
            && m.clauses.limit == LastSaid((c: Call) => if c.Limit? then Some(Some(c.n)) else None, calls, q.clauses.limit)
            && m.clauses.offset == LastSaid((c: Call) => if c.Offset? then Some(Some(c.n)) else None, calls, q.clauses.offset)
            && m.clauses.unique == LastSaid((c: Call) => if c.Unique? then Some(Some(c.b)) else None, calls, q.clauses.unique)
            && m.edges[e] == LastSaid(EdgeQueryOf(e), calls, q.edges[e])
  {
    if calls != [] {
      LastCallsCount(q, calls[..|calls| - 1], e);
    }
  }

  /** The query that a With call makes for an edge. */
  function EdgeQueryOf(e: EdgeNumber): Call -> Option<Option<Meaning>> {
    (c: Call) => if c.With? && c.edge == e then Some(Some(AfterAll(NewMeaning(c.inters), c.opts))) else None
  }

  function Selects(call: Call): seq<string> {
    if call.Select? then call.names else []
  }

  function Refines(call: Call): seq<Func> {
    if call.Refine? then [call.step] else []
  }

  /** The fields are those of the last GroupBy, or the ones there were, and what Select added since. */
  lemma {:induction false} FieldsSinceGroupBy(q: Meaning, calls: seq<Call>)
    requires |q.edges| == EDGES
    ensures var n := Restart((c: Call) => c.GroupBy?, calls);
            AfterAll(q, calls).clauses.fields ==
            (if n == 0 then q.clauses.fields else [calls[n - 1].name] + calls[n - 1].names) + Brought(Selects, calls[n..])
  {
    var k, n := |calls| - 1, Restart((c: Call) => c.GroupBy?, calls);
    if calls != [] && n <= k {
      FieldsSinceGroupBy(q, calls[..k]);
      assert calls[n..][..k - n] == calls[..k][n..] && calls[n..][k - n] == calls[k];
      BroughtStep(Selects, calls[n..]);
    }
  }

  /** A selector, if there is one, extended by some steps. */
  function Extended(sql: Option<seq<Func>>, steps: seq<Func>): Option<seq<Func>> {
    if sql.None? then None else Some(sql.value + steps)
  }

  lemma ExtendedTwice(sql: Option<seq<Func>>, steps: seq<Func>, more: seq<Func>)
    ensures Extended(sql, steps + more) == Extended(Extended(sql, steps), more) && Extended(sql, []) == sql
  {
    if sql.Some? {
      ConcatAssoc(sql.value, steps, more);
      assert sql.value + [] == sql.value;
    }
  }

  /** The selector is that of the last Prepare, or the one there was, extended by what refined it since;
      while there is none, refining does nothing. */
  lemma {:induction false} SelectorSincePrepare(q: Meaning, calls: seq<Call>)
    requires |q.edges| == EDGES
    ensures var n := Restart((c: Call) => c.Prepare?, calls);
            AfterAll(q, calls).clauses.sql ==
            Extended(if n == 0 then q.clauses.sql else Some(calls[n - 1].steps), Brought(Refines, calls[n..]))
  {
    var k, n := |calls| - 1, Restart((c: Call) => c.Prepare?, calls);
    var start := if n == 0 then q.clauses.sql else Some(calls[n - 1].steps);
    if n == |calls| {
      assert calls[n..] == [] && Brought(Refines, []) == [];
      ExtendedTwice(start, [], []);
    } else {
      SelectorSincePrepare(q, calls[..k]);
      var init := calls[..k];
      assert calls[n..][..k - n] == init[n..] && calls[n..][k - n] == calls[k];
      BroughtStep(Refines, calls[n..]);
      ExtendedTwice(start, Brought(Refines, init[n..]), Refines(calls[k]));
      ExtendedTwice(AfterAll(q, init).clauses.sql, [], []);
      RefineExtends(AfterAll(q, init).clauses, calls[k]);
    }
  }

  lemma RefineExtends(c: Clauses, call: Call)
    requires !call.Prepare?
    ensures ClausesAfter(c, call).sql == Extended(c.sql, Refines(call))
  {
    ExtendedTwice(c.sql, [], []);
  }

  // ---------- the builder without its edges ----------

  class QueryContext {
    var fields: Slice<string>
    var unique: Option<bool>
    var limit: Option<int>
    var offset: Option<int>

    constructor ()
      ensures fresh(fields.buf) && fields == Slice(fields.buf, 0)
      ensures unique == None && limit == None && offset == None
    {
      var none := new string[0];
      fields := Slice(none, 0);
      unique, limit, offset := None, None, None;
    }

    method Clone(spare: nat) returns (c: QueryContext)
      requires fields.Valid()
      ensures fresh(c) && fresh(c.fields.buf) && c.fields.Valid() && c.fields.Items() == fields.Items()
      ensures c.unique == unique && c.limit == limit && c.offset == offset
    {
      c := new QueryContext();
      var copied := Copy(fields, spare);
      c.fields, c.unique, c.limit, c.offset := copied, unique, limit, offset;
    }
  }

  /** A selector: what was done to it so far. It is changed in place. */
  class Selector {
    var steps: seq<Func>

    constructor (steps: seq<Func>)
      ensures this.steps == steps
    {
      this.steps := steps;
    }
  }

  /** The part of AccountQuery that is not about edges. */
  class FlatQuery {
    var ctx: QueryContext
    var order: Slice<Func>
    var predicates: Slice<Func>
    var modifiers: Slice<Func>
    var inters: Slice<Func>
    var sql: Selector?

    ghost var Repr: set<object>

    ghost predicate Valid()
      reads this, Repr
    {
      && this in Repr && ctx in Repr && ctx.fields.buf in Repr && {order.buf, predicates.buf, modifiers.buf, inters.buf} <= Repr
      && (sql != null ==> sql in Repr)
      && ctx.fields.Valid() && order.Valid() && predicates.Valid() && modifiers.Valid() && inters.Valid()
      && order.buf != predicates.buf && order.buf != modifiers.buf && predicates.buf != modifiers.buf
      && inters.buf != order.buf && inters.buf != predicates.buf && inters.buf != modifiers.buf
    }

    function View(): Clauses
      requires Valid()
      reads this, Repr
    {
      Clauses(ctx.fields.Items(), ctx.unique, ctx.limit, ctx.offset, order.Items(), predicates.Items(), modifiers.Items(),
              inters.Items(), if sql == null then None else Some(sql.steps))
    }

    constructor (inters: seq<Func>)
      ensures Valid() && fresh(Repr) && View() == NewClauses(inters)
    {
      ctx := new QueryContext();
      var a, b, c := new Func[0], new Func[0], new Func[0];
      var d := new Func[|inters|](i requires 0 <= i < |inters| => inters[i]);
      order, predicates, modifiers, this.inters := Slice(a, 0), Slice(b, 0), Slice(c, 0), Slice(d, |inters|);
      sql := null;
      new;
      Repr := {this, ctx, ctx.fields.buf, a, b, c, d};
    }

    /** A query made of parts, without modifiers and selector. */
    constructor Of(ctx: QueryContext, order: Slice<Func>, predicates: Slice<Func>, inters: Slice<Func>)
      requires ctx.fields.Valid() && order.Valid() && predicates.Valid() && inters.Valid()
      requires order.buf != predicates.buf && inters.buf != order.buf && inters.buf != predicates.buf
      ensures Valid() && fresh(Repr - {ctx, ctx.fields.buf, order.buf, predicates.buf, inters.buf})
      ensures View() == Clauses(ctx.fields.Items(), ctx.unique, ctx.limit, ctx.offset, order.Items(), predicates.Items(), [],
                                inters.Items(), None)
    {
      this.ctx, this.order, this.predicates, this.inters := ctx, order, predicates, inters;
      var none := new Func[0];
      modifiers := Slice(none, 0);
      sql := null;
      new;
      Repr := {this, ctx, ctx.fields.buf, order.buf, predicates.buf, inters.buf, none};
    }

    method AddPredicates(ps: seq<Func>, spare: nat)
      requires Valid()
      modifies Repr
      ensures Valid() && fresh(Repr - old(Repr)) && View() == ClausesAfter(old(View()), Where(ps))
    {
      predicates := Append(predicates, ps, spare);
      Repr := Repr + {predicates.buf};
    }

    method AddOrder(os: seq<Func>, spare: nat)
      requires Valid()
      modifies Repr
      ensures Valid() && fresh(Repr - old(Repr)) && View() == ClausesAfter(old(View()), Order(os))
    {
      order := Append(order, os, spare);
      Repr := Repr + {order.buf};
    }

    /** The modifier that ForUpdate and ForShare add. */
    method AddModifier(m: Func, spare: nat)
      requires Valid()
      modifies Repr
      ensures Valid() && fresh(Repr - old(Repr)) && View() == ClausesAfter(old(View()), Modify(m))
    {
      modifiers := Append(modifiers, [m], spare);
      Repr := Repr + {modifiers.buf};
    }

    method AddFields(names: seq<string>, spare: nat)
      requires Valid()
      modifies Repr
      ensures Valid() && fresh(Repr - old(Repr)) && View() == ClausesAfter(old(View()), Select(names))
    {
      var fields := Append(ctx.fields, names, spare);
      ctx.fields := fields;
      Repr := Repr + {fields.buf};
    }

    method SetFields(name: string, names: seq<string>, spare: nat)
      requires Valid()
      modifies Repr
      ensures Valid() && fresh(Repr - old(Repr)) && View() == ClausesAfter(old(View()), GroupBy(name, names))
    {
      var single := new string[1];
      single[0] := name;
      var fields := Append(Slice(single, 1), names, spare);
      ctx.fields := fields;
      Repr := Repr + {fields.buf};
    }

    /** What prepareQuery does for a query with a path. */
    method KeepSelector(steps: seq<Func>)
      requires Valid()
      modifies Repr
      ensures Valid() && fresh(Repr - old(Repr)) && View() == ClausesAfter(old(View()), Prepare(steps))
    {
      sql := new Selector(steps);
      Repr := Repr + {sql};
    }

    /** What sqlQuery does to a selector that is kept. */
    method ExtendSelector(step: Func)
      requires Valid()
      modifies Repr
      ensures Valid() && fresh(Repr - old(Repr)) && View() == ClausesAfter(old(View()), Refine(step))
    {
      if sql != null {
        sql.steps := sql.steps + [step];
      }
    }

    /** A builder call other than With. */
    method Call(call: Call, spare: nat)
      requires Valid() && !call.With?
      modifies Repr
      ensures Valid() && fresh(Repr - old(Repr)) && View() == ClausesAfter(old(View()), call)
    {
      match call
      case Where(ps) => AddPredicates(ps, spare);
      case Limit(n) => ctx.limit := Some(n);
      case Offset(n) => ctx.offset := Some(n);
      case Unique(b) => ctx.unique := Some(b);
      case Order(os) => AddOrder(os, spare);
      case Select(names) => AddFields(names, spare);
      case GroupBy(name, names) => SetFields(name, names, spare);
      case Modify(m) => AddModifier(m, spare);
      case Prepare(steps) => KeepSelector(steps);
      case Refine(step) => ExtendSelector(step);
    }

    /** Clone's copies of these fields; modifiers are not among them. */
    method Clone(spare: nat) returns (q: FlatQuery)
      requires Valid()
      ensures q.Valid() && fresh(q.Repr) && q.View() == View().(modifiers := [])
    {
      q := CloneSlices(spare);
      if sql != null {
        q.KeepSelector(sql.steps);
      }
    }

    method CloneSlices(spare: nat) returns (q: FlatQuery)
      requires Valid()
      ensures q.Valid() && fresh(q.Repr) && q.View() == View().(modifiers := [], sql := None)
    {
      var c := ctx.Clone(spare);
      var os := Copy(order, spare);
      var ps := Copy(predicates, spare);
      var own := Copy(inters, spare);
      q := new FlatQuery.Of(c, os, ps, own);
    }
  }

  // ---------- the builder with its edges ----------

  /** The fields of AccountQuery that hold the query of each edge to load, or null. */
  class EdgeFields {
    var queries: seq<AccountQuery?>
    ghost var Repr: set<object>

    ghost predicate Valid()
      reads this, Repr
      decreases Repr
    {
      && this in Repr && |queries| == EDGES
      && (forall i :: 0 <= i < EDGES && queries[i] != null ==>
            queries[i] in Repr && queries[i].Repr <= Repr && this !in queries[i].Repr && queries[i].Valid())
      && (forall i, j :: 0 <= i < j < EDGES && queries[i] != null && queries[j] != null ==> queries[i].Repr !! queries[j].Repr)
    }

    function View(): (m: seq<Option<Meaning>>)
      requires Valid()
      reads this, Repr
      ensures |m| == EDGES
      decreases Repr
    {
      seq(EDGES, i requires 0 <= i < EDGES && Valid() reads this, Repr => ViewOf(i))
    }

    function ViewOf(i: nat): Option<Meaning>
      requires Valid() && i < EDGES
      reads this, Repr
      decreases Repr, 0
    {
      if queries[i] == null then None else Some(queries[i].View())
    }

    constructor ()
      ensures Valid() && fresh(Repr) && View() == NoEdges
    {
      queries := [null, null, null, null, null];
      Repr := {this};
    }

    /** Installs a query that shares nothing with these. */
    method Set(edge: EdgeNumber, query: AccountQuery)
      requires Valid() && query.Valid() && query.Repr !! Repr
      modifies this
      ensures Valid() && Repr == old(Repr) + query.Repr
      ensures View() == old(View())[edge := Some(old(query.View()))]
    {
      queries := queries[edge := query];
      Repr := Repr + query.Repr;
      assert query.View() == old(query.View());
      assert forall i :: 0 <= i < EDGES && i != edge ==> ViewOf(i) == old(ViewOf(i));
    }

    /** Clones of all the queries there are. */
    method Clone(spare: nat) returns (c: EdgeFields)
      requires Valid()
      ensures c.Valid() && fresh(c.Repr) && c.View() == EdgesWithoutModifiers(View())
      decreases Repr, 1
    {
      ghost var view := View();
      c := new EdgeFields();
      ClonedNone(view);
      for i := 0 to EDGES
        invariant Valid() && View() == view
        invariant c.Valid() && fresh(c.Repr) && c.View() == ClonedUpTo(view, i)
      {
        ClonedOneMore(view, i);
        CloneEdge(c, i, spare);
      }
      ClonedAll(view);
    }

    /** Clones the query of an edge, if there is one, into other fields. */
    method CloneEdge(c: EdgeFields, i: EdgeNumber, spare: nat)
      requires Valid() && c.Valid() && c.Repr !! Repr && c.View()[i] == None
      modifies c
      ensures c.Valid() && fresh(c.Repr - old(c.Repr)) && c.View() == old(c.View())[i := EdgeWithoutModifiers(View()[i])]
      decreases Repr, 0
    {
      if queries[i] != null {
        queries[i].CloneInto(c, i, spare);
      }
    }
  }

  class AccountQuery {
    const flat: FlatQuery
    const edges: EdgeFields
    /** The query whose results this one starts from, if it is part of a path. */
    var path: AccountQuery?
    ghost var Repr: set<object>

    ghost predicate Valid()
      reads this, Repr
      decreases Repr
    {
      && this in Repr && flat in Repr && flat.Repr <= Repr && flat.Valid()
      && edges in Repr && edges.Repr <= Repr && edges.Repr !! flat.Repr
      && this !in flat.Repr && this !in edges.Repr && edges.Valid()
    }

    function View(): (m: Meaning)
      requires Valid()
      reads this, Repr
      ensures |m.edges| == EDGES
      decreases Repr
    {
      Meaning(flat.View(), edges.View())
    }

    constructor (inters: seq<Func>)
      ensures Valid() && fresh(Repr) && View() == NewMeaning(inters) && path == null
    {
      flat := new FlatQuery(inters);
      edges := new EdgeFields();
      path := null;
      new;
      Repr := {this} + flat.Repr + edges.Repr;
    }

    /** A query with the given clauses, edges and path. */
    constructor Of(flat: FlatQuery, edges: EdgeFields, path: AccountQuery?)
      requires flat.Valid() && edges.Valid() && edges.Repr !! flat.Repr
      ensures Valid() && Repr == {this} + old(flat.Repr) + old(edges.Repr)
      ensures View() == Meaning(old(flat.View()), old(edges.View())) && this.path == path
    {
      this.flat, this.edges, this.path := flat, edges, path;
      new;
      Repr := {this} + flat.Repr + edges.Repr;
    }

    /** A builder call on this query. */
    method Call(call: Call, spare: nat)
      requires Valid()
      modifies Repr
      ensures Valid() && fresh(Repr - old(Repr)) && View() == After(old(View()), call) && path == old(path)
      decreases call, 0
    {
      match call
      case With(edge, inters, opts) => CallWith(edge, inters, opts, spare);
      case _ => CallFlat(call, spare);
    }

    method CallFlat(call: Call, spare: nat)
      requires Valid() && !call.With?
      modifies Repr
      ensures Valid() && fresh(Repr - old(Repr)) && View() == After(old(View()), call) && path == old(path)
    {
      flat.Call(call, spare);
      Repr := Repr + flat.Repr;
    }

    /** The calls in order. */
    method Run(calls: seq<Call>, spare: nat)
      requires Valid()
      modifies Repr
      ensures Valid() && fresh(Repr - old(Repr)) && View() == AfterAll(old(View()), calls) && path == old(path)
      decreases calls, |calls|
    {
      for k := 0 to |calls|
        invariant Valid() && fresh(Repr - old(Repr)) && View() == AfterAll(old(View()), calls[..k]) && path == old(path)
      {
        Call(calls[k], spare);
        assert calls[..k + 1][..k] == calls[..k];
      }
      TakeAll(calls);
    }

    /** A new query, configured by calls. */
    static method Configured(inters: seq<Func>, opts: seq<Call>, spare: nat) returns (query: AccountQuery)
      ensures query.Valid() && fresh(query.Repr) && query.View() == AfterAll(NewMeaning(inters), opts)
      decreases opts, |opts| + 1
    {
      query := new AccountQuery(inters);
      query.Run(opts, spare);
    }

    /** WithGroups and its like: a new query, configured by calls, for the edge. */
    method CallWith(edge: EdgeNumber, inters: seq<Func>, opts: seq<Call>, spare: nat)
      requires Valid()
      modifies Repr
      ensures Valid() && fresh(Repr - old(Repr)) && path == old(path)
      ensures View() == old(View()).(edges := old(View()).edges[edge := Some(AfterAll(NewMeaning(inters), opts))])
      decreases opts, |opts| + 2
    {
      var query := Configured(inters, opts, spare);
      SetEdge(edge, query);
    }

    method SetEdge(edge: EdgeNumber, query: AccountQuery)
      requires Valid() && query.Valid() && query.Repr !! Repr
      modifies Repr
      ensures Valid() && Repr == old(Repr) + query.Repr && path == old(path)
      ensures View() == old(View()).(edges := old(View()).edges[edge := Some(old(query.View()))])
    {
      edges.Set(edge, query);
      Repr := Repr + query.Repr;
    }

    /** Clone: a copy of the query and, recursively, of the queries of its edges. */
    method Clone(spare: nat) returns (q: AccountQuery)
      requires Valid()
      ensures q.Valid() && fresh(q.Repr) && q.View() == WithoutModifiers(View()) && q.path == path
      decreases Repr, 2
    {
      var e := edges.Clone(spare);
      q := Assembled(flat, e, path, spare);
    }

    /** A query with a clone of the given clauses, and with the given edges. */
    static method Assembled(source: FlatQuery, e: EdgeFields, path: AccountQuery?, spare: nat) returns (q: AccountQuery)
      requires source.Valid() && e.Valid()
      ensures q.Valid() && q.path == path && e.Repr <= q.Repr && fresh(q.Repr - e.Repr)
      ensures q.View() == Meaning(source.View().(modifiers := []), e.View())
    {
      var f := source.Clone(spare);
      q := new AccountQuery.Of(f, e, path);
    }

    /** Makes a clone the query of an edge. */
    method CloneInto(fields: EdgeFields, i: EdgeNumber, spare: nat)
      requires Valid() && fields.Valid() && fields.Repr !! Repr
      modifies fields
      ensures fields.Valid() && fresh(fields.Repr - old(fields.Repr))
      ensures fields.View() == old(fields.View())[i := Some(WithoutModifiers(View()))]
      decreases Repr, 3
    {
      var query := Clone(spare);
      fields.Set(i, query);
    }
  }

  function EdgesWithoutModifiers(edges: seq<Option<Meaning>>): (r: seq<Option<Meaning>>)
    ensures |r| == |edges|
  {
    seq(|edges|, i requires 0 <= i < |edges| => EdgeWithoutModifiers(edges[i]))
  }

  /** The clones of the first n edges. */
  function ClonedUpTo(edges: seq<Option<Meaning>>, n: nat): seq<Option<Meaning>>
    requires |edges| == EDGES
  {
    seq(EDGES, i requires 0 <= i < EDGES => if i < n then EdgeWithoutModifiers(edges[i]) else None)
  }

  lemma ClonedNone(edges: seq<Option<Meaning>>)
    requires |edges| == EDGES
    ensures ClonedUpTo(edges, 0) == NoEdges
  {
  }

  lemma ClonedOneMore(edges: seq<Option<Meaning>>, i: EdgeNumber)
    requires |edges| == EDGES
    ensures ClonedUpTo(edges, i)[i] == None
    ensures ClonedUpTo(edges, i)[i := EdgeWithoutModifiers(edges[i])] == ClonedUpTo(edges, i + 1)
  {
  }

  lemma ClonedAll(edges: seq<Option<Meaning>>)
    requires |edges| == EDGES
    ensures ClonedUpTo(edges, EDGES) == EdgesWithoutModifiers(edges)
  {
  }

  function EdgeWithoutModifiers(q: Option<Meaning>): Option<Meaning> {
    match q case None => None case Some(m) => Some(WithoutModifiers(m))
  }

  /** The same query, and the same queries for its edges, all without modifiers. */
  function WithoutModifiers(q: Meaning): Meaning {
    Meaning(q.clauses.(modifiers := []), EdgesWithoutModifiers(q.edges))
  }

  datatype Side = OnOriginal(call: Call) | OnClone(call: Call)

  function OriginalCalls(calls: seq<Side>): seq<Call> {
    if calls == [] then []
    else
      var init := OriginalCalls(calls[..|calls| - 1]);
      if calls[|calls| - 1].OnOriginal? then init + [calls[|calls| - 1].call] else init
  }

  function CloneCalls(calls: seq<Side>): seq<Call> {
    if calls == [] then []
    else
      var init := CloneCalls(calls[..|calls| - 1]);
      if calls[|calls| - 1].OnClone? then init + [calls[|calls| - 1].call] else init
  }

  /** One more call changes the meaning on its own side. */
  lemma OneMoreCall(q: Meaning, c: Meaning, calls: seq<Side>, k: nat)
    requires |q.edges| == |c.edges| == EDGES && k < |calls|
    ensures var before, after := AfterAll(q, OriginalCalls(calls[..k])), AfterAll(q, OriginalCalls(calls[..k + 1]));
            after == if calls[k].OnOriginal? then After(before, calls[k].call) else before
    ensures var before, after := AfterAll(c, CloneCalls(calls[..k])), AfterAll(c, CloneCalls(calls[..k + 1]));
            after == if calls[k].OnClone? then After(before, calls[k].call) else before
  {
    assert calls[..k + 1][..k] == calls[..k];
    AfterOneMore(q, OriginalCalls(calls[..k]), calls[k].call);
    AfterOneMore(c, CloneCalls(calls[..k]), calls[k].call);
  }

  lemma AfterOneMore(q: Meaning, calls: seq<Call>, call: Call)
    requires |q.edges| == EDGES
    ensures AfterAll(q, calls + [call]) == After(AfterAll(q, calls), call)
  {
    assert (calls + [call])[..|calls|] == calls;
  }

  ghost predicate Apart(q: AccountQuery, c: AccountQuery)
    reads q, c, q.Repr, c.Repr
  {
    q.Valid() && c.Valid() && q.Repr !! c.Repr && q.path == c.path
  }

  /** A builder call on one of two queries that share nothing does not change the other. */
  method CallBeside(q: AccountQuery, other: AccountQuery, call: Call, spare: nat)
    requires Apart(q, other)
    modifies q.Repr
    ensures Apart(q, other) && fresh(q.Repr - old(q.Repr)) && other.Repr == old(other.Repr)
    ensures q.View() == After(old(q.View()), call) && other.View() == old(other.View())
  {
    q.Call(call, spare);
  }

  /** Builder calls on two queries that share nothing, in any order. */
  method RunBoth(q: AccountQuery, c: AccountQuery, calls: seq<Side>, spare: nat)
    requires Apart(q, c)
    modifies q.Repr, c.Repr
    ensures Apart(q, c)
    ensures q.View() == AfterAll(old(q.View()), OriginalCalls(calls)) && c.View() == AfterAll(old(c.View()), CloneCalls(calls))
  {
    ghost var ofQ, ofC := q.View(), c.View();
    for k := 0 to |calls|
      invariant Apart(q, c) && fresh(q.Repr - old(q.Repr)) && fresh(c.Repr - old(c.Repr))
      invariant q.View() == AfterAll(ofQ, OriginalCalls(calls[..k])) && c.View() == AfterAll(ofC, CloneCalls(calls[..k]))
    {
      OneMoreCall(ofQ, ofC, calls, k);
      match calls[k]
      case OnOriginal(call) => CallBeside(q, c, call, spare);
      case OnClone(call) => CallBeside(c, q, call, spare);
    }
    TakeAll(calls);
  }

  /** A query and its clone are independent: after any builder calls on the two, in any order, each
      means what its own calls alone make of it. They share the path they start from. */
  method CloneThenRun(q: AccountQuery, calls: seq<Side>, spare: nat) returns (c: AccountQuery)
    requires q.Valid()
    modifies q.Repr
    ensures Apart(q, c)
    ensures q.View() == AfterAll(old(q.View()), OriginalCalls(calls))
    ensures c.View() == AfterAll(WithoutModifiers(old(q.View())), CloneCalls(calls))
  {
    c := q.Clone(spare);
    RunBoth(q, c, calls, spare);
  }
}
