/** Edge queries over a table: the first run is the join, a second run is not. */
module EdgeQueries {
  import opened Support
  import opened EagerJoin
  import opened AccountLoaders

  /** A row satisfies all the IN lists on a query. */
  function Asked<R>(parent: R -> Option<int>, lists: seq<seq<int>>): R -> bool {
    r => forall l :: 0 <= l < |lists| ==> parent(r).Some? && parent(r).value in lists[l]
  }

  /** A query whose store is a table and honours the IN lists: it returns the rows that satisfy all
      of them, in table order. */
  function TableQuery<R>(parent: R -> Option<int>, table: seq<R>): EdgeQuery<R> {
    EdgeQuery(lists => Ok(Filter(Asked(parent, lists), table)), [])
  }

  /** Filtering rows that all candidates pass anyway changes nothing. */
  lemma {:induction false} FilterThrough<T>(p: T -> bool, q: T -> bool, s: seq<T>)
    requires forall i :: 0 <= i < |s| ==> p(s[i]) ==> q(s[i])
    ensures Filter(p, Filter(q, s)) == Filter(p, s)
  {
    if s != [] {
      var init, last := s[..|s| - 1], s[|s| - 1];
      assert forall i :: 0 <= i < |init| ==> init[i] == s[i];
      FilterThrough(p, q, init);
      if q(last) {
        FilterAppend(p, Filter(q, init), last);
      }
    }
  }

  lemma RunRows<R>(parent: R -> Option<int>, table: seq<R>, lists: seq<seq<int>>, k: nat, l: nat)
    requires k < |Filter(Asked(parent, lists), table)| && l < |lists|
    ensures var r := Filter(Asked(parent, lists), table)[k]; parent(r).Some? && parent(r).value in lists[l]
  {
  }

  /** The first run over a table that honours the IN list is answered honestly, and what each parent
      receives is what a nested loop over the whole table finds for it. */
  lemma FirstRunIsJoin<R>(parent: R -> Option<int>, table: seq<R>, ids: seq<int>)
    ensures TableQuery(parent, table).WhereIn(ids).All().Ok?
    ensures var rows := TableQuery(parent, table).WhereIn(ids).All().value;
            AllRequested(ids, parent, rows) && Scatter(ids, parent, rows) == Scatter(ids, parent, table)
  {
    var lists := [] + [ids];
    var rows := Filter(Asked(parent, lists), table);
    assert TableQuery(parent, table).WhereIn(ids).All() == Ok(rows);
    forall k | 0 <= k < |rows|
      ensures parent(rows[k]).Some? && parent(rows[k]).value in ids
    {
      RunRows(parent, table, lists, k, 0);
    }
    forall i | 0 <= i < |ids|
      ensures ChildrenOf(parent, ids[i], rows) == ChildrenOf(parent, ids[i], table)
    {
      FilterThrough(r => parent(r) == Some(ids[i]), Asked(parent, lists), table);
    }
  }

  /** The IN list stays on the query. When it is run again for other parents, a parent receives its
      children exactly if it was among the first parents too, or has no children. */
  lemma SecondRunJoinsOnlyEarlierParents<R>(
    parent: R -> Option<int>, table: seq<R>, first: seq<int>, second: seq<int>, id: int)
    requires id in second
    ensures var rows := TableQuery(parent, table).WhereIn(first).WhereIn(second).All().value;
            ChildrenOf(parent, id, rows) == ChildrenOf(parent, id, table) <==>
            id in first || ChildrenOf(parent, id, table) == []
  {
    var lists := [] + [first] + [second];
    var rows := Filter(Asked(parent, lists), table);
    var p := (r: R) => parent(r) == Some(id);
    assert TableQuery(parent, table).WhereIn(first).WhereIn(second).All() == Ok(rows);
    assert lists == [first, second];
    if id in first {
      FilterThrough(p, Asked(parent, lists), table);
    } else {
      forall k | 0 <= k < |rows|
        ensures !p(rows[k])
      {
        RunRows(parent, table, lists, k, 0);
      }
      FilterNone(p, rows);
    }
  }

  lemma {:induction false} LastWithThrough<R>(key: R -> int, id: int, q: R -> bool, s: seq<R>)
    requires forall i :: 0 <= i < |s| ==> key(s[i]) == id ==> q(s[i])
    ensures LastWith(key, id, Filter(q, s)) == LastWith(key, id, s)
  {
    if s != [] {
      var init, last := s[..|s| - 1], s[|s| - 1];
      assert forall i :: 0 <= i < |init| ==> init[i] == s[i];
      LastWithThrough(key, id, q, init);
      if q(last) {
        assert Filter(q, s) == Filter(q, init) + [last];
        assert (Filter(q, init) + [last])[..|Filter(q, init)|] == Filter(q, init);
      }
    }
  }

  /** A table asked by its key. */
  function KeyQuery<R>(key: R -> int, table: seq<R>): EdgeQuery<R> {
    TableQuery(r => Some(key(r)), table)
  }

  /** The same for a many-to-one edge: every foreign key finds what it would find in the table. */
  lemma ManyToOneIsJoin<R>(key: R -> int, table: seq<R>, fks: seq<Option<int>>)
    ensures KeyQuery(key, table).WhereIn(SetKeys(fks)).All().Ok?
    ensures var rows := KeyQuery(key, table).WhereIn(SetKeys(fks)).All().value;
            AllKnown(key, SetKeys(fks), rows) && Targets(key, fks, rows) == Targets(key, fks, table)
  {
    var parent := (r: R) => Some(key(r));
    var lists := [] + [SetKeys(fks)];
    var rows := Filter(Asked(parent, lists), table);
    assert TableQuery(parent, table).WhereIn(SetKeys(fks)).All() == Ok(rows);
    forall k | 0 <= k < |rows|
      ensures key(rows[k]) in SetKeys(fks)
    {
      RunRows(parent, table, lists, k, 0);
    }
    forall i | 0 <= i < |fks|
      ensures Target(key, fks[i], rows) == Target(key, fks[i], table)
    {
      if fks[i].Some? {
        assert fks[i] in fks;
        LastWithThrough(key, fks[i].value, Asked(parent, lists), table);
      }
    }
  }

  /** And run again, a foreign key finds its target exactly if the first nodes had it too, or there is none. */
  lemma SecondRunFindsOnlyEarlierTargets<R>(
    key: R -> int, table: seq<R>, first: seq<Option<int>>, second: seq<Option<int>>, id: int)
    requires Some(id) in second
    ensures var rows := KeyQuery(key, table).WhereIn(SetKeys(first)).WhereIn(SetKeys(second)).All().value;
            LastWith(key, id, rows) == LastWith(key, id, table) <==> Some(id) in first || LastWith(key, id, table).None?
  {
    var parent := (r: R) => Some(key(r));
    var lists := [] + [SetKeys(first)] + [SetKeys(second)];
    var rows := Filter(Asked(parent, lists), table);
    assert TableQuery(parent, table).WhereIn(SetKeys(first)).WhereIn(SetKeys(second)).All() == Ok(rows);
    assert lists == [SetKeys(first), SetKeys(second)];
    if Some(id) in first {
      LastWithThrough(key, id, Asked(parent, lists), table);
    } else {
      forall k | 0 <= k < |rows|
        ensures key(rows[k]) != id
      {
        RunRows(parent, table, lists, k, 0);
      }
      LastWithFound(key, id, rows);
    }
  }

  /** Many-to-many: restricting the join rows to the accounts that are loaded loses none of their groups. */
  lemma ManyToManyIsJoin(joinTable: seq<JoinRow>, ids: seq<int>, accountId: int)
    requires accountId in ids
    ensures TableQuery(JoinParent(), joinTable).WhereIn(ids).All().Ok?
    ensures var rows := TableQuery(JoinParent(), joinTable).WhereIn(ids).All().value;
            forall id :: HasId(GroupsOf(rows, accountId), id) <==> Linked(joinTable, accountId, id)
  {
    var lists := [] + [ids];
    var rows := Filter(Asked(JoinParent(), lists), joinTable);
    assert TableQuery(JoinParent(), joinTable).WhereIn(ids).All() == Ok(rows);
    GroupsOfMeaning(rows, accountId);
    forall id
      ensures Linked(rows, accountId, id) <==> Linked(joinTable, accountId, id)
    {
      if Linked(joinTable, accountId, id) {
        var k :| 0 <= k < |joinTable| && joinTable[k].accountId == accountId && joinTable[k].group.id == id;
        assert joinTable[k] in rows;
      }
      if Linked(rows, accountId, id) {
        var k :| 0 <= k < |rows| && rows[k].accountId == accountId && rows[k].group.id == id;
        assert rows[k] in joinTable;
      }
    }
  }
}
