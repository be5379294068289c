/** The joins that eager loading is meant to compute, on plain rows. */
module EagerJoin {
  import opened Support

  // The columns the loaders read. IDs are int64 values on which no arithmetic is done.

  datatype AccountRow = AccountRow(id: int, proxyId: Option<int>)
  datatype GroupRow = GroupRow(id: int, name: string)
  datatype ProxyRow = ProxyRow(id: int, name: string)
  datatype CredentialRow = CredentialRow(id: int, accountId: int)
  datatype UsageLogRow = UsageLogRow(id: int, accountId: Option<int>)
  datatype AccountGroupRow = AccountGroupRow(accountId: int, groupId: int, priority: int)

  /** A row of the many-to-many query: a group's columns behind the account they are joined to. */
  datatype JoinRow = JoinRow(accountId: int, group: GroupRow)

  // ---------- one-to-many: the children of a parent ----------

  /** No later parent has the ID of the i-th: the one that an index by ID ends up holding. */
  predicate IsLast(ids: seq<int>, i: nat)
    requires i < |ids|
  {
    forall j :: i < j < |ids| ==> ids[j] != ids[i]
  }

  /** pos gives, for every ID among ids and no other, the position of its last occurrence. */
  ghost predicate LastPositions(pos: map<int, nat>, ids: seq<int>) {
    && (forall i :: 0 <= i < |ids| ==> ids[i] in pos)
    && (forall id :: id in pos ==> pos[id] < |ids| && ids[pos[id]] == id && IsLast(ids, pos[id]))
  }

  lemma LastPositionsStep(pos: map<int, nat>, ids: seq<int>, id: int)
    requires LastPositions(pos, ids)
    ensures LastPositions(pos[id := |ids|], ids + [id])
  {
    forall x | x in pos && x != id
      ensures IsLast(ids + [id], pos[x])
    {
      assert IsLast(ids, pos[x]);
    }
  }

  /** The rows whose foreign key is the given ID, in order. */
  function ChildrenOf<R>(parent: R -> Option<int>, id: int, rows: seq<R>): seq<R> {
    Filter(r => parent(r) == Some(id), rows)
  }

  /** What each parent receives: the last parent with an ID its children, any earlier one nothing. */
  function Scatter<R>(ids: seq<int>, parent: R -> Option<int>, rows: seq<R>): (lists: seq<seq<R>>)
    ensures |lists| == |ids|
    ensures forall i :: 0 <= i < |ids| ==> lists[i] == if IsLast(ids, i) then ChildrenOf(parent, ids[i], rows) else []
  {
    seq(|ids|, i requires 0 <= i < |ids| => if IsLast(ids, i) then ChildrenOf(parent, ids[i], rows) else [])
  }

  /** One more row goes to exactly one parent, at the end of its list. */
  lemma ScatterStep<R>(ids: seq<int>, parent: R -> Option<int>, rows: seq<R>, k: nat, l: nat)
    requires k < |rows| && l < |ids| && parent(rows[k]) == Some(ids[l]) && IsLast(ids, l)
    ensures var lists := Scatter(ids, parent, rows[..k]);
            Scatter(ids, parent, rows[..k + 1]) == lists[l := lists[l] + [rows[k]]]
  {
    var lists, next := Scatter(ids, parent, rows[..k]), Scatter(ids, parent, rows[..k + 1]);
    forall i | 0 <= i < |ids|
      ensures next[i] == if i == l then lists[i] + [rows[k]] else lists[i]
    {
      ChildrenStep(parent, ids[i], rows, k);
      assert i != l && IsLast(ids, i) ==> ids[i] != ids[l];
    }
  }

  lemma ChildrenStep<R>(parent: R -> Option<int>, id: int, rows: seq<R>, k: nat)
    requires k < |rows|
    ensures ChildrenOf(parent, id, rows[..k + 1]) ==
            if parent(rows[k]) == Some(id) then ChildrenOf(parent, id, rows[..k]) + [rows[k]]
            else ChildrenOf(parent, id, rows[..k])
  {
    TakeNext(rows, k);
    FilterAppend(r => parent(r) == Some(id), rows[..k], rows[k]);
  }

  /** Children of mapped rows are the mapped children, when mapping keeps the foreign key. */
  lemma ChildrenMap<T, R>(f: T -> R, owner: T -> Option<int>, parent: R -> Option<int>, id: int, ts: seq<T>)
    requires forall k :: 0 <= k < |ts| ==> owner(ts[k]) == parent(f(ts[k]))
    ensures ChildrenOf(parent, id, Map(f, ts)) == Map(f, ChildrenOf(owner, id, ts))
  {
    FilterMap(f, t => owner(t) == Some(id), r => parent(r) == Some(id), ts);
  }

  function LastOf<R>(rows: seq<R>): Option<R> {
    if rows == [] then None else Some(rows[|rows| - 1])
  }

  /** What each parent receives when it keeps one child: the last of those it is given. */
  function LastChildren<R>(ids: seq<int>, parent: R -> Option<int>, rows: seq<R>): (lasts: seq<Option<R>>)
    ensures |lasts| == |ids|
    ensures forall i :: 0 <= i < |ids| ==> lasts[i] == LastOf(Scatter(ids, parent, rows)[i])
  {
    seq(|ids|, i requires 0 <= i < |ids| => LastOf(Scatter(ids, parent, rows)[i]))
  }

  lemma LastChildrenStep<R>(ids: seq<int>, parent: R -> Option<int>, rows: seq<R>, k: nat, l: nat)
    requires k < |rows| && l < |ids| && parent(rows[k]) == Some(ids[l]) && IsLast(ids, l)
    ensures LastChildren(ids, parent, rows[..k + 1]) == LastChildren(ids, parent, rows[..k])[l := Some(rows[k])]
  {
    ScatterStep(ids, parent, rows, k, l);
  }

  /** The k-th row is the last that satisfies p. */
  ghost predicate IsLastWith<R>(p: R -> bool, rows: seq<R>, k: int) {
    0 <= k < |rows| && p(rows[k]) && forall j :: k < j < |rows| ==> !p(rows[j])
  }

  lemma {:induction false} LastFiltered<R>(p: R -> bool, rows: seq<R>)
    ensures Filter(p, rows) == [] ==> forall k :: 0 <= k < |rows| ==> !p(rows[k])
    ensures Filter(p, rows) != [] ==> exists k :: IsLastWith(p, rows, k) && LastOf(Filter(p, rows)) == Some(rows[k])
  {
    if rows != [] {
      var n := |rows| - 1;
      if p(rows[n]) {
        assert IsLastWith(p, rows, n);
      } else {
        LastFiltered(p, rows[..n]);
        if Filter(p, rows) != [] {
          var k :| IsLastWith(p, rows[..n], k) && LastOf(Filter(p, rows[..n])) == Some(rows[..n][k]);
          assert IsLastWith(p, rows, k);
        }
      }
    }
  }

  function RefersTo<R>(parent: R -> Option<int>, id: int): R -> bool {
    r => parent(r) == Some(id)
  }

  /** A parent of an edge to one keeps the last row that refers to it, and nothing exactly if no row
      does or a later parent has its ID. */
  lemma LastChildrenMeaning<R>(ids: seq<int>, parent: R -> Option<int>, rows: seq<R>, i: nat)
    requires i < |ids|
    ensures var kept, p := LastChildren(ids, parent, rows)[i], RefersTo(parent, ids[i]);
            && (kept.None? <==> !IsLast(ids, i) || forall k :: 0 <= k < |rows| ==> !p(rows[k]))
            && (kept.Some? ==> exists k :: IsLastWith(p, rows, k) && kept == Some(rows[k]))
  {
    var p := RefersTo(parent, ids[i]);
    FilterSame(p, r => parent(r) == Some(ids[i]), rows);
    LastFiltered(p, rows);
  }

  /** The successive states of the parents as the rows are handed out. */
  lemma LastChildrenTrace<R>(ids: seq<int>, parent: R -> Option<int>, rows: seq<R>) returns (trace: seq<seq<Option<R>>>)
    ensures |trace| == |rows| + 1 && forall k :: 0 <= k <= |rows| ==> |trace[k]| == |ids|
    ensures trace[0] == seq(|ids|, i => None) && trace[|rows|] == LastChildren(ids, parent, rows)
    ensures forall k, l :: 0 <= k < |rows| && 0 <= l < |ids| && parent(rows[k]) == Some(ids[l]) && IsLast(ids, l) ==>
              trace[k + 1] == trace[k][l := Some(rows[k])]
  {
    trace := seq(|rows| + 1, k requires 0 <= k <= |rows| => LastChildren(ids, parent, rows[..k]));
    ScatterNothing(ids, parent);
    assert rows[..0] == [] && rows[..|rows|] == rows;
    forall k, l | 0 <= k < |rows| && 0 <= l < |ids| && parent(rows[k]) == Some(ids[l]) && IsLast(ids, l)
      ensures trace[k + 1] == trace[k][l := Some(rows[k])]
    {
      LastChildrenStep(ids, parent, rows, k, l);
    }
  }

  lemma ScatterNothing<R>(ids: seq<int>, parent: R -> Option<int>)
    ensures forall i :: 0 <= i < |ids| ==> Scatter(ids, parent, [])[i] == []
  {
  }

  /** A parent holds exactly the rows that refer to it, if no later parent has its ID; no row is held by
      two parents; and rows that come in some order are held in that order. */
  lemma ScatterMeaning<R>(ids: seq<int>, parent: R -> Option<int>, rows: seq<R>, f: R -> int)
    ensures var lists := Scatter(ids, parent, rows);
            && (forall i, r :: 0 <= i < |ids| ==> (r in lists[i] <==> IsLast(ids, i) && r in rows && parent(r) == Some(ids[i])))
            && (forall i, j, r :: 0 <= i < |ids| && 0 <= j < |ids| && r in lists[i] && r in lists[j] ==> i == j)
            && (Increasing(f, rows) ==> forall i :: 0 <= i < |ids| ==> Increasing(f, lists[i]))
  {
    var lists := Scatter(ids, parent, rows);
    forall i | 0 <= i < |ids|
      ensures forall r :: r in lists[i] <==> IsLast(ids, i) && r in rows && parent(r) == Some(ids[i])
      ensures Increasing(f, rows) ==> Increasing(f, lists[i])
    {
      if Increasing(f, rows) {
        FilterIncreasing(f, r => parent(r) == Some(ids[i]), rows);
      }
    }
  }

  lemma {:induction false} FlattenAppend<R>(lists: seq<seq<R>>, l: nat, x: R)
    requires l < |lists|
    ensures multiset(Flatten(lists[l := lists[l] + [x]])) == multiset(Flatten(lists)) + multiset{x}
  {
    var next, init := lists[l := lists[l] + [x]], lists[..|lists| - 1];
    if l == |lists| - 1 {
      assert next[..|lists| - 1] == init;
    } else {
      FlattenAppend(init, l, x);
      assert next[..|lists| - 1] == init[l := init[l] + [x]];
    }
  }

  lemma {:induction false} FlattenNothing<R>(lists: seq<seq<R>>)
    requires forall i :: 0 <= i < |lists| ==> lists[i] == []
    ensures Flatten(lists) == []
  {
    if lists != [] {
      FlattenNothing(lists[..|lists| - 1]);
    }
  }

  /** When every row was asked for, the parents together hold every row as often as it came. */
  lemma {:induction false} ScatterConserves<R>(ids: seq<int>, parent: R -> Option<int>, rows: seq<R>)
    requires AllRequested(ids, parent, rows)
    ensures multiset(Flatten(Scatter(ids, parent, rows))) == multiset(rows)
  {
    if rows == [] {
      ScatterNothing(ids, parent);
      FlattenNothing(Scatter(ids, parent, rows));
    } else {
      var n := |rows| - 1;
      AllRequestedStep(ids, parent, rows, n);
      assert rows[..n + 1] == rows == rows[..n] + [rows[n]];
      ScatterConserves(ids, parent, rows[..n]);
      var l := LastParent(ids, parent(rows[n]).value);
      ScatterStep(ids, parent, rows, n, l);
      FlattenAppend(Scatter(ids, parent, rows[..n]), l, rows[n]);
    }
  }

  lemma {:induction false} LastParent(ids: seq<int>, id: int) returns (l: nat)
    requires id in ids
    ensures l < |ids| && ids[l] == id && IsLast(ids, l)
  {
    l := |ids| - 1;
    while ids[l] != id
      invariant l < |ids| && id in ids[..l + 1] && forall j :: l < j < |ids| ==> ids[j] != id
      decreases l
    {
      l := l - 1;
    }
  }

  /** Every row is for a parent that was asked for. */
  ghost predicate AllRequested<R>(ids: seq<int>, parent: R -> Option<int>, rows: seq<R>) {
    forall k :: 0 <= k < |rows| ==> parent(rows[k]).Some? && parent(rows[k]).value in ids
  }

  lemma AllRequestedStep<R>(ids: seq<int>, parent: R -> Option<int>, rows: seq<R>, k: nat)
    requires k < |rows|
    ensures AllRequested(ids, parent, rows[..k + 1]) <==>
            AllRequested(ids, parent, rows[..k]) && parent(rows[k]).Some? && parent(rows[k]).value in ids
    ensures AllRequested(ids, parent, rows) ==> parent(rows[k]).Some? && parent(rows[k]).value in ids
  {
    TakeNext(rows, k);
    if AllRequested(ids, parent, rows[..k + 1]) {
      assert rows[..k + 1][k] == rows[k];
      assert forall j :: 0 <= j < k ==> rows[..k][j] == rows[..k + 1][j];
    }
  }

  // ---------- many-to-one: the target of a foreign key ----------

  /** The last row with the key; later rows overwrite earlier ones. */
  function LastWith<R>(key: R -> int, id: int, rows: seq<R>): Option<R> {
    if rows == [] then None
    else if key(rows[|rows| - 1]) == id then Some(rows[|rows| - 1])
    else LastWith(key, id, rows[..|rows| - 1])
  }

  function OrElse<T>(o: Option<T>, otherwise: T): T {
    if o.Some? then o.value else otherwise
  }

  /** What a nullable foreign key refers to. */
  function Target<R>(key: R -> int, fk: Option<int>, rows: seq<R>): Option<R> {
    if fk.None? then None else LastWith(key, fk.value, rows)
  }

  lemma TargetStep<R>(key: R -> int, fk: Option<int>, rows: seq<R>, k: nat)
    requires k < |rows|
    ensures Target(key, fk, rows[..k + 1]) ==
            if fk == Some(key(rows[k])) then Some(rows[k]) else Target(key, fk, rows[..k])
  {
    assert rows[..k + 1][..k] == rows[..k];
  }

  function Targets<R>(key: R -> int, fks: seq<Option<int>>, rows: seq<R>): (ts: seq<Option<R>>)
    ensures |ts| == |fks| && forall i :: 0 <= i < |fks| ==> ts[i] == Target(key, fks[i], rows)
  {
    seq(|fks|, i requires 0 <= i < |fks| => Target(key, fks[i], rows))
  }

  /** One more row replaces the target of every foreign key that names it. */
  lemma TargetsStep<R>(key: R -> int, fks: seq<Option<int>>, rows: seq<R>, k: nat)
    requires k < |rows|
    ensures forall i :: 0 <= i < |fks| ==>
              Targets(key, fks, rows[..k + 1])[i] ==
              if fks[i] == Some(key(rows[k])) then Some(rows[k]) else Targets(key, fks, rows[..k])[i]
  {
    forall i | 0 <= i < |fks|
      ensures Target(key, fks[i], rows[..k + 1]) ==
              if fks[i] == Some(key(rows[k])) then Some(rows[k]) else Target(key, fks[i], rows[..k])
    {
      TargetStep(key, fks[i], rows, k);
    }
  }

  /** Every row is for one of the IDs that were asked for. */
  ghost predicate AllKnown<R>(key: R -> int, ids: seq<int>, rows: seq<R>) {
    forall k :: 0 <= k < |rows| ==> key(rows[k]) in ids
  }

  lemma AllKnownStep<R>(key: R -> int, ids: seq<int>, rows: seq<R>, k: nat)
    requires k < |rows|
    ensures AllKnown(key, ids, rows[..k + 1]) <==> AllKnown(key, ids, rows[..k]) && key(rows[k]) in ids
    ensures AllKnown(key, ids, rows) ==> key(rows[k]) in ids
  {
    TakeNext(rows, k);
    if AllKnown(key, ids, rows[..k + 1]) {
      assert rows[..k + 1][k] == rows[k];
      assert forall j :: 0 <= j < k ==> rows[..k][j] == rows[..k + 1][j];
    }
  }

  /** The foreign keys that are set, each once, in the order of first appearance: the IN list. */
  function SetKeys(fks: seq<Option<int>>): (ids: seq<int>)
    ensures forall id :: id in ids <==> Some(id) in fks
    ensures Distinct(ids)
  {
    if fks == [] then []
    else
      var ids, last := SetKeys(fks[..|fks| - 1]), fks[|fks| - 1];
      assert fks == fks[..|fks| - 1] + [last];
      if last.None? || last.value in ids then ids else ids + [last.value]
  }

  function KeyAt(fks: seq<Option<int>>): int -> int {
    (id: int) => FirstIndex(fks, Some(id))
  }

  /** They come in the order in which they first appear. */
  lemma {:induction false} SetKeysInOrder(fks: seq<Option<int>>)
    ensures Increasing(KeyAt(fks), SetKeys(fks))
  {
    if fks != [] {
      var init, last := fks[..|fks| - 1], fks[|fks| - 1];
      SetKeysInOrder(init);
      var keys := SetKeys(init);
      assert fks == init + [last];
      forall i | 0 <= i < |keys|
        ensures KeyAt(init)(keys[i]) == KeyAt(fks)(keys[i]) < |init|
      {
        assert keys[i] in keys;
        FirstIndexAppend(init, Some(keys[i]), last);
      }
      if last.Some? {
        FirstIndexAppend(init, last, last);
        IncreasingAppend(KeyAt(init), KeyAt(fks), keys, last.value);
      } else {
        IncreasingAppend(KeyAt(init), KeyAt(fks), keys, 0);
      }
    }
  }

  lemma SetKeysStep(fks: seq<Option<int>>, k: nat)
    requires k < |fks|
    ensures SetKeys(fks[..k + 1]) ==
            if fks[k].None? || fks[k].value in SetKeys(fks[..k]) then SetKeys(fks[..k])
            else SetKeys(fks[..k]) + [fks[k].value]
  {
    assert fks[..k + 1][..k] == fks[..k];
  }

  lemma {:induction false} LastWithFound<R>(key: R -> int, id: int, rows: seq<R>)
    ensures LastWith(key, id, rows).Some? ==>
              LastWith(key, id, rows).value in rows && key(LastWith(key, id, rows).value) == id
    ensures LastWith(key, id, rows).None? <==> forall i :: 0 <= i < |rows| ==> key(rows[i]) != id
  {
    if rows != [] {
      LastWithFound(key, id, rows[..|rows| - 1]);
    }
  }

  /** Looking up a key among mapped rows is mapping what is found, when mapping keeps the key. */
  lemma {:induction false} LastWithMap<T, R>(f: T -> R, keyOf: T -> int, key: R -> int, id: int, ts: seq<T>)
    requires forall k :: 0 <= k < |ts| ==> keyOf(ts[k]) == key(f(ts[k]))
    ensures LastWith(key, id, Map(f, ts)) == match LastWith(keyOf, id, ts) case None => None case Some(t) => Some(f(t))
  {
    if ts != [] {
      var init := ts[..|ts| - 1];
      assert Map(f, ts)[..|ts| - 1] == Map(f, init);
      LastWithMap(f, keyOf, key, id, init);
    }
  }

  // ---------- many-to-many: the groups of an account ----------

  predicate HasId(gs: seq<GroupRow>, id: int) {
    exists i :: 0 <= i < |gs| && gs[i].id == id
  }

  /** Some row joins the account to the group. */
  predicate Linked(rows: seq<JoinRow>, accountId: int, groupId: int) {
    exists k :: 0 <= k < |rows| && rows[k].accountId == accountId && rows[k].group.id == groupId
  }

  function LinkedTo(rows: seq<JoinRow>, accountId: int): GroupRow -> bool {
    (g: GroupRow) => Linked(rows, accountId, g.id)
  }

  /** Each group once, in the order of first appearance. */
  function FirstSeen(rows: seq<JoinRow>): seq<GroupRow> {
    if rows == [] then []
    else
      var init, last := FirstSeen(rows[..|rows| - 1]), rows[|rows| - 1].group;
      if HasId(init, last.id) then init else init + [last]
  }

  /** The groups joined to an account, each once, in the order in which they first appear at all. */
  function GroupsOf(rows: seq<JoinRow>, accountId: int): seq<GroupRow> {
    Filter(LinkedTo(rows, accountId), FirstSeen(rows))
  }

  /** What many-to-many loading gives each node: the last node with an ID the groups joined to it. */
  function GroupLists(ids: seq<int>, rows: seq<JoinRow>): (lists: seq<seq<GroupRow>>)
    ensures |lists| == |ids|
    ensures forall i :: 0 <= i < |ids| ==> lists[i] == if IsLast(ids, i) then GroupsOf(rows, ids[i]) else []
  {
    seq(|ids|, i requires 0 <= i < |ids| => if IsLast(ids, i) then GroupsOf(rows, ids[i]) else [])
  }

  lemma FirstSeenStep(rows: seq<JoinRow>, k: nat)
    requires k < |rows|
    ensures FirstSeen(rows[..k + 1]) ==
            if HasId(FirstSeen(rows[..k]), rows[k].group.id) then FirstSeen(rows[..k])
            else FirstSeen(rows[..k]) + [rows[k].group]
  {
    assert rows[..k + 1][..k] == rows[..k];
  }

  lemma HasIdAppend(gs: seq<GroupRow>, g: GroupRow, id: int)
    ensures HasId(gs + [g], id) <==> HasId(gs, id) || g.id == id
  {
    if HasId(gs, id) {
      var i :| 0 <= i < |gs| && gs[i].id == id;
      assert (gs + [g])[i] == gs[i];
    }
    assert (gs + [g])[|gs|] == g;
  }

  lemma {:induction false} FirstSeenHas(rows: seq<JoinRow>, id: int)
    ensures HasId(FirstSeen(rows), id) <==> exists k :: 0 <= k < |rows| && rows[k].group.id == id
  {
    if rows != [] {
      var prefix, last := rows[..|rows| - 1], rows[|rows| - 1].group;
      FirstSeenHas(prefix, id);
      HasIdAppend(FirstSeen(prefix), last, id);
      assert forall k :: 0 <= k < |prefix| ==> rows[k] == prefix[k];
    }
  }

  ghost predicate DistinctIds(gs: seq<GroupRow>) {
    forall i, j :: 0 <= i < j < |gs| ==> gs[i].id != gs[j].id
  }

  lemma {:induction false} FirstSeenDistinct(rows: seq<JoinRow>)
    ensures DistinctIds(FirstSeen(rows))
    ensures forall i :: 0 <= i < |FirstSeen(rows)| ==> exists k :: 0 <= k < |rows| && rows[k].group == FirstSeen(rows)[i]
  {
    if rows != [] {
      var prefix := rows[..|rows| - 1];
      FirstSeenDistinct(prefix);
      assert forall k :: 0 <= k < |prefix| ==> rows[k] == prefix[k];
      assert rows[|rows| - 1].group == rows[|rows| - 1].group;
    }
  }

  lemma {:induction false} FilterDistinct(p: GroupRow -> bool, gs: seq<GroupRow>)
    requires DistinctIds(gs)
    ensures DistinctIds(Filter(p, gs))
  {
    if gs != [] {
      FilterDistinct(p, gs[..|gs| - 1]);
    }
  }

  function GroupIdOf(): JoinRow -> int {
    (r: JoinRow) => r.group.id
  }

  /** Where a group first appears among the rows. */
  function FirstRow(rows: seq<JoinRow>): GroupRow -> int {
    (g: GroupRow) => FirstIndex(Map(GroupIdOf(), rows), g.id)
  }

  lemma {:induction false} FirstSeenIncreasing(rows: seq<JoinRow>)
    ensures Increasing(FirstRow(rows), FirstSeen(rows))
  {
    if rows != [] {
      var init, last := rows[..|rows| - 1], rows[|rows| - 1];
      var seen, ids := FirstSeen(init), Map(GroupIdOf(), init);
      FirstSeenIncreasing(init);
      MapAppend(GroupIdOf(), init, last);
      assert rows == init + [last];
      forall i | 0 <= i < |seen|
        ensures FirstRow(init)(seen[i]) == FirstRow(rows)(seen[i]) < |init|
      {
        FirstSeenInRows(init, i);
        FirstIndexAppend(ids, seen[i].id, last.group.id);
      }
      FirstSeenHas(init, last.group.id);
      FirstIndexAppend(ids, last.group.id, last.group.id);
      IncreasingAppend(FirstRow(init), FirstRow(rows), seen, last.group);
    }
  }

  lemma FirstSeenInRows(rows: seq<JoinRow>, i: nat)
    requires i < |FirstSeen(rows)|
    ensures FirstRow(rows)(FirstSeen(rows)[i]) < |rows|
  {
    FirstSeenDistinct(rows);
    var k :| 0 <= k < |rows| && rows[k].group == FirstSeen(rows)[i];
    assert Map(GroupIdOf(), rows)[k] == FirstSeen(rows)[i].id;
  }

  /** An account's groups: a group is among them exactly when some row joins them, and they come in the
      order in which they first appear in all rows; so none comes twice. */
  lemma GroupsOfMeaning(rows: seq<JoinRow>, accountId: int)
    ensures DistinctIds(GroupsOf(rows, accountId)) && Increasing(FirstRow(rows), GroupsOf(rows, accountId))
    ensures forall id :: HasId(GroupsOf(rows, accountId), id) <==> Linked(rows, accountId, id)
  {
    var gs := FirstSeen(rows);
    FirstSeenDistinct(rows);
    FilterDistinct(LinkedTo(rows, accountId), gs);
    FirstSeenIncreasing(rows);
    FilterIncreasing(FirstRow(rows), LinkedTo(rows, accountId), gs);
    forall id
      ensures HasId(GroupsOf(rows, accountId), id) <==> Linked(rows, accountId, id)
    {
      if Linked(rows, accountId, id) {
        FirstSeenHas(rows, id);
        var i :| 0 <= i < |gs| && gs[i].id == id;
        assert gs[i] in GroupsOf(rows, accountId);
      }
    }
  }

  /** The rows of the stream come in the order of some sort key of the group. */
  ghost predicate Ordered(key: GroupRow -> int, gs: seq<GroupRow>) {
    forall i, j :: 0 <= i <= j < |gs| ==> key(gs[i]) <= key(gs[j])
  }

  /** When the query orders its rows by the groups, every account's list is in that order. */
  lemma GroupsOfOrdered(key: GroupRow -> int, rows: seq<JoinRow>, accountId: int)
    requires Ordered(key, Map((r: JoinRow) => r.group, rows))
    ensures Ordered(key, GroupsOf(rows, accountId))
  {
    FirstSeenOrdered(key, rows);
    FilterOrdered(key, LinkedTo(rows, accountId), FirstSeen(rows));
  }

  lemma {:induction false} FirstSeenOrdered(key: GroupRow -> int, rows: seq<JoinRow>)
    requires Ordered(key, Map((r: JoinRow) => r.group, rows))
    ensures Ordered(key, FirstSeen(rows))
  {
    if rows != [] {
      var prefix := rows[..|rows| - 1];
      var all := Map((r: JoinRow) => r.group, rows);
      assert forall k :: 0 <= k < |prefix| ==> Map((r: JoinRow) => r.group, prefix)[k] == all[k];
      FirstSeenOrdered(key, prefix);
      FirstSeenDistinct(prefix);
      forall i | 0 <= i < |FirstSeen(prefix)|
        ensures key(FirstSeen(prefix)[i]) <= key(rows[|rows| - 1].group)
      {
        var k :| 0 <= k < |prefix| && prefix[k].group == FirstSeen(prefix)[i];
        assert key(all[k]) <= key(all[|rows| - 1]);
      }
    }
  }

  lemma {:induction false} FilterOrdered(key: GroupRow -> int, p: GroupRow -> bool, gs: seq<GroupRow>)
    requires Ordered(key, gs)
    ensures Ordered(key, Filter(p, gs))
  {
    if gs != [] {
      FilterOrdered(key, p, gs[..|gs| - 1]);
    }
  }

  /** Without such an order a list need not follow the account's own rows: a group seen earlier
      under another account comes first. */
  lemma OrderIsGlobal()
    ensures var g, h := GroupRow(1, "g"), GroupRow(2, "h");
            var rows := [JoinRow(7, h), JoinRow(5, g), JoinRow(5, h)];
            GroupsOf(rows, 5) == [h, g]
  {
    var g, h := GroupRow(1, "g"), GroupRow(2, "h");
    var rows := [JoinRow(7, h), JoinRow(5, g), JoinRow(5, h)];
    assert rows[..2] == [JoinRow(7, h), JoinRow(5, g)] && rows[..2][..1] == [JoinRow(7, h)];
    assert FirstSeen([JoinRow(7, h)]) == [h];
    assert !HasId([h], 1);
    assert FirstSeen(rows[..2]) == [h, g];
    assert [h, g][0].id == 2;
    assert FirstSeen(rows) == [h, g];
    assert rows[1].accountId == 5 && rows[2].accountId == 5;
    var p := LinkedTo(rows, 5);
    assert p(g) && p(h);
    FilterAppend(p, [], h);
    FilterAppend(p, [h], g);
    assert [] + [h] == [h] && [h] + [g] == [h, g];
  }

  // ---------- when the order is that of the account's own rows ----------

  function IsFor(accountId: int): JoinRow -> bool {
    (r: JoinRow) => r.accountId == accountId
  }

  function RowsOf(rows: seq<JoinRow>, accountId: int): seq<JoinRow> {
    Filter(IsFor(accountId), rows)
  }

  /** A group has the same columns in all its rows. */
  ghost predicate SameColumns(rows: seq<JoinRow>) {
    forall r, r' :: r in rows && r' in rows && r.group.id == r'.group.id ==> r.group == r'.group
  }

  /** Any two of an account's groups first appear in the same order in all rows as in its own. */
  ghost predicate SameOrder(rows: seq<JoinRow>, accountId: int) {
    var own := RowsOf(rows, accountId);
    forall r, r' :: r in own && r' in own ==>
      (FirstRow(rows)(r.group) < FirstRow(rows)(r'.group) <==> FirstRow(own)(r.group) < FirstRow(own)(r'.group))
  }

  lemma FirstSeenIsOfRow(rows: seq<JoinRow>, g: GroupRow)
    requires g in FirstSeen(rows)
    ensures exists r :: r in rows && r.group == g
  {
    FirstSeenDistinct(rows);
    var i :| 0 <= i < |FirstSeen(rows)| && FirstSeen(rows)[i] == g;
    var k :| 0 <= k < |rows| && rows[k].group == FirstSeen(rows)[i];
    assert rows[k] in rows;
  }

  /** The groups of an account are the groups of its own rows. */
  lemma SameGroups(rows: seq<JoinRow>, accountId: int, g: GroupRow)
    requires SameColumns(rows)
    ensures g in GroupsOf(rows, accountId) <==> exists r :: r in RowsOf(rows, accountId) && r.group == g
    ensures g in FirstSeen(RowsOf(rows, accountId)) <==> exists r :: r in RowsOf(rows, accountId) && r.group == g
  {
    var own := RowsOf(rows, accountId);
    if g in GroupsOf(rows, accountId) {
      FirstSeenIsOfRow(rows, g);
      var r :| r in rows && r.group == g;
      var k :| 0 <= k < |rows| && rows[k].accountId == accountId && rows[k].group.id == g.id;
      assert rows[k] in own && rows[k] in rows;
    }
    if g in FirstSeen(own) {
      FirstSeenIsOfRow(own, g);
    }
    if r :| r in own && r.group == g {
      assert r in rows;
      SeenOnce(rows, r);
      SeenOnce(own, r);
      var k :| 0 <= k < |rows| && rows[k] == r;
      assert LinkedTo(rows, accountId)(g);
    }
  }

  lemma SeenOnce(rows: seq<JoinRow>, r: JoinRow)
    requires SameColumns(rows) && r in rows
    ensures r.group in FirstSeen(rows)
  {
    var k :| 0 <= k < |rows| && rows[k] == r;
    FirstSeenHas(rows, r.group.id);
    var i :| 0 <= i < |FirstSeen(rows)| && FirstSeen(rows)[i].id == r.group.id;
    FirstSeenIsOfRow(rows, FirstSeen(rows)[i]);
  }

  /** An account's groups come in the order of its own rows exactly if no row of another account brings
      two of them forward in another order. */
  lemma OwnOrderIff(rows: seq<JoinRow>, accountId: int)
    requires SameColumns(rows)
    ensures GroupsOf(rows, accountId) == FirstSeen(RowsOf(rows, accountId)) <==> SameOrder(rows, accountId)
  {
    var own, gs, mine := RowsOf(rows, accountId), GroupsOf(rows, accountId), FirstSeen(RowsOf(rows, accountId));
    GroupsOfMeaning(rows, accountId);
    FirstSeenIncreasing(own);
    assert SameColumns(own);
    if gs == mine {
      forall r, r' | r in own && r' in own
        ensures FirstRow(rows)(r.group) < FirstRow(rows)(r'.group) <==> FirstRow(own)(r.group) < FirstRow(own)(r'.group)
      {
        SeenOnce(own, r);
        SeenOnce(own, r');
        SameOrderIn(FirstRow(rows), FirstRow(own), mine, r.group, r'.group);
      }
    }
    if SameOrder(rows, accountId) {
      forall i, j | 0 <= i < j < |gs|
        ensures FirstRow(own)(gs[i]) < FirstRow(own)(gs[j])
      {
        SameGroups(rows, accountId, gs[i]);
        SameGroups(rows, accountId, gs[j]);
      }
      SameMembers(rows, accountId);
      IncreasingUnique(FirstRow(own), gs, mine);
    }
  }

  lemma SameMembers(rows: seq<JoinRow>, accountId: int)
    requires SameColumns(rows)
    ensures var gs, mine := GroupsOf(rows, accountId), FirstSeen(RowsOf(rows, accountId));
            && (gs == [] <==> mine == [])
            && (forall i :: 0 <= i < |gs| ==> gs[i] in mine) && forall i :: 0 <= i < |mine| ==> mine[i] in gs
  {
    var gs, mine := GroupsOf(rows, accountId), FirstSeen(RowsOf(rows, accountId));
    forall g
      ensures g in gs <==> g in mine
    {
      SameGroups(rows, accountId, g);
    }
    assert gs != [] ==> gs[0] in mine;
    assert mine != [] ==> mine[0] in gs;
  }

  /** Two functions that increase along one sequence order its elements alike. */
  lemma SameOrderIn(f: GroupRow -> int, g: GroupRow -> int, s: seq<GroupRow>, x: GroupRow, y: GroupRow)
    requires Increasing(f, s) && Increasing(g, s) && x in s && y in s
    ensures f(x) < f(y) <==> g(x) < g(y)
  {
    var i :| 0 <= i < |s| && s[i] == x;
    var j :| 0 <= j < |s| && s[j] == y;
  }

  // ---------- the two ways to an account's groups ----------

  function AccountGroupParent(): AccountGroupRow -> Option<int> {
    (r: AccountGroupRow) => Some(r.accountId)
  }

  function GroupRowKey(): GroupRow -> int {
    (g: GroupRow) => g.id
  }

  function AccountRowKey(): AccountRow -> int {
    (a: AccountRow) => a.id
  }

  /** The group rows reached through the edge entity: each account-group row's group, if it exists. */
  ghost predicate ReachedThroughEdge(accountGroups: seq<AccountGroupRow>, groups: seq<GroupRow>, accountId: int, groupId: int) {
    var edges := ChildrenOf(AccountGroupParent(), accountId, accountGroups);
    exists i :: 0 <= i < |edges| && edges[i].groupId == groupId && LastWith(GroupRowKey(), groupId, groups).Some?
  }

  /** A join-row stream for the given tables: in any order, with repetitions. */
  ghost predicate JoinTable(rows: seq<JoinRow>, accountGroups: seq<AccountGroupRow>, groups: seq<GroupRow>) {
    forall r: JoinRow :: r in rows <==>
      r.group in groups &&
      exists k :: 0 <= k < |accountGroups| && accountGroups[k].accountId == r.accountId && accountGroups[k].groupId == r.group.id
  }

  /** Over the same tables, an account is joined to a group directly exactly if it is through the edge entity. */
  lemma DirectEqualsThroughEdge(
    rows: seq<JoinRow>, accountGroups: seq<AccountGroupRow>, groups: seq<GroupRow>, accountId: int, id: int)
    requires JoinTable(rows, accountGroups, groups)
    ensures Linked(rows, accountId, id) <==> ReachedThroughEdge(accountGroups, groups, accountId, id)
  {
    var edges := ChildrenOf(AccountGroupParent(), accountId, accountGroups);
    LastWithFound(GroupRowKey(), id, groups);
    if Linked(rows, accountId, id) {
      var k :| 0 <= k < |rows| && rows[k].accountId == accountId && rows[k].group.id == id;
      assert rows[k] in rows;
      var m :| 0 <= m < |accountGroups| && accountGroups[m].accountId == accountId && accountGroups[m].groupId == id;
      assert accountGroups[m] in edges;
    }
    if ReachedThroughEdge(accountGroups, groups, accountId, id) {
      var i :| 0 <= i < |edges| && edges[i].groupId == id;
      assert edges[i] in accountGroups;
      var g := LastWith(GroupRowKey(), id, groups).value;
      assert JoinRow(accountId, g) in rows;
    }
  }
}
