/** The account-group entity between accounts and groups: what its own loaders find agrees with what
    the accounts' loaders find over the same tables. */
module EdgeEntity {
  import opened Support
  import opened EagerJoin
  import opened AccountLoaders
  import opened EdgeQueries

  // ---------- the loaders over tables ----------

  /** What a lookup among loaded groups finds is the table's row, as an object. */
  lemma GroupFound(groups: seq<GroupRow>, fks: seq<Option<int>>, found: seq<Group>, id: int)
    requires Some(id) in fks && KeyQuery(GroupRowKey(), groups).WhereIn(SetKeys(fks)).All() == Ok(GroupRows(found))
    ensures LastWith(GroupRowKey(), id, groups) ==
            match LastWith(GroupKey(), id, found) case None => None case Some(g) => Some(g.row)
  {
    ManyToOneIsJoin(GroupRowKey(), groups, fks);
    var i :| 0 <= i < |fks| && fks[i] == Some(id);
    assert Targets(GroupRowKey(), fks, GroupRows(found))[i] == Targets(GroupRowKey(), fks, groups)[i];
    var rowOf := (g: Group) => g.row;
    assert Map(rowOf, found) == GroupRows(found);
    LastWithMap(rowOf, GroupKey(), GroupRowKey(), id, found);
  }

  lemma AccountFound(accounts: seq<AccountRow>, fks: seq<Option<int>>, found: seq<Account>, id: int)
    requires Some(id) in fks && KeyQuery(AccountRowKey(), accounts).WhereIn(SetKeys(fks)).All() == Ok(AccountRows(found))
    ensures LastWith(AccountRowKey(), id, accounts) ==
            match LastWith(AccountKey(), id, found) case None => None case Some(a) => Some(a.row)
  {
    ManyToOneIsJoin(AccountRowKey(), accounts, fks);
    var i :| 0 <= i < |fks| && fks[i] == Some(id);
    assert Targets(AccountRowKey(), fks, AccountRows(found))[i] == Targets(AccountRowKey(), fks, accounts)[i];
    var rowOf := (a: Account) => a.row;
    assert Map(rowOf, found) == AccountRows(found);
    LastWithMap(rowOf, AccountKey(), AccountRowKey(), id, found);
  }

  function RowOfGroup(g: Group?): Option<GroupRow> {
    if g == null then None else Some(g.row)
  }

  function RowOfAccount(a: Account?): Option<AccountRow> {
    if a == null then None else Some(a.row)
  }

  /** loadGroup over a table: every account group gets the group its row names, if there is one. */
  method LoadGroupFrom(groups: seq<GroupRow>, ags: seq<AccountGroup>) returns (err: Option<LoadError>)
    requires Distinct(ags) && forall k :: 0 <= k < |ags| ==> ags[k].group == null
    modifies (set a | a in ags)`group
    ensures err.None?
    ensures forall k :: 0 <= k < |ags| ==> RowOfGroup(ags[k].group) == LastWith(GroupRowKey(), ags[k].row.groupId, groups)
  {
    var query;
    ghost var found;
    err, query, found := LoadGroup(KeyQuery(GroupRowKey(), groups), ags);
    ghost var fks := GroupIDs(ags);
    if SetKeys(fks) != [] {
      AllGroupsKnown(groups, fks, found);
    }
    forall k | 0 <= k < |ags|
      ensures RowOfGroup(ags[k].group) == LastWith(GroupRowKey(), ags[k].row.groupId, groups)
    {
      assert fks[k] == Some(ags[k].row.groupId);
      GroupFound(groups, fks, found, ags[k].row.groupId);
    }
  }

  lemma AllGroupsKnown(groups: seq<GroupRow>, fks: seq<Option<int>>, found: seq<Group>)
    requires KeyQuery(GroupRowKey(), groups).WhereIn(SetKeys(fks)).All() == Ok(GroupRows(found))
    ensures AllKnown(GroupKey(), SetKeys(fks), found)
  {
    ManyToOneIsJoin(GroupRowKey(), groups, fks);
    assert forall k :: 0 <= k < |found| ==> GroupKey()(found[k]) == GroupRowKey()(GroupRows(found)[k]);
  }

  /** loadAccount over a table: every account group gets the account its row names, if there is one. */
  method LoadAccountFrom(accounts: seq<AccountRow>, ags: seq<AccountGroup>, loadedTypes: Requested) returns (err: Option<LoadError>)
    requires Distinct(ags) && forall k :: 0 <= k < |ags| ==> ags[k].account == null
    modifies (set a | a in ags)`account
    ensures err.None?
    ensures forall k :: 0 <= k < |ags| ==> RowOfAccount(ags[k].account) == LastWith(AccountRowKey(), ags[k].row.accountId, accounts)
  {
    var query;
    ghost var found;
    err, query, found := LoadAccount(KeyQuery(AccountRowKey(), accounts), ags, loadedTypes);
    ghost var fks := AccountIDs(ags);
    if SetKeys(fks) != [] {
      AllAccountsKnown(accounts, fks, found);
    }
    forall k | 0 <= k < |ags|
      ensures RowOfAccount(ags[k].account) == LastWith(AccountRowKey(), ags[k].row.accountId, accounts)
    {
      assert fks[k] == Some(ags[k].row.accountId);
      AccountFound(accounts, fks, found, ags[k].row.accountId);
    }
  }

  lemma AllAccountsKnown(accounts: seq<AccountRow>, fks: seq<Option<int>>, found: seq<Account>)
    requires KeyQuery(AccountRowKey(), accounts).WhereIn(SetKeys(fks)).All() == Ok(AccountRows(found))
    ensures AllKnown(AccountKey(), SetKeys(fks), found)
  {
    ManyToOneIsJoin(AccountRowKey(), accounts, fks);
    assert forall k :: 0 <= k < |found| ==> AccountKey()(found[k]) == AccountRowKey()(AccountRows(found)[k]);
  }

  /** loadAccountGroups over a table. */
  method LoadAccountGroupsFrom(accountGroups: seq<AccountGroupRow>, nodes: seq<Account>)
    returns (err: Option<LoadError>, ags: seq<AccountGroup>)
    requires Distinct(nodes)
    modifies (set n | n in nodes)`accountGroups
    ensures err.None? && Distinct(ags)
    ensures forall k :: 0 <= k < |ags| ==> fresh(ags[k]) && ags[k].account == null && ags[k].group == null
    ensures forall i :: 0 <= i < |nodes| ==>
              && nodes[i].accountGroups == Scatter(Ids(nodes), Owner(), ags)[i]
              && AccountGroupRows(nodes[i].accountGroups) == Scatter(Ids(nodes), AccountGroupParent(), accountGroups)[i]
  {
    var query;
    err, query, ags := LoadAccountGroups(TableQuery(AccountGroupParent(), accountGroups), nodes);
    FirstRunIsJoin(AccountGroupParent(), accountGroups, Ids(nodes));
    LoadedRows(nodes, ags);
  }

  // ---------- the two ways to an account's groups ----------

  /** One of the node's account groups has a loaded group with this ID. */
  ghost predicate HasGroupThroughEdge(n: Account, id: int)
    reads n, n.accountGroups
  {
    exists j :: 0 <= j < |n.accountGroups| && n.accountGroups[j].group != null && n.accountGroups[j].group.row.id == id
  }

  lemma ThroughEdgeIsReached(n: Account, accountGroups: seq<AccountGroupRow>, groups: seq<GroupRow>, id: int)
    requires AccountGroupRows(n.accountGroups) == ChildrenOf(AccountGroupParent(), n.row.id, accountGroups)
    requires forall j :: 0 <= j < |n.accountGroups| ==>
               RowOfGroup(n.accountGroups[j].group) == LastWith(GroupRowKey(), n.accountGroups[j].row.groupId, groups)
    ensures HasGroupThroughEdge(n, id) <==> ReachedThroughEdge(accountGroups, groups, n.row.id, id)
  {
    var edges := ChildrenOf(AccountGroupParent(), n.row.id, accountGroups);
    forall j | 0 <= j < |n.accountGroups|
      ensures n.accountGroups[j].group != null && n.accountGroups[j].group.row.id == id <==>
              edges[j].groupId == id && LastWith(GroupRowKey(), id, groups).Some?
    {
      assert edges[j] == n.accountGroups[j].row;
      LastWithFound(GroupRowKey(), edges[j].groupId, groups);
    }
  }

  /** Loading the groups of accounts directly, and loading their account groups and then the group of
      each, over the same tables: a node finds the same groups either way. */
  method GroupsBothWays(nodes: seq<Account>, joinTable: seq<JoinRow>, accountGroups: seq<AccountGroupRow>, groups: seq<GroupRow>)
    returns (err: Option<LoadError>)
    requires Distinct(nodes) && JoinTable(joinTable, accountGroups, groups)
    modifies (set n | n in nodes)`groups, (set n | n in nodes)`accountGroups
    ensures err.None?
    ensures forall i, id :: 0 <= i < |nodes| && IsLast(Ids(nodes), i) ==>
              (HasId(GroupRows(nodes[i].groups), id) <==> HasGroupThroughEdge(nodes[i], id))
  {
    var query, ags;
    ghost var neighbors;
    err, query, neighbors := LoadGroups(TableQuery(JoinParent(), joinTable), nodes);
    FirstRunIsJoin(JoinParent(), joinTable, Ids(nodes));
    err, ags := LoadAccountGroupsFrom(accountGroups, nodes);
    err := LoadGroupFrom(groups, ags);
    forall i, id | 0 <= i < |nodes| && IsLast(Ids(nodes), i)
      ensures HasId(GroupRows(nodes[i].groups), id) <==> HasGroupThroughEdge(nodes[i], id)
    {
      BothWaysAgree(nodes[i], Ids(nodes), joinTable, accountGroups, groups, id);
    }
  }

  lemma BothWaysAgree(
    n: Account, ids: seq<int>, joinTable: seq<JoinRow>, accountGroups: seq<AccountGroupRow>, groups: seq<GroupRow>, id: int)
    requires JoinTable(joinTable, accountGroups, groups) && n.row.id in ids
    requires TableQuery(JoinParent(), joinTable).WhereIn(ids).All().Ok?
    requires GroupRows(n.groups) == GroupsOf(TableQuery(JoinParent(), joinTable).WhereIn(ids).All().value, n.row.id)
    requires AccountGroupRows(n.accountGroups) == ChildrenOf(AccountGroupParent(), n.row.id, accountGroups)
    requires forall j :: 0 <= j < |n.accountGroups| ==>
               RowOfGroup(n.accountGroups[j].group) == LastWith(GroupRowKey(), n.accountGroups[j].row.groupId, groups)
    ensures HasId(GroupRows(n.groups), id) <==> HasGroupThroughEdge(n, id)
  {
    ManyToManyIsJoin(joinTable, ids, n.row.id);
    DirectEqualsThroughEdge(joinTable, accountGroups, groups, n.row.id, id);
    ThroughEdgeIsReached(n, accountGroups, groups, id);
  }

  // ---------- the two directions of one edge ----------

  /** Loading the account groups of accounts, and the account of each account group, over the same
      tables: an account group is among a node's exactly if its own account is that node's. */
  method EdgeBothDirections(
    nodes: seq<Account>, accounts: seq<AccountRow>, accountGroups: seq<AccountGroupRow>, loadedTypes: Requested)
    returns (err: Option<LoadError>, ags: seq<AccountGroup>)
    requires Distinct(nodes) && forall i :: 0 <= i < |nodes| ==> nodes[i].row in accounts
    modifies (set n | n in nodes)`accountGroups
    ensures err.None? && forall k :: 0 <= k < |ags| ==> fresh(ags[k])
    ensures forall i :: 0 <= i < |nodes| ==>
              AccountGroupRows(nodes[i].accountGroups) == Scatter(Ids(nodes), AccountGroupParent(), accountGroups)[i]
    ensures forall i, k :: 0 <= i < |nodes| && IsLast(Ids(nodes), i) && 0 <= k < |ags| ==>
              (ags[k] in nodes[i].accountGroups <==> ags[k].account != null && ags[k].account.row.id == nodes[i].row.id)
  {
    err, ags := LoadAccountGroupsFrom(accountGroups, nodes);
    err := LoadAccountFrom(accounts, ags, loadedTypes);
    forall i, k | 0 <= i < |nodes| && IsLast(Ids(nodes), i) && 0 <= k < |ags|
      ensures ags[k] in nodes[i].accountGroups <==> ags[k].account != null && ags[k].account.row.id == nodes[i].row.id
    {
      LastWithFound(AccountRowKey(), ags[k].row.accountId, accounts);
      OwnedIff(Owner(), nodes[i].row.id, ags, k);
      var m :| 0 <= m < |accounts| && accounts[m] == nodes[i].row;
    }
  }

  lemma OwnedIff(owner: AccountGroup -> Option<int>, id: int, ags: seq<AccountGroup>, k: nat)
    requires k < |ags|
    ensures ags[k] in ChildrenOf(owner, id, ags) <==> owner(ags[k]) == Some(id)
  {
    var p := (a: AccountGroup) => owner(a) == Some(id);
    assert ags[k] in ags;
  }
}
