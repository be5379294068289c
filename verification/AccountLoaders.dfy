/** Eager loading on the heap: the loaders of account_query.go and accountgroup_query.go. */
module AccountLoaders {
  import opened Support
  import opened EagerJoin

  // ---------- entities ----------

  class Group {
    const row: GroupRow
    constructor (row: GroupRow) ensures this.row == row { this.row := row; }
  }

  class Proxy {
    const row: ProxyRow
    constructor (row: ProxyRow) ensures this.row == row { this.row := row; }
  }

  class OAuthPoolCredential {
    const row: CredentialRow
    constructor (row: CredentialRow) ensures this.row == row { this.row := row; }
  }

  class UsageLog {
    const row: UsageLogRow
    constructor (row: UsageLogRow) ensures this.row == row { this.row := row; }
  }

  /** Which edges a query was asked to load; copied into every node it returns. */
  datatype Requested = Requested(groups: bool, proxy: bool, oauthPoolCredential: bool, usageLogs: bool, accountGroups: bool)

  datatype EdgeError = NotLoaded | NotFound

  class AccountGroup {
    const row: AccountGroupRow
    var account: Account?
    var group: Group?

    constructor (row: AccountGroupRow)
      ensures this.row == row && account == null && group == null
    {
      this.row := row;
      account, group := null, null;
    }
  }

  class Account {
    const row: AccountRow
    const loadedTypes: Requested
    var groups: seq<Group>
    var proxy: Proxy?
    var oauthPoolCredential: OAuthPoolCredential?
    var usageLogs: seq<UsageLog>
    var accountGroups: seq<AccountGroup>

    constructor (row: AccountRow, loadedTypes: Requested)
      ensures this.row == row && this.loadedTypes == loadedTypes
      ensures groups == [] && proxy == null && oauthPoolCredential == null && usageLogs == [] && accountGroups == []
    {
      this.row := row;
      this.loadedTypes := loadedTypes;
      groups, proxy, oauthPoolCredential, usageLogs, accountGroups := [], null, null, [], [];
    }

    function GroupsOrErr(): Result<seq<Group>, EdgeError>
      reads this`groups
    {
      if loadedTypes.groups then Ok(groups) else Err(NotLoaded)
    }

    function ProxyOrErr(): Result<Proxy, EdgeError>
      reads this`proxy
    {
      if proxy != null then Ok(proxy) else if loadedTypes.proxy then Err(NotFound) else Err(NotLoaded)
    }

    function OauthPoolCredentialOrErr(): Result<OAuthPoolCredential, EdgeError>
      reads this`oauthPoolCredential
    {
      if oauthPoolCredential != null then Ok(oauthPoolCredential)
      else if loadedTypes.oauthPoolCredential then Err(NotFound)
      else Err(NotLoaded)
    }

    function UsageLogsOrErr(): Result<seq<UsageLog>, EdgeError>
      reads this`usageLogs
    {
      if loadedTypes.usageLogs then Ok(usageLogs) else Err(NotLoaded)
    }

    function AccountGroupsOrErr(): Result<seq<AccountGroup>, EdgeError>
      reads this`accountGroups
    {
      if loadedTypes.accountGroups then Ok(accountGroups) else Err(NotLoaded)
    }
  }

  /** The query built for an edge: the IN lists put on it so far and run, the store's answer to them,
      rows or an error. run is any function, so any further filter, order or limit the query may have. */
  datatype EdgeQuery<!R> = EdgeQuery(run: seq<seq<int>> -> Result<seq<R>, int>, inLists: seq<seq<int>>) {
    /** Where(IDIn(ids)): the list stays on the query for its next run. */
    function WhereIn(ids: seq<int>): EdgeQuery<R> {
      this.(inLists := inLists + [ids])
    }

    function All(): Result<seq<R>, int> {
      run(inLists)
    }
  }

  datatype LoadError =
    | QueryFailed(code: int) // the store's own error
    | UnexpectedForeignKey   // a row that was not asked for
    | NilForeignKey          // a nullable foreign key without a value
    | NilPointer             // a join row for an account that was not asked for

  // ---------- helpers of the specifications ----------

  function Ids(nodes: seq<Account>): (ids: seq<int>)
    ensures |ids| == |nodes| && forall i :: 0 <= i < |nodes| ==> ids[i] == nodes[i].row.id
  {
    seq(|nodes|, i requires 0 <= i < |nodes| => nodes[i].row.id)
  }

  function GroupRows(gs: seq<Group>): (rows: seq<GroupRow>)
    ensures |rows| == |gs| && forall i :: 0 <= i < |gs| ==> rows[i] == gs[i].row
  {
    seq(|gs|, i requires 0 <= i < |gs| => gs[i].row)
  }

  function UsageLogRows(us: seq<UsageLog>): (rows: seq<UsageLogRow>)
    ensures |rows| == |us| && forall i :: 0 <= i < |us| ==> rows[i] == us[i].row
  {
    seq(|us|, i requires 0 <= i < |us| => us[i].row)
  }

  function AccountGroupRows(ags: seq<AccountGroup>): (rows: seq<AccountGroupRow>)
    ensures |rows| == |ags| && forall i :: 0 <= i < |ags| ==> rows[i] == ags[i].row
  {
    seq(|ags|, i requires 0 <= i < |ags| => ags[i].row)
  }

  function LogParent(): UsageLogRow -> Option<int> {
    (r: UsageLogRow) => r.accountId
  }

  /** The k-th row is the first that is for no parent that was asked for. */
  ghost predicate IsFirstFault<R>(ids: seq<int>, parent: R -> Option<int>, rows: seq<R>, k: int) {
    0 <= k < |rows| && AllRequested(ids, parent, rows[..k]) && (parent(rows[k]).None? || parent(rows[k]).value !in ids)
  }

  /** The error for rows with a nullable foreign key: that of the first row at fault. */
  ghost predicate IsRowFault<R>(ids: seq<int>, parent: R -> Option<int>, rows: seq<R>, e: LoadError) {
    exists k :: IsFirstFault(ids, parent, rows, k) && e == if parent(rows[k]).None? then NilForeignKey else UnexpectedForeignKey
  }

  // ---------- the index by ID ----------

  /** The index by ID holds, for each ID, the last node with it. */
  ghost predicate IndexesLast(nodeids: map<int, Account>, pos: map<int, nat>, nodes: seq<Account>) {
    && nodeids.Keys == pos.Keys
    && forall id :: id in pos ==> pos[id] < |nodes| && nodeids[id] == nodes[pos[id]]
  }

  lemma LastNode(ids: seq<int>, nodeids: map<int, Account>, pos: map<int, nat>, nodes: seq<Account>, id: int) returns (l: nat)
    requires ids == Ids(nodes) && LastPositions(pos, ids) && IndexesLast(nodeids, pos, nodes) && id in nodeids
    ensures l < |nodes| && nodes[l] == nodeids[id] && ids[l] == id && IsLast(ids, l)
  {
    assert id in pos.Keys;
    l := pos[id];
  }

  /** The loop that opens every one-to-many loader: the foreign keys to ask for, and the index. */
  method IndexByID(nodes: seq<Account>) returns (fks: seq<int>, nodeids: map<int, Account>, ghost pos: map<int, nat>)
    ensures fks == Ids(nodes) && LastPositions(pos, fks) && IndexesLast(nodeids, pos, nodes)
  {
    fks, nodeids, pos := [], map[], map[];
    for k := 0 to |nodes|
      invariant fks == Ids(nodes)[..k] && LastPositions(pos, fks) && IndexesLast(nodeids, pos, nodes)
    {
      LastPositionsStep(pos, fks, nodes[k].row.id);
      fks := fks + [nodes[k].row.id];
      nodeids := nodeids[nodes[k].row.id := nodes[k]];
      pos := pos[nodes[k].row.id := k];
    }
  }

  // ---------- loadUsageLogs: one-to-many with a nullable foreign key ----------

  lemma UsageLogAppend(us: seq<UsageLog>, u: UsageLog)
    ensures UsageLogRows(us + [u]) == UsageLogRows(us) + [u.row]
  {
  }

  method MakeUsageLogs(rows: seq<UsageLogRow>) returns (us: seq<UsageLog>)
    ensures UsageLogRows(us) == rows
  {
    us := [];
    for k := 0 to |rows|
      invariant UsageLogRows(us) == rows[..k]
    {
      var u := new UsageLog(rows[k]);
      us := us + [u];
    }
  }

  /** The closing loop of loadUsageLogs: every neighbor goes to the node its foreign key names. */
  method AssignUsageLogs(
    nodes: seq<Account>, nodeids: map<int, Account>, ghost pos: map<int, nat>, neighbors: seq<UsageLog>)
    returns (err: Option<LoadError>)
    requires Distinct(nodes) && LastPositions(pos, Ids(nodes)) && IndexesLast(nodeids, pos, nodes)
    requires forall i :: 0 <= i < |nodes| ==> nodes[i].usageLogs == []
    modifies (set n | n in nodes)`usageLogs
    ensures err.None? <==> AllRequested(Ids(nodes), LogParent(), UsageLogRows(neighbors))
    ensures err.Some? ==> IsRowFault(Ids(nodes), LogParent(), UsageLogRows(neighbors), err.value)
    ensures err.None? ==> forall i :: 0 <= i < |nodes| ==>
              UsageLogRows(nodes[i].usageLogs) == Scatter(Ids(nodes), LogParent(), UsageLogRows(neighbors))[i]
  {
    ghost var ids, rows := Ids(nodes), UsageLogRows(neighbors);
    ghost var lists := Scatter(ids, LogParent(), []);
    ScatterNothing(ids, LogParent());
    for k := 0 to |neighbors|
      invariant AllRequested(ids, LogParent(), rows[..k])
      invariant lists == Scatter(ids, LogParent(), rows[..k])
      invariant forall i :: 0 <= i < |nodes| ==> UsageLogRows(nodes[i].usageLogs) == lists[i]
    {
      var n := neighbors[k];
      var fk := n.row.accountId;
      AllRequestedStep(ids, LogParent(), rows, k);
      if fk.None? {
        assert IsFirstFault(ids, LogParent(), rows, k);
        return Some(NilForeignKey);
      }
      if fk.value !in nodeids {
        assert IsFirstFault(ids, LogParent(), rows, k);
        return Some(UnexpectedForeignKey);
      }
      var node := nodeids[fk.value];
      ghost var l := LastNode(ids, nodeids, pos, nodes, fk.value);
      ScatterStep(ids, LogParent(), rows, k, l);
      UsageLogAppend(node.usageLogs, n);
      node.usageLogs := node.usageLogs + [n];
      lists := lists[l := lists[l] + [rows[k]]];
    }
    TakeAll(rows);
    return None;
  }

  method LoadUsageLogs(query: EdgeQuery<UsageLogRow>, nodes: seq<Account>) returns (err: Option<LoadError>, query': EdgeQuery<UsageLogRow>)
    requires Distinct(nodes)
    modifies (set n | n in nodes)`usageLogs
    ensures query' == query.WhereIn(Ids(nodes))
    ensures match query'.All()
            case Err(code) => err == Some(QueryFailed(code))
            case Ok(rows) =>
              && (err.None? <==> AllRequested(Ids(nodes), LogParent(), rows))
              && (err.Some? ==> IsRowFault(Ids(nodes), LogParent(), rows, err.value))
              && (err.None? ==> forall i :: 0 <= i < |nodes| ==>
                    UsageLogRows(nodes[i].usageLogs) == Scatter(Ids(nodes), LogParent(), rows)[i])
  {
    var fks, nodeids, pos := IndexByID(nodes);
    for i := 0 to |nodes|
      invariant forall j :: 0 <= j < i ==> nodes[j].usageLogs == []
    {
      nodes[i].usageLogs := [];
    }
    query' := query.WhereIn(fks);
    var answer := query'.All();
    if answer.Err? {
      return Some(QueryFailed(answer.error)), query';
    }
    var neighbors := MakeUsageLogs(answer.value);
    err := AssignUsageLogs(nodes, nodeids, pos, neighbors);
  }

  // ---------- loadAccountGroups: one-to-many ----------

  method MakeAccountGroups(rows: seq<AccountGroupRow>) returns (ags: seq<AccountGroup>)
    ensures AccountGroupRows(ags) == rows && Distinct(ags)
    ensures forall i :: 0 <= i < |ags| ==> fresh(ags[i]) && ags[i].account == null && ags[i].group == null
  {
    ags := [];
    for k := 0 to |rows|
      invariant AccountGroupRows(ags) == rows[..k] && Distinct(ags)
      invariant forall i :: 0 <= i < |ags| ==> fresh(ags[i]) && ags[i].account == null && ags[i].group == null
    {
      var a := new AccountGroup(rows[k]);
      ags := ags + [a];
    }
  }

  function Owner(): AccountGroup -> Option<int> {
    (a: AccountGroup) => Some(a.row.accountId)
  }

  lemma OwnersAreParents(ids: seq<int>, ags: seq<AccountGroup>)
    ensures AllRequested(ids, Owner(), ags) == AllRequested(ids, AccountGroupParent(), AccountGroupRows(ags))
    ensures forall i :: 0 <= i < |ids| ==>
              AccountGroupRows(Scatter(ids, Owner(), ags)[i]) == Scatter(ids, AccountGroupParent(), AccountGroupRows(ags))[i]
  {
    assert forall k :: 0 <= k < |ags| ==> Owner()(ags[k]) == AccountGroupParent()(AccountGroupRows(ags)[k]);
    forall i | 0 <= i < |ids|
      ensures AccountGroupRows(ChildrenOf(Owner(), ids[i], ags)) == ChildrenOf(AccountGroupParent(), ids[i], AccountGroupRows(ags))
    {
      var rowOf := (a: AccountGroup) => a.row;
      assert Map(rowOf, ags) == AccountGroupRows(ags);
      ChildrenMap(rowOf, Owner(), AccountGroupParent(), ids[i], ags);
      assert Map(rowOf, ChildrenOf(Owner(), ids[i], ags)) == AccountGroupRows(ChildrenOf(Owner(), ids[i], ags));
    }
  }

  method AssignAccountGroups(
    nodes: seq<Account>, nodeids: map<int, Account>, ghost pos: map<int, nat>, neighbors: seq<AccountGroup>)
    returns (err: Option<LoadError>)
    requires Distinct(nodes) && LastPositions(pos, Ids(nodes)) && IndexesLast(nodeids, pos, nodes)
    requires forall i :: 0 <= i < |nodes| ==> nodes[i].accountGroups == []
    modifies (set n | n in nodes)`accountGroups
    ensures err.None? <==> AllRequested(Ids(nodes), Owner(), neighbors)
    ensures err.Some? ==> err == Some(UnexpectedForeignKey)
    ensures err.None? ==> forall i :: 0 <= i < |nodes| ==> nodes[i].accountGroups == Scatter(Ids(nodes), Owner(), neighbors)[i]
  {
    ghost var ids := Ids(nodes);
    ghost var lists := Scatter(ids, Owner(), []);
    ScatterNothing(ids, Owner());
    for k := 0 to |neighbors|
      invariant AllRequested(ids, Owner(), neighbors[..k])
      invariant lists == Scatter(ids, Owner(), neighbors[..k])
      invariant forall i :: 0 <= i < |nodes| ==> nodes[i].accountGroups == lists[i]
    {
      var n := neighbors[k];
      var fk := n.row.accountId;
      AllRequestedStep(ids, Owner(), neighbors, k);
      if fk !in nodeids {
        return Some(UnexpectedForeignKey);
      }
      var node := nodeids[fk];
      ghost var l := LastNode(ids, nodeids, pos, nodes, fk);
      ScatterStep(ids, Owner(), neighbors, k, l);
      node.accountGroups := node.accountGroups + [n];
      lists := lists[l := lists[l] + [n]];
    }
    TakeAll(neighbors);
    return None;
  }

  /** neighbors are the account groups the query returned: new objects, in the order of its rows, whose
      own edges are not loaded yet. */
  method LoadAccountGroups(query: EdgeQuery<AccountGroupRow>, nodes: seq<Account>)
    returns (err: Option<LoadError>, query': EdgeQuery<AccountGroupRow>, neighbors: seq<AccountGroup>)
    requires Distinct(nodes)
    modifies (set n | n in nodes)`accountGroups
    ensures query' == query.WhereIn(Ids(nodes))
    ensures match query'.All()
            case Err(code) => err == Some(QueryFailed(code))
            case Ok(rows) =>
              && AccountGroupRows(neighbors) == rows
              && (err.None? <==> AllRequested(Ids(nodes), AccountGroupParent(), rows))
              && (err.Some? ==> err == Some(UnexpectedForeignKey))
    ensures Distinct(neighbors)
    ensures forall k :: 0 <= k < |neighbors| ==> fresh(neighbors[k]) && neighbors[k].account == null && neighbors[k].group == null
    ensures err.None? ==> forall i :: 0 <= i < |nodes| ==> nodes[i].accountGroups == Scatter(Ids(nodes), Owner(), neighbors)[i]
  {
    var fks, nodeids, pos := IndexByID(nodes);
    for i := 0 to |nodes|
      invariant forall j :: 0 <= j < i ==> nodes[j].accountGroups == []
    {
      nodes[i].accountGroups := [];
    }
    query', neighbors := query.WhereIn(fks), [];
    var answer := query'.All();
    if answer.Err? {
      return Some(QueryFailed(answer.error)), query', [];
    }
    neighbors := MakeAccountGroups(answer.value);
    OwnersAreParents(Ids(nodes), neighbors);
    err := AssignAccountGroups(nodes, nodeids, pos, neighbors);
  }

  /** In terms of rows: every node has exactly its joined account groups. */
  lemma LoadedRows(nodes: seq<Account>, neighbors: seq<AccountGroup>)
    requires forall i :: 0 <= i < |nodes| ==> nodes[i].accountGroups == Scatter(Ids(nodes), Owner(), neighbors)[i]
    ensures forall i :: 0 <= i < |nodes| ==>
              AccountGroupRows(nodes[i].accountGroups) == Scatter(Ids(nodes), AccountGroupParent(), AccountGroupRows(neighbors))[i]
  {
    OwnersAreParents(Ids(nodes), neighbors);
  }

  // ---------- loadOauthPoolCredential: one-to-one, the foreign key on the other side ----------

  function CredentialParent(): CredentialRow -> Option<int> {
    (r: CredentialRow) => Some(r.accountId)
  }

  function CredentialRows(cs: seq<OAuthPoolCredential>): (rows: seq<CredentialRow>)
    ensures |rows| == |cs| && forall i :: 0 <= i < |cs| ==> rows[i] == cs[i].row
  {
    seq(|cs|, i requires 0 <= i < |cs| => cs[i].row)
  }

  method MakeCredentials(rows: seq<CredentialRow>) returns (cs: seq<OAuthPoolCredential>)
    ensures CredentialRows(cs) == rows
  {
    cs := [];
    for k := 0 to |rows|
      invariant CredentialRows(cs) == rows[..k]
    {
      var c := new OAuthPoolCredential(rows[k]);
      cs := cs + [c];
    }
  }

  function RowOf(c: OAuthPoolCredential?): Option<CredentialRow> {
    if c == null then None else Some(c.row)
  }

  function Or<T>(o: Option<T>, otherwise: Option<T>): Option<T> {
    if o.Some? then o else otherwise
  }

  method AssignCredentials(
    nodes: seq<Account>, nodeids: map<int, Account>, ghost pos: map<int, nat>, neighbors: seq<OAuthPoolCredential>)
    returns (err: Option<LoadError>)
    requires Distinct(nodes) && LastPositions(pos, Ids(nodes)) && IndexesLast(nodeids, pos, nodes)
    modifies (set n | n in nodes)`oauthPoolCredential
    ensures err.None? <==> AllRequested(Ids(nodes), CredentialParent(), CredentialRows(neighbors))
    ensures err.Some? ==> err == Some(UnexpectedForeignKey)
    ensures err.None? ==> forall i :: 0 <= i < |nodes| ==>
              RowOf(nodes[i].oauthPoolCredential) ==
              Or(LastChildren(Ids(nodes), CredentialParent(), CredentialRows(neighbors))[i], old(RowOf(nodes[i].oauthPoolCredential)))
  {
    ghost var ids, rows := Ids(nodes), CredentialRows(neighbors);
    ghost var trace := LastChildrenTrace(ids, CredentialParent(), rows);
    for k := 0 to |neighbors|
      invariant AllRequested(ids, CredentialParent(), rows[..k])
      invariant forall i :: 0 <= i < |nodes| ==>
                  RowOf(nodes[i].oauthPoolCredential) == Or(trace[k][i], old(RowOf(nodes[i].oauthPoolCredential)))
    {
      var n := neighbors[k];
      var fk := n.row.accountId;
      AllRequestedStep(ids, CredentialParent(), rows, k);
      if fk !in nodeids {
        return Some(UnexpectedForeignKey);
      }
      var node := nodeids[fk];
      ghost var l := LastNode(ids, nodeids, pos, nodes, fk);
      assert trace[k + 1] == trace[k][l := Some(rows[k])];
      node.oauthPoolCredential := n;
    }
    TakeAll(rows);
    return None;
  }

  method LoadOauthPoolCredential(query: EdgeQuery<CredentialRow>, nodes: seq<Account>) returns (err: Option<LoadError>, query': EdgeQuery<CredentialRow>)
    requires Distinct(nodes)
    modifies (set n | n in nodes)`oauthPoolCredential
    ensures query' == query.WhereIn(Ids(nodes))
    ensures match query'.All()
            case Err(code) => err == Some(QueryFailed(code))
            case Ok(rows) =>
              && (err.None? <==> AllRequested(Ids(nodes), CredentialParent(), rows))
              && (err.Some? ==> err == Some(UnexpectedForeignKey))
              && (err.None? ==> forall i :: 0 <= i < |nodes| ==>
                    RowOf(nodes[i].oauthPoolCredential) ==
                    Or(LastChildren(Ids(nodes), CredentialParent(), rows)[i], old(RowOf(nodes[i].oauthPoolCredential))))
  {
    var fks, nodeids, pos := IndexByID(nodes);
    query' := query.WhereIn(fks);
    var answer := query'.All();
    if answer.Err? {
      return Some(QueryFailed(answer.error)), query';
    }
    var neighbors := MakeCredentials(answer.value);
    err := AssignCredentials(nodes, nodeids, pos, neighbors);
  }

  // ---------- many-to-one: the index by foreign key ----------

  /** The nodes with the given foreign key, in order. */
  function Holders<N>(nodes: seq<N>, fks: seq<Option<int>>, id: int): seq<N>
    requires |nodes| == |fks|
  {
    if fks == [] then []
    else
      var init := Holders(nodes[..|nodes| - 1], fks[..|fks| - 1], id);
      if fks[|fks| - 1] == Some(id) then init + [nodes[|nodes| - 1]] else init
  }

  lemma HoldersStep<N>(nodes: seq<N>, fks: seq<Option<int>>, id: int, k: nat)
    requires |nodes| == |fks| && k < |fks|
    ensures Holders(nodes[..k + 1], fks[..k + 1], id) ==
            if fks[k] == Some(id) then Holders(nodes[..k], fks[..k], id) + [nodes[k]]
            else Holders(nodes[..k], fks[..k], id)
  {
    assert nodes[..k + 1][..k] == nodes[..k] && fks[..k + 1][..k] == fks[..k];
  }

  lemma {:induction false} HoldersMeaning<N>(nodes: seq<N>, fks: seq<Option<int>>, id: int)
    requires |nodes| == |fks| && Distinct(nodes)
    ensures forall j :: 0 <= j < |Holders(nodes, fks, id)| ==> Holders(nodes, fks, id)[j] in nodes
    ensures forall i :: 0 <= i < |nodes| ==> (nodes[i] in Holders(nodes, fks, id) <==> fks[i] == Some(id))
  {
    if fks != [] {
      var init := nodes[..|nodes| - 1];
      HoldersMeaning(init, fks[..|fks| - 1], id);
      assert nodes == init + [nodes[|nodes| - 1]];
      assert nodes[|nodes| - 1] !in init;
    }
  }

  /** The index by foreign key lists, for each key that is set, exactly the nodes with it. */
  ghost predicate IndexesAll<N>(nodeids: map<int, seq<N>>, nodes: seq<N>, fks: seq<Option<int>>)
    requires |fks| == |nodes|
  {
    forall id :: (id in nodeids <==> id in SetKeys(fks)) && (id in nodeids ==> nodeids[id] == Holders(nodes, fks, id))
  }

  lemma IndexesAllStep<N>(nodeids: map<int, seq<N>>, nodes: seq<N>, fks: seq<Option<int>>, k: nat)
    requires |fks| == |nodes| && k < |nodes| && IndexesAll(nodeids, nodes[..k], fks[..k])
    ensures fks[k].None? ==> IndexesAll(nodeids, nodes[..k + 1], fks[..k + 1])
    ensures fks[k].Some? ==> IndexesAll(WithHolder(nodeids, fks[k].value, nodes[k]), nodes[..k + 1], fks[..k + 1])
  {
    var next := if fks[k].None? then nodeids else WithHolder(nodeids, fks[k].value, nodes[k]);
    SetKeysStep(fks, k);
    forall id
      ensures id in next <==> id in SetKeys(fks[..k + 1])
      ensures id in next ==> next[id] == Holders(nodes[..k + 1], fks[..k + 1], id)
    {
      HoldersStep(nodes, fks, id, k);
      if id !in nodeids {
        NoHolders(nodes[..k], fks[..k], id);
      }
    }
  }

  /** Appending to the slice under a key; a missing key is the empty slice. */
  function WithHolder<N>(nodeids: map<int, seq<N>>, fk: int, node: N): map<int, seq<N>> {
    nodeids[fk := (if fk in nodeids then nodeids[fk] else []) + [node]]
  }

  method IndexByForeignKey<N>(nodes: seq<N>, fks: seq<Option<int>>) returns (ids: seq<int>, nodeids: map<int, seq<N>>)
    requires |fks| == |nodes|
    ensures ids == SetKeys(fks) && IndexesAll(nodeids, nodes, fks)
  {
    ids, nodeids := [], map[];
    for k := 0 to |nodes|
      invariant ids == SetKeys(fks[..k]) && IndexesAll(nodeids, nodes[..k], fks[..k])
    {
      SetKeysStep(fks, k);
      IndexesAllStep(nodeids, nodes, fks, k);
      if fks[k].None? {
        continue;
      }
      var fk := fks[k].value;
      if fk !in nodeids {
        ids := ids + [fk];
      }
      nodeids := WithHolder(nodeids, fk, nodes[k]);
    }
    TakeAll(fks);
    TakeAll(nodes);
  }

  lemma {:induction false} NoHolders<N>(nodes: seq<N>, fks: seq<Option<int>>, id: int)
    requires |nodes| == |fks| && id !in SetKeys(fks)
    ensures Holders(nodes, fks, id) == []
  {
    if fks != [] {
      assert fks == fks[..|fks| - 1] + [fks[|fks| - 1]];
      NoHolders(nodes[..|nodes| - 1], fks[..|fks| - 1], id);
    }
  }

  // ---------- loadProxy: many-to-one with a nullable foreign key ----------

  function ProxyIDs(nodes: seq<Account>): (fks: seq<Option<int>>)
    ensures |fks| == |nodes| && forall i :: 0 <= i < |nodes| ==> fks[i] == nodes[i].row.proxyId
  {
    seq(|nodes|, i requires 0 <= i < |nodes| => nodes[i].row.proxyId)
  }

  function ProxyRows(ps: seq<Proxy>): (rows: seq<ProxyRow>)
    ensures |rows| == |ps| && forall i :: 0 <= i < |ps| ==> rows[i] == ps[i].row
  {
    seq(|ps|, i requires 0 <= i < |ps| => ps[i].row)
  }

  function ProxyKey(): Proxy -> int {
    (p: Proxy) => p.row.id
  }

  method MakeProxies(rows: seq<ProxyRow>) returns (ps: seq<Proxy>)
    ensures ProxyRows(ps) == rows
  {
    ps := [];
    for k := 0 to |rows|
      invariant ProxyRows(ps) == rows[..k]
    {
      var p := new Proxy(rows[k]);
      ps := ps + [p];
    }
  }

  /** The inner loop: one neighbor goes to every node with its ID. */
  method AssignProxy(nodes: seq<Account>, targets: seq<Account>, n: Proxy)
    requires forall j :: 0 <= j < |targets| ==> targets[j] in nodes
    modifies (set a | a in nodes)`proxy
    ensures forall i :: 0 <= i < |nodes| ==> nodes[i].proxy == if nodes[i] in targets then n else old(nodes[i].proxy)
  {
    for j := 0 to |targets|
      invariant forall i :: 0 <= i < |nodes| ==> nodes[i].proxy == if nodes[i] in targets[..j] then n else old(nodes[i].proxy)
    {
      TakeNext(targets, j);
      targets[j].proxy := n;
    }
    TakeAll(targets);
  }

  method AssignProxies(nodes: seq<Account>, nodeids: map<int, seq<Account>>, found: seq<Proxy>)
    returns (err: Option<LoadError>)
    requires Distinct(nodes) && IndexesAll(nodeids, nodes, ProxyIDs(nodes))
    modifies (set n | n in nodes)`proxy
    ensures err.None? <==> AllKnown(ProxyKey(), SetKeys(ProxyIDs(nodes)), found)
    ensures err.Some? ==> err == Some(UnexpectedForeignKey)
    ensures err.None? ==> forall i :: 0 <= i < |nodes| ==>
              nodes[i].proxy == OrElse(Target(ProxyKey(), nodes[i].row.proxyId, found), old(nodes[i].proxy))
  {
    ghost var fks := ProxyIDs(nodes);
    ghost var targets := Targets(ProxyKey(), fks, []);
    for k := 0 to |found|
      invariant AllKnown(ProxyKey(), SetKeys(fks), found[..k])
      invariant targets == Targets(ProxyKey(), fks, found[..k])
      invariant forall i :: 0 <= i < |nodes| ==> nodes[i].proxy == OrElse(targets[i], old(nodes[i].proxy))
    {
      var n := found[k];
      AllKnownStep(ProxyKey(), SetKeys(fks), found, k);
      if n.row.id !in nodeids {
        return Some(UnexpectedForeignKey);
      }
      TargetsStep(ProxyKey(), fks, found, k);
      HoldersMeaning(nodes, fks, n.row.id);
      AssignProxy(nodes, nodeids[n.row.id], n);
      targets := Targets(ProxyKey(), fks, found[..k + 1]);
    }
    TakeAll(found);
    return None;
  }

  /** neighbors are the proxies the query returned; nodes with one foreign key share one of them. */
  method LoadProxy(query: EdgeQuery<ProxyRow>, nodes: seq<Account>)
    returns (err: Option<LoadError>, query': EdgeQuery<ProxyRow>, ghost neighbors: seq<Proxy>)
    requires Distinct(nodes)
    modifies (set n | n in nodes)`proxy
    ensures var ids := SetKeys(ProxyIDs(nodes));
            if ids == [] then
              query' == query && neighbors == [] && err.None?
            else
              && query' == query.WhereIn(ids)
              && match query'.All()
                 case Err(code) => err == Some(QueryFailed(code))
                 case Ok(rows) =>
                   && ProxyRows(neighbors) == rows
                   && (err.None? <==> AllKnown(ProxyKey(), ids, neighbors))
                   && (err.Some? ==> err == Some(UnexpectedForeignKey))
    ensures err.None? ==> forall i :: 0 <= i < |nodes| ==>
              nodes[i].proxy == OrElse(Target(ProxyKey(), nodes[i].row.proxyId, neighbors), old(nodes[i].proxy))
  {
    query', neighbors := query, [];
    var ids, nodeids := IndexByForeignKey(nodes, ProxyIDs(nodes));
    if |ids| == 0 {
      return None, query', neighbors;
    }
    query' := query.WhereIn(ids);
    var answer := query'.All();
    if answer.Err? {
      return Some(QueryFailed(answer.error)), query', neighbors;
    }
    var found := MakeProxies(answer.value);
    neighbors := found;
    err := AssignProxies(nodes, nodeids, found);
  }

  // ---------- the edge entity's loadAccount and loadGroup: many-to-one ----------

  function AccountIDs(nodes: seq<AccountGroup>): (fks: seq<Option<int>>)
    ensures |fks| == |nodes| && forall i :: 0 <= i < |nodes| ==> fks[i] == Some(nodes[i].row.accountId)
  {
    seq(|nodes|, i requires 0 <= i < |nodes| => Some(nodes[i].row.accountId))
  }

  function GroupIDs(nodes: seq<AccountGroup>): (fks: seq<Option<int>>)
    ensures |fks| == |nodes| && forall i :: 0 <= i < |nodes| ==> fks[i] == Some(nodes[i].row.groupId)
  {
    seq(|nodes|, i requires 0 <= i < |nodes| => Some(nodes[i].row.groupId))
  }

  function AccountKey(): Account -> int {
    (a: Account) => a.row.id
  }

  function GroupKey(): Group -> int {
    (g: Group) => g.row.id
  }

  function AccountRows(ns: seq<Account>): (rows: seq<AccountRow>)
    ensures |rows| == |ns| && forall i :: 0 <= i < |ns| ==> rows[i] == ns[i].row
  {
    seq(|ns|, i requires 0 <= i < |ns| => ns[i].row)
  }

  method MakeAccounts(rows: seq<AccountRow>, loadedTypes: Requested) returns (ns: seq<Account>)
    ensures AccountRows(ns) == rows && Distinct(ns)
    ensures forall i :: 0 <= i < |ns| ==> fresh(ns[i]) && Unloaded(ns[i]) && ns[i].loadedTypes == loadedTypes
  {
    ns := [];
    for k := 0 to |rows|
      invariant AccountRows(ns) == rows[..k] && Distinct(ns)
      invariant forall i :: 0 <= i < |ns| ==> fresh(ns[i]) && Unloaded(ns[i]) && ns[i].loadedTypes == loadedTypes
    {
      var n := new Account(rows[k], loadedTypes);
      ns := ns + [n];
    }
  }

  /** No edge of the node has been assigned. */
  ghost predicate Unloaded(n: Account)
    reads n
  {
    n.groups == [] && n.proxy == null && n.oauthPoolCredential == null && n.usageLogs == [] && n.accountGroups == []
  }

  method MakeGroups(rows: seq<GroupRow>) returns (gs: seq<Group>)
    ensures GroupRows(gs) == rows
  {
    gs := [];
    for k := 0 to |rows|
      invariant GroupRows(gs) == rows[..k]
    {
      var g := new Group(rows[k]);
      gs := gs + [g];
    }
  }

  method AssignAccount(nodes: seq<AccountGroup>, targets: seq<AccountGroup>, n: Account)
    requires forall j :: 0 <= j < |targets| ==> targets[j] in nodes
    modifies (set a | a in nodes)`account
    ensures forall i :: 0 <= i < |nodes| ==> nodes[i].account == if nodes[i] in targets then n else old(nodes[i].account)
  {
    for j := 0 to |targets|
      invariant forall i :: 0 <= i < |nodes| ==> nodes[i].account == if nodes[i] in targets[..j] then n else old(nodes[i].account)
    {
      TakeNext(targets, j);
      targets[j].account := n;
    }
    TakeAll(targets);
  }

  method AssignAccounts(nodes: seq<AccountGroup>, nodeids: map<int, seq<AccountGroup>>, found: seq<Account>)
    returns (err: Option<LoadError>)
    requires Distinct(nodes) && IndexesAll(nodeids, nodes, AccountIDs(nodes))
    modifies (set n | n in nodes)`account
    ensures err.None? <==> AllKnown(AccountKey(), SetKeys(AccountIDs(nodes)), found)
    ensures err.Some? ==> err == Some(UnexpectedForeignKey)
    ensures err.None? ==> forall i :: 0 <= i < |nodes| ==>
              nodes[i].account == OrElse(LastWith(AccountKey(), nodes[i].row.accountId, found), old(nodes[i].account))
  {
    ghost var fks := AccountIDs(nodes);
    ghost var targets := Targets(AccountKey(), fks, []);
    for k := 0 to |found|
      invariant AllKnown(AccountKey(), SetKeys(fks), found[..k])
      invariant targets == Targets(AccountKey(), fks, found[..k])
      invariant forall i :: 0 <= i < |nodes| ==> nodes[i].account == OrElse(targets[i], old(nodes[i].account))
    {
      var n := found[k];
      AllKnownStep(AccountKey(), SetKeys(fks), found, k);
      if n.row.id !in nodeids {
        return Some(UnexpectedForeignKey);
      }
      TargetsStep(AccountKey(), fks, found, k);
      HoldersMeaning(nodes, fks, n.row.id);
      AssignAccount(nodes, nodeids[n.row.id], n);
      targets := Targets(AccountKey(), fks, found[..k + 1]);
    }
    TakeAll(found);
    return None;
  }

  method LoadAccount(query: EdgeQuery<AccountRow>, nodes: seq<AccountGroup>, loadedTypes: Requested)
    returns (err: Option<LoadError>, query': EdgeQuery<AccountRow>, ghost neighbors: seq<Account>)
    requires Distinct(nodes)
    modifies (set n | n in nodes)`account
    ensures var ids := SetKeys(AccountIDs(nodes));
            if ids == [] then
              query' == query && neighbors == [] && err.None?
            else
              && query' == query.WhereIn(ids)
              && match query'.All()
                 case Err(code) => err == Some(QueryFailed(code))
                 case Ok(rows) =>
                   && AccountRows(neighbors) == rows
                   && (err.None? <==> AllKnown(AccountKey(), ids, neighbors))
                   && (err.Some? ==> err == Some(UnexpectedForeignKey))
    ensures err.None? ==> forall i :: 0 <= i < |nodes| ==>
              nodes[i].account == OrElse(LastWith(AccountKey(), nodes[i].row.accountId, neighbors), old(nodes[i].account))
  {
    query', neighbors := query, [];
    var ids, nodeids := IndexByForeignKey(nodes, AccountIDs(nodes));
    if |ids| == 0 {
      return None, query', neighbors;
    }
    query' := query.WhereIn(ids);
    var answer := query'.All();
    if answer.Err? {
      return Some(QueryFailed(answer.error)), query', neighbors;
    }
    var found := MakeAccounts(answer.value, loadedTypes);
    neighbors := found;
    err := AssignAccounts(nodes, nodeids, found);
  }

  method AssignGroup(nodes: seq<AccountGroup>, targets: seq<AccountGroup>, n: Group)
    requires forall j :: 0 <= j < |targets| ==> targets[j] in nodes
    modifies (set a | a in nodes)`group
    ensures forall i :: 0 <= i < |nodes| ==> nodes[i].group == if nodes[i] in targets then n else old(nodes[i].group)
  {
    for j := 0 to |targets|
      invariant forall i :: 0 <= i < |nodes| ==> nodes[i].group == if nodes[i] in targets[..j] then n else old(nodes[i].group)
    {
      TakeNext(targets, j);
      targets[j].group := n;
    }
    TakeAll(targets);
  }

  method AssignGroups(nodes: seq<AccountGroup>, nodeids: map<int, seq<AccountGroup>>, found: seq<Group>)
    returns (err: Option<LoadError>)
    requires Distinct(nodes) && IndexesAll(nodeids, nodes, GroupIDs(nodes))
    modifies (set n | n in nodes)`group
    ensures err.None? <==> AllKnown(GroupKey(), SetKeys(GroupIDs(nodes)), found)
    ensures err.Some? ==> err == Some(UnexpectedForeignKey)
    ensures err.None? ==> forall i :: 0 <= i < |nodes| ==>
              nodes[i].group == OrElse(LastWith(GroupKey(), nodes[i].row.groupId, found), old(nodes[i].group))
  {
    ghost var fks := GroupIDs(nodes);
    ghost var targets := Targets(GroupKey(), fks, []);
    for k := 0 to |found|
      invariant AllKnown(GroupKey(), SetKeys(fks), found[..k])
      invariant targets == Targets(GroupKey(), fks, found[..k])
      invariant forall i :: 0 <= i < |nodes| ==> nodes[i].group == OrElse(targets[i], old(nodes[i].group))
    {
      var n := found[k];
      AllKnownStep(GroupKey(), SetKeys(fks), found, k);
      if n.row.id !in nodeids {
        return Some(UnexpectedForeignKey);
      }
      TargetsStep(GroupKey(), fks, found, k);
      HoldersMeaning(nodes, fks, n.row.id);
      AssignGroup(nodes, nodeids[n.row.id], n);
      targets := Targets(GroupKey(), fks, found[..k + 1]);
    }
    TakeAll(found);
    return None;
  }

  method LoadGroup(query: EdgeQuery<GroupRow>, nodes: seq<AccountGroup>)
    returns (err: Option<LoadError>, query': EdgeQuery<GroupRow>, ghost neighbors: seq<Group>)
    requires Distinct(nodes)
    modifies (set n | n in nodes)`group
    ensures var ids := SetKeys(GroupIDs(nodes));
            if ids == [] then
              query' == query && neighbors == [] && err.None?
            else
              && query' == query.WhereIn(ids)
              && match query'.All()
                 case Err(code) => err == Some(QueryFailed(code))
                 case Ok(rows) =>
                   && GroupRows(neighbors) == rows
                   && (err.None? <==> AllKnown(GroupKey(), ids, neighbors))
                   && (err.Some? ==> err == Some(UnexpectedForeignKey))
    ensures err.None? ==> forall i :: 0 <= i < |nodes| ==>
              nodes[i].group == OrElse(LastWith(GroupKey(), nodes[i].row.groupId, neighbors), old(nodes[i].group))
  {
    query', neighbors := query, [];
    var ids, nodeids := IndexByForeignKey(nodes, GroupIDs(nodes));
    if |ids| == 0 {
      return None, query', neighbors;
    }
    query' := query.WhereIn(ids);
    var answer := query'.All();
    if answer.Err? {
      return Some(QueryFailed(answer.error)), query', neighbors;
    }
    var found := MakeGroups(answer.value);
    neighbors := found;
    err := AssignGroups(nodes, nodeids, found);
  }

  // ---------- loadGroups: many-to-many ----------

  function JoinParent(): JoinRow -> Option<int> {
    (r: JoinRow) => Some(r.accountId)
  }

  /** byID[id]: the nil pointer for an account that is not there. */
  function Find(byID: map<int, Account>, id: int): Account? {
    if id in byID then byID[id] else null
  }

  /** The accounts the rows link to a group. */
  function LinkedSet(byID: map<int, Account>, rows: seq<JoinRow>, groupId: int): set<Account?> {
    if rows == [] then {}
    else
      var init, last := LinkedSet(byID, rows[..|rows| - 1], groupId), rows[|rows| - 1];
      if last.group.id == groupId then init + {Find(byID, last.accountId)} else init
  }

  lemma LinkedSetStep(byID: map<int, Account>, rows: seq<JoinRow>, k: nat, groupId: int)
    requires k < |rows|
    ensures LinkedSet(byID, rows[..k + 1], groupId) ==
            if rows[k].group.id == groupId then LinkedSet(byID, rows[..k], groupId) + {Find(byID, rows[k].accountId)}
            else LinkedSet(byID, rows[..k], groupId)
  {
    assert rows[..k + 1][..k] == rows[..k];
  }

  lemma {:induction false} LinkedSetMeaning(byID: map<int, Account>, rows: seq<JoinRow>, groupId: int, a: Account?)
    ensures a in LinkedSet(byID, rows, groupId) <==>
            exists k :: 0 <= k < |rows| && Find(byID, rows[k].accountId) == a && rows[k].group.id == groupId
  {
    if rows != [] {
      var prefix := rows[..|rows| - 1];
      LinkedSetMeaning(byID, prefix, groupId, a);
      assert forall k :: 0 <= k < |prefix| ==> rows[k] == prefix[k];
    }
  }

  /** What reading the join rows builds: the group objects, each once, and who is linked to each. */
  ghost predicate LinksRead(
    nids: map<int, set<Account?>>, byID: map<int, Account>, neighbors: seq<Group>, rows: seq<JoinRow>)
  {
    && GroupRows(neighbors) == FirstSeen(rows)
    && forall id :: (id in nids <==> HasId(FirstSeen(rows), id)) && (id in nids ==> nids[id] == LinkedSet(byID, rows, id))
  }

  lemma GroupAppend(gs: seq<Group>, g: Group)
    ensures GroupRows(gs + [g]) == GroupRows(gs) + [g.row]
  {
  }

  /** The row hook of loadGroups: a group seen for the first time becomes an object and opens its
      set of accounts; a repeated one only adds the row's account. */
  method ReadJoinRows(byID: map<int, Account>, rows: seq<JoinRow>)
    returns (nids: map<int, set<Account?>>, neighbors: seq<Group>)
    ensures LinksRead(nids, byID, neighbors, rows)
  {
    nids, neighbors := map[], [];
    for k := 0 to |rows|
      invariant LinksRead(nids, byID, neighbors, rows[..k])
    {
      FirstSeenStep(rows, k);
      forall id
        ensures LinkedSet(byID, rows[..k + 1], id) ==
                if rows[k].group.id == id then LinkedSet(byID, rows[..k], id) + {Find(byID, rows[k].accountId)}
                else LinkedSet(byID, rows[..k], id)
      {
        LinkedSetStep(byID, rows, k, id);
      }
      var outValue, inValue := rows[k].accountId, rows[k].group.id;
      if inValue !in nids {
        NotYetLinked(byID, rows[..k], inValue);
        nids := nids[inValue := {Find(byID, outValue)}];
        var g := new Group(rows[k].group);
        GroupAppend(neighbors, g);
        forall id
          ensures HasId(FirstSeen(rows[..k]) + [g.row], id) <==> HasId(FirstSeen(rows[..k]), id) || id == inValue
        {
          HasIdAppend(FirstSeen(rows[..k]), g.row, id);
        }
        neighbors := neighbors + [g];
      } else {
        nids := nids[inValue := nids[inValue] + {Find(byID, outValue)}];
      }
    }
    TakeAll(rows);
  }

  lemma NotYetLinked(byID: map<int, Account>, rows: seq<JoinRow>, groupId: int)
    requires !HasId(FirstSeen(rows), groupId)
    ensures LinkedSet(byID, rows, groupId) == {}
  {
    FirstSeenHas(rows, groupId);
    if a :| a in LinkedSet(byID, rows, groupId) {
      LinkedSetMeaning(byID, rows, groupId, a);
    }
  }

  /** The inner loop over a set of accounts, in whatever order the set is visited. */
  method AssignToEach(nodes: seq<Account>, kns: set<Account?>, n: Group) returns (ok: bool)
    requires forall a :: a in kns && a != null ==> a in nodes
    modifies (set a | a in nodes)`groups
    ensures ok <==> null !in kns
    ensures ok ==> forall i :: 0 <= i < |nodes| ==>
              nodes[i].groups == if nodes[i] in kns then old(nodes[i].groups) + [n] else old(nodes[i].groups)
  {
    var rest := kns;
    while rest != {}
      invariant rest <= kns && null !in kns - rest
      invariant forall i :: 0 <= i < |nodes| ==>
                  nodes[i].groups == if nodes[i] in kns - rest then old(nodes[i].groups) + [n] else old(nodes[i].groups)
    {
      var kn :| kn in rest;
      if kn == null {
        return false;
      }
      kn.groups := kn.groups + [n];
      rest := rest - {kn};
    }
    return true;
  }

  function HeldBy(nids: map<int, set<Account?>>, a: Account): Group -> bool {
    (g: Group) => g.row.id in nids && a in nids[g.row.id]
  }

  ghost function GroupsNow(nodes: seq<Account>): (r: seq<seq<Group>>)
    reads set a | a in nodes
    ensures |r| == |nodes| && forall i :: 0 <= i < |nodes| ==> r[i] == nodes[i].groups
  {
    seq(|nodes|, i requires 0 <= i < |nodes| reads set a | a in nodes => nodes[i].groups)
  }

  ghost predicate HeldSoFar(nodes: seq<Account>, nids: map<int, set<Account?>>, gs: seq<Group>)
    reads set a | a in nodes
  {
    forall i :: 0 <= i < |nodes| ==> nodes[i].groups == Filter(HeldBy(nids, nodes[i]), gs)
  }

  ghost predicate AllFound(nids: map<int, set<Account?>>, gs: seq<Group>) {
    forall k :: 0 <= k < |gs| ==> gs[k].row.id in nids && null !in nids[gs[k].row.id]
  }

  /** The closing loop of loadGroups: every group goes to the accounts linked to it. */
  method AssignLinked(nodes: seq<Account>, nids: map<int, set<Account?>>, neighbors: seq<Group>)
    returns (err: Option<LoadError>)
    requires forall i :: 0 <= i < |neighbors| ==> neighbors[i].row.id in nids
    requires forall id, a :: id in nids && a in nids[id] && a != null ==> a in nodes
    requires forall i :: 0 <= i < |nodes| ==> nodes[i].groups == []
    modifies (set a | a in nodes)`groups
    ensures err.None? <==> AllFound(nids, neighbors)
    ensures err.Some? ==> err == Some(NilPointer)
    ensures err.None? ==> HeldSoFar(nodes, nids, neighbors)
  {
    for k := 0 to |neighbors|
      invariant AllFound(nids, neighbors[..k])
      invariant HeldSoFar(nodes, nids, neighbors[..k])
    {
      var n := neighbors[k];
      ghost var was := GroupsNow(nodes);
      var ok := AssignToEach(nodes, nids[n.row.id], n);
      if !ok {
        return Some(NilPointer);
      }
      HeldSoFarStep(nodes, nids, neighbors, k, was);
      TakeNext(neighbors, k);
    }
    TakeAll(neighbors);
    return None;
  }

  lemma HeldSoFarStep(nodes: seq<Account>, nids: map<int, set<Account?>>, neighbors: seq<Group>, k: nat,
                      was: seq<seq<Group>>)
    requires k < |neighbors| && neighbors[k].row.id in nids && |was| == |nodes|
    requires forall i :: 0 <= i < |nodes| ==> was[i] == Filter(HeldBy(nids, nodes[i]), neighbors[..k])
    requires forall i :: 0 <= i < |nodes| ==>
               nodes[i].groups == if nodes[i] in nids[neighbors[k].row.id] then was[i] + [neighbors[k]] else was[i]
    ensures HeldSoFar(nodes, nids, neighbors[..k + 1])
  {
    TakeNext(neighbors, k);
    forall i | 0 <= i < |nodes|
      ensures nodes[i].groups == Filter(HeldBy(nids, nodes[i]), neighbors[..k] + [neighbors[k]])
    {
      FilterAppend(HeldBy(nids, nodes[i]), neighbors[..k], neighbors[k]);
    }
  }

  /** Filtering group objects and filtering their rows is the same. */
  lemma FilterRows(p: Group -> bool, q: GroupRow -> bool, gs: seq<Group>)
    requires forall i :: 0 <= i < |gs| ==> p(gs[i]) == q(gs[i].row)
    ensures GroupRows(Filter(p, gs)) == Filter(q, GroupRows(gs))
  {
    var rowOf := (g: Group) => g.row;
    FilterMap(rowOf, p, q, gs);
    assert Map(rowOf, gs) == GroupRows(gs) && Map(rowOf, Filter(p, gs)) == GroupRows(Filter(p, gs));
  }

  /** In the finished index an account row finds the i-th node exactly when it has its ID and the
      i-th node is the last with it. */
  lemma FindsNode(nodes: seq<Account>, byID: map<int, Account>, pos: map<int, nat>, id: int, i: nat)
    requires Distinct(nodes) && LastPositions(pos, Ids(nodes)) && IndexesLast(byID, pos, nodes) && i < |nodes|
    ensures Find(byID, id) == nodes[i] <==> id == nodes[i].row.id && IsLast(Ids(nodes), i)
    ensures Find(byID, id) == null <==> id !in Ids(nodes)
    ensures Find(byID, id) != null ==> Find(byID, id) in nodes
  {
    assert Ids(nodes)[i] == nodes[i].row.id;
    assert id in byID.Keys <==> id in pos.Keys;
    if id in byID {
      var l := LastNode(Ids(nodes), byID, pos, nodes, id);
      assert Ids(nodes)[l] == id;
    }
  }

  /** Who the join rows link to a group, in terms of the nodes. */
  lemma LinkedNodes(nodes: seq<Account>, byID: map<int, Account>, pos: map<int, nat>, rows: seq<JoinRow>, groupId: int)
    requires Distinct(nodes) && LastPositions(pos, Ids(nodes)) && IndexesLast(byID, pos, nodes)
    ensures forall i :: 0 <= i < |nodes| ==>
              (nodes[i] in LinkedSet(byID, rows, groupId) <==>
               IsLast(Ids(nodes), i) && Linked(rows, nodes[i].row.id, groupId))
  {
    forall i | 0 <= i < |nodes|
      ensures nodes[i] in LinkedSet(byID, rows, groupId) <==>
              IsLast(Ids(nodes), i) && Linked(rows, nodes[i].row.id, groupId)
    {
      LinkedSetMeaning(byID, rows, groupId, nodes[i]);
      forall k | 0 <= k < |rows|
        ensures Find(byID, rows[k].accountId) == nodes[i] <==>
                rows[k].accountId == nodes[i].row.id && IsLast(Ids(nodes), i)
      {
        FindsNode(nodes, byID, pos, rows[k].accountId, i);
      }
    }
  }

  /** The nil pointer is linked to a group exactly when a row for it names an unknown account. */
  lemma LinkedNil(nodes: seq<Account>, byID: map<int, Account>, pos: map<int, nat>, rows: seq<JoinRow>, groupId: int)
    requires IndexesLast(byID, pos, nodes) && LastPositions(pos, Ids(nodes))
    ensures null in LinkedSet(byID, rows, groupId) <==>
            exists k :: 0 <= k < |rows| && rows[k].accountId !in Ids(nodes) && rows[k].group.id == groupId
    ensures forall a :: a in LinkedSet(byID, rows, groupId) && a != null ==> a in nodes
  {
    LinkedSetMeaning(byID, rows, groupId, null);
    forall id
      ensures id in byID <==> id in Ids(nodes)
    {
      if id in byID {
        var l := LastNode(Ids(nodes), byID, pos, nodes, id);
        assert Ids(nodes)[l] == id;
      }
      if id in Ids(nodes) {
        assert id in pos.Keys;
      }
    }
    forall a | a in LinkedSet(byID, rows, groupId) && a != null
      ensures a in nodes
    {
      LinkedSetMeaning(byID, rows, groupId, a);
      var k :| 0 <= k < |rows| && Find(byID, rows[k].accountId) == a;
      var l := LastNode(Ids(nodes), byID, pos, nodes, rows[k].accountId);
    }
  }

  /** What the closing loop leaves in the nodes is what the join says. */
  lemma HeldIsJoined(
    nodes: seq<Account>, byID: map<int, Account>, pos: map<int, nat>, rows: seq<JoinRow>,
    nids: map<int, set<Account?>>, neighbors: seq<Group>, i: nat)
    requires Distinct(nodes) && LastPositions(pos, Ids(nodes)) && IndexesLast(byID, pos, nodes) && i < |nodes|
    requires LinksRead(nids, byID, neighbors, rows)
    ensures GroupRows(Filter(HeldBy(nids, nodes[i]), neighbors)) == GroupLists(Ids(nodes), rows)[i]
  {
    var p, id := HeldBy(nids, nodes[i]), nodes[i].row.id;
    forall k | 0 <= k < |neighbors|
      ensures p(neighbors[k]) <==> IsLast(Ids(nodes), i) && LinkedTo(rows, id)(neighbors[k].row)
    {
      NeighborKnown(nids, byID, neighbors, rows, k);
      LinkedNodes(nodes, byID, pos, rows, neighbors[k].row.id);
    }
    if IsLast(Ids(nodes), i) {
      FilterRows(p, LinkedTo(rows, id), neighbors);
    } else {
      FilterNone(p, neighbors);
    }
  }

  lemma NeighborKnown(nids: map<int, set<Account?>>, byID: map<int, Account>, neighbors: seq<Group>, rows: seq<JoinRow>, k: nat)
    requires LinksRead(nids, byID, neighbors, rows) && k < |neighbors|
    ensures neighbors[k].row.id in nids
  {
    assert FirstSeen(rows)[k].id == neighbors[k].row.id;
  }

  lemma LinksAreNodes(
    nodes: seq<Account>, byID: map<int, Account>, pos: map<int, nat>, nids: map<int, set<Account?>>,
    neighbors: seq<Group>, rows: seq<JoinRow>)
    requires IndexesLast(byID, pos, nodes) && LastPositions(pos, Ids(nodes)) && LinksRead(nids, byID, neighbors, rows)
    ensures forall k :: 0 <= k < |neighbors| ==> neighbors[k].row.id in nids
    ensures forall id, a :: id in nids && a in nids[id] && a != null ==> a in nodes
    ensures (forall k :: 0 <= k < |neighbors| ==> null !in nids[neighbors[k].row.id]) <==>
            forall k :: 0 <= k < |rows| ==> rows[k].accountId in Ids(nodes)
  {
    forall k | 0 <= k < |neighbors|
      ensures neighbors[k].row.id in nids
    {
      NeighborKnown(nids, byID, neighbors, rows, k);
    }
    forall id | id in nids
      ensures forall a :: a in nids[id] && a != null ==> a in nodes
      ensures null in nids[id] <==> exists k :: 0 <= k < |rows| && rows[k].accountId !in Ids(nodes) && rows[k].group.id == id
    {
      LinkedNil(nodes, byID, pos, rows, id);
    }
    if k :| 0 <= k < |rows| && rows[k].accountId !in Ids(nodes) {
      FirstSeenHas(rows, rows[k].group.id);
      var j :| 0 <= j < |FirstSeen(rows)| && FirstSeen(rows)[j].id == rows[k].group.id;
      assert null in nids[neighbors[j].row.id];
    }
  }

  method AttachGroups(nodes: seq<Account>, byID: map<int, Account>, ghost pos: map<int, nat>, rows: seq<JoinRow>)
    returns (err: Option<LoadError>, ghost neighbors: seq<Group>)
    requires Distinct(nodes) && LastPositions(pos, Ids(nodes)) && IndexesLast(byID, pos, nodes)
    requires forall i :: 0 <= i < |nodes| ==> nodes[i].groups == []
    modifies (set n | n in nodes)`groups
    ensures GroupRows(neighbors) == FirstSeen(rows)
    ensures err.None? <==> AllRequested(Ids(nodes), JoinParent(), rows)
    ensures err.Some? ==> err == Some(NilPointer)
    ensures err.None? ==> forall i :: 0 <= i < |nodes| ==>
              && GroupRows(nodes[i].groups) == GroupLists(Ids(nodes), rows)[i]
              && forall j :: 0 <= j < |nodes[i].groups| ==> nodes[i].groups[j] in neighbors
  {
    var nids, found := ReadJoinRows(byID, rows);
    neighbors := found;
    LinksAreNodes(nodes, byID, pos, nids, found, rows);
    err := AssignLinked(nodes, nids, found);
    AllHeldAreJoined(nodes, byID, pos, rows, nids, found);
  }

  lemma AllHeldAreJoined(
    nodes: seq<Account>, byID: map<int, Account>, pos: map<int, nat>, rows: seq<JoinRow>,
    nids: map<int, set<Account?>>, neighbors: seq<Group>)
    requires Distinct(nodes) && LastPositions(pos, Ids(nodes)) && IndexesLast(byID, pos, nodes)
    requires LinksRead(nids, byID, neighbors, rows)
    ensures forall i :: 0 <= i < |nodes| ==>
              GroupRows(Filter(HeldBy(nids, nodes[i]), neighbors)) == GroupLists(Ids(nodes), rows)[i]
  {
    forall i | 0 <= i < |nodes|
      ensures GroupRows(Filter(HeldBy(nids, nodes[i]), neighbors)) == GroupLists(Ids(nodes), rows)[i]
    {
      HeldIsJoined(nodes, byID, pos, rows, nids, neighbors, i);
    }
  }

  /** The IN list holds the IDs of all nodes. A row for another account is a nil dereference. The
      group objects are shared between the accounts they are joined to. */
  method LoadGroups(query: EdgeQuery<JoinRow>, nodes: seq<Account>)
    returns (err: Option<LoadError>, query': EdgeQuery<JoinRow>, ghost neighbors: seq<Group>)
    requires Distinct(nodes)
    modifies (set n | n in nodes)`groups
    ensures query' == query.WhereIn(Ids(nodes))
    ensures match query'.All()
            case Err(code) => err == Some(QueryFailed(code))
            case Ok(rows) =>
              && GroupRows(neighbors) == FirstSeen(rows)
              && (err.None? <==> AllRequested(Ids(nodes), JoinParent(), rows))
              && (err.Some? ==> err == Some(NilPointer))
              && (err.None? ==> forall i :: 0 <= i < |nodes| ==>
                    && GroupRows(nodes[i].groups) == GroupLists(Ids(nodes), rows)[i]
                    && forall j :: 0 <= j < |nodes[i].groups| ==> nodes[i].groups[j] in neighbors)
  {
    var edgeIDs, byID, pos := IndexByID(nodes);
    for i := 0 to |nodes|
      invariant forall j :: 0 <= j < i ==> nodes[j].groups == []
    {
      nodes[i].groups := [];
    }
    query' := query.WhereIn(edgeIDs);
    var answer := query'.All();
    if answer.Err? {
      return Some(QueryFailed(answer.error)), query', [];
    }
    err, neighbors := AttachGroups(nodes, byID, pos, answer.value);
  }
}
