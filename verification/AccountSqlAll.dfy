/** sqlAll of account_query.go: one query for the accounts, then the edges that were asked for. */
module AccountSqlAll {
  import opened Support
  import opened EagerJoin
  import opened AccountLoaders

  function ProxyRowKey(): ProxyRow -> int {
    (r: ProxyRow) => r.id
  }

  // ---------- what the store answers ----------

  /** What an edge query returns for the given IDs. */
  function Answer<R>(query: Option<EdgeQuery<R>>, ids: seq<int>): Result<seq<R>, int> {
    if query.None? then Ok([]) else query.value.WhereIn(ids).All()
  }

  /** No query is run when no account has a proxy. */
  function ProxyAnswer(query: Option<EdgeQuery<ProxyRow>>, fks: seq<Option<int>>): Result<seq<ProxyRow>, int> {
    if SetKeys(fks) == [] then Ok([]) else Answer(query, SetKeys(fks))
  }

  /** All five answers. */
  datatype Answers = Answers(
    groups: Result<seq<JoinRow>, int>,
    proxies: Result<seq<ProxyRow>, int>,
    credentials: Result<seq<CredentialRow>, int>,
    usageLogs: Result<seq<UsageLogRow>, int>,
    accountGroups: Result<seq<AccountGroupRow>, int>)

  /** The store answers without an error, and every row is for a parent that asked for it. */
  ghost predicate Honest<R>(ids: seq<int>, parent: R -> Option<int>, answer: Result<seq<R>, int>) {
    answer.Ok? && AllRequested(ids, parent, answer.value)
  }

  ghost predicate HonestProxies(fks: seq<Option<int>>, answer: Result<seq<ProxyRow>, int>) {
    answer.Ok? && AllKnown(ProxyRowKey(), SetKeys(fks), answer.value)
  }

  ghost predicate AllHonest(ids: seq<int>, fks: seq<Option<int>>, a: Answers) {
    && Honest(ids, JoinParent(), a.groups)
    && HonestProxies(fks, a.proxies)
    && Honest(ids, CredentialParent(), a.credentials)
    && Honest(ids, LogParent(), a.usageLogs)
    && Honest(ids, AccountGroupParent(), a.accountGroups)
  }

  // ---------- which error, and what is left on the query ----------

  /** The error of an edge whose answer is not honest: the store's own, or else that of a row nobody asked for. */
  ghost predicate IsAnswerError<R>(answer: Result<seq<R>, int>, unasked: LoadError, e: LoadError) {
    e == match answer case Err(code) => QueryFailed(code) case Ok(_) => unasked
  }

  /** The first edge, in the order of the loads, whose answer is not honest decides the error. */
  ghost predicate IsEdgesError(ids: seq<int>, fks: seq<Option<int>>, a: Answers, e: LoadError) {
    if !Honest(ids, JoinParent(), a.groups) then IsAnswerError(a.groups, NilPointer, e)
    else if !HonestProxies(fks, a.proxies) then IsAnswerError(a.proxies, UnexpectedForeignKey, e)
    else IsErrorFromCredential(ids, a, e)
  }

  ghost predicate IsErrorFromCredential(ids: seq<int>, a: Answers, e: LoadError) {
    if !Honest(ids, CredentialParent(), a.credentials) then IsAnswerError(a.credentials, UnexpectedForeignKey, e)
    else IsErrorFromUsageLogs(ids, a, e)
  }

  ghost predicate IsErrorFromUsageLogs(ids: seq<int>, a: Answers, e: LoadError) {
    if !Honest(ids, LogParent(), a.usageLogs) then IsLogsError(ids, a.usageLogs, e)
    else !Honest(ids, AccountGroupParent(), a.accountGroups) && IsAnswerError(a.accountGroups, UnexpectedForeignKey, e)
  }

  ghost predicate IsLogsError(ids: seq<int>, answer: Result<seq<UsageLogRow>, int>, e: LoadError) {
    match answer
    case Err(code) => e == QueryFailed(code)
    case Ok(rows) => IsRowFault(ids, LogParent(), rows, e)
  }

  /** A with-query after it was asked for some IDs: the list stays on it. */
  function AskedFor<R>(query: Option<EdgeQuery<R>>, ids: seq<int>): Option<EdgeQuery<R>> {
    if query.None? then None else Some(query.value.WhereIn(ids))
  }

  /** The proxies are not asked for when no account has one. */
  function ProxyAskedFor(query: Option<EdgeQuery<ProxyRow>>, fks: seq<Option<int>>): Option<EdgeQuery<ProxyRow>> {
    if SetKeys(fks) == [] then query else AskedFor(query, SetKeys(fks))
  }

  // ---------- what each accessor must answer ----------

  ghost predicate GroupsAnswer(nodes: seq<Account>, asked: bool, rows: seq<JoinRow>)
    reads (set n | n in nodes)`groups
  {
    forall i :: 0 <= i < |nodes| ==>
      if asked then
        nodes[i].GroupsOrErr().Ok? && GroupRows(nodes[i].GroupsOrErr().value) == GroupLists(Ids(nodes), rows)[i]
      else nodes[i].GroupsOrErr() == Err(NotLoaded)
  }

  ghost predicate ProxiesAnswer(nodes: seq<Account>, asked: bool, rows: seq<ProxyRow>)
    reads (set n | n in nodes)`proxy
  {
    forall i :: 0 <= i < |nodes| ==>
      if !asked then nodes[i].ProxyOrErr() == Err(NotLoaded)
      else match Target(ProxyRowKey(), nodes[i].row.proxyId, rows)
        case None => nodes[i].ProxyOrErr() == Err(NotFound)
        case Some(row) => nodes[i].ProxyOrErr().Ok? && nodes[i].ProxyOrErr().value.row == row
  }

  ghost predicate CredentialsAnswer(nodes: seq<Account>, asked: bool, rows: seq<CredentialRow>)
    reads (set n | n in nodes)`oauthPoolCredential
  {
    forall i :: 0 <= i < |nodes| ==>
      if !asked then nodes[i].OauthPoolCredentialOrErr() == Err(NotLoaded)
      else match LastChildren(Ids(nodes), CredentialParent(), rows)[i]
        case None => nodes[i].OauthPoolCredentialOrErr() == Err(NotFound)
        case Some(row) => nodes[i].OauthPoolCredentialOrErr().Ok? && nodes[i].OauthPoolCredentialOrErr().value.row == row
  }

  ghost predicate UsageLogsAnswer(nodes: seq<Account>, asked: bool, rows: seq<UsageLogRow>)
    reads (set n | n in nodes)`usageLogs
  {
    forall i :: 0 <= i < |nodes| ==>
      if asked then
        nodes[i].UsageLogsOrErr().Ok? && UsageLogRows(nodes[i].UsageLogsOrErr().value) == Scatter(Ids(nodes), LogParent(), rows)[i]
      else nodes[i].UsageLogsOrErr() == Err(NotLoaded)
  }

  ghost predicate AccountGroupsAnswer(nodes: seq<Account>, asked: bool, rows: seq<AccountGroupRow>)
    reads (set n | n in nodes)`accountGroups
  {
    forall i :: 0 <= i < |nodes| ==>
      if asked then
        nodes[i].AccountGroupsOrErr().Ok? &&
        AccountGroupRows(nodes[i].AccountGroupsOrErr().value) == Scatter(Ids(nodes), AccountGroupParent(), rows)[i]
      else nodes[i].AccountGroupsOrErr() == Err(NotLoaded)
  }

  /** Every accessor of every node answers by the joins: the match or the list when the edge was asked
      for, not found when there is no match, not loaded when it was not asked for. */
  ghost predicate EdgesAnswer(nodes: seq<Account>, groups: bool, proxy: bool, oauthPoolCredential: bool, usageLogs: bool,
                              accountGroups: bool, a: Answers)
    reads set n | n in nodes
  {
    && a.groups.Ok? && GroupsAnswer(nodes, groups, a.groups.value)
    && a.proxies.Ok? && ProxiesAnswer(nodes, proxy, a.proxies.value)
    && a.credentials.Ok? && CredentialsAnswer(nodes, oauthPoolCredential, a.credentials.value)
    && a.usageLogs.Ok? && UsageLogsAnswer(nodes, usageLogs, a.usageLogs.value)
    && a.accountGroups.Ok? && AccountGroupsAnswer(nodes, accountGroups, a.accountGroups.value)
  }

  lemma TargetRow(fk: Option<int>, ps: seq<Proxy>)
    ensures Target(ProxyRowKey(), fk, ProxyRows(ps)) ==
            match Target(ProxyKey(), fk, ps) case Some(p) => Some(p.row) case None => None
  {
    var rowOf := (p: Proxy) => p.row;
    assert Map(rowOf, ps) == ProxyRows(ps);
    if fk.Some? {
      LastWithMap(rowOf, ProxyKey(), ProxyRowKey(), fk.value, ps);
    }
  }

  lemma KnownRows(ids: seq<int>, ps: seq<Proxy>)
    ensures AllKnown(ProxyKey(), ids, ps) <==> AllKnown(ProxyRowKey(), ids, ProxyRows(ps))
  {
    assert forall i :: 0 <= i < |ps| ==> ProxyKey()(ps[i]) == ProxyRowKey()(ProxyRows(ps)[i]);
  }

  // ---------- the query ----------

  /** An AccountQuery with its with-queries; None where the edge is not asked for. */
  class AccountQuery {
    var withGroups: Option<EdgeQuery<JoinRow>>
    var withProxy: Option<EdgeQuery<ProxyRow>>
    var withOauthPoolCredential: Option<EdgeQuery<CredentialRow>>
    var withUsageLogs: Option<EdgeQuery<UsageLogRow>>
    var withAccountGroups: Option<EdgeQuery<AccountGroupRow>>

    constructor ()
      ensures withGroups == None && withProxy == None && withOauthPoolCredential == None
      ensures withUsageLogs == None && withAccountGroups == None
    {
      withGroups, withProxy, withOauthPoolCredential, withUsageLogs, withAccountGroups := None, None, None, None, None;
    }

    function LoadedTypes(): Requested
      reads this
    {
      Requested(withGroups.Some?, withProxy.Some?, withOauthPoolCredential.Some?, withUsageLogs.Some?, withAccountGroups.Some?)
    }

    /** What the store answers to the five edge queries for accounts with the given IDs and proxies. */
    function AnswersFor(ids: seq<int>, fks: seq<Option<int>>): Answers
      reads this
    {
      Answers(Answer(withGroups, ids), ProxyAnswer(withProxy, fks), Answer(withOauthPoolCredential, ids),
              Answer(withUsageLogs, ids), Answer(withAccountGroups, ids))
    }

    method GroupsStep(nodes: seq<Account>) returns (err: Option<LoadError>)
      requires Distinct(nodes) && forall i :: 0 <= i < |nodes| ==> nodes[i].loadedTypes.groups == withGroups.Some?
      modifies this`withGroups, (set n | n in nodes)`groups
      ensures err.None? <==> Honest(Ids(nodes), JoinParent(), Answer(old(withGroups), Ids(nodes)))
      ensures err.None? ==> GroupsAnswer(nodes, old(withGroups.Some?), Answer(old(withGroups), Ids(nodes)).value)
      ensures err.Some? ==> IsAnswerError(Answer(old(withGroups), Ids(nodes)), NilPointer, err.value)
      ensures withGroups == AskedFor(old(withGroups), Ids(nodes))
    {
      err := None;
      if withGroups.Some? {
        var query;
        ghost var neighbors;
        err, query, neighbors := LoadGroups(withGroups.value, nodes);
        withGroups := Some(query);
      }
    }

    method ProxyStep(nodes: seq<Account>) returns (err: Option<LoadError>)
      requires Distinct(nodes)
      requires forall i :: 0 <= i < |nodes| ==> nodes[i].loadedTypes.proxy == withProxy.Some? && nodes[i].proxy == null
      modifies this`withProxy, (set n | n in nodes)`proxy
      ensures err.None? <==> HonestProxies(ProxyIDs(nodes), ProxyAnswer(old(withProxy), ProxyIDs(nodes)))
      ensures err.None? ==> ProxiesAnswer(nodes, old(withProxy.Some?), ProxyAnswer(old(withProxy), ProxyIDs(nodes)).value)
      ensures err.Some? ==> IsAnswerError(ProxyAnswer(old(withProxy), ProxyIDs(nodes)), UnexpectedForeignKey, err.value)
      ensures withProxy == ProxyAskedFor(old(withProxy), ProxyIDs(nodes))
    {
      err := None;
      if withProxy.Some? {
        ghost var answer := ProxyAnswer(withProxy, ProxyIDs(nodes));
        var query;
        ghost var neighbors;
        err, query, neighbors := LoadProxy(withProxy.value, nodes);
        withProxy := Some(query);
        if answer.Ok? {
          assert ProxyRows(neighbors) == answer.value;
          KnownRows(SetKeys(ProxyIDs(nodes)), neighbors);
          forall i | 0 <= i < |nodes|
            ensures Target(ProxyRowKey(), nodes[i].row.proxyId, answer.value) ==
                    match Target(ProxyKey(), nodes[i].row.proxyId, neighbors) case Some(p) => Some(p.row) case None => None
          {
            TargetRow(nodes[i].row.proxyId, neighbors);
          }
        }
      }
    }

    method CredentialStep(nodes: seq<Account>) returns (err: Option<LoadError>)
      requires Distinct(nodes)
      requires forall i :: 0 <= i < |nodes| ==>
                 nodes[i].loadedTypes.oauthPoolCredential == withOauthPoolCredential.Some? && nodes[i].oauthPoolCredential == null
      modifies this`withOauthPoolCredential, (set n | n in nodes)`oauthPoolCredential
      ensures err.None? <==> Honest(Ids(nodes), CredentialParent(), Answer(old(withOauthPoolCredential), Ids(nodes)))
      ensures err.None? ==> CredentialsAnswer(nodes, old(withOauthPoolCredential.Some?), Answer(old(withOauthPoolCredential), Ids(nodes)).value)
      ensures err.Some? ==> IsAnswerError(Answer(old(withOauthPoolCredential), Ids(nodes)), UnexpectedForeignKey, err.value)
      ensures withOauthPoolCredential == AskedFor(old(withOauthPoolCredential), Ids(nodes))
    {
      err := None;
      if withOauthPoolCredential.Some? {
        var query;
        err, query := LoadOauthPoolCredential(withOauthPoolCredential.value, nodes);
        withOauthPoolCredential := Some(query);
      }
    }

    method UsageLogsStep(nodes: seq<Account>) returns (err: Option<LoadError>)
      requires Distinct(nodes) && forall i :: 0 <= i < |nodes| ==> nodes[i].loadedTypes.usageLogs == withUsageLogs.Some?
      modifies this`withUsageLogs, (set n | n in nodes)`usageLogs
      ensures err.None? <==> Honest(Ids(nodes), LogParent(), Answer(old(withUsageLogs), Ids(nodes)))
      ensures err.None? ==> UsageLogsAnswer(nodes, old(withUsageLogs.Some?), Answer(old(withUsageLogs), Ids(nodes)).value)
      ensures err.Some? ==> IsLogsError(Ids(nodes), Answer(old(withUsageLogs), Ids(nodes)), err.value)
      ensures withUsageLogs == AskedFor(old(withUsageLogs), Ids(nodes))
    {
      err := None;
      if withUsageLogs.Some? {
        var query;
        err, query := LoadUsageLogs(withUsageLogs.value, nodes);
        withUsageLogs := Some(query);
      }
    }

    method AccountGroupsStep(nodes: seq<Account>) returns (err: Option<LoadError>)
      requires Distinct(nodes) && forall i :: 0 <= i < |nodes| ==> nodes[i].loadedTypes.accountGroups == withAccountGroups.Some?
      modifies this`withAccountGroups, (set n | n in nodes)`accountGroups
      ensures err.None? <==> Honest(Ids(nodes), AccountGroupParent(), Answer(old(withAccountGroups), Ids(nodes)))
      ensures err.None? ==> AccountGroupsAnswer(nodes, old(withAccountGroups.Some?), Answer(old(withAccountGroups), Ids(nodes)).value)
      ensures err.Some? ==> IsAnswerError(Answer(old(withAccountGroups), Ids(nodes)), UnexpectedForeignKey, err.value)
      ensures withAccountGroups == AskedFor(old(withAccountGroups), Ids(nodes))
    {
      err := None;
      if withAccountGroups.Some? {
        var query;
        var neighbors;
        err, query, neighbors := LoadAccountGroups(withAccountGroups.value, nodes);
        if err.None? {
          LoadedRows(nodes, neighbors);
        }
        withAccountGroups := Some(query);
      }
    }

    // The loads of sqlAll from each edge on, in its order.

    method LoadFromUsageLogs(nodes: seq<Account>, ghost a: Answers) returns (err: Option<LoadError>)
      requires Distinct(nodes)
      requires a.usageLogs == Answer(withUsageLogs, Ids(nodes))
      requires a.accountGroups == Answer(withAccountGroups, Ids(nodes))
      requires forall i :: 0 <= i < |nodes| ==>
                 && nodes[i].loadedTypes.usageLogs == withUsageLogs.Some?
                 && nodes[i].loadedTypes.accountGroups == withAccountGroups.Some?
      modifies this`withUsageLogs, this`withAccountGroups
      modifies (set n | n in nodes)`usageLogs, (set n | n in nodes)`accountGroups
      ensures err.None? <==>
                && Honest(Ids(nodes), LogParent(), a.usageLogs)
                && Honest(Ids(nodes), AccountGroupParent(), a.accountGroups)
      ensures err.None? ==> UsageLogsAnswer(nodes, old(withUsageLogs.Some?), a.usageLogs.value)
      ensures err.None? ==> AccountGroupsAnswer(nodes, old(withAccountGroups.Some?), a.accountGroups.value)
      ensures err.Some? ==> IsErrorFromUsageLogs(Ids(nodes), a, err.value)
      ensures err.None? ==> withUsageLogs == AskedFor(old(withUsageLogs), Ids(nodes))
      ensures err.None? ==> withAccountGroups == AskedFor(old(withAccountGroups), Ids(nodes))
    {
      err := UsageLogsStep(nodes);
      if err.Some? { return; }
      err := AccountGroupsStep(nodes);
    }

    method LoadFromCredential(nodes: seq<Account>, ghost a: Answers) returns (err: Option<LoadError>)
      requires Distinct(nodes)
      requires a.credentials == Answer(withOauthPoolCredential, Ids(nodes))
      requires a.usageLogs == Answer(withUsageLogs, Ids(nodes))
      requires a.accountGroups == Answer(withAccountGroups, Ids(nodes))
      requires forall i :: 0 <= i < |nodes| ==>
                 && nodes[i].loadedTypes.oauthPoolCredential == withOauthPoolCredential.Some?
                 && nodes[i].loadedTypes.usageLogs == withUsageLogs.Some?
                 && nodes[i].loadedTypes.accountGroups == withAccountGroups.Some?
                 && nodes[i].oauthPoolCredential == null
      modifies this`withOauthPoolCredential, this`withUsageLogs, this`withAccountGroups
      modifies (set n | n in nodes)`oauthPoolCredential, (set n | n in nodes)`usageLogs, (set n | n in nodes)`accountGroups
      ensures err.None? <==>
                && Honest(Ids(nodes), CredentialParent(), a.credentials)
                && Honest(Ids(nodes), LogParent(), a.usageLogs)
                && Honest(Ids(nodes), AccountGroupParent(), a.accountGroups)
      ensures err.None? ==> CredentialsAnswer(nodes, old(withOauthPoolCredential.Some?), a.credentials.value)
      ensures err.None? ==> UsageLogsAnswer(nodes, old(withUsageLogs.Some?), a.usageLogs.value)
      ensures err.None? ==> AccountGroupsAnswer(nodes, old(withAccountGroups.Some?), a.accountGroups.value)
      ensures err.Some? ==> IsErrorFromCredential(Ids(nodes), a, err.value)
      ensures err.None? ==> withOauthPoolCredential == AskedFor(old(withOauthPoolCredential), Ids(nodes))
      ensures err.None? ==> withUsageLogs == AskedFor(old(withUsageLogs), Ids(nodes))
      ensures err.None? ==> withAccountGroups == AskedFor(old(withAccountGroups), Ids(nodes))
    {
      err := CredentialStep(nodes);
      if err.Some? { return; }
      err := LoadFromUsageLogs(nodes, a);
    }

    method LoadFromProxy(nodes: seq<Account>, ghost a: Answers) returns (err: Option<LoadError>)
      requires Distinct(nodes)
      requires a.proxies == ProxyAnswer(withProxy, ProxyIDs(nodes))
      requires a.credentials == Answer(withOauthPoolCredential, Ids(nodes))
      requires a.usageLogs == Answer(withUsageLogs, Ids(nodes))
      requires a.accountGroups == Answer(withAccountGroups, Ids(nodes))
      requires forall i :: 0 <= i < |nodes| ==>
                 && nodes[i].loadedTypes.proxy == withProxy.Some?
                 && nodes[i].loadedTypes.oauthPoolCredential == withOauthPoolCredential.Some?
                 && nodes[i].loadedTypes.usageLogs == withUsageLogs.Some?
                 && nodes[i].loadedTypes.accountGroups == withAccountGroups.Some?
                 && nodes[i].proxy == null
                 && nodes[i].oauthPoolCredential == null
      modifies this`withProxy, this`withOauthPoolCredential, this`withUsageLogs, this`withAccountGroups
      modifies (set n | n in nodes)`proxy, (set n | n in nodes)`oauthPoolCredential, (set n | n in nodes)`usageLogs, (set n | n in nodes)`accountGroups
      ensures err.None? <==>
                && HonestProxies(ProxyIDs(nodes), a.proxies)
                && Honest(Ids(nodes), CredentialParent(), a.credentials)
                && Honest(Ids(nodes), LogParent(), a.usageLogs)
                && Honest(Ids(nodes), AccountGroupParent(), a.accountGroups)
      ensures err.None? ==> ProxiesAnswer(nodes, old(withProxy.Some?), a.proxies.value)
      ensures err.None? ==> CredentialsAnswer(nodes, old(withOauthPoolCredential.Some?), a.credentials.value)
      ensures err.None? ==> UsageLogsAnswer(nodes, old(withUsageLogs.Some?), a.usageLogs.value)
      ensures err.None? ==> AccountGroupsAnswer(nodes, old(withAccountGroups.Some?), a.accountGroups.value)
      ensures err.Some? ==>
                if !HonestProxies(ProxyIDs(nodes), a.proxies) then IsAnswerError(a.proxies, UnexpectedForeignKey, err.value)
                else IsErrorFromCredential(Ids(nodes), a, err.value)
      ensures err.None? ==> withProxy == ProxyAskedFor(old(withProxy), ProxyIDs(nodes))
      ensures err.None? ==> withOauthPoolCredential == AskedFor(old(withOauthPoolCredential), Ids(nodes))
      ensures err.None? ==> withUsageLogs == AskedFor(old(withUsageLogs), Ids(nodes))
      ensures err.None? ==> withAccountGroups == AskedFor(old(withAccountGroups), Ids(nodes))
    {
      err := ProxyStep(nodes);
      if err.Some? { return; }
      err := LoadFromCredential(nodes, a);
    }

    /** All the loads. They fail exactly when the store fails or returns a row nobody asked for. */
    method LoadEdges(nodes: seq<Account>, ghost a: Answers) returns (err: Option<LoadError>)
      requires Distinct(nodes) && a == AnswersFor(Ids(nodes), ProxyIDs(nodes))
      requires forall i :: 0 <= i < |nodes| ==> Unloaded(nodes[i]) && nodes[i].loadedTypes == LoadedTypes()
      modifies this, nodes
      ensures err.None? <==> AllHonest(Ids(nodes), ProxyIDs(nodes), a)
      ensures err.None? ==>
                EdgesAnswer(nodes, old(withGroups.Some?), old(withProxy.Some?), old(withOauthPoolCredential.Some?),
                            old(withUsageLogs.Some?), old(withAccountGroups.Some?), a)
      ensures err.Some? ==> IsEdgesError(Ids(nodes), ProxyIDs(nodes), a, err.value)
      ensures err.None? ==> withGroups == AskedFor(old(withGroups), Ids(nodes))
      ensures err.None? ==> withProxy == ProxyAskedFor(old(withProxy), ProxyIDs(nodes))
      ensures err.None? ==> withOauthPoolCredential == AskedFor(old(withOauthPoolCredential), Ids(nodes))
      ensures err.None? ==> withUsageLogs == AskedFor(old(withUsageLogs), Ids(nodes))
      ensures err.None? ==> withAccountGroups == AskedFor(old(withAccountGroups), Ids(nodes))
    {
      err := GroupsStep(nodes);
      if err.Some? { return; }
      err := LoadFromProxy(nodes, a);
    }

    /** sqlAll, with the store's answer to the account query: a node for each row, then the loads; no
        node, no loads. What the accessors of the nodes answer is said of the edges the query asks for. */
    method SqlAll(answer: Result<seq<AccountRow>, int>) returns (r: Result<seq<Account>, LoadError>, ghost nodes: seq<Account>)
      modifies this
      ensures answer.Err? ==> r == Err(QueryFailed(answer.error)) && nodes == []
      ensures answer.Ok? ==> AccountRows(nodes) == answer.value
      ensures Distinct(nodes) && (r.Ok? ==> r.value == nodes) && forall i :: 0 <= i < |nodes| ==> fresh(nodes[i])
      ensures answer.Ok? ==>
                var rows := answer.value;
                var a := old(AnswersFor(RowIds(rows), RowProxyIDs(rows)));
                && (r.Ok? <==> rows == [] || AllHonest(RowIds(rows), RowProxyIDs(rows), a))
                && (r.Ok? && rows != [] ==>
                      EdgesAnswer(nodes, old(withGroups.Some?), old(withProxy.Some?), old(withOauthPoolCredential.Some?),
                                  old(withUsageLogs.Some?), old(withAccountGroups.Some?), a))
      ensures answer.Ok? && r.Err? ==>
                var rows := answer.value;
                IsEdgesError(RowIds(rows), RowProxyIDs(rows), old(AnswersFor(RowIds(rows), RowProxyIDs(rows))), r.error)
      ensures r.Ok? && answer.value != [] ==>
                var ids := RowIds(answer.value);
                && withGroups == old(AskedFor(withGroups, ids))
                && withProxy == old(ProxyAskedFor(withProxy, RowProxyIDs(answer.value)))
                && withOauthPoolCredential == old(AskedFor(withOauthPoolCredential, ids))
                && withUsageLogs == old(AskedFor(withUsageLogs, ids))
                && withAccountGroups == old(AskedFor(withAccountGroups, ids))
      ensures r.Ok? && answer.value == [] ==> unchanged(this)
    {
      if answer.Err? {
        return Err(QueryFailed(answer.error)), [];
      }
      ghost var rows := answer.value;
      ghost var a := AnswersFor(RowIds(rows), RowProxyIDs(rows));
      var made := MakeAccounts(answer.value, LoadedTypes());
      nodes := made;
      if |made| == 0 {
        return Ok(made), nodes;
      }
      assert RowIds(rows) == Ids(nodes) && RowProxyIDs(rows) == ProxyIDs(nodes);
      var err := LoadEdges(made, a);
      if err.Some? {
        return Err(err.value), nodes;
      }
      return Ok(made), nodes;
    }
  }

  function RowIds(rows: seq<AccountRow>): seq<int> {
    Map((r: AccountRow) => r.id, rows)
  }

  function RowProxyIDs(rows: seq<AccountRow>): seq<Option<int>> {
    Map((r: AccountRow) => r.proxyId, rows)
  }
}
