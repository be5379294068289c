# Verified model of the account queries and writers and of the audit-exception gate

This project models four parts of the repository and proves what they promise.

* **Eager loading.** `AccountQuery.sqlAll` and the loaders it calls (`loadGroups`, `loadProxy`,
  `loadOauthPoolCredential`, `loadUsageLogs`, `loadAccountGroups`), and `loadAccount` and `loadGroup` of
  `AccountGroupQuery`, are hash joins that scatter rows into heap objects. They are methods over objects here,
  proved against plain joins (`EagerJoin`, `AccountLoaders`, `AccountSqlAll`, `EdgeQueries`, `EdgeEntity`). The columns that
  `querySpec` and the loaders add are why loading edges does not depend on what is selected (`Projection`).
  The builder itself, with Go's slices and `Clone`, is in `GoSlice` and `QueryBuilder`; limits and offsets are in
  `QueryWindow`.
* **Creating accounts.** `defaults` and `check` (`AccountCreate`), `createSpec` against `scanValues` and
  `assignValues` (`AccountRow`), and the mutator chain of `AccountCreateBulk.Save` (`BulkCreate`, `BulkOutcome`).
* **Updating edges.** What builder calls collect in the mutation, the Clear and Add program that `sqlSave` makes of
  it, and what executing that means (`EdgeUpdate`).
* **The audit-exception gate.** `tools/check_pnpm_audit_exceptions.py`: the line parser (`PyText`,
  `ExceptionsFile`), the listing of findings (`AuditReport`) and the decision (`AuditGate`, `GateEndToEnd`).

`Support` holds the few sequence functions the others share.

## How to read the main results

* `BulkCreate.AccountCreateBulk.Save` is the chain of closures over shared state, with pointers that hooks may
  replace. It is proved equal to the recursive function `Run`. `BulkOutcome` then reads `Run` forwards:
  `RunUnwinds` says what the unwinding stack leaves in terms of where the chain stops, and the all-or-nothing
  results follow from it, for arbitrary hooks first and for transparent hooks after that.
* `AccountSqlAll.AccountQuery.SqlAll` says of every node what each of its five accessors answers, by the edges the
  query asks for, and that the loads fail exactly when the store fails or returns a row that was not asked for. `EdgeQueries` discharges that condition
  for a store that is a table, and `EdgeEntity` composes the loaders over tables.
* `AuditGate.RunGate` computes exit status 0 exactly when `GatePasses` holds, which is stated on the parsed
  records and listed findings without any index or set. `GateEndToEnd` follows one exception and one advisory from the
  two texts to the verdict, with nothing of the gate's own functions in the statement.
* `EdgeUpdate.Update` runs any builder calls on the four edges of an object and says what each edge has after the
  emitted program is executed.
* `QueryBuilder.CloneThenRun` covers every interleaving of builder calls on a query and on its clone.

## Where the code does not do what one might expect

Each of these is a lemma with the exact condition or a concrete input; the code is modelled as it is.

* A comment in the script says that pnpm's `source` may be a number. A via entry that has nothing but a numeric
  source makes the `"; ".join` raise, so the gate fails (`AuditReport.NumericSourceCrashes`).
* When one package and advisory is reported with two severities, only the first counts, so the verdict depends on
  the order of the report; `AuditGate.OrderIrrelevantIff` says exactly when it does not
  (`AuditGate.TwoSeveritiesDependOnOrder` is an example).
* Bulk creation checks what the builder held before a hook substituted another mutation, and writes the substitute
  unchecked (`BulkOutcome.SubstituteEscapesCheck`, `BulkOutcome.WrittenCheckedIff`). The single `Save` puts the substitute into the builder first.
* Bulk creation is all or nothing only as far as hooks are: one that returns early without an error makes earlier
  builders count as saved though nothing is written, and one that fails after the batch was taken leaves part of the
  builders unsaved (`BulkOutcome.AllOrNothingIff`, `BulkOutcome.EarlyReturnSavesNothing`).
* An update clears an edge before it adds to it, whatever the order of the calls. Targets added before a clear and
  not mentioned since survive it (`EdgeUpdate.UpdateKeepsStale`, `EdgeUpdate.SequentialIff`). Likewise
  `SetProxyID(x).ClearProxy()` keeps `x`, and `SetProxyID(x).ClearProxyID()` does not (`EdgeUpdate.LastCallWinsIff`,
  `EdgeUpdate.OneMeans`).
* An IN list stays on an edge's query, so running the same parent query again loads only edges of accounts that were
  there the first time (`EdgeQueries.SecondRunJoinsOnlyEarlierParents`, `EdgeQueries.SecondRunFindsOnlyEarlierTargets`).
* An account's groups come in the order in which the groups first appear in the whole result, not in the order of
  the account's own rows (`EagerJoin.OrderIsGlobal`, and exactly when it is: `EagerJoin.OwnOrderIff`).
* With DISTINCT, selecting columns of account groups without the group drops memberships that then look alike
  (`Projection.AccountGroupsDistinctIff`).
* `Only` replaces the caller's limit, so a query limited to one row can still answer "not singular"
  (`QueryWindow.OnlyIgnoresLimit`), and an offset without a limit loses rows beyond 2^31 - 1
  (`QueryWindow.SelectorWindowIff`).

## Assumptions

* The store answers an edge query with an error or some fixed sequence of rows that depends only on the IN lists put
  on the query (any function; `EdgeQueries` adds that it is a table that honours the lists). Interceptors do nothing.
* A loader's nodes are distinct objects, as the code that scans them makes them; their IDs may repeat.
* sqlgraph executes Clear entries before Add entries, a Clear entry without targets clears the edge, and adding to an
  edge to one replaces its target.
* A hook is a function of the mutation's contents. It calls the next mutator at most once, passes its error on, and
  touches no other builder's mutation. The builders of a bulk, and their mutations, are distinct objects and have not
  been saved before. The iteration order of Go's maps is fixed while one `Save` runs.
* The JSON codec of the driver reads back what it wrote, and writes no empty text.
* `date.fromisoformat`, `str` and `str.lower` are arbitrary functions of their argument. Today is a parameter. An
  uncaught Python exception is exit status 1.
* ent's `QueryContext.Clone` copies the fields, and `AddColumnOnce` and `AppendFieldOnce` append a name that is missing.

## Model

| member | source | states |
|---|---|---|
| `PyText.IsSpaceIff` | tools/check_pnpm_audit_exceptions.py:15 | strip takes 29 characters for white space, these |
| `PyText.StripRemoves` | tools/check_pnpm_audit_exceptions.py:29 | a text is what strip returns between two runs of white space, and that is trimmed: nothing else is removed, and all of it |
| `PyText.StripPadding` | tools/check_pnpm_audit_exceptions.py:15 | stripping removes exactly the white space around a trimmed text |
| `PyText.Find` | tools/check_pnpm_audit_exceptions.py:14 | the split position is the first colon, or the length if there is none |
| `PyText.SplitKv` | tools/check_pnpm_audit_exceptions.py:12-20 | no result exactly if the line has no colon; a key that is trimmed and colon-free |
| `PyText.SplitKvQuoted` | tools/check_pnpm_audit_exceptions.py:12-20 | a key and a value in quotes of either kind on one line are read back, whatever colons, quotes and spaces the value holds; a lone quote mark is read as the empty text |
| `PyText.SplitKvPlainIff` | tools/check_pnpm_audit_exceptions.py:12-20 | a value without quotes is read back if and only if it is trimmed and does not both begin and end with the same quote mark |
| `ExceptionsFile.LinesUnlines` | tools/check_pnpm_audit_exceptions.py:27-28 | reading a text line by line undoes writing newline-free lines, with any of the three line ends, whether or not the last line has one |
| `ExceptionsFile.ItemBodyNonEmpty` | tools/check_pnpm_audit_exceptions.py:34-39 | a stripped item line always has a body |
| `ExceptionsFile.ParseExceptions` | tools/check_pnpm_audit_exceptions.py:23-48 | the loop with its open record returns the records of the classified lines, or fails as they do |
| `ExceptionsFile.OneRecordPerItem` | tools/check_pnpm_audit_exceptions.py:34-42 | as many records as item lines |
| `ExceptionsFile.ParseShape` | tools/check_pnpm_audit_exceptions.py:34-48 | parsing fails exactly if some item body has no colon; otherwise one non-empty record for each item line |
| `ExceptionsFile.NoiseIsIrrelevant` | tools/check_pnpm_audit_exceptions.py:30-33 | texts with the same significant lines parse alike: blank lines, comments and headers may come and go |
| `ExceptionsFile.ParsedRecordsAreClean` | tools/check_pnpm_audit_exceptions.py:40-45 | every key returned is trimmed and colon-free, and neither keys nor values hold a line end |
| `ExceptionsFile.SeenAsMeantIff` | tools/check_pnpm_audit_exceptions.py:12-20 | an entry is read as it is meant exactly if its style can show its value |
| `ExceptionsFile.ReadableRoundTrip` | tools/check_pnpm_audit_exceptions.py:23-48 | readable records written as item blocks, each value bare or in quotes of either kind, are read back |
| `ExceptionsFile.RoundTripReadable` | tools/check_pnpm_audit_exceptions.py:23-48 | records that are read back as written are readable |
| `ExceptionsFile.RoundTripIff` | tools/check_pnpm_audit_exceptions.py:23-48 | the round trip holds if and only if each key and value fits on its line, each bare value is trimmed and not itself in quotes, and no key but a record's first looks like a comment, a header or an item |
| `AuditReport.CollectVia` | tools/check_pnpm_audit_exceptions.py:84-108 | the two lists hold the ids and the titles of the entries that name an advisory, in order |
| `AuditReport.YieldVulnerability` | tools/check_pnpm_audit_exceptions.py:82-111 | the findings of one vulnerability, or the crash of its title join |
| `AuditReport.YieldAdvisories` | tools/check_pnpm_audit_exceptions.py:66-78 | the findings of the advisories in order, or the first crash |
| `AuditReport.IterVulns` | tools/check_pnpm_audit_exceptions.py:64-111 | run to its end, the generator gives the advisories' findings and then the vulnerabilities' |
| `AuditReport.LookupMeaning` | tools/check_pnpm_audit_exceptions.py:67-78 | get gives the value of the field with the key, or null without one |
| `AuditReport.TruthyIff` | tools/check_pnpm_audit_exceptions.py:51-61 | null, false, zero and the empty values are the only ones that `or` passes over |
| `AuditReport.AdvisoryTaken` | tools/check_pnpm_audit_exceptions.py:51-78 | a finding's name is the first truthy one of module_name and name, its advisory id the first truthy one of github_advisory_id, url, the first CVE, the text of id, title, advisory and overview, and falsy exactly if all are; its severity is the advisory's |
| `AuditReport.EntryIdentified` | tools/check_pnpm_audit_exceptions.py:88-97 | a via dict is identified by the first truthy one of github_advisory_id, url, source, title and name, a text by itself |
| `AuditReport.FindingsListed` | tools/check_pnpm_audit_exceptions.py:64-111 | what is listed is, in order, one such finding of each advisory and then, for each vulnerability, one of each via entry that is identified |
| `AuditReport.ListingSucceedsIffReadable` | tools/check_pnpm_audit_exceptions.py:64-111 | listing raises no exception exactly if every advisory and via entry is readable |
| `AuditReport.NumericSourceCrashes` | tools/check_pnpm_audit_exceptions.py:90-109 | a via dict with a numeric source alone makes the listing crash |
| `AuditReport.VulnerabilityYields` | tools/check_pnpm_audit_exceptions.py:110-111 | one finding for each via entry with an id, in order, under the vulnerability's name |
| `AuditGate.ReadException` | tools/check_pnpm_audit_exceptions.py:157-174 | an exception is accepted exactly if all fields are there, the date is valid and the key is not blank |
| `AuditGate.BuildIndex` | tools/check_pnpm_audit_exceptions.py:153-185 | no error exactly if the exceptions are complete and no two have the same key; the index then holds just them |
| `AuditGate.CheckFindings` | tools/check_pnpm_audit_exceptions.py:188-219 | nothing is reported exactly if every finding passes against the index, first occurrences deciding |
| `AuditGate.Decide` | tools/check_pnpm_audit_exceptions.py:187-243 | exit status 0 exactly if the exceptions are sound and the findings pass |
| `AuditGate.RunGate` | tools/check_pnpm_audit_exceptions.py:142-243 | exit status 0 if and only if both files read, the exceptions are sound and every first high or critical finding is covered |
| `GateEndToEnd.OneExceptionOneAdvisory` | tools/check_pnpm_audit_exceptions.py:142-243 | from the two texts to the verdict, for one exception and one advisory: the gate passes if and only if the five values are not empty, the date is valid, package and advisory are not blank, and an advisory that is named and high or critical has the same package but for white space, the same advisory id and severity but for white space and case (a blank severity matches any), and a date that is not past |
| `AuditGate.CheckedAgainstIndex` | tools/check_pnpm_audit_exceptions.py:207-219 | looking exceptions up by key decides like searching them all |
| `AuditGate.EarlierDayPasses` | tools/check_pnpm_audit_exceptions.py:216 | a pass on one day is a pass on every earlier day |
| `AuditGate.FewerFindingsPass` | tools/check_pnpm_audit_exceptions.py:193-219 | appending findings never turns a failure into a pass |
| `AuditGate.ExceptionOrderIrrelevant` | tools/check_pnpm_audit_exceptions.py:156-185 | permuting the exceptions does not change the verdict |
| `AuditGate.FindingsPassOneByOne` | tools/check_pnpm_audit_exceptions.py:191-206 | with one severity per key the findings pass exactly if each passes alone |
| `AuditGate.FindingOrderIrrelevant` | tools/check_pnpm_audit_exceptions.py:191-206 | with one severity per key neither order nor repetition of findings matters |
| `AuditGate.EveryOrderPassesIff` | tools/check_pnpm_audit_exceptions.py:191-219 | all orders of the findings pass exactly if each finding passes alone |
| `AuditGate.SomeOrderPassesIff` | tools/check_pnpm_audit_exceptions.py:191-219 | some order of the findings passes exactly if each is readable and each relevant one has an advisory and a covered finding of its key among them |
| `AuditGate.OrderIrrelevantIff` | tools/check_pnpm_audit_exceptions.py:156-243 | the verdict is the same for all orders of the findings if and only if the exceptions are unsound, or every finding passes alone, or no order passes |
| `AuditGate.OwnExceptionDecides` | tools/check_pnpm_audit_exceptions.py:207-219 | with sound exceptions the one for the finding's key decides |
| `AuditGate.TwoSeveritiesDependOnOrder` | tools/check_pnpm_audit_exceptions.py:203-215 | a key with two severities and an exception for one passes in one order and fails in the other |
| `EagerJoin.ScatterMeaning` | backend/ent/account_query.go:705-737 | a parent holds exactly the rows that refer to it if no later parent has its ID; no row is held twice; rows keep their order |
| `EagerJoin.ScatterConserves` | backend/ent/account_query.go:724-736 | when every row was asked for, the parents together hold each row as often as it came |
| `EagerJoin.LastChildrenMeaning` | backend/ent/account_query.go:678-704 | a parent of an edge to one keeps the last row that refers to it, and nothing exactly if none does or a later parent has its ID |
| `EagerJoin.SetKeys` | backend/ent/account_query.go:647-660 | the keys asked for: each foreign key that is set, once |
| `EagerJoin.SetKeysInOrder` | backend/ent/account_query.go:647-660 | they come in the order in which they first appear |
| `EagerJoin.GroupsOfMeaning` | backend/ent/account_query.go:585-645 | an account's groups are the groups some row joins to it, in the order of first appearance in all rows, so none twice |
| `EagerJoin.GroupsOfOrdered` | backend/ent/account_query.go:619-628 | rows ordered by a key of the group give groups ordered by it |
| `EagerJoin.OrderIsGlobal` | backend/ent/account_query.go:619-628 | an account whose own rows come in one order can get its groups in another |
| `EagerJoin.OwnOrderIff` | backend/ent/account_query.go:619-643 | when a group has the same columns in all its rows, the groups come in the order of the account's own rows if and only if any two of them first appear in the same order in all rows as in those |
| `EagerJoin.DirectEqualsThroughEdge` | backend/ent/account_query.go:585-645 | over the same tables an account is joined to a group directly exactly if it is through the edge entity |
| `EdgeEntity.LoadAccountGroupsFrom` | backend/ent/account_query.go:738-767 | over a table: no error, new objects with nothing loaded, and every node has exactly its account groups |
| `EdgeEntity.LoadGroupFrom` | backend/ent/accountgroup_query.go:408-436 | over a table: no error, and every account group has the group its row names, or none if there is none |
| `EdgeEntity.LoadAccountFrom` | backend/ent/accountgroup_query.go:379-407 | the same for its account |
| `EdgeEntity.GroupsBothWays` | backend/ent/account_query.go:585-645 | after loadGroups, and after loadAccountGroups with loadGroup over the same tables, a node has a group with an ID among its groups exactly if one of its account groups has it loaded |
| `EdgeEntity.EdgeBothDirections` | backend/ent/accountgroup_query.go:379-407 | after loadAccountGroups and loadAccount over the same tables, an account group is among a node's exactly if its own loaded account has the node's ID |
| `AccountLoaders.IndexByID` | backend/ent/account_query.go:705-714 | the index holds the last node of every ID |
| `AccountLoaders.AssignUsageLogs` | backend/ent/account_query.go:724-736 | each log goes to the indexed node; an error exactly for a nil or unknown key |
| `AccountLoaders.LoadUsageLogs` | backend/ent/account_query.go:705-737 | fails exactly with the store's error or on a row that was not asked for, naming what is wrong with the first such row; otherwise every node has exactly its joined logs |
| `AccountLoaders.LoadAccountGroups` | backend/ent/account_query.go:738-767 | the same for account groups, as the objects that were loaded: new, distinct, their own edges not loaded |
| `AccountLoaders.LoadOauthPoolCredential` | backend/ent/account_query.go:678-704 | the same for the credential, the last match winning and no match leaving what was there |
| `AccountLoaders.HoldersMeaning` | backend/ent/account_query.go:649-658 | the list under a key holds exactly the nodes with that foreign key |
| `AccountLoaders.IndexByForeignKey` | backend/ent/account_query.go:647-660 | the key list and the index of a nullable foreign key, every occurrence kept |
| `AccountLoaders.LoadProxy` | backend/ent/account_query.go:646-677 | fails exactly with the store's error or on a proxy not asked for; otherwise every node, repeated IDs too, has the proxy of its key |
| `AccountLoaders.LoadAccount` | backend/ent/accountgroup_query.go:379-407 | the same for the account of an account group |
| `AccountLoaders.LoadGroup` | backend/ent/accountgroup_query.go:408-436 | the same for its group |
| `AccountLoaders.ReadJoinRows` | backend/ent/account_query.go:609-629 | after all rows, the groups in order of first sight and for each the set of accounts linked to it |
| `AccountLoaders.LinkedSetMeaning` | backend/ent/account_query.go:620-627 | who is in the set of a group |
| `AccountLoaders.AssignToEach` | backend/ent/account_query.go:640-642 | whatever the order in which the set is walked, each account in it gets the group once at the end of its list |
| `AccountLoaders.AssignLinked` | backend/ent/account_query.go:635-643 | the closing loop gives each account the groups that hold it, in order |
| `AccountLoaders.HeldIsJoined` | backend/ent/account_query.go:585-645 | that is the join |
| `AccountLoaders.LoadGroups` | backend/ent/account_query.go:585-645 | for any row stream: fails exactly with the store's error or on a row for an unknown account; otherwise every node has exactly its joined groups |
| `AccountSqlAll.AccountQuery.LoadEdges` | backend/ent/account.go:106-151 | after the loads a unique edge the query asks for answers its match or not found, a list edge its joined list, and an edge it does not ask for not loaded |
| `AccountSqlAll.AccountQuery.SqlAll` | backend/ent/account_query.go:516-583 | a node for each row; every accessor of every node answers by the join if the query asks for the edge, and not loaded if it does not; fails exactly when a query fails or an answer holds a row nobody asked for, with the error of the first such edge; the IN lists stay on the with-queries |
| `EdgeQueries.FirstRunIsJoin` | backend/ent/account_query.go:718-724 | a table that honours the IN list is answered honestly, and each parent gets what a nested loop over the table finds |
| `EdgeQueries.SecondRunJoinsOnlyEarlierParents` | backend/ent/account_query.go:718-720 | run again, a parent gets its children exactly if it was among the first parents or has none |
| `EdgeQueries.ManyToOneIsJoin` | backend/ent/account_query.go:661-676 | every foreign key finds what it would find in the whole table |
| `EdgeQueries.SecondRunFindsOnlyEarlierTargets` | backend/ent/account_query.go:661-663 | run again, a foreign key finds its target exactly if the first nodes had that key too, or there is none |
| `EdgeQueries.ManyToManyIsJoin` | backend/ent/account_query.go:597-604 | restricting the join rows to the accounts loaded loses none of their groups |
| `Projection.AccountQuerySpec` | backend/ent/account_query.go:789-800 | the loop computes ID first, the selected columns without it, then the proxy key |
| `Projection.AccountGroupQuerySpec` | backend/ent/accountgroup_query.go:456-467 | the selected columns, then the keys of the edges to load |
| `Projection.SelectedColumns` | backend/ent/account_query.go:789-800 | the ID comes first and once; nothing selected is lost and only the ID and the keys of edges to load are added |
| `Projection.SelectedEdgeColumns` | backend/ent/accountgroup_query.go:456-467 | the selected columns of account groups stay in front and in order, and only the keys of the edges to load are added; all columns when nothing is selected |
| `Projection.ReferencingKept` | backend/ent/account_query.go:715-717 | the loaders add the foreign key to a selection, once, and lose nothing of it |
| `Projection.HookReadsIDs` | backend/ent/account_query.go:609-622 | the many-to-many hook reads the join's account from the first value and the group's ID from the second, whatever is selected |
| `Projection.ScatterProjected` | backend/ent/account_query.go:715-717 | one-to-many and one-to-one loads commute with any projection that keeps the foreign key |
| `Projection.TargetProjected` | backend/ent/account_query.go:661-676 | many-to-one loads commute with any projection that keeps the ID |
| `Projection.GroupsProjected` | backend/ent/account_query.go:585-645 | many-to-many loads commute with any projection that keeps the group's ID, in order |
| `Projection.GroupsCommute` | backend/ent/account_query.go:585-645 | whatever is selected of the groups, an account gets the same ones in the same order |
| `Projection.DecodedGroup` | backend/ent/account_query.go:585-645 | a decoded group has its row's ID, and its name exactly if that is selected |
| `Projection.EntityKeysKept` | backend/ent/account_query.go:789-800 | the ID, a selected column and a needed foreign key are decoded as they are in the row |
| `Projection.AccountGroupKeysKept` | backend/ent/accountgroup_query.go:456-467 | the same for an account group |
| `Projection.UsageLogsCommute` | backend/ent/account_query.go:715-717 | whatever is selected of the logs and whatever keys their own edges need, every account gets the same ones |
| `Projection.AccountGroupsCommute` | backend/ent/account_query.go:748-750 | whatever is selected of the account groups, every account gets the same ones |
| `Projection.ProxyCommutes` | backend/ent/account_query.go:798-800 | whatever is selected of accounts and proxies, an account's proxy is the same |
| `Projection.DistinctLosesNothingIff` | backend/ent/accountgroup_query.go:451-455 | DISTINCT loses no row of any table with that primary key exactly if all of it is among the columns |
| `Projection.AccountGroupsDistinctIff` | backend/ent/accountgroup_query.go:448-467 | for the account groups of an account: exactly if nothing is selected, or the group is |
| `Projection.AccountsDistinct` | backend/ent/account_query.go:784-795 | DISTINCT never loses accounts |
| `GoSlice.Append` | backend/ent/account_query.go:45 | append: old items and new ones, on the same array exactly while there is room or on a fresh one |
| `GoSlice.Copy` | backend/ent/account_query.go:373-375 | the same items on an array of its own |
| `QueryBuilder.FlatQuery.Call` | backend/ent/account_query.go:43-73 | every call but the With family, and what running a query with a path does to it, changes just its part of the query |
| `QueryBuilder.FlatQuery.Clone` | backend/ent/account_query.go:370-383 | fresh copies of context, order, interceptors, predicates and selector, and no modifiers |
| `QueryBuilder.AccountQuery.CallWith` | backend/ent/account_query.go:389-397 | the edge gets a new query with the given calls made on it, replacing an earlier one |
| `QueryBuilder.AccountQuery.Run` | backend/ent/account_query.go:43-73 | any list of calls means the calls one after the other |
| `QueryBuilder.CallsAddUp` | backend/ent/account_query.go:43-73 | after any calls, conditions, orders and modifiers are those there were and then all that the calls brought, in order; interceptors stay |
| `QueryBuilder.LastCallsCount` | backend/ent/account_query.go:49-66 | the last Limit, Offset and Unique count, and for each edge the query its last With call configures |
| `QueryBuilder.FieldsSinceGroupBy` | backend/ent/account_query.go:456-484 | the fields are those of the last GroupBy, or the ones there were, and what Select added since |
| `QueryBuilder.SelectorSincePrepare` | backend/ent/account_query.go:829-833 | the kept selector is that of the last run that made one, extended by what was done to it since |
| `QueryBuilder.AccountQuery.Clone` | backend/ent/account_query.go:366-385 | a query of fresh objects that means the same without modifiers, at every depth, and starts from the same path |
| `QueryBuilder.CallBeside` | backend/ent/account_query.go:364-385 | a call on one of two queries that share nothing leaves the other's meaning |
| `QueryBuilder.CloneThenRun` | backend/ent/account_query.go:364-385 | after any interleaving of calls, original and clone each mean what their own calls make of them |
| `QueryWindow.SelectorWindow` | backend/ent/account_query.go:848-855 | the offset and limit put on the selector |
| `QueryWindow.SelectorWindowIff` | backend/ent/account_query.go:848-855 | it is drop-offset-then-take-limit exactly if there is a limit, or no offset, or at most 2^31 - 1 rows remain |
| `QueryWindow.AllMeaning` | backend/ent/account_query.go:808-813 | a query returns the store's rows from its offset on, one for one, as many as its limit allows |
| `QueryWindow.First` | backend/ent/account_query.go:186-195 | the head of the unlimited result, or not found |
| `QueryWindow.Only` | backend/ent/account_query.go:232-245 | the single row of the unlimited result, or whether it has none or many |
| `QueryWindow.OnlyIgnoresLimit` | backend/ent/account_query.go:233 | that is the answer for the caller's limit exactly if the limit is none, two or more, or cuts nothing off |
| `AccountRow.AssignValues` | backend/ent/account.go:179-390 | the loop assigns all columns in order, or stops with the first error |
| `AccountRow.ScannedNeverMismatches` | backend/ent/account.go:154-175 | for any columns, values scanned by scanValues meet no type mismatch; only a JSON text can fail |
| `AccountRow.LastNonNullWins` | backend/ent/account.go:179-390 | with repeated columns any field but ID and the JSON ones holds its last non-NULL occurrence, and is unset without one |
| `AccountRow.LastIDWins` | backend/ent/account.go:183-190 | the ID is that of its last occurrence, zero if that is NULL |
| `AccountRow.JsonMerges` | backend/ent/account.go:235-250 | a JSON field is the fold of the merges of its occurrences |
| `AccountRow.OthersAreSelected` | backend/ent/account.go:385-386 | a column that is not the table's is kept under its name with its last value, and nothing else is |
| `AccountRow.EdgeEntry` | backend/ent/account_create.go:746-765 | one entry with exactly the given targets, or none |
| `AccountRow.CopyFields` | backend/ent/account_create.go:634-745 | specification and node get exactly the fields that are set |
| `AccountRow.MakeCreateSpec` | backend/ent/account_create.go:628-816 | the specification holds every field with its column type, every edge's targets and the conflict options; the node holds the fields and the proxy |
| `AccountRow.InsertedRow` | backend/ent/account_create.go:628-816 | the inserted row holds every field of the node as a cell of its type, and no other |
| `AccountRow.CreateReadBack` | backend/ent/account.go:154-390 | over any list of columns, in any order and with repeats, what was written is read back |
| `AccountRow.CreateReadRoundTrip` | backend/ent/account.go:154-390 | over all columns, reading gives back the node that creating returned |
| `AccountCreate.StepsDone` | backend/ent/account_create.go:485-539 | how far defaults gets: to the first unset field whose default function is not registered |
| `AccountCreate.DefaultsFailIff` | backend/ent/account_create.go:485-515 | defaults fails if and only if one of created_at, updated_at, credentials and extra is neither given nor has a default function registered, at the first of them |
| `AccountCreate.AccountMutation.Defaults` | backend/ent/account_create.go:485-539 | unset fields before that point get their defaults, nothing else changes, and the error names the field |
| `AccountCreate.DefaultsGive` | backend/ent/account_create.go:485-539 | after successful defaults a field with a default holds what was given, or else its function's value or its constant; any other field is as it was |
| `AccountCreate.Check` | backend/ent/account_create.go:542-608 | the first error in order |
| `AccountCreate.PassesIff` | backend/ent/account_create.go:542-608 | a mutation passes exactly if every step on its own does, and an error is that of some step |
| `AccountCreate.CheckReports` | backend/ent/account_create.go:542-608 | the error is that of the first of the fourteen columns, in this order, that is not fine: missing if it is not set, invalid if it is |
| `AccountCreate.CheckAfterDefaults` | backend/ent/account_create.go:542-608 | after successful defaults, check depends on name, platform, type, status and session window status alone |
| `AccountCreate.DefaultsErrorResurfaces` | backend/ent/account_create.go:1965 | when defaults fail, check fails too as long as the field stays unset |
| `AccountCreate.FailedDefaultsLeaveUnset` | backend/ent/account_create.go:485-539 | after failed defaults a field with a default is set exactly if it was given or its step comes before the failed one, so check fails right after |
| `BulkCreate.AccountCreateBulk.BatchCreate` | backend/ent/account_create.go:1980-1987 | all specifications are made when the batch is sent, in builder order, with the conflict options; constraint errors are wrapped |
| `BulkCreate.AccountCreateBulk.Mutate` | backend/ent/account_create.go:1966-2002 | mutator i with its hooks, on shared state, has the outcome of the recursive function |
| `BulkCreate.AccountCreateBulk.Link` | backend/ent/account_create.go:1967-1998 | mutator i without hooks: checks what the builder holds, then builds from the mutation in hand |
| `BulkCreate.AccountCreateBulk.Finish` | backend/ent/account_create.go:1992-1998 | the builder's node, ID and done flag are those of the outcome |
| `BulkCreate.AccountCreateBulk.ApplyDefaults` | backend/ent/account_create.go:1963-1965 | every builder's defaults are tried, their errors dropped |
| `BulkCreate.AccountCreateBulk.Save` | backend/ent/account_create.go:1955-2012 | error, nodes, batches sent, IDs and done flags of every builder are those of `Run` on the builders after defaults |
| `BulkOutcome.HooksAreOneStep` | backend/ent/account_create.go:2000-2002 | a builder's hooks act as one step: refuse, return early, or pass on with an error to raise afterwards |
| `BulkOutcome.ChainUnwinds` | backend/ent/account_create.go:1976-1998 | the nested calls leave what a forward walk to the stopping point says |
| `BulkOutcome.RunUnwinds` | backend/ent/account_create.go:1955-2012 | the same for all of Save |
| `BulkOutcome.WritesOnceIff` | backend/ent/account_create.go:1977-1983 | at most one batch; one exactly if every builder's hooks pass and check passes, with all specifications in builder order |
| `BulkOutcome.AllOrNothingIff` | backend/ent/account_create.go:1955-2012 | all or nothing holds if and only if no hook returns early where the chain stops and none fails after the batch was taken |
| `BulkOutcome.CommittedSaved` | backend/ent/account_create.go:1989-1998 | once the batch is taken, there is no error exactly if no hook fails afterwards |
| `BulkOutcome.SkippedSaved` | backend/ent/account_create.go:1989-1998 | after an early return nothing is written, yet the builder before is saved |
| `BulkOutcome.TransparentSave` | backend/ent/account_create.go:1955-2012 | with transparent hooks: written exactly if all pass check, success exactly if the store accepts too, and then all are saved, else none |
| `BulkOutcome.SavedNodeHasOwnID` | backend/ent/account_create.go:1992-1996 | whatever the hooks do, the node of a saved builder is the one made from its mutation in hand, with the ID the store gave to the specification at its own position, if it gave one |
| `BulkOutcome.StoreErrorSurfaces` | backend/ent/account_create.go:1983-1990 | whatever the hooks do, a store error is returned, a constraint as ent's own error, and nothing is saved |
| `BulkOutcome.TransparentFirstError` | backend/ent/account_create.go:1971-1973 | the error is that of the first builder that fails check, and nothing is written |
| `BulkOutcome.FailureHasCause` | backend/ent/account_create.go:1971-1990 | with transparent hooks a save fails with the error of the first builder that fails check, before any write, or with the store's |
| `BulkOutcome.DroppedDefaultsErrorStops` | backend/ent/account_create.go:1965 | a dropped defaults error still stops the save before the write unless a hook sets the field |
| `BulkOutcome.SaveTransparently` | backend/ent/account_create.go:1955-2012 | on objects: at most one batch is sent, with one specification for each builder in order; on success every builder is done and its node and mutation have the ID at its own position; on an error none is done, and the error has its cause in a builder or the store |
| `BulkOutcome.WrittenCheckedIff` | backend/ent/account_create.go:1971-1976 | the specifications written are those of the mutations in hand, and these all pass check if and only if every substitute among them does |
| `BulkOutcome.WrittenIsChecked` | backend/ent/account_create.go:1971-1976 | so if no hook substitutes, every mutation written has passed check |
| `BulkOutcome.SubstituteEscapesCheck` | backend/ent/account_create.go:1971-1976 | with a substituting hook any mutation, valid or not, is written in place of a valid one |
| `BulkOutcome.EarlyReturnSavesNothing` | backend/ent/account_create.go:1989-1998 | a second builder whose hook returns early: success, nothing written, first builder marked saved |
| `EdgeUpdate.ToMany.AddIDs` | backend/ent/mutation.go:3787-3795 | adds the IDs, and leaves removed ones removed |
| `EdgeUpdate.ToMany.RemoveIDs` | backend/ent/mutation.go:3807-3816 | takes the IDs out of the added and puts them into the removed |
| `EdgeUpdate.ToMany.Run` | backend/ent/mutation.go:3787-3816 | any list of calls collects what the fold of single calls says |
| `EdgeUpdate.ToOne.Run` | backend/ent/mutation.go:2783-2818 | any list of calls on an edge to one collects what the fold of single calls says |
| `EdgeUpdate.EdgeEntries` | backend/ent/account_update.go:872-928 | one edge's part: an empty Clear entry if cleared, else one for the removed if any; an Add entry for the added if any |
| `EdgeUpdate.UpdateProgram` | backend/ent/account_update.go:872-1031 | the program has exactly these entries for each of the four edges |
| `EdgeUpdate.AccountEdges.Program` | backend/ent/account_update.go:1919-2078 | the program of a mutation; that both update builders have this code is by reading, not proved |
| `EdgeUpdate.ClearsOwnEdge` | backend/ent/account_update.go:872-1031 | only an edge's own Clear entries change it |
| `EdgeUpdate.ProgramMeaning` | backend/ent/account_update.go:872-1031 | executing the program gives (empty if cleared, else old less removed) with the added, at most one Clear and one Add entry an edge |
| `EdgeUpdate.ClearsAreHoisted` | backend/ent/mutation.go:3787-3816 | an update means: clear first if a clear was called at all, then the other calls in order |
| `EdgeUpdate.StaleIff` | backend/ent/mutation.go:3797-3800 | a target is stale exactly if it was added before some clear and not mentioned since |
| `EdgeUpdate.UpdateKeepsStale` | backend/ent/mutation.go:3797-3800 | an update differs from taking the calls one at a time by exactly the stale targets |
| `EdgeUpdate.SequentialIff` | backend/ent/mutation.go:3797-3800 | the two agree if and only if nothing is stale |
| `EdgeUpdate.ManyMeans` | backend/ent/account_update.go:872-928 | from calls to targets on an edge to many: the executed update leaves what clearing first, if at all, and then the other calls in order leave |
| `EdgeUpdate.LastCallWinsIff` | backend/ent/mutation.go:3841-3859 | on an edge to one the last call wins if and only if it is not a clear of the edge after a target was set |
| `EdgeUpdate.PendingIff` | backend/ent/mutation.go:2783-2818 | a target is pending exactly if some call sets it and only clearings of the edge follow |
| `EdgeUpdate.OneMeans` | backend/ent/account_update.go:929-986 | from calls to target on an edge to one: the executed update leaves a target that was set and at most cleared over, and otherwise what the last call says; that is the last call's say exactly if no clearing follows the set |
| `EdgeUpdate.AccountEdges.Run` | backend/ent/mutation.go:3787-3882 | builder calls on the four edges, interleaved in any way: every edge collects its own |
| `EdgeUpdate.Update` | backend/ent/account_update.go:872-1031 | from any builder calls on the four edges, in any order, through the emitted program to the targets of each edge after executing it: each edge has what its own calls say, in the two ways above |

## Left out

- Setters, `SetNillable` and `X` wrappers, upserts, deletes, and the generated code of the other entities: one-line delegations and repetitions of the shapes modelled here.
- sqlgraph, SQL text, dialects, transactions, locking, and the neighbour queries of `QueryGroups` and its like: their code is not in the repository; a query's path is a shared reference and is not executed.
- Interceptors and contexts; `GroupBy` and `Select` scanning, aggregation, `Count`, `IDs`, `FirstID` and `Exist`, which run on other selections.
- QueryWindow.First: negative limits and offsets, which stores treat differently, are taken as absent; how `querySpec` passes a limit of zero on is not modelled.
- The contents of validators and default functions (arbitrary), JSON encoding (an abstract inverse pair), time formatting, float rounding, error texts, `String` methods.
- The sharing of a with-query that a caller also holds elsewhere.
- QueryBuilder.AccountQuery.CallWith: the functions that configure the new query are lists of builder calls; one that runs the query or keeps it for later is not modelled.
- QueryBuilder.AccountQuery.Clone: the selector is an in-place list of steps, since what a selector holds is foreign code.
- BulkCreate.AccountCreateBulk.Save: `createSpec` is a function parameter there (`AccountRow.MakeCreateSpec` has its contract), because iterating Go's maps gives it several results; nil hooks are not modelled.
- BulkCreate.AccountCreateBulk.Link: the branch for a mutation of another type is not modelled, since what later hooks do with such a mutation is not known.
- BulkCreate.AccountCreateBulk.Finish: the mutation's ID is recorded as a value and not as a pointer to the node's, since the node's ID is not written again afterwards.
- EdgeUpdate.ProgramMeaning: conflicts with another row's unique edge are not modelled; nor are `Reset` calls and the field part of the update program.
- EdgeUpdate.EdgeEntries: the default fields of the join table that entries for the groups carry are not modelled, since they do not decide which targets an edge has.
- EdgeUpdate.UpdateProgram: the same default fields are left out.
- EdgeUpdate.AccountEdges.Program: one method stands for the two builders' equal code; that it is equal is by reading.
- AccountRow.MakeCreateSpec: the default fields of the join table that the groups entry carries are left out, for the same reason.
- EdgeQueries.SecondRunJoinsOnlyEarlierParents: this is about queries with IN lists; a second run of the many-to-many query also repeats its join, which is not modelled.
- AuditGate.RunGate: the audit arrives as parsed JSON and the exceptions as text; opening and decoding files is not modelled.
- AuditReport.IterVulns: the generator is run to its end before the gate looks at findings; titles are kept only as far as joining them can crash; not-a-number and infinity in the report are not represented.
- File opening and decoding, command-line arguments and message texts of the script; the title that messages show.
