/** Selected columns: what querySpec and the loaders add to them, and why edges load the same. */
module Projection {
  import opened Support
  import opened EagerJoin

  const ID := "id"
  const PROXY_ID := "proxy_id"
  const ACCOUNT_ID := "account_id"
  const GROUP_ID := "group_id"

  // ---------- the columns of a query ----------

  /** AddColumnOnce and AppendFieldOnce. */
  function AddOnce(columns: seq<string>, column: string): seq<string> {
    if column in columns then columns else columns + [column]
  }

  function IsOther(): string -> bool {
    c => c != ID
  }

  /** AddColumnOnce for each of some columns. */
  function AddAll(columns: seq<string>, needed: seq<string>): (r: seq<string>)
    ensures columns <= r && forall c :: c in r <==> c in columns || c in needed
  {
    if needed == [] then columns
    else
      assert needed == needed[..|needed| - 1] + [needed[|needed| - 1]];
      AddOnce(AddAll(columns, needed[..|needed| - 1]), needed[|needed| - 1])
  }

  lemma AddOne(columns: seq<string>, a: string)
    ensures AddAll(columns, [a]) == AddOnce(columns, a)
  {
    assert [a][..0] == [];
  }

  lemma AddTwo(columns: seq<string>, a: string, b: string)
    ensures AddAll(columns, [a, b]) == AddOnce(AddOnce(columns, a), b)
  {
    AddOne(columns, a);
    assert [a, b][..1] == [a];
  }

  /** The columns of a query for an entity with an ID: all of them, or the ID, the selected ones, and
      the foreign keys that the many-to-one edges to load need. */
  function EntityColumns(all: seq<string>, fields: seq<string>, needed: seq<string>): seq<string> {
    if fields == [] then all else AddAll([ID] + Filter(IsOther(), fields), needed)
  }

  /** What an account query needs: the proxy's key, if the proxy is to be loaded. */
  function NeededKeys(withProxy: bool): seq<string> {
    if withProxy then [PROXY_ID] else []
  }

  /** The columns part of AccountQuery's querySpec. */
  method AccountQuerySpec(all: seq<string>, fields: seq<string>, withProxy: bool) returns (columns: seq<string>)
    ensures columns == EntityColumns(all, fields, NeededKeys(withProxy))
  {
    columns := all;
    if |fields| > 0 {
      columns := IDFirst(fields);
      AddOne(columns, PROXY_ID);
      if withProxy {
        columns := AddOnce(columns, PROXY_ID);
      }
    }
  }

  /** Its loop. */
  method IDFirst(fields: seq<string>) returns (columns: seq<string>)
    ensures columns == [ID] + Filter(IsOther(), fields)
  {
    columns := [ID];
    ghost var others: seq<string> := [];
    for i := 0 to |fields|
      invariant others == Filter(IsOther(), fields[..i])
      invariant columns == [ID] + others
    {
      TakeNext(fields, i);
      FilterAppend(IsOther(), fields[..i], fields[i]);
      if fields[i] != ID {
        columns := columns + [fields[i]];
        others := others + [fields[i]];
      }
    }
    TakeAll(fields);
  }

  function NeededEdgeKeys(withAccount: bool, withGroup: bool): seq<string> {
    if withAccount && withGroup then [ACCOUNT_ID, GROUP_ID]
    else if withAccount then [ACCOUNT_ID]
    else if withGroup then [GROUP_ID]
    else []
  }

  /** The columns of an account-group query, which has no ID of its own. */
  function AccountGroupColumns(all: seq<string>, fields: seq<string>, withAccount: bool, withGroup: bool): seq<string> {
    if fields == [] then all
    else AddAll(fields, NeededEdgeKeys(withAccount, withGroup))
  }

  /** The columns part of AccountGroupQuery's querySpec. */
  method AccountGroupQuerySpec(all: seq<string>, fields: seq<string>, withAccount: bool, withGroup: bool)
    returns (columns: seq<string>)
    ensures columns == AccountGroupColumns(all, fields, withAccount, withGroup)
  {
    columns := all;
    if |fields| > 0 {
      columns := [];
      for i := 0 to |fields|
        invariant columns == fields[..i]
      {
        columns := columns + [fields[i]];
      }
      if withAccount {
        columns := AddOnce(columns, ACCOUNT_ID);
      }
      if withGroup {
        columns := AddOnce(columns, GROUP_ID);
      }
      AddOne(fields, ACCOUNT_ID);
      AddOne(fields, GROUP_ID);
      AddTwo(fields, ACCOUNT_ID, GROUP_ID);
    }
  }

  /** The fields of a neighbour query, once a one-to-many loader has added its foreign key. */
  function ReferencingFields(fields: seq<string>, key: string): seq<string> {
    if fields == [] then [] else AddOnce(fields, key)
  }

  ghost predicate OccursOnce(columns: seq<string>, c: string) {
    c in columns && forall i, j :: 0 <= i < j < |columns| ==> !(columns[i] == c && columns[j] == c)
  }

  /** The ID comes first and is not repeated, nothing selected is lost, and nothing but the ID and the
      needed foreign keys is added. */
  lemma SelectedColumns(all: seq<string>, fields: seq<string>, needed: seq<string>)
    requires fields != [] && ID !in needed
    ensures var columns := EntityColumns(all, fields, needed);
            && columns[0] == ID && OccursOnce(columns, ID)
            && (forall c :: c in columns <==> c == ID || c in fields || c in needed)
  {
    var others := Filter(IsOther(), fields);
    assert forall i :: 0 <= i < |others| ==> others[i] != ID;
    assert forall c :: c in others <==> c in fields && c != ID;
    AddedOnce([ID] + others, needed);
  }

  lemma {:induction false} AddedOnce(columns: seq<string>, needed: seq<string>)
    requires OccursOnce(columns, ID) && ID !in needed
    ensures OccursOnce(AddAll(columns, needed), ID)
  {
    if needed != [] {
      assert needed == needed[..|needed| - 1] + [needed[|needed| - 1]];
      AddedOnce(columns, needed[..|needed| - 1]);
    }
  }

  /** The selected columns of account groups stay, in order and in front; nothing but the keys of the
      edges to load is added. Without a selection all columns are there. */
  lemma SelectedEdgeColumns(all: seq<string>, fields: seq<string>, withAccount: bool, withGroup: bool)
    ensures var columns := AccountGroupColumns(all, fields, withAccount, withGroup);
            if fields == [] then columns == all
            else fields <= columns &&
                 forall c :: c in columns <==> c in fields || (withAccount && c == ACCOUNT_ID) || (withGroup && c == GROUP_ID)
  {
  }

  /** The loaders ask for a foreign key besides what is selected, if anything is, and for it once. */
  lemma ReferencingKept(fields: seq<string>, key: string)
    ensures var asked := ReferencingFields(fields, key);
            if fields == [] then asked == []
            else fields <= asked && (forall c :: c in asked <==> c in fields || c == key) && (key in fields ==> asked == fields)
  {
  }

  // ---------- rows and what is decoded from them ----------

  /** A table row; a node is decoded from the selected columns, and its other fields are zero. */
  type Row = map<string, Option<int>>

  function Decode(columns: seq<string>, row: Row): Row {
    map c | c in row && c in columns :: row[c]
  }

  /** A key, as an optional value. */
  function Key(c: string): Row -> Option<int> {
    (row: Row) => if c in row then row[c] else None
  }

  function Decoder(columns: seq<string>): Row -> Row {
    (row: Row) => Decode(columns, row)
  }

  /** Decoding leaves a key as it is. */
  ghost predicate Keeps<R(!new), K>(p: R -> R, key: R -> K) {
    forall r :: key(p(r)) == key(r)
  }

  /** One-to-many and one-to-one loads commute with projection of the neighbours. */
  lemma ScatterProjected<R(!new)>(ids: seq<int>, parent: R -> Option<int>, p: R -> R, rows: seq<R>, i: nat)
    requires Keeps(p, parent) && i < |ids|
    ensures Scatter(ids, parent, Map(p, rows))[i] == Map(p, Scatter(ids, parent, rows)[i])
  {
    assert forall k :: 0 <= k < |rows| ==> parent(rows[k]) == parent(p(rows[k]));
    ChildrenMap(p, parent, parent, ids[i], rows);
  }

  lemma RequestedProjected<R(!new)>(ids: seq<int>, parent: R -> Option<int>, p: R -> R, rows: seq<R>)
    requires Keeps(p, parent)
    ensures AllRequested(ids, parent, Map(p, rows)) == AllRequested(ids, parent, rows)
  {
    assert forall k :: 0 <= k < |rows| ==> parent(Map(p, rows)[k]) == parent(rows[k]);
  }

  /** So do many-to-one loads. */
  lemma TargetProjected<R(!new)>(key: R -> int, p: R -> R, fk: Option<int>, rows: seq<R>)
    requires Keeps(p, key)
    ensures Target(key, fk, Map(p, rows)) == match Target(key, fk, rows) case None => None case Some(r) => Some(p(r))
  {
    if fk.Some? {
      assert forall k :: 0 <= k < |rows| ==> key(rows[k]) == key(p(rows[k]));
      LastWithMap(p, key, key, fk.value, rows);
    }
  }

  /** And many-to-many loads: the groups of an account, projected, in the same order. */
  lemma GroupsProjected(p: GroupRow -> GroupRow, rows: seq<JoinRow>, accountId: int)
    requires Keeps(p, GroupRowKey())
    ensures GroupsOf(Map(ProjectedGroup(p), rows), accountId) == Map(p, GroupsOf(rows, accountId))
  {
    var projected := Map(ProjectedGroup(p), rows);
    FirstSeenProjected(p, rows);
    var q, seen := LinkedTo(rows, accountId), FirstSeen(rows);
    forall g
      ensures LinkedTo(projected, accountId)(g) == q(g)
    {
      LinkedProjected(p, rows, accountId, g.id);
    }
    assert forall g :: GroupRowKey()(p(g)) == GroupRowKey()(g);
    FilterMap(p, q, q, seen);
    FilterSame(LinkedTo(projected, accountId), q, Map(p, seen));
  }

  /** A join row whose group is projected. */
  function ProjectedGroup(p: GroupRow -> GroupRow): JoinRow -> JoinRow {
    (r: JoinRow) => JoinRow(r.accountId, p(r.group))
  }

  lemma LinkedProjected(p: GroupRow -> GroupRow, rows: seq<JoinRow>, accountId: int, groupId: int)
    requires Keeps(p, GroupRowKey())
    ensures Linked(Map(ProjectedGroup(p), rows), accountId, groupId) == Linked(rows, accountId, groupId)
  {
    var projected := Map(ProjectedGroup(p), rows);
    assert forall k :: 0 <= k < |rows| ==>
      projected[k].accountId == rows[k].accountId && GroupRowKey()(projected[k].group) == GroupRowKey()(rows[k].group);
  }

  lemma {:induction false} FirstSeenProjected(p: GroupRow -> GroupRow, rows: seq<JoinRow>)
    requires Keeps(p, GroupRowKey())
    ensures FirstSeen(Map(ProjectedGroup(p), rows)) == Map(p, FirstSeen(rows))
  {
    if rows != [] {
      var init, last := rows[..|rows| - 1], rows[|rows| - 1].group;
      FirstSeenProjected(p, init);
      assert Map(ProjectedGroup(p), rows)[..|rows| - 1] == Map(ProjectedGroup(p), init);
      var seen := FirstSeen(init);
      assert GroupRowKey()(p(last)) == GroupRowKey()(last);
      assert forall i :: 0 <= i < |seen| ==> GroupRowKey()(Map(p, seen)[i]) == GroupRowKey()(seen[i]);
      assert HasId(Map(p, seen), last.id) == HasId(seen, last.id);
      MapAppend(p, seen, last);
    }
  }

  // ---------- eager loading commutes with selection ----------

  /** The keys that the loaders read from a selected account, the needed ones among them, are those of its row. */
  lemma EntityKeysKept(all: seq<string>, fields: seq<string>, needed: seq<string>, c: string)
    requires ID in all && (forall k :: k in needed ==> k in all) && (c == ID || c in fields || c in needed) && c in all
    ensures Keeps(Decoder(EntityColumns(all, fields, needed)), Key(c))
  {
    if fields != [] {
      var others := Filter(IsOther(), fields);
      assert forall k :: k in others <==> k in fields && k != ID;
    }
    assert c in EntityColumns(all, fields, needed);
  }

  /** And so are those read from a selected account group. */
  lemma AccountGroupKeysKept(all: seq<string>, fields: seq<string>, withAccount: bool, withGroup: bool)
    requires ACCOUNT_ID in all && GROUP_ID in all
    ensures var columns := AccountGroupColumns(all, fields, withAccount, withGroup);
            && (withAccount ==> Keeps(Decoder(columns), Key(ACCOUNT_ID))) && (withGroup ==> Keeps(Decoder(columns), Key(GROUP_ID)))
  {
  }

  /** Whatever is selected of the usage logs, and whatever keys their own edges need, every account gets
      the logs it gets when nothing is selected, less the other columns. */
  lemma UsageLogsCommute(ids: seq<int>, all: seq<string>, fields: seq<string>, needed: seq<string>, rows: seq<Row>, i: nat)
    requires ID in all && ACCOUNT_ID in all && (forall k :: k in needed ==> k in all) && i < |ids|
    ensures var p := Decoder(EntityColumns(all, ReferencingFields(fields, ACCOUNT_ID), needed));
            && Scatter(ids, Key(ACCOUNT_ID), Map(p, rows))[i] == Map(p, Scatter(ids, Key(ACCOUNT_ID), rows)[i])
            && AllRequested(ids, Key(ACCOUNT_ID), Map(p, rows)) == AllRequested(ids, Key(ACCOUNT_ID), rows)
  {
    var selected := ReferencingFields(fields, ACCOUNT_ID);
    var p := Decoder(EntityColumns(all, selected, needed));
    assert ACCOUNT_ID in EntityColumns(all, selected, needed) by {
      if selected != [] {
        assert ACCOUNT_ID in Filter(IsOther(), selected);
      }
    }
    ScatterProjected(ids, Key(ACCOUNT_ID), p, rows, i);
    RequestedProjected(ids, Key(ACCOUNT_ID), p, rows);
  }

  lemma AccountGroupsCommute(
    ids: seq<int>, all: seq<string>, fields: seq<string>, withAccount: bool, withGroup: bool, rows: seq<Row>, i: nat)
    requires ACCOUNT_ID in all && i < |ids|
    ensures var p := Decoder(AccountGroupColumns(all, ReferencingFields(fields, ACCOUNT_ID), withAccount, withGroup));
            && Scatter(ids, Key(ACCOUNT_ID), Map(p, rows))[i] == Map(p, Scatter(ids, Key(ACCOUNT_ID), rows)[i])
            && AllRequested(ids, Key(ACCOUNT_ID), Map(p, rows)) == AllRequested(ids, Key(ACCOUNT_ID), rows)
  {
    var columns := AccountGroupColumns(all, ReferencingFields(fields, ACCOUNT_ID), withAccount, withGroup);
    assert ACCOUNT_ID in columns;
    ScatterProjected(ids, Key(ACCOUNT_ID), Decoder(columns), rows, i);
    RequestedProjected(ids, Key(ACCOUNT_ID), Decoder(columns), rows);
  }

  function IDOf(): Row -> int {
    (row: Row) => OrElse(Key(ID)(row), 0)
  }

  /** Whatever is selected of the proxies and of the accounts, an account's proxy is the same. */
  lemma ProxyCommutes(
    allAccounts: seq<string>, accountFields: seq<string>, all: seq<string>, fields: seq<string>, needed: seq<string>,
    account: Row, rows: seq<Row>)
    requires ID in allAccounts && PROXY_ID in allAccounts && ID in all && forall k :: k in needed ==> k in all
    ensures var a, p := Decoder(EntityColumns(allAccounts, accountFields, NeededKeys(true))), Decoder(EntityColumns(all, fields, needed));
            Target(IDOf(), Key(PROXY_ID)(a(account)), Map(p, rows)) ==
            match Target(IDOf(), Key(PROXY_ID)(account), rows) case None => None case Some(r) => Some(p(r))
  {
    EntityKeysKept(allAccounts, accountFields, NeededKeys(true), PROXY_ID);
    var p := Decoder(EntityColumns(all, fields, needed));
    EntityKeysKept(all, fields, needed, ID);
    assert forall r :: IDOf()(p(r)) == OrElse(Key(ID)(p(r)), 0);
    TargetProjected(IDOf(), p, Key(PROXY_ID)(account), rows);
  }

  // ---------- the many-to-many query ----------

  /** What the row hook of loadGroups is given: the join's account, then the selected columns. */
  function HookValues(columns: seq<string>, accountId: int, group: Row): seq<Option<int>> {
    [Some(accountId)] + Map((c: string) => Key(c)(group), columns)
  }

  /** The hook reads the account from the first value and the group from the second, whatever is
      selected; a table's own columns begin with its ID. */
  lemma HookReadsIDs(all: seq<string>, fields: seq<string>, needed: seq<string>, accountId: int, group: Row)
    requires all != [] && all[0] == ID
    ensures var values := HookValues(EntityColumns(all, fields, needed), accountId, group);
            |values| > 1 && values[0] == Some(accountId) && values[1] == Key(ID)(group)
  {
    if fields != [] {
      assert EntityColumns(all, fields, needed)[0] == ID;
    }
  }

  const NAME := "name"

  /** A group as it is decoded from the selected columns. */
  function GroupDecoder(columns: seq<string>): GroupRow -> GroupRow {
    (g: GroupRow) => GroupRow(if ID in columns then g.id else 0, if NAME in columns then g.name else "")
  }

  /** A decoded group has its ID, and its name if that is selected. */
  lemma DecodedGroup(all: seq<string>, fields: seq<string>, needed: seq<string>, g: GroupRow)
    requires all != [] && all[0] == ID && NAME in all && NAME !in needed
    ensures var decoded := GroupDecoder(EntityColumns(all, fields, needed))(g);
            decoded.id == g.id && decoded.name == if fields == [] || NAME in fields then g.name else ""
  {
    var columns := EntityColumns(all, fields, needed);
    assert ID in columns by {
      assert columns[0] == ID;
    }
    if fields != [] {
      assert forall c :: c in Filter(IsOther(), fields) <==> c in fields && c != ID;
    }
  }

  /** Whatever is selected of the groups, an account's groups are the same, in the same order. */
  lemma GroupsCommute(all: seq<string>, fields: seq<string>, needed: seq<string>, rows: seq<JoinRow>, accountId: int)
    requires all != [] && all[0] == ID
    ensures var p := GroupDecoder(EntityColumns(all, fields, needed));
            GroupsOf(Map(ProjectedGroup(p), rows), accountId) == Map(p, GroupsOf(rows, accountId))
  {
    var columns := EntityColumns(all, fields, needed);
    assert ID in columns by {
      assert columns[0] == ID;
    }
    GroupsProjected(GroupDecoder(columns), rows, accountId);
  }

  // ---------- DISTINCT ----------

  /** SELECT DISTINCT: each row once. */
  function Dedup<R(==, !new)>(rows: seq<R>): (r: seq<R>)
    ensures forall x :: x in r <==> x in rows
    ensures Distinct(r)
  {
    if rows == [] then []
    else
      var init, last := rows[..|rows| - 1], rows[|rows| - 1];
      var r := Dedup(init);
      assert rows == init + [last];
      if last in r then r else r + [last]
  }

  lemma {:induction false} DedupDistinct<R(!new)>(rows: seq<R>)
    requires Distinct(rows)
    ensures Dedup(rows) == rows
  {
    if rows != [] {
      var init, last := rows[..|rows| - 1], rows[|rows| - 1];
      DedupDistinct(init);
      assert rows == init + [last];
      assert forall i :: 0 <= i < |init| ==> init[i] == rows[i] != last;
    }
  }

  ghost predicate DifferIn(a: Row, b: Row, keys: seq<string>) {
    exists k :: k in keys && Key(k)(a) != Key(k)(b)
  }

  /** Every row has a primary key, and no two have the same. */
  ghost predicate Keyed(rows: seq<Row>, keys: seq<string>) {
    && (forall i :: 0 <= i < |rows| ==> HasKeys(rows[i], keys))
    && (forall i, j :: 0 <= i < j < |rows| ==> DifferIn(rows[i], rows[j], keys))
  }

  ghost predicate HasKeys(row: Row, keys: seq<string>) {
    forall k :: k in keys ==> Key(k)(row).Some?
  }

  /** DISTINCT loses no row of any table exactly if the whole primary key is among the columns. */
  lemma DistinctLosesNothingIff(columns: seq<string>, keys: seq<string>)
    ensures (forall rows: seq<Row> :: Keyed(rows, keys) ==> Dedup(Map(Decoder(columns), rows)) == Map(Decoder(columns), rows)) <==>
            forall k :: k in keys ==> k in columns
  {
    if forall k :: k in keys ==> k in columns {
      forall rows: seq<Row> | Keyed(rows, keys)
        ensures Dedup(Map(Decoder(columns), rows)) == Map(Decoder(columns), rows)
      {
        KeyedStaysDistinct(columns, keys, rows);
        DedupDistinct(Map(Decoder(columns), rows));
      }
    } else {
      var k :| k in keys && k !in columns;
      TwoRowsCollapse(columns, keys, k);
    }
  }

  lemma KeyedStaysDistinct(columns: seq<string>, keys: seq<string>, rows: seq<Row>)
    requires Keyed(rows, keys) && forall k :: k in keys ==> k in columns
    ensures Distinct(Map(Decoder(columns), rows))
  {
    var decoded := Map(Decoder(columns), rows);
    forall i, j | 0 <= i < j < |decoded|
      ensures decoded[i] != decoded[j]
    {
      var k :| k in keys && Key(k)(rows[i]) != Key(k)(rows[j]);
      assert Key(k)(decoded[i]) == Key(k)(rows[i]) && Key(k)(decoded[j]) == Key(k)(rows[j]);
    }
  }

  lemma TwoRowsCollapse(columns: seq<string>, keys: seq<string>, k: string)
    requires k in keys && k !in columns
    ensures exists rows: seq<Row> :: Keyed(rows, keys) && Dedup(Map(Decoder(columns), rows)) != Map(Decoder(columns), rows)
  {
    var a: Row := map c | c in keys :: Some(1);
    var b: Row := a[k := Some(2)];
    var rows := [a, b];
    assert HasKeys(a, keys) && HasKeys(b, keys);
    assert Key(k)(a) != Key(k)(b);
    assert DifferIn(a, b, keys) && Keyed(rows, keys);
    var decoded := Map(Decoder(columns), rows);
    assert decoded[0] == decoded[1];
    assert !Distinct(decoded);
  }

  /** An account query always selects its ID, so DISTINCT is harmless; an account-group query need not
      select the group, and then DISTINCT drops memberships that look alike. */
  lemma AccountGroupsDistinctIff(all: seq<string>, fields: seq<string>, withGroup: bool)
    requires ACCOUNT_ID in all && GROUP_ID in all
    ensures var columns := AccountGroupColumns(all, ReferencingFields(fields, ACCOUNT_ID), false, withGroup);
            (forall rows: seq<Row> :: Keyed(rows, [ACCOUNT_ID, GROUP_ID]) ==>
               Dedup(Map(Decoder(columns), rows)) == Map(Decoder(columns), rows)) <==>
            fields == [] || GROUP_ID in fields || withGroup
  {
    var columns := AccountGroupColumns(all, ReferencingFields(fields, ACCOUNT_ID), false, withGroup);
    DistinctLosesNothingIff(columns, [ACCOUNT_ID, GROUP_ID]);
    assert ACCOUNT_ID in columns && ACCOUNT_ID != GROUP_ID;
    assert GROUP_ID in columns <==> fields == [] || GROUP_ID in fields || withGroup;
  }

  lemma AccountsDistinct(all: seq<string>, fields: seq<string>, needed: seq<string>, rows: seq<Row>)
    requires ID in all && Keyed(rows, [ID])
    ensures var p := Decoder(EntityColumns(all, fields, needed)); Dedup(Map(p, rows)) == Map(p, rows)
  {
    var columns := EntityColumns(all, fields, needed);
    assert ID in columns by {
      if fields != [] {
        assert columns[0] == ID;
      }
    }
    DistinctLosesNothingIff(columns, [ID]);
  }
}
