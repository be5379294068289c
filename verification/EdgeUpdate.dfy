/** The edge changes of an update: what the builder calls collect in mutation.go, the program that
    sqlSave of account_update.go makes of them, and what executing the program does. */
module EdgeUpdate {
  import opened Support
  import opened AccountRow

  function IdsOf(ids: seq<int>): set<int> {
    set k | k in ids
  }

  // ---------- an edge to many ----------

  /** A builder call on an edge to many. */
  datatype ManyCall = Add(ids: seq<int>) | Remove(ids: seq<int>) | Clear

  /** What the calls so far left in the mutation. */
  datatype Change = Change(added: set<int>, removed: set<int>, cleared: bool)

  const NoChange := Change({}, {}, false)

  function Collect(c: Change, call: ManyCall): Change {
    match call
    case Add(ids) => c.(added := c.added + IdsOf(ids))
    case Remove(ids) => c.(added := c.added - IdsOf(ids), removed := c.removed + IdsOf(ids))
    case Clear => c.(cleared := true)
  }

  class ToMany {
    var added: set<int>
    var removed: set<int>
    var cleared: bool

    constructor ()
      ensures View() == NoChange
    {
      added, removed, cleared := {}, {}, false;
    }

    function View(): Change
      reads this
    {
      Change(added, removed, cleared)
    }

    method AddIDs(ids: seq<int>)
      modifies this
      ensures View() == Collect(old(View()), Add(ids))
    {
      for i := 0 to |ids|
        invariant View() == Collect(old(View()), Add(ids[..i]))
      {
        added := added + {ids[i]};
        assert IdsOf(ids[..i + 1]) == IdsOf(ids[..i]) + {ids[i]};
      }
      TakeAll(ids);
    }

    method RemoveIDs(ids: seq<int>)
      modifies this
      ensures View() == Collect(old(View()), Remove(ids))
    {
      for i := 0 to |ids|
        invariant View() == Collect(old(View()), Remove(ids[..i]))
      {
        added := added - {ids[i]};
        removed := removed + {ids[i]};
        assert IdsOf(ids[..i + 1]) == IdsOf(ids[..i]) + {ids[i]};
      }
      TakeAll(ids);
    }

    method ClearEdge()
      modifies this
      ensures View() == Collect(old(View()), Clear)
    {
      cleared := true;
    }

    /** Builder calls in order. */
    method Run(calls: seq<ManyCall>)
      requires View() == NoChange
      modifies this
      ensures View() == CollectAll(calls)
    {
      for k := 0 to |calls|
        invariant View() == CollectAll(calls[..k])
      {
        assert calls[..k + 1][..k] == calls[..k];
        Call(calls[k]);
      }
      TakeAll(calls);
    }

    method Call(call: ManyCall)
      modifies this
      ensures View() == Collect(old(View()), call)
    {
      match call
      case Add(ids) => AddIDs(ids);
      case Remove(ids) => RemoveIDs(ids);
      case Clear => ClearEdge();
    }
  }

  // ---------- an edge to one ----------

  /** A builder call on an edge to one: setting the ID; clearing the edge; or clearing the field that
      holds the ID, which only the proxy has. */
  datatype OneCall = Set(id: int) | ClearOne | ClearField

  datatype OneChange = OneChange(target: Option<int>, cleared: bool, fieldCleared: bool)

  const NoOneChange := OneChange(None, false, false)

  function CollectOne(c: OneChange, hasField: bool, call: OneCall): OneChange {
    match call
    case Set(id) => c.(target := Some(id))
    case ClearOne => c.(cleared := true, fieldCleared := c.fieldCleared || hasField)
    case ClearField => c.(target := None, fieldCleared := true)
  }

  class ToOne {
    /** The edge's foreign key is a field of the entity. */
    const hasField: bool
    var target: Option<int>
    var cleared: bool
    var fieldCleared: bool

    constructor (hasField: bool)
      ensures View() == NoOneChange && this.hasField == hasField
    {
      this.hasField := hasField;
      target, cleared, fieldCleared := None, false, false;
    }

    function View(): OneChange
      reads this
    {
      OneChange(target, cleared, fieldCleared)
    }

    /** Whether sqlSave clears the edge. */
    predicate Cleared()
      reads this
    {
      fieldCleared || cleared
    }

    method SetID(id: int)
      modifies this
      ensures View() == CollectOne(old(View()), hasField, Set(id))
    {
      target := Some(id);
    }

    method ClearEdge()
      modifies this
      ensures View() == CollectOne(old(View()), hasField, ClearOne)
    {
      cleared := true;
      if hasField {
        fieldCleared := true;
      }
    }

    method ClearID()
      requires hasField
      modifies this
      ensures View() == CollectOne(old(View()), hasField, ClearField)
    {
      target := None;
      fieldCleared := true;
    }

    /** Builder calls in order. */
    method Run(calls: seq<OneCall>)
      requires View() == NoOneChange && forall k :: 0 <= k < |calls| && calls[k] == ClearField ==> hasField
      modifies this
      ensures View() == CollectOnes(hasField, calls)
    {
      for k := 0 to |calls|
        invariant View() == CollectOnes(hasField, calls[..k])
      {
        assert calls[..k + 1][..k] == calls[..k];
        Call(calls[k]);
      }
      TakeAll(calls);
    }

    method Call(call: OneCall)
      requires call == ClearField ==> hasField
      modifies this
      ensures View() == CollectOne(old(View()), hasField, call)
    {
      match call
      case Set(id) => SetID(id);
      case ClearOne => ClearEdge();
      case ClearField => ClearID();
    }
  }

  // ---------- the program ----------

  /** What sqlSave reads of one edge: whether it is cleared, and the targets removed and added. */
  datatype EdgeChange = EdgeChange(cleared: bool, removed: set<int>, added: set<int>)

  /** The Clear entries of an edge: one without targets clears all of it. */
  ghost predicate Clears(entries: seq<EdgeSpec>, edge: Edge, c: EdgeChange) {
    if c.cleared then entries == [EdgeSpec(edge, [])] else Lists(entries, c.removed)
  }

  class AccountEdges {
    const groups: ToMany
    const proxy: ToOne
    const oauthPoolCredential: ToOne
    const usageLogs: ToMany

    constructor ()
      ensures fresh(groups) && fresh(proxy) && fresh(oauthPoolCredential) && fresh(usageLogs)
      ensures groups.View() == usageLogs.View() == NoChange && proxy.View() == oauthPoolCredential.View() == NoOneChange
      ensures Valid()
    {
      groups := new ToMany();
      proxy := new ToOne(true);
      oauthPoolCredential := new ToOne(false);
      usageLogs := new ToMany();
    }

    /** The edges are kept apart, and the foreign key of the proxy alone is a field of the account. */
    ghost predicate Valid() {
      groups != usageLogs && proxy != oauthPoolCredential && proxy.hasField && !oauthPoolCredential.hasField
    }

    /** A builder call on one of the edges. */
    method Call(call: EdgeCall)
      requires Valid() && IsBuilderCall(call)
      modifies groups, proxy, oauthPoolCredential, usageLogs
      ensures groups.View() == if call.OnMany? && call.edge == Groups then Collect(old(groups.View()), call.many) else old(groups.View())
      ensures usageLogs.View() == if call.OnMany? && call.edge == UsageLogs then Collect(old(usageLogs.View()), call.many) else old(usageLogs.View())
      ensures proxy.View() == if call.OnOne? && call.edge == Proxy then CollectOne(old(proxy.View()), true, call.one) else old(proxy.View())
      ensures oauthPoolCredential.View() ==
              if call.OnOne? && call.edge == OauthPoolCredential then CollectOne(old(oauthPoolCredential.View()), false, call.one)
              else old(oauthPoolCredential.View())
    {
      match call
      case OnMany(e, many) =>
        if e == Groups {
          groups.Call(many);
        } else {
          usageLogs.Call(many);
        }
      case OnOne(e, one) =>
        if e == Proxy {
          proxy.Call(one);
        } else {
          oauthPoolCredential.Call(one);
        }
    }

    /** Builder calls in order: every edge collects its own. */
    method Run(calls: seq<EdgeCall>)
      requires Valid() && forall k :: 0 <= k < |calls| ==> IsBuilderCall(calls[k])
      requires groups.View() == usageLogs.View() == NoChange && proxy.View() == oauthPoolCredential.View() == NoOneChange
      modifies groups, proxy, oauthPoolCredential, usageLogs
      ensures groups.View() == CollectAll(ManyCalls(Groups, calls)) && usageLogs.View() == CollectAll(ManyCalls(UsageLogs, calls))
      ensures proxy.View() == CollectOnes(true, OneCalls(Proxy, calls))
      ensures oauthPoolCredential.View() == CollectOnes(false, OneCalls(OauthPoolCredential, calls))
    {
      for k := 0 to |calls|
        invariant groups.View() == CollectAll(ManyCalls(Groups, calls[..k]))
        invariant usageLogs.View() == CollectAll(ManyCalls(UsageLogs, calls[..k]))
        invariant proxy.View() == CollectOnes(true, OneCalls(Proxy, calls[..k]))
        invariant oauthPoolCredential.View() == CollectOnes(false, OneCalls(OauthPoolCredential, calls[..k]))
      {
        OneMoreCall(Groups, true, calls, k);
        OneMoreCall(UsageLogs, true, calls, k);
        OneMoreCall(Proxy, true, calls, k);
        OneMoreCall(OauthPoolCredential, false, calls, k);
        Call(calls[k]);
      }
      TakeAll(calls);
    }

    function Changes(edge: Edge): EdgeChange
      reads groups, proxy, oauthPoolCredential, usageLogs
    {
      match edge
      case Groups => EdgeChange(groups.cleared, groups.removed, groups.added)
      case Proxy => EdgeChange(proxy.Cleared(), {}, IdSet(proxy.target))
      case OauthPoolCredential => EdgeChange(oauthPoolCredential.Cleared(), {}, IdSet(oauthPoolCredential.target))
      case UsageLogs => EdgeChange(usageLogs.cleared, usageLogs.removed, usageLogs.added)
    }

    /** The edge part of sqlSave, the same in both update builders. */
    method Program() returns (clear: seq<EdgeSpec>, add: seq<EdgeSpec>)
      ensures forall e :: Clears(EntriesFor(clear, e), e, Changes(e)) && Lists(EntriesFor(add, e), Changes(e).added)
    {
      clear, add := UpdateProgram(Changes(Groups), Changes(Proxy), Changes(OauthPoolCredential), Changes(UsageLogs));
    }
  }

  predicate AllFor(entries: seq<EdgeSpec>, edge: Edge) {
    forall i :: 0 <= i < |entries| ==> entries[i].edge == edge
  }

  /** One edge's part of sqlSave. */
  method EdgeEntries(edge: Edge, c: EdgeChange) returns (clear: seq<EdgeSpec>, add: seq<EdgeSpec>)
    ensures Clears(clear, edge, c) && Lists(add, c.added) && AllFor(clear, edge) && AllFor(add, edge)
  {
    clear := [];
    if c.cleared {
      clear := [EdgeSpec(edge, [])];
    }
    if c.removed != {} && !c.cleared {
      clear := EdgeEntry(edge, c.removed);
    }
    add := EdgeEntry(edge, c.added);
  }

  function Pick<T>(edge: Edge, groups: T, proxy: T, credential: T, logs: T): T {
    match edge case Groups => groups case Proxy => proxy case OauthPoolCredential => credential case UsageLogs => logs
  }

  /** The entries of all edges, one edge after the other. */
  method UpdateProgram(groups: EdgeChange, proxy: EdgeChange, credential: EdgeChange, logs: EdgeChange)
    returns (clear: seq<EdgeSpec>, add: seq<EdgeSpec>)
    ensures forall e :: Clears(EntriesFor(clear, e), e, Pick(e, groups, proxy, credential, logs))
    ensures forall e :: Lists(EntriesFor(add, e), Pick(e, groups, proxy, credential, logs).added)
  {
    var groupsClear, groupsAdd := EdgeEntries(Groups, groups);
    var proxyClear, proxyAdd := EdgeEntries(Proxy, proxy);
    var credentialClear, credentialAdd := EdgeEntries(OauthPoolCredential, credential);
    var logsClear, logsAdd := EdgeEntries(UsageLogs, logs);
    clear := Join(groupsClear, proxyClear, credentialClear, logsClear);
    add := Join(groupsAdd, proxyAdd, credentialAdd, logsAdd);
  }

  /** Appends the entries of the edges, each of which can be found again. */
  method Join(groups: seq<EdgeSpec>, proxy: seq<EdgeSpec>, credential: seq<EdgeSpec>, logs: seq<EdgeSpec>)
    returns (all: seq<EdgeSpec>)
    requires AllFor(groups, Groups) && AllFor(proxy, Proxy) && AllFor(credential, OauthPoolCredential) && AllFor(logs, UsageLogs)
    ensures forall e :: EntriesFor(all, e) == Pick(e, groups, proxy, credential, logs)
  {
    all := groups + proxy + credential + logs;
    forall e
      ensures EntriesFor(all, e) == Pick(e, groups, proxy, credential, logs)
    {
      EntriesSplit(groups, proxy, credential, logs, e);
    }
  }

  // ---------- executing it ----------

  /** The targets of every edge of the account. */
  type Targets = Edge -> set<int>

  predicate IsUnique(edge: Edge) {
    edge == Proxy || edge == OauthPoolCredential
  }

  function ExecClear(entry: EdgeSpec, before: Targets): Targets {
    (e: Edge) =>
      if e != entry.edge then before(e) else if entry.nodes == [] then {} else before(e) - IdsOf(entry.nodes)
  }

  /** Adding to an edge to one replaces its target. */
  function ExecAdd(entry: EdgeSpec, before: Targets): Targets {
    (e: Edge) =>
      if e != entry.edge then before(e) else if IsUnique(e) then IdsOf(entry.nodes) else before(e) + IdsOf(entry.nodes)
  }

  function ExecClears(clear: seq<EdgeSpec>, before: Targets): Targets {
    if clear == [] then before else ExecClear(clear[|clear| - 1], ExecClears(clear[..|clear| - 1], before))
  }

  function ExecAdds(add: seq<EdgeSpec>, before: Targets): Targets {
    if add == [] then before else ExecAdd(add[|add| - 1], ExecAdds(add[..|add| - 1], before))
  }

  /** All Clear entries are executed before the Add entries. */
  function Exec(clear: seq<EdgeSpec>, add: seq<EdgeSpec>, before: Targets): Targets {
    ExecAdds(add, ExecClears(clear, before))
  }

  /** Only an edge's own entries change it. */
  lemma {:induction false} ClearsOwnEdge(clear: seq<EdgeSpec>, before: Targets, e: Edge)
    ensures ExecClears(clear, before)(e) == ExecClears(EntriesFor(clear, e), before)(e)
  {
    if clear != [] {
      ClearsOwnEdge(clear[..|clear| - 1], before, e);
    }
  }

  lemma {:induction false} AddsOwnEdge(add: seq<EdgeSpec>, before: Targets, e: Edge)
    ensures ExecAdds(add, before)(e) == ExecAdds(EntriesFor(add, e), before)(e)
  {
    if add != [] {
      AddsOwnEdge(add[..|add| - 1], before, e);
    }
  }

  /** What an update means for one edge. */
  function Meaning(edge: Edge, c: EdgeChange, before: set<int>): set<int> {
    if IsUnique(edge) && c.added != {} then c.added else (if c.cleared then {} else before - c.removed) + c.added
  }

  /** Executing the program, whatever else is in it, gives every edge its meaning. An edge has at most
      one Clear and one Add entry, and its Clear entry is empty exactly if the edge was cleared. */
  lemma ProgramMeaning(clear: seq<EdgeSpec>, add: seq<EdgeSpec>, e: Edge, c: EdgeChange, before: Targets)
    requires Clears(EntriesFor(clear, e), e, c) && Lists(EntriesFor(add, e), c.added)
    ensures Exec(clear, add, before)(e) == Meaning(e, c, before(e))
    ensures |EntriesFor(clear, e)| <= 1 && |EntriesFor(add, e)| <= 1
    ensures EntriesFor(clear, e) == [EdgeSpec(e, [])] <==> c.cleared
  {
    var own, ownAdd := EntriesFor(clear, e), EntriesFor(add, e);
    var between := ExecClears(clear, before);
    ClearsOwnEdge(clear, before, e);
    OwnClear(own, e, c, before);
    AddsOwnEdge(add, between, e);
    OwnAdd(ownAdd, e, c.added, between);
  }

  lemma ListedIds(entries: seq<EdgeSpec>, ids: set<int>)
    requires Lists(entries, ids) && entries != []
    ensures IdsOf(entries[0].nodes) == ids && entries[0].nodes != []
  {
    var nodes := entries[0].nodes;
    assert forall k :: k in nodes <==> k in ids;
    assert nodes != [] && IdsOf(nodes) == ids;
  }

  lemma OwnClear(own: seq<EdgeSpec>, e: Edge, c: EdgeChange, before: Targets)
    requires Clears(own, e, c) && AllFor(own, e)
    ensures ExecClears(own, before)(e) == if c.cleared then {} else before(e) - c.removed
  {
    if own != [] {
      assert own[..|own| - 1] == [];
      if !c.cleared {
        ListedIds(own, c.removed);
      }
    }
  }

  lemma OwnAdd(own: seq<EdgeSpec>, e: Edge, added: set<int>, before: Targets)
    requires Lists(own, added) && AllFor(own, e)
    ensures ExecAdds(own, before)(e) == if IsUnique(e) && added != {} then added else before(e) + added
  {
    if own != [] {
      assert own[..|own| - 1] == [];
      ListedIds(own, added);
    }
  }

  // ---------- runs of builder calls on an edge to many ----------

  function CollectAll(calls: seq<ManyCall>): Change {
    if calls == [] then NoChange else Collect(CollectAll(calls[..|calls| - 1]), calls[|calls| - 1])
  }

  /** The calls taken one at a time. */
  function Replay(calls: seq<ManyCall>, before: set<int>): set<int> {
    if calls == [] then before
    else
      var s := Replay(calls[..|calls| - 1], before);
      match calls[|calls| - 1]
      case Add(ids) => s + IdsOf(ids)
      case Remove(ids) => s - IdsOf(ids)
      case Clear => {}
  }

  function MeaningOfMany(c: Change, before: set<int>): set<int> {
    Meaning(Groups, EdgeChange(c.cleared, c.removed, c.added), before)
  }

  function WithoutClears(calls: seq<ManyCall>): seq<ManyCall> {
    Filter((c: ManyCall) => !c.Clear?, calls)
  }

  /** Whatever the order of the calls, an update clears first and does the rest, in order, afterwards. */
  lemma {:induction false} ClearsAreHoisted(calls: seq<ManyCall>, before: set<int>)
    ensures CollectAll(calls).cleared <==> Clear in calls
    ensures MeaningOfMany(CollectAll(calls), before) == Replay(WithoutClears(calls), if Clear in calls then {} else before)
  {
    ClearedIff(calls);
    PendingReplay(calls, if Clear in calls then {} else before);
  }

  lemma {:induction false} ClearedIff(calls: seq<ManyCall>)
    ensures CollectAll(calls).cleared <==> Clear in calls
  {
    if calls != [] {
      ClearedIff(calls[..|calls| - 1]);
      assert calls == calls[..|calls| - 1] + [calls[|calls| - 1]];
    }
  }

  lemma {:induction false} PendingReplay(calls: seq<ManyCall>, base: set<int>)
    ensures Replay(WithoutClears(calls), base) == base - CollectAll(calls).removed + CollectAll(calls).added
  {
    if calls != [] {
      var init, last := calls[..|calls| - 1], calls[|calls| - 1];
      PendingReplay(init, base);
      if !last.Clear? {
        assert (WithoutClears(init) + [last])[..|WithoutClears(init)|] == WithoutClears(init);
      }
    }
  }

  /** The targets added before a Clear that no later call mentions. */
  function Stale(calls: seq<ManyCall>): set<int> {
    if calls == [] then {}
    else
      var init := calls[..|calls| - 1];
      match calls[|calls| - 1]
      case Add(ids) => Stale(init) - IdsOf(ids)
      case Remove(ids) => Stale(init) - IdsOf(ids)
      case Clear => CollectAll(init).added
  }

  predicate Mentions(call: ManyCall, id: int) {
    !call.Clear? && id in call.ids
  }

  ghost predicate StaleSince(calls: seq<ManyCall>, k: int, id: int) {
    && 0 <= k < |calls| && calls[k].Clear? && id in CollectAll(calls[..k]).added
    && forall j :: k < j < |calls| ==> !Mentions(calls[j], id)
  }

  /** A target is stale exactly if some Clear came after it was added, and no call since mentions it. */
  lemma {:induction false} StaleIff(calls: seq<ManyCall>, id: int)
    ensures id in Stale(calls) <==> exists k :: StaleSince(calls, k, id)
  {
    if calls != [] {
      var init, last := calls[..|calls| - 1], calls[|calls| - 1];
      StaleIff(init, id);
      StaleIsAdded(init);
      forall k | 0 <= k < |init|
        ensures StaleSince(calls, k, id) <==> StaleSince(init, k, id) && !Mentions(last, id)
      {
        StaleStep(calls, k, id);
      }
      if last.Clear? {
        assert id in Stale(calls) ==> StaleSince(calls, |init|, id);
      } else {
        assert forall k :: StaleSince(calls, k, id) ==> 0 <= k < |init|;
      }
    }
  }

  lemma StaleStep(calls: seq<ManyCall>, k: int, id: int)
    requires 0 <= k < |calls| - 1
    ensures StaleSince(calls, k, id) <==> StaleSince(calls[..|calls| - 1], k, id) && !Mentions(calls[|calls| - 1], id)
  {
    var init := calls[..|calls| - 1];
    assert calls[..k] == init[..k];
    assert forall j :: k < j < |init| ==> init[j] == calls[j];
  }

  lemma {:induction false} StaleIsAdded(calls: seq<ManyCall>)
    ensures Stale(calls) <= CollectAll(calls).added
  {
    if calls != [] {
      StaleIsAdded(calls[..|calls| - 1]);
    }
  }

  /** An update differs from taking the calls one at a time by exactly the stale targets, which it keeps. */
  lemma {:induction false} UpdateKeepsStale(calls: seq<ManyCall>, before: set<int>)
    ensures MeaningOfMany(CollectAll(calls), before) == Replay(calls, before) + Stale(calls)
    ensures Replay(calls, before) !! Stale(calls)
  {
    if calls != [] {
      UpdateKeepsStale(calls[..|calls| - 1], before);
    }
  }

  /** So the two agree exactly when every target added before a Clear is mentioned after it. */
  lemma SequentialIff(calls: seq<ManyCall>, before: set<int>)
    ensures MeaningOfMany(CollectAll(calls), before) == Replay(calls, before) <==>
            forall k, id :: !StaleSince(calls, k, id)
  {
    UpdateKeepsStale(calls, before);
    var replayed, stale := Replay(calls, before), Stale(calls);
    assert replayed + stale == replayed <==> stale == {} by {
      if stale != {} {
        var id := SomeElement(stale);
        assert id in replayed + stale && id !in replayed;
      }
    }
    if stale != {} {
      var id := SomeElement(stale);
      StaleIff(calls, id);
    } else {
      forall k, id
        ensures !StaleSince(calls, k, id)
      {
        StaleIff(calls, id);
      }
    }
  }

  // ---------- runs of builder calls on an edge to one ----------

  function CollectOnes(hasField: bool, calls: seq<OneCall>): OneChange {
    if calls == [] then NoOneChange
    else CollectOne(CollectOnes(hasField, calls[..|calls| - 1]), hasField, calls[|calls| - 1])
  }

  function ReplayOne(calls: seq<OneCall>, before: set<int>): set<int> {
    if calls == [] then before else if calls[|calls| - 1].Set? then {calls[|calls| - 1].id} else {}
  }

  function MeaningOfOne(c: OneChange, before: set<int>): set<int> {
    Meaning(Proxy, EdgeChange(c.cleared || c.fieldCleared, {}, IdSet(c.target)), before)
  }

  /** On an edge to one an update does what the last call says, except that clearing the edge, unlike
      clearing its field, does not take back a target that was set before. */
  lemma {:induction false} LastCallWinsIff(hasField: bool, calls: seq<OneCall>, before: set<int>)
    ensures var pending := CollectOnes(hasField, calls).target;
            MeaningOfOne(CollectOnes(hasField, calls), before) == ReplayOne(calls, before) <==>
            !(calls != [] && calls[|calls| - 1] == ClearOne && pending.Some?)
    ensures CollectOnes(hasField, calls).target.Some? ==>
              MeaningOfOne(CollectOnes(hasField, calls), before) == {CollectOnes(hasField, calls).target.value}
  {
    if calls != [] {
      LastCallWinsIff(hasField, calls[..|calls| - 1], before);
    }
  }

  /** The k-th call sets the target, and all that follows is clearing the edge. */
  predicate IsLastSet(calls: seq<OneCall>, k: int) {
    0 <= k < |calls| && calls[k].Set? && forall j :: k < j < |calls| ==> calls[j] == ClearOne
  }

  /** A target is pending exactly if the last call but for clearings of the edge sets it. */
  lemma {:induction false} PendingIff(hasField: bool, calls: seq<OneCall>)
    ensures CollectOnes(hasField, calls).target.Some? <==> exists k :: IsLastSet(calls, k)
    ensures forall k :: IsLastSet(calls, k) ==> CollectOnes(hasField, calls).target == Some(calls[k].id)
  {
    if calls != [] {
      var n := |calls| - 1;
      PendingIff(hasField, calls[..n]);
      if calls[n] == ClearOne {
        assert forall k :: IsLastSet(calls, k) <==> IsLastSet(calls[..n], k);
      } else {
        assert forall k :: IsLastSet(calls, k) ==> k == n;
        if calls[n].Set? {
          assert IsLastSet(calls, n);
        }
      }
    }
  }

  /** What an update makes of an edge to one, said of the calls: a target that was set and then at most
      cleared over stays; otherwise it is as the last call says. */
  ghost predicate LastSays(calls: seq<OneCall>, before: set<int>, after: set<int>) {
    && (forall k :: IsLastSet(calls, k) ==> after == {calls[k].id})
    && ((forall k :: !IsLastSet(calls, k)) ==> after == if calls == [] then before else {})
    && (after == ReplayOne(calls, before) <==> forall k :: IsLastSet(calls, k) ==> k == |calls| - 1)
  }

  lemma OneMeans(edge: Edge, hasField: bool, calls: seq<OneCall>, clear: seq<EdgeSpec>, add: seq<EdgeSpec>, before: Targets)
    requires IsUnique(edge)
    requires var c := CollectOnes(hasField, calls);
             && Clears(EntriesFor(clear, edge), edge, EdgeChange(c.cleared || c.fieldCleared, {}, IdSet(c.target)))
             && Lists(EntriesFor(add, edge), IdSet(c.target))
    ensures LastSays(calls, before(edge), Exec(clear, add, before)(edge))
  {
    var c := CollectOnes(hasField, calls);
    ProgramMeaning(clear, add, edge, EdgeChange(c.cleared || c.fieldCleared, {}, IdSet(c.target)), before);
    LastCallWinsIff(hasField, calls, before(edge));
    PendingIff(hasField, calls);
  }

  lemma ManyMeans(edge: Edge, calls: seq<ManyCall>, clear: seq<EdgeSpec>, add: seq<EdgeSpec>, before: Targets)
    requires !IsUnique(edge)
    requires var c := CollectAll(calls);
             Clears(EntriesFor(clear, edge), edge, EdgeChange(c.cleared, c.removed, c.added)) && Lists(EntriesFor(add, edge), c.added)
    ensures Exec(clear, add, before)(edge) == Replay(WithoutClears(calls), if Clear in calls then {} else before(edge))
  {
    var c := CollectAll(calls);
    ProgramMeaning(clear, add, edge, EdgeChange(c.cleared, c.removed, c.added), before);
    ClearsAreHoisted(calls, before(edge));
  }

  // ---------- from builder calls to executed targets ----------

  /** A builder call on one of the edges. */
  datatype EdgeCall = OnMany(edge: Edge, many: ManyCall) | OnOne(edge: Edge, one: OneCall)

  /** Each edge has calls of its kind; only the proxy has a field to clear. */
  predicate IsBuilderCall(call: EdgeCall) {
    match call
    case OnMany(e, _) => !IsUnique(e)
    case OnOne(e, one) => IsUnique(e) && (one == ClearField ==> e == Proxy)
  }

  /** The calls on an edge to many, in order. */
  function ManyCalls(edge: Edge, calls: seq<EdgeCall>): seq<ManyCall> {
    if calls == [] then []
    else
      var init, last := ManyCalls(edge, calls[..|calls| - 1]), calls[|calls| - 1];
      if last.OnMany? && last.edge == edge then init + [last.many] else init
  }

  /** And on an edge to one. */
  function OneCalls(edge: Edge, calls: seq<EdgeCall>): seq<OneCall> {
    if calls == [] then []
    else
      var init, last := OneCalls(edge, calls[..|calls| - 1]), calls[|calls| - 1];
      if last.OnOne? && last.edge == edge then init + [last.one] else init
  }

  lemma OneMoreCall(edge: Edge, hasField: bool, calls: seq<EdgeCall>, k: nat)
    requires k < |calls|
    ensures CollectAll(ManyCalls(edge, calls[..k + 1])) ==
            var before := CollectAll(ManyCalls(edge, calls[..k]));
            if calls[k].OnMany? && calls[k].edge == edge then Collect(before, calls[k].many) else before
    ensures CollectOnes(hasField, OneCalls(edge, calls[..k + 1])) ==
            var before := CollectOnes(hasField, OneCalls(edge, calls[..k]));
            if calls[k].OnOne? && calls[k].edge == edge then CollectOne(before, hasField, calls[k].one) else before
  {
    assert calls[..k + 1][..k] == calls[..k];
    if calls[k].OnMany? {
      CollectAllStep(ManyCalls(edge, calls[..k]), calls[k].many);
    } else {
      CollectOnesStep(hasField, OneCalls(edge, calls[..k]), calls[k].one);
    }
  }

  lemma CollectAllStep(calls: seq<ManyCall>, call: ManyCall)
    ensures CollectAll(calls + [call]) == Collect(CollectAll(calls), call)
  {
    assert (calls + [call])[..|calls|] == calls;
  }

  lemma CollectOnesStep(hasField: bool, calls: seq<OneCall>, call: OneCall)
    ensures CollectOnes(hasField, calls + [call]) == CollectOne(CollectOnes(hasField, calls), hasField, call)
  {
    assert (calls + [call])[..|calls|] == calls;
  }

  /** Any builder calls on the edges of an account, in any order, then saving the update, then executing
      what it emits. Of the groups and the usage logs each has what clearing first, if it was cleared at
      all, and then taking its other calls in order leaves; of the proxy and the credential each has what
      its own last call says, but for targets that clearing the edge does not take back. */
  method Update(calls: seq<EdgeCall>) returns (clear: seq<EdgeSpec>, add: seq<EdgeSpec>)
    requires forall k :: 0 <= k < |calls| ==> IsBuilderCall(calls[k])
    ensures forall before: Targets :: IsUpdated(calls, before, Exec(clear, add, before))
  {
    var edges := new AccountEdges();
    edges.Run(calls);
    clear, add := edges.Program();
    forall before: Targets
      ensures IsUpdated(calls, before, Exec(clear, add, before))
    {
      ManyMeans(Groups, ManyCalls(Groups, calls), clear, add, before);
      ManyMeans(UsageLogs, ManyCalls(UsageLogs, calls), clear, add, before);
      OneMeans(Proxy, true, OneCalls(Proxy, calls), clear, add, before);
      OneMeans(OauthPoolCredential, false, OneCalls(OauthPoolCredential, calls), clear, add, before);
    }
  }

  ghost predicate IsUpdated(calls: seq<EdgeCall>, before: Targets, after: Targets) {
    var groups, logs := ManyCalls(Groups, calls), ManyCalls(UsageLogs, calls);
    && after(Groups) == Replay(WithoutClears(groups), if Clear in groups then {} else before(Groups))
    && after(UsageLogs) == Replay(WithoutClears(logs), if Clear in logs then {} else before(UsageLogs))
    && LastSays(OneCalls(Proxy, calls), before(Proxy), after(Proxy))
    && LastSays(OneCalls(OauthPoolCredential, calls), before(OauthPoolCredential), after(OauthPoolCredential))
  }
}
