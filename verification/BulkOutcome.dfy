/** What AccountCreateBulk.Save does, read forwards: how far the chain gets, and what that leaves. */
module BulkOutcome {
  import opened Support
  import opened AccountRow
  import opened BulkCreate
  import AC = AccountCreate

  /** How a mutation fares in a builder's hooks: it reaches the builder's own mutator, with the error
      that a hook raises afterwards if that succeeds; or it is refused; or a hook returns early. */
  datatype Passage =
    | Reached(own: Mutation, substitute: Option<Mutation>, after: Option<int>)
    | Refused(code: int)
    | Skipped(after: Option<int>)

  function Earlier(inner: Option<int>, outer: Option<int>): Option<int> {
    if inner.Some? then inner else outer
  }

  function Pass(hooks: seq<Hook>, j: nat, own: Mutation, substitute: Option<Mutation>): Passage
    requires j <= |hooks|
    decreases |hooks| - j
  {
    if j == |hooks| then Reached(own, substitute, None)
    else
      match hooks[j](InHand(own, substitute))
      case Reject(code) => Refused(code)
      case Skip => Skipped(None)
      case Forward(edited, next, after) =>
        match Pass(hooks, j + 1, Edited(own, substitute, edited), Passed(substitute, edited, next))
        case Reached(o, s, inner) => Reached(o, s, Earlier(inner, after))
        case Refused(code) => Refused(code)
        case Skipped(inner) => Skipped(Earlier(inner, after))
  }

  function PassOf(b: Builder): Passage {
    Pass(b.hooks, 0, b.own, None)
  }

  function FailsAfter(o: Outcome, after: Option<int>): Outcome {
    if o.err.Some? || after.None? then o else o.(err := Some(HookFailed(after.value)))
  }

  /** The hooks of a mutator are one step. */
  lemma {:induction false} HooksAreOneStep(
    env: Env, plan: seq<Builder>, i: nat, j: nat, own: Mutation, substitute: Option<Mutation>, specs: seq<CreateSpec>)
    requires i < |plan| && j <= |plan[i].hooks|
    ensures AtHook(env, plan, i, j, own, substitute, specs) ==
            match Pass(plan[i].hooks, j, own, substitute)
            case Reached(o, s, after) => FailsAfter(AtLink(env, plan, i, o, s, specs), after)
            case Refused(code) => Outcome(Some(HookFailed(code)), [], [], map[])
            case Skipped(after) => FailsAfter(Outcome(None, [], [], map[]), after)
    decreases |plan[i].hooks| - j
  {
    if j < |plan[i].hooks| {
      match plan[i].hooks[j](InHand(own, substitute))
      case Reject(_) =>
      case Skip =>
      case Forward(edited, next, after) =>
        HooksAreOneStep(env, plan, i, j + 1, Edited(own, substitute, edited), Passed(substitute, edited, next), specs);
    }
  }

  // ---------- how far the chain gets ----------

  /** The chain gets past this builder: its hooks let the mutation through, and it passes check. */
  predicate Links(env: Env, b: Builder) {
    PassOf(b).Reached? && CheckError(env, PassOf(b).own).None?
  }

  /** The mutation in hand when the builder's link builds. */
  function MutationOf(env: Env, b: Builder): Mutation
    requires Links(env, b)
  {
    InHand(PassOf(b).own, PassOf(b).substitute)
  }

  function NodeOf(env: Env, b: Builder): Node
    requires Links(env, b)
  {
    env.create(MutationOf(env, b)).0
  }

  function SpecOf(env: Env, b: Builder): CreateSpec
    requires Links(env, b)
  {
    env.create(MutationOf(env, b)).1
  }

  /** The first builder from i on that the chain does not get past, or the end. */
  function Stop(env: Env, plan: seq<Builder>, i: nat): (p: nat)
    requires i <= |plan|
    ensures i <= p <= |plan| && (forall k :: i <= k < p ==> Links(env, plan[k])) && (p < |plan| ==> !Links(env, plan[p]))
    decreases |plan| - i
  {
    if i < |plan| && Links(env, plan[i]) then Stop(env, plan, i + 1) else i
  }

  function SpecsBetween(env: Env, plan: seq<Builder>, i: nat, p: nat): seq<CreateSpec>
    requires i <= p <= |plan| && forall k :: i <= k < p ==> Links(env, plan[k])
  {
    seq(p - i, k requires 0 <= k < p - i => SpecOf(env, plan[i + k]))
  }

  /** What happens where the chain stops: at its end the batch is written. */
  function Bottom(env: Env, plan: seq<Builder>, p: nat, specs: seq<CreateSpec>): Outcome
    requires p <= |plan| && (p < |plan| ==> !Links(env, plan[p]))
  {
    if p == |plan| then Write(env, specs)
    else
      match PassOf(plan[p])
      case Refused(code) => Outcome(Some(HookFailed(code)), [], [], map[])
      case Skipped(after) => FailsAfter(Outcome(None, [], [], map[]), after)
      case Reached(own, _, _) => Outcome(Some(ValidationFailed(CheckError(env, own).value)), [], [], map[])
  }

  /** Some hook of the builder fails although the rest of the chain succeeded. */
  predicate Spoils(b: Builder) {
    PassOf(b).Reached? && PassOf(b).after.Some?
  }

  /** Mutator i on, or the write. */
  function From(env: Env, plan: seq<Builder>, i: nat, specs: seq<CreateSpec>): Outcome
    requires i <= |plan|
  {
    if i < |plan| then AtHook(env, plan, i, 0, plan[i].own, None, specs) else Write(env, specs)
  }

  /** Link k completes: nothing fails at the bottom, nor in a builder between. */
  ghost predicate Completes(plan: seq<Builder>, k: int, p: nat)
    requires p <= |plan|
  {
    0 <= k < p && forall l :: k < l < p ==> !Spoils(plan[l])
  }

  /** How the outcome at the bottom, with p links made from i on, shows at the top. */
  ghost predicate Unwinds(env: Env, plan: seq<Builder>, i: nat, p: nat, bottom: Outcome, o: Outcome)
    requires i <= p <= |plan| && forall k :: i <= k < p ==> Links(env, plan[k])
  {
    && o.writes == bottom.writes && o.ids == bottom.ids
    && (bottom.err.Some? ==> o == bottom)
    && (bottom.err.None? ==>
          && (o.err.None? <==> forall k :: i <= k < p ==> !Spoils(plan[k]))
          && (forall k :: k in o.saved <==> i <= k && Completes(plan, k, p))
          && (forall k :: k in o.saved ==> o.saved[k] == WithID(NodeOf(env, plan[k]), IDAt(o.ids, k))))
  }

  /** Link i over the outcome of the rest of the chain. */
  function OverLink(env: Env, plan: seq<Builder>, i: nat, inner: Outcome): Outcome
    requires i < |plan| && Links(env, plan[i])
  {
    if inner.err.Some? then inner
    else FailsAfter(inner.(saved := inner.saved[i := WithID(NodeOf(env, plan[i]), IDAt(inner.ids, i))]), PassOf(plan[i]).after)
  }

  /** One link on top of a chain that unwinds. */
  lemma UnwindLink(env: Env, plan: seq<Builder>, i: nat, p: nat, bottom: Outcome, inner: Outcome)
    requires i < p <= |plan| && Links(env, plan[i]) && forall k :: i <= k < p ==> Links(env, plan[k])
    requires bottom.saved == map[] && Unwinds(env, plan, i + 1, p, bottom, inner)
    ensures Unwinds(env, plan, i, p, bottom, OverLink(env, plan, i, inner))
  {
    if bottom.err.None? {
      if inner.err.Some? {
        var k :| i + 1 <= k < p && Spoils(plan[k]);
        assert !Completes(plan, i, p);
      } else {
        assert Completes(plan, i, p);
      }
    }
  }

  /** Mutator i, when the chain gets past it, is a link over the rest; otherwise it is the bottom. */
  lemma FromStep(env: Env, plan: seq<Builder>, i: nat, specs: seq<CreateSpec>)
    requires i <= |plan|
    ensures i < |plan| && Links(env, plan[i]) ==>
              From(env, plan, i, specs) == OverLink(env, plan, i, From(env, plan, i + 1, specs + [SpecOf(env, plan[i])]))
    ensures !(i < |plan| && Links(env, plan[i])) ==> From(env, plan, i, specs) == Bottom(env, plan, i, specs)
  {
    if i < |plan| {
      HooksAreOneStep(env, plan, i, 0, plan[i].own, None, specs);
    }
  }

  lemma SpecsStep(env: Env, plan: seq<Builder>, i: nat, p: nat, specs: seq<CreateSpec>)
    requires i < p <= |plan| && Links(env, plan[i]) && forall k :: i <= k < p ==> Links(env, plan[k])
    ensures specs + SpecsBetween(env, plan, i, p) == specs + [SpecOf(env, plan[i])] + SpecsBetween(env, plan, i + 1, p)
  {
  }

  /** Link i on top of a chain that unwinds from i + 1. */
  lemma ChainStep(env: Env, plan: seq<Builder>, i: nat, p: nat, specs: seq<CreateSpec>)
    requires i < p <= |plan| && Links(env, plan[i]) && forall k :: i <= k < p ==> Links(env, plan[k])
    requires p < |plan| ==> !Links(env, plan[p])
    requires var next := specs + [SpecOf(env, plan[i])];
             Unwinds(env, plan, i + 1, p, Bottom(env, plan, p, next + SpecsBetween(env, plan, i + 1, p)), From(env, plan, i + 1, next))
    ensures Unwinds(env, plan, i, p, Bottom(env, plan, p, specs + SpecsBetween(env, plan, i, p)), From(env, plan, i, specs))
  {
    var next := specs + [SpecOf(env, plan[i])];
    FromStep(env, plan, i, specs);
    SpecsStep(env, plan, i, p, specs);
    BottomSavesNothing(env, plan, p, next + SpecsBetween(env, plan, i + 1, p));
    UnwindLink(env, plan, i, p, Bottom(env, plan, p, next + SpecsBetween(env, plan, i + 1, p)), From(env, plan, i + 1, next));
  }

  lemma BottomSavesNothing(env: Env, plan: seq<Builder>, p: nat, specs: seq<CreateSpec>)
    requires p <= |plan| && (p < |plan| ==> !Links(env, plan[p]))
    ensures Bottom(env, plan, p, specs).saved == map[]
  {
  }

  /** The nested mutators do what the forward walk says. */
  lemma {:induction false} ChainUnwinds(env: Env, plan: seq<Builder>, i: nat, specs: seq<CreateSpec>)
    requires i <= |plan|
    ensures var p := Stop(env, plan, i);
            Unwinds(env, plan, i, p, Bottom(env, plan, p, specs + SpecsBetween(env, plan, i, p)), From(env, plan, i, specs))
    decreases |plan| - i
  {
    var p := Stop(env, plan, i);
    if i == p {
      FromStep(env, plan, i, specs);
      BottomSavesNothing(env, plan, i, specs);
      assert specs + SpecsBetween(env, plan, i, i) == specs;
    } else {
      ChainUnwinds(env, plan, i + 1, specs + [SpecOf(env, plan[i])]);
      ChainStep(env, plan, i, p, specs);
    }
  }

  // ---------- what Save promises ----------

  predicate AllLink(env: Env, plan: seq<Builder>) {
    forall k :: 0 <= k < |plan| ==> Links(env, plan[k])
  }

  /** Save's outcome is that of the forward walk. */
  lemma RunUnwinds(env: Env, plan: seq<Builder>)
    requires plan != []
    ensures var p := Stop(env, plan, 0);
            Unwinds(env, plan, 0, p, Bottom(env, plan, p, SpecsBetween(env, plan, 0, p)), Run(env, plan))
  {
    ChainUnwinds(env, plan, 0, []);
    var p := Stop(env, plan, 0);
    assert [] + SpecsBetween(env, plan, 0, p) == SpecsBetween(env, plan, 0, p);
  }

  /** Whatever the hooks do, at most one batch is written: exactly when every builder's hooks let its
      mutation through and every builder passes check, with one specification a builder, in order. */
  lemma WritesOnceIff(env: Env, plan: seq<Builder>)
    requires plan != []
    ensures Run(env, plan).writes == if AllLink(env, plan) then [BatchOf(env, SpecsBetween(env, plan, 0, |plan|))] else []
  {
    RunUnwinds(env, plan);
    var p := Stop(env, plan, 0);
    assert AllLink(env, plan) <==> p == |plan|;
  }

  /** The store took the batch. */
  predicate Committed(env: Env, plan: seq<Builder>) {
    AllLink(env, plan) && env.store(BatchOf(env, SpecsBetween(env, plan, 0, |plan|))).Ok?
  }

  /** Either everything is written and saved and there is no error, or nothing is and there is one. */
  ghost predicate AllOrNothing(env: Env, plan: seq<Builder>) {
    var o := Run(env, plan);
    if Committed(env, plan) then o.err.None? && forall k :: k in o.saved <==> 0 <= k < |plan|
    else o.err.Some? && o.saved == map[]
  }

  /** Save is all or nothing exactly when the chain does not end in a hook that returns early
      without an error, and no hook fails after the batch was taken. */
  lemma AllOrNothingIff(env: Env, plan: seq<Builder>)
    requires plan != []
    ensures var p := Stop(env, plan, 0);
            AllOrNothing(env, plan) <==>
            && !(p < |plan| && PassOf(plan[p]) == Skipped(None))
            && !(Committed(env, plan) && exists k :: 0 <= k < |plan| && Spoils(plan[k]))
  {
    RunUnwinds(env, plan);
    var o, p := Run(env, plan), Stop(env, plan, 0);
    assert AllLink(env, plan) <==> p == |plan|;
    if Committed(env, plan) {
      CommittedSaved(env, plan);
    } else if p < |plan| && PassOf(plan[p]) == Skipped(None) {
      SkippedSaved(env, plan);
    }
  }

  lemma CommittedSaved(env: Env, plan: seq<Builder>)
    requires plan != [] && Committed(env, plan)
    ensures Run(env, plan).err.None? <==> forall k :: 0 <= k < |plan| ==> !Spoils(plan[k])
    ensures Run(env, plan).err.None? ==> forall k :: k in Run(env, plan).saved <==> 0 <= k < |plan|
    ensures |plan| - 1 in Run(env, plan).saved
  {
    RunUnwinds(env, plan);
    assert Stop(env, plan, 0) == |plan|;
    assert Completes(plan, |plan| - 1, |plan|);
  }

  /** A hook that returns early leaves the builder before it saved, though nothing was written. */
  lemma SkippedSaved(env: Env, plan: seq<Builder>)
    requires plan != [] && Stop(env, plan, 0) < |plan| && PassOf(plan[Stop(env, plan, 0)]) == Skipped(None)
    ensures Run(env, plan).writes == []
    ensures Stop(env, plan, 0) == 0 ==> Run(env, plan).err.None?
    ensures Stop(env, plan, 0) > 0 ==> Stop(env, plan, 0) - 1 in Run(env, plan).saved
  {
    RunUnwinds(env, plan);
    var p := Stop(env, plan, 0);
    if p > 0 {
      assert Completes(plan, p - 1, p);
    }
  }

  // ---------- hooks that behave ----------

  /** The hook calls the next mutator and returns what that returned. It may edit or substitute. */
  ghost predicate Transparent(hook: Hook) {
    forall m :: hook(m).Forward? && hook(m).after.None?
  }

  ghost predicate AllTransparent(plan: seq<Builder>) {
    forall k, j :: 0 <= k < |plan| && 0 <= j < |plan[k].hooks| ==> Transparent(plan[k].hooks[j])
  }

  lemma {:induction false} TransparentReaches(hooks: seq<Hook>, j: nat, own: Mutation, substitute: Option<Mutation>)
    requires j <= |hooks| && forall k :: 0 <= k < |hooks| ==> Transparent(hooks[k])
    ensures Pass(hooks, j, own, substitute).Reached? && Pass(hooks, j, own, substitute).after.None?
    decreases |hooks| - j
  {
    if j < |hooks| {
      assert Transparent(hooks[j]);
      var d := hooks[j](InHand(own, substitute));
      TransparentReaches(hooks, j + 1, Edited(own, substitute, d.edited), Passed(substitute, d.edited, d.substitute));
    }
  }

  /** With transparent hooks a builder stops the chain only by failing check. Save writes exactly if
      none does, succeeds exactly if the store also takes the batch, and then has saved every builder,
      with its own node and ID; otherwise it has saved none. */
  lemma TransparentSave(env: Env, plan: seq<Builder>)
    requires plan != [] && AllTransparent(plan)
    ensures forall k :: 0 <= k < |plan| ==>
              PassOf(plan[k]).Reached? && (Links(env, plan[k]) <==> CheckError(env, PassOf(plan[k]).own).None?)
    ensures var o := Run(env, plan);
            && o.writes == (if AllLink(env, plan) then [BatchOf(env, SpecsBetween(env, plan, 0, |plan|))] else [])
            && (o.err.None? <==> AllLink(env, plan) && env.store(BatchOf(env, SpecsBetween(env, plan, 0, |plan|))).Ok?)
            && (forall k :: k in o.saved <==> o.err.None? && 0 <= k < |plan|)
            && (forall k :: k in o.saved ==>
                  o.saved[k] == WithID(NodeOf(env, plan[k]), IDAt(env.store(BatchOf(env, SpecsBetween(env, plan, 0, |plan|))).value, k)))
  {
    forall k | 0 <= k < |plan|
      ensures PassOf(plan[k]).Reached? && !Spoils(plan[k])
    {
      TransparentReaches(plan[k].hooks, 0, plan[k].own, None);
    }
    WritesOnceIff(env, plan);
    RunUnwinds(env, plan);
    AllOrNothingIff(env, plan);
  }

  /** The IDs the store assigned, if it took the batch. */
  function AssignedIDs(env: Env, plan: seq<Builder>): seq<Option<int>> {
    if Committed(env, plan) then env.store(BatchOf(env, SpecsBetween(env, plan, 0, |plan|))).value else []
  }

  /** Whatever the hooks do, a saved node is the one created from the mutation in hand, with the ID that
      the store gave to that specification among all of them, if it gave it one. */
  lemma SavedNodeHasOwnID(env: Env, plan: seq<Builder>, k: nat)
    requires plan != [] && k in Run(env, plan).saved
    ensures k < |plan| && Links(env, plan[k])
    ensures IsNodeWithOwnID(env.create(MutationOf(env, plan[k])).0, Run(env, plan).saved[k], AssignedIDs(env, plan), k)
    ensures Run(env, plan).ids == AssignedIDs(env, plan)
  {
    RunUnwinds(env, plan);
    assert AllLink(env, plan) <==> Stop(env, plan, 0) == |plan|;
  }

  /** node is made, but for the ID when the k-th of ids is one. */
  ghost predicate IsNodeWithOwnID(made: Node, node: Node, ids: seq<Option<int>>, k: nat) {
    && node.selected == made.selected
    && (forall c :: c != ID ==> (c in node.fields <==> c in made.fields))
    && (forall c :: c != ID && c in made.fields ==> node.fields[c] == made.fields[c])
    && (k < |ids| && ids[k].Some? ==> ID in node.fields && node.fields[ID] == Int(ids[k].value))
    && (!(k < |ids| && ids[k].Some?) ==> node == made)
  }

  /** The error of a failed check is that of the first builder that fails it. */
  lemma TransparentFirstError(env: Env, plan: seq<Builder>, k: nat)
    requires k < |plan| && AllTransparent(plan) && PassOf(plan[k]).Reached? && CheckError(env, PassOf(plan[k]).own).Some?
    requires forall l :: 0 <= l < k ==> PassOf(plan[l]).Reached? ==> CheckError(env, PassOf(plan[l]).own).None?
    ensures Run(env, plan) == Outcome(Some(ValidationFailed(CheckError(env, PassOf(plan[k]).own).value)), [], [], map[])
  {
    forall l | 0 <= l < |plan|
      ensures PassOf(plan[l]).Reached?
    {
      TransparentReaches(plan[l].hooks, 0, plan[l].own, None);
    }
    RunUnwinds(env, plan);
    assert Stop(env, plan, 0) == k;
  }

  /** Bulk creation drops the errors of defaults. With transparent hooks such an error still stops the
      save before the write, unless a hook sets the field that was left without a default. */
  lemma DroppedDefaultsErrorStops(env: Env, plan: seq<Builder>, k: nat, before: Mutation)
    requires k < |plan| && AllTransparent(plan)
    requires AC.StepsDone(env.schema, AC.DefaultSteps, before.fields) < |AC.DefaultSteps|
    requires PassOf(plan[k]).Reached? ==>
               AC.DefaultSteps[AC.StepsDone(env.schema, AC.DefaultSteps, before.fields)].c !in PassOf(plan[k]).own.fields
    ensures Run(env, plan).err.Some? && Run(env, plan).writes == [] && Run(env, plan).saved == map[]
  {
    TransparentSave(env, plan);
    AC.DefaultsErrorResurfaces(env.schema, before.fields, PassOf(plan[k]).own.fields);
    assert !Links(env, plan[k]);
  }

  /** The store's error surfaces, whatever the hooks do, and tells a constraint from any other failure. */
  lemma StoreErrorSurfaces(env: Env, plan: seq<Builder>)
    requires plan != [] && AllLink(env, plan) && env.store(BatchOf(env, SpecsBetween(env, plan, 0, |plan|))).Err?
    ensures Run(env, plan).saved == map[]
    ensures match env.store(BatchOf(env, SpecsBetween(env, plan, 0, |plan|))).error
            case Constraint(code) => Run(env, plan).err == Some(ConstraintFailed(code))
            case Other(code) => Run(env, plan).err == Some(StoreFailed(code))
  {
    RunUnwinds(env, plan);
    assert Stop(env, plan, 0) == |plan|;
  }

  /** What was planned for a builder: its hooks, and its mutation after defaults. */
  twostate predicate IsPlanned(bulk: AccountCreateBulk, plan: seq<Builder>)
    reads bulk, bulk.builders, set b | b in bulk.builders :: b.mutation
  {
    |plan| == |bulk.builders| && forall k :: 0 <= k < |plan| ==>
      && plan[k].hooks == bulk.builders[k].hooks
      && DefaultsApplied(bulk.env.schema, AC.DefaultSteps, old(bulk.builders[k].mutation.data), plan[k].own)
  }

  /** The specifications are those made from the mutations in hand, in the order of the builders. */
  ghost predicate IsBatchFor(env: Env, plan: seq<Builder>, batch: Batch) {
    && |batch.nodes| == |plan| && batch.onConflict == env.conflict
    && forall k :: 0 <= k < |plan| ==> Links(env, plan[k]) && batch.nodes[k] == env.create(MutationOf(env, plan[k])).1
  }

  /** Builder k is saved: its node is the one made from its mutation in hand, and it and the mutation
      have the ID that the store gave to the k-th specification. */
  ghost predicate IsSaved(env: Env, plan: seq<Builder>, ids: seq<Option<int>>, k: nat, b: AccountCreate, node: Option<Node>)
    reads b, b.mutation
  {
    && k < |plan| && Links(env, plan[k]) && node.Some?
    && IsNodeWithOwnID(env.create(MutationOf(env, plan[k])).0, node.value, ids, k)
    && b.mutation.done
    && b.mutation.id == Some(if k < |ids| && ids[k].Some? then ids[k].value else 0)
  }

  /** Save on objects, when no hook interferes: at most one more batch is sent; on success it holds one
      specification for each builder and every builder is saved with its own ID; on an error none is. */
  method SaveTransparently(bulk: AccountCreateBulk) returns (result: Result<seq<Option<Node>>, Error>, ghost plan: seq<Builder>)
    requires bulk.err.None? && bulk.Distinct(0)
    requires forall k :: 0 <= k < |bulk.builders| ==> !bulk.builders[k].mutation.done
    requires forall k, j :: 0 <= k < |bulk.builders| && 0 <= j < |bulk.builders[k].hooks| ==> Transparent(bulk.builders[k].hooks[j])
    modifies bulk.Footprint(0)
    ensures IsPlanned(bulk, plan)
    ensures old(bulk.writes) <= bulk.writes && |bulk.writes| <= |old(bulk.writes)| + 1
    ensures forall k :: 0 <= k < |bulk.builders| ==> bulk.builders[k].mutation.done == result.Ok?
    ensures result.Ok? ==> |result.value| == |bulk.builders|
    ensures result.Ok? && bulk.builders != [] ==>
              && |bulk.writes| == |old(bulk.writes)| + 1
              && var batch := bulk.writes[|old(bulk.writes)|];
              && IsBatchFor(bulk.env, plan, batch) && bulk.env.store(batch).Ok?
              && forall k :: 0 <= k < |bulk.builders| ==>
                   IsSaved(bulk.env, plan, bulk.env.store(batch).value, k, bulk.builders[k], result.value[k])
    ensures result.Err? ==> IsCause(bulk.env, plan, bulk.writes[|old(bulk.writes)|..], result.error)
  {
    result, plan := bulk.Save();
    var n := |bulk.builders|;
    if n > 0 {
      TransparentSave(bulk.env, plan);
      SavedBatch(bulk.env, plan);
      if result.Err? {
        FailureHasCause(bulk.env, plan);
        assert bulk.writes[|old(bulk.writes)|..] == Run(bulk.env, plan).writes;
      }
    }
    ghost var o := Run(bulk.env, plan);
    forall k | 0 <= k < n
      ensures bulk.builders[k].mutation.done == result.Ok?
      ensures result.Ok? ==> IsSaved(bulk.env, plan, AssignedIDs(bulk.env, plan), k, bulk.builders[k], bulk.nodes[k])
    {
      assert ShowsAt(o, k, bulk.builders[k], bulk.nodes[k]);
      if result.Ok? {
        SavedNodeHasOwnID(bulk.env, plan, k);
      }
    }
  }

  lemma SavedBatch(env: Env, plan: seq<Builder>)
    requires plan != []
    ensures AllLink(env, plan) ==> IsBatchFor(env, plan, BatchOf(env, SpecsBetween(env, plan, 0, |plan|)))
  {
    if AllLink(env, plan) {
      forall k | 0 <= k < |plan|
        ensures SpecsBetween(env, plan, 0, |plan|)[k] == env.create(MutationOf(env, plan[k])).1
      {
        assert SpecsBetween(env, plan, 0, |plan|)[k] == SpecOf(env, plan[0 + k]);
      }
    }
  }

  /** The k-th builder is the first whose mutation, past its hooks, fails check, with this error. */
  ghost predicate IsFirstInvalid(env: Env, plan: seq<Builder>, k: int, e: AC.ValidationError) {
    && 0 <= k < |plan| && PassOf(plan[k]).Reached? && CheckError(env, PassOf(plan[k]).own) == Some(e)
    && forall l :: 0 <= l < k ==> PassOf(plan[l]).Reached? && CheckError(env, PassOf(plan[l]).own).None?
  }

  /** With transparent hooks, why a save failed: the first builder to fail check, before anything was
      written; or the store. */
  ghost predicate IsCause(env: Env, plan: seq<Builder>, writes: seq<Batch>, e: Error) {
    if writes == [] then e.ValidationFailed? && exists k :: IsFirstInvalid(env, plan, k, e.e)
    else
      match env.store(writes[0])
      case Ok(_) => false
      case Err(Constraint(code)) => e == ConstraintFailed(code)
      case Err(Other(code)) => e == StoreFailed(code)
  }

  lemma FailureHasCause(env: Env, plan: seq<Builder>)
    requires plan != [] && AllTransparent(plan) && Run(env, plan).err.Some?
    ensures IsCause(env, plan, Run(env, plan).writes, Run(env, plan).err.value)
  {
    TransparentSave(env, plan);
    if AllLink(env, plan) {
      StoreErrorSurfaces(env, plan);
    } else {
      var k := Stop(env, plan, 0);
      TransparentFirstError(env, plan, k);
      assert IsFirstInvalid(env, plan, k, CheckError(env, PassOf(plan[k]).own).value);
    }
  }

  // ---------- check and substitution ----------

  ghost predicate EditsOnly(hook: Hook) {
    forall m :: hook(m).Forward? ==> hook(m).substitute.None?
  }

  lemma {:induction false} EditedInPlace(hooks: seq<Hook>, j: nat, own: Mutation)
    requires j <= |hooks| && forall k :: 0 <= k < |hooks| ==> EditsOnly(hooks[k])
    ensures Pass(hooks, j, own, None).Reached? ==> Pass(hooks, j, own, None).substitute.None?
    decreases |hooks| - j
  {
    if j < |hooks| {
      assert EditsOnly(hooks[j]);
      var d := hooks[j](own);
      if d.Forward? {
        EditedInPlace(hooks, j + 1, d.edited);
      }
    }
  }

  /** The specifications written are those of the mutations in hand, and these all pass check exactly
      if every substitute among them does: a builder's own mutation has been checked, a substitute has not. */
  lemma WrittenCheckedIff(env: Env, plan: seq<Builder>)
    requires plan != [] && AllLink(env, plan)
    ensures |Run(env, plan).writes| == 1 && |Run(env, plan).writes[0].nodes| == |plan|
    ensures forall k :: 0 <= k < |plan| ==> Run(env, plan).writes[0].nodes[k] == env.create(MutationOf(env, plan[k])).1
    ensures (forall k :: 0 <= k < |plan| ==> CheckError(env, MutationOf(env, plan[k])).None?) <==>
            forall k :: 0 <= k < |plan| ==>
              PassOf(plan[k]).substitute.Some? ==> CheckError(env, PassOf(plan[k]).substitute.value).None?
  {
    WritesOnceIff(env, plan);
    forall k | 0 <= k < |plan|
      ensures CheckError(env, MutationOf(env, plan[k])).None? <==>
              (PassOf(plan[k]).substitute.Some? ==> CheckError(env, PassOf(plan[k]).substitute.value).None?)
    {
      assert Links(env, plan[k]);
    }
    forall k | 0 <= k < |plan|
      ensures Run(env, plan).writes[0].nodes[k] == env.create(MutationOf(env, plan[k])).1
    {
      assert SpecsBetween(env, plan, 0, |plan|)[k] == SpecOf(env, plan[k]);
    }
  }

  /** So when no hook substitutes, every mutation written has passed check. */
  lemma WrittenIsChecked(env: Env, plan: seq<Builder>, k: nat)
    requires k < |plan| && forall l, j :: 0 <= l < |plan| && 0 <= j < |plan[l].hooks| ==> EditsOnly(plan[l].hooks[j])
    requires Run(env, plan).writes != []
    ensures Links(env, plan[k]) && |Run(env, plan).writes[0].nodes| == |plan|
    ensures Run(env, plan).writes[0].nodes[k] == env.create(MutationOf(env, plan[k])).1
    ensures MutationOf(env, plan[k]) == PassOf(plan[k]).own && CheckError(env, MutationOf(env, plan[k])).None?
  {
    WritesOnceIff(env, plan);
    WrittenCheckedIff(env, plan);
    EditedInPlace(plan[k].hooks, 0, plan[k].own);
  }

  function Substituting(bad: Mutation): Hook {
    m => Forward(m, Some(bad), None)
  }

  function Skipping(): Hook {
    m => Skip
  }

  /** A substitute is not checked: check looks at what the builder held before. Any mutation, valid or
      not, is written in the place of a valid one. */
  lemma SubstituteEscapesCheck(env: Env, own: Mutation, bad: Mutation)
    requires CheckError(env, own).None?
    ensures Run(env, [Builder([Substituting(bad)], own)]).writes == [BatchOf(env, [env.create(bad).1])]
  {
    var plan := [Builder([Substituting(bad)], own)];
    assert Pass([Substituting(bad)], 1, own, Some(bad)) == Reached(own, Some(bad), None);
    assert PassOf(plan[0]) == Reached(own, Some(bad), None);
    WritesOnceIff(env, plan);
    assert SpecsBetween(env, plan, 0, 1) == [env.create(bad).1];
  }

  /** A hook of the second builder that returns early: Save succeeds, nothing is written, and the
      first builder is marked saved. */
  lemma EarlyReturnSavesNothing(env: Env, own: Mutation, other: Mutation)
    requires CheckError(env, own).None?
    ensures Run(env, [Builder([], own), Builder([Skipping()], other)]) == Outcome(None, [], [], map[0 := env.create(own).0])
  {
    var plan := [Builder([], own), Builder([Skipping()], other)];
    assert AtHook(env, plan, 1, 0, other, None, [env.create(own).1]) == Outcome(None, [], [], map[]);
    assert [] + [env.create(own).1] == [env.create(own).1];
    assert AtHook(env, plan, 0, 0, own, None, []) == AtLink(env, plan, 0, own, None, []);
  }
}
