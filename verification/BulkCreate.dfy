/** AccountCreateBulk.Save of account_create.go: a chain of mutators, one for each builder and each
    wrapped in the builder's hooks, the last of which writes. */
module BulkCreate {
  import opened Support
  import opened AccountRow
  import AC = AccountCreate

  datatype StoreError = Constraint(code: int) | Other(code: int)

  /** A constraint error of the store is wrapped in one of ent's own. */
  datatype Error =
    | ValidationFailed(e: AC.ValidationError) | HookFailed(code: int) | ConstraintFailed(code: int) | StoreFailed(code: int)

  /** What a hook does with the mutation it is given: fail; return without calling the next mutator;
      or edit the mutation and call the next mutator with it or with a substitute. It passes on the
      next mutator's error, and may fail after the next one succeeded. */
  datatype Decision =
    | Reject(code: int)
    | Skip
    | Forward(edited: Mutation, substitute: Option<Mutation>, after: Option<int>)

  type Hook = Mutation -> Decision

  /** createSpec, the conflict options, BatchCreate's answer, and what check needs. The store gives each node an ID, or none. */
  datatype Env = Env(
    schema: AC.Schema, create: Mutation -> (Node, CreateSpec), conflict: seq<ConflictOption>,
    store: Batch -> Result<seq<Option<int>>, StoreError>)

  /** What is sent to the store at once. */
  datatype Batch = Batch(nodes: seq<CreateSpec>, onConflict: seq<ConflictOption>)

  function BatchOf(env: Env, specs: seq<CreateSpec>): Batch {
    Batch(specs, env.conflict)
  }

  function CheckError(env: Env, m: Mutation): Option<AC.ValidationError> {
    AC.FirstError(env.schema, AC.CheckSteps, m.fields)
  }

  function Wrap(e: StoreError): Error {
    match e case Constraint(code) => ConstraintFailed(code) case Other(code) => StoreFailed(code)
  }

  function IDAt(ids: seq<Option<int>>, k: nat): Option<int> {
    if k < |ids| then ids[k] else None
  }

  function IDOrZero(ids: seq<Option<int>>, k: nat): int {
    var id := IDAt(ids, k);
    if id.Some? then id.value else 0
  }

  function WithID(node: Node, id: Option<int>): Node {
    if id.Some? then node.(fields := node.fields[ID := Int(id.value)]) else node
  }

  // ---------- the chain as a recursive function ----------

  /** A builder: its hooks, and its mutation after defaults. */
  datatype Builder = Builder(hooks: seq<Hook>, own: Mutation)

  /** The error a mutator returned, the batches written, the IDs the store assigned, and the nodes
      of the links that completed, by builder. */
  datatype Outcome = Outcome(err: Option<Error>, writes: seq<Batch>, ids: seq<Option<int>>, saved: map<nat, Node>)

  /** The mutation in hand: the builder's own, or one that a hook substituted for it. */
  function InHand(own: Mutation, substitute: Option<Mutation>): Mutation {
    if substitute.Some? then substitute.value else own
  }

  /** Mutator i from its hook j on. */
  function AtHook(env: Env, plan: seq<Builder>, i: nat, j: nat, own: Mutation, substitute: Option<Mutation>, specs: seq<CreateSpec>): (o: Outcome)
    requires i < |plan| && j <= |plan[i].hooks|
    ensures forall k :: k in o.saved ==> i <= k < |plan|
    decreases |plan| - i, |plan[i].hooks| - j, 1
  {
    if j == |plan[i].hooks| then AtLink(env, plan, i, own, substitute, specs)
    else
      match plan[i].hooks[j](InHand(own, substitute))
      case Reject(code) => Outcome(Some(HookFailed(code)), [], [], map[])
      case Skip => Outcome(None, [], [], map[])
      case Forward(edited, next, after) =>
        var o := AtHook(env, plan, i, j + 1, Edited(own, substitute, edited), Passed(substitute, edited, next), specs);
        if o.err.Some? || after.None? then o else o.(err := Some(HookFailed(after.value)))
  }

  /** An edit reaches the builder's own mutation only while no other one is in hand. */
  function Edited(own: Mutation, substitute: Option<Mutation>, edited: Mutation): Mutation {
    if substitute.None? then edited else own
  }

  function Passed(substitute: Option<Mutation>, edited: Mutation, next: Option<Mutation>): Option<Mutation> {
    if next.Some? then next else if substitute.Some? then Some(edited) else None
  }

  /** Mutator i itself: checks what the builder holds, but builds from the mutation in hand. */
  function AtLink(env: Env, plan: seq<Builder>, i: nat, own: Mutation, substitute: Option<Mutation>, specs: seq<CreateSpec>): (o: Outcome)
    requires i < |plan|
    ensures forall k :: k in o.saved ==> i <= k < |plan|
    decreases |plan| - i, 0, 0
  {
    if CheckError(env, own).Some? then Outcome(Some(ValidationFailed(CheckError(env, own).value)), [], [], map[])
    else
      var (node, spec) := env.create(InHand(own, substitute));
      var o :=
        if i + 1 < |plan| then AtHook(env, plan, i + 1, 0, plan[i + 1].own, None, specs + [spec])
        else Write(env, specs + [spec]);
      if o.err.Some? then o else o.(saved := o.saved[i := WithID(node, IDAt(o.ids, i))])
  }

  function Write(env: Env, specs: seq<CreateSpec>): Outcome {
    match env.store(BatchOf(env, specs))
    case Err(e) => Outcome(Some(Wrap(e)), [BatchOf(env, specs)], [], map[])
    case Ok(ids) => Outcome(None, [BatchOf(env, specs)], ids, map[])
  }

  /** Save with these builders. */
  function Run(env: Env, plan: seq<Builder>): Outcome {
    if plan == [] then Outcome(None, [], [], map[]) else AtHook(env, plan, 0, 0, plan[0].own, None, [])
  }

  // ---------- the chain as closures over shared state ----------

  class AccountCreate {
    const hooks: seq<Hook>
    var mutation: AC.AccountMutation

    constructor (hooks: seq<Hook>, mutation: AC.AccountMutation)
      ensures this.hooks == hooks && this.mutation == mutation
    {
      this.hooks, this.mutation := hooks, mutation;
    }
  }

  /** Builder k and its node, when the builder has been through its mutator. */
  ghost predicate ShowsAt(o: Outcome, k: nat, b: AccountCreate, node: Option<Node>)
    reads b, b.mutation
  {
    && b.mutation.done == (k in o.saved)
    && (k in o.saved ==> node == Some(o.saved[k]) && b.mutation.id == Some(IDOrZero(o.ids, k)))
    && (k !in o.saved && o.err.None? ==> node == None)
  }

  class AccountCreateBulk {
    const err: Option<Error>
    const builders: seq<AccountCreate>
    const env: Env
    /** The slices the closures of a Save share, and the batches sent to the store. */
    var specs: seq<Option<CreateSpec>>
    var nodes: seq<Option<Node>>
    var ids: seq<Option<int>>
    var writes: seq<Batch>

    constructor (err: Option<Error>, builders: seq<AccountCreate>, env: Env)
      ensures this.err == err && this.builders == builders && this.env == env && writes == []
    {
      this.err, this.builders, this.env := err, builders, env;
      specs, nodes, ids, writes := [], [], [], [];
    }

    /** What a mutator of builder i or later can change, besides the mutation it is given. */
    ghost function Footprint(i: nat): set<object>
      reads builders
    {
      {this} + (set k | i <= k < |builders| :: builders[k]) + (set k | i <= k < |builders| :: builders[k].mutation)
    }

    /** The builders from i on are distinct objects, with distinct mutations. */
    ghost predicate Distinct(i: nat)
      reads builders
    {
      && (forall a, b :: i <= a < b < |builders| ==> builders[a] != builders[b])
      && (forall a, b :: i <= a < b < |builders| ==> builders[a].mutation != builders[b].mutation)
    }

    /** The builders from i on hold what is planned, and are not saved. */
    ghost predicate Pending(plan: seq<Builder>, i: nat)
      reads builders, set b | b in builders :: b.mutation
    {
      && |plan| == |builders|
      && (forall k :: i <= k < |builders| ==>
            builders[k].hooks == plan[k].hooks && builders[k].mutation.data == plan[k].own && !builders[k].mutation.done)
    }

    /** The first i specifications are made; no node from i on is. */
    ghost predicate Made(i: nat, made: seq<CreateSpec>)
      reads this
    {
      && |specs| == |nodes| == |builders| && i == |made| <= |specs| && ids == []
      && (forall k :: 0 <= k < i ==> specs[k] == Some(made[k]))
      && (forall k :: i <= k < |specs| ==> nodes[k] == None)
    }

    /** The outcome as it shows in the shared state, after the mutators of builders i and on. */
    ghost predicate Shows(i: nat, o: Outcome, nodesBefore: seq<Option<Node>>, writesBefore: seq<Batch>)
      reads this, builders, set b | b in builders :: b.mutation
    {
      && writes == writesBefore + o.writes && ids == o.ids
      && |specs| == |nodes| == |builders| == |nodesBefore|
      && (forall k :: 0 <= k < i && k < |builders| ==> nodes[k] == nodesBefore[k])
      && (forall k :: i <= k < |builders| ==> ShowsAt(o, k, builders[k], nodes[k]))
    }

    /** The builders from i on hold the mutations they held, or substitutes made since; i may hold m. */
    twostate predicate HeldOrFresh(i: nat, m: AC.AccountMutation)
      reads builders
    {
      forall k :: i <= k < |builders| ==>
        builders[k].mutation == old(builders[k].mutation) || (k == i && builders[k].mutation == m) || fresh(builders[k].mutation)
    }

    /** Mutator i can run with m in hand: the builder's own mutation, or one substituted for it. */
    ghost predicate Ready(i: nat, m: AC.AccountMutation, plan: seq<Builder>, own: Mutation, substitute: Option<Mutation>, made: seq<CreateSpec>)
      reads this, builders, set b | b in builders :: b.mutation
      reads m
    {
      && i < |builders| && Distinct(i) && Pending(plan, i + 1) && Made(i, made)
      && plan[i].hooks == builders[i].hooks && builders[i].mutation.data == own && !builders[i].mutation.done && !m.done
      && substitute == (if m == builders[i].mutation then None else Some(m.data))
      && forall k :: i < k < |builders| ==> builders[k].mutation != m
    }

    /** Sends the specifications, all of them made by now, to the store. */
    method BatchCreate(ghost made: seq<CreateSpec>) returns (e: Option<Error>)
      requires |specs| == |made| && ids == [] && forall k :: 0 <= k < |specs| ==> specs[k] == Some(made[k])
      modifies this`ids, this`writes
      ensures e == Write(env, made).err && ids == Write(env, made).ids && writes == old(writes) + Write(env, made).writes
    {
      var all := seq(|specs|, k requires 0 <= k < |specs| && specs[k].Some? reads this => specs[k].value);
      assert all == made;
      var batch := Batch(all, env.conflict);
      writes := writes + [batch];
      match env.store(batch) {
        case Ok(keys) =>
          ids := keys;
          return None;
        case Err(error) =>
          return Some(Wrap(error));
      }
    }

    /** Mutator i from its hook j on. */
    method Mutate(i: nat, j: nat, m: AC.AccountMutation, ghost plan: seq<Builder>, ghost own: Mutation,
                  ghost substitute: Option<Mutation>, ghost made: seq<CreateSpec>) returns (e: Option<Error>)
      requires i < |builders| && j <= |builders[i].hooks|
      requires Ready(i, m, plan, own, substitute, made)
      modifies Footprint(i), m
      ensures var o := AtHook(env, plan, i, j, own, substitute, made);
              e == o.err && Shows(i, o, old(nodes), old(writes))
      ensures HeldOrFresh(i, m)
      decreases |builders| - i, |builders[i].hooks| - j, 2
    {
      if j == |builders[i].hooks| {
        e := Link(i, m, plan, own, substitute, made);
        return;
      }
      match builders[i].hooks[j](m.data) {
        case Reject(code) =>
          NothingShows(plan, i, made, Some(HookFailed(code)));
          return Some(HookFailed(code));
        case Skip =>
          NothingShows(plan, i, made, None);
          return None;
        case Forward(edited, next, after) =>
          e := PassOn(i, j, m, edited, next, plan, own, substitute, made);
          if e.None? && after.Some? {
            e := Some(HookFailed(after.value));
          }
      }
    }

    /** A hook's call of the next mutator, with the edited mutation or with a substitute. */
    method PassOn(i: nat, j: nat, m: AC.AccountMutation, edited: Mutation, next: Option<Mutation>, ghost plan: seq<Builder>,
                  ghost own: Mutation, ghost substitute: Option<Mutation>, ghost made: seq<CreateSpec>) returns (e: Option<Error>)
      requires i < |builders| && j < |builders[i].hooks|
      requires Ready(i, m, plan, own, substitute, made)
      modifies Footprint(i), m
      ensures var o := AtHook(env, plan, i, j + 1, Edited(own, substitute, edited), Passed(substitute, edited, next), made);
              e == o.err && Shows(i, o, old(nodes), old(writes))
      ensures HeldOrFresh(i, m)
      decreases |builders| - i, |builders[i].hooks| - j, 0
    {
      m.data := edited;
      var passed := m;
      if next.Some? {
        passed := new AC.AccountMutation(next.value);
      }
      e := Mutate(i, j + 1, passed, plan, Edited(own, substitute, edited), Passed(substitute, edited, next), made);
    }

    /** Nothing shows yet of the builders that are still pending. */
    lemma NothingShows(plan: seq<Builder>, i: nat, made: seq<CreateSpec>, e: Option<Error>)
      requires i < |builders| && Pending(plan, i + 1) && Made(i, made) && !builders[i].mutation.done
      ensures Shows(i, Outcome(e, [], [], map[]), nodes, writes)
    {
      forall k | i <= k < |builders|
        ensures ShowsAt(Outcome(e, [], [], map[]), k, builders[k], nodes[k])
      {
        assert !builders[k].mutation.done && nodes[k] == None;
      }
    }

    /** Mutator i without its hooks. */
    method Link(i: nat, m: AC.AccountMutation, ghost plan: seq<Builder>, ghost own: Mutation,
                ghost substitute: Option<Mutation>, ghost made: seq<CreateSpec>) returns (e: Option<Error>)
      requires Ready(i, m, plan, own, substitute, made)
      modifies Footprint(i), m
      ensures var o := AtLink(env, plan, i, own, substitute, made);
              e == o.err && Shows(i, o, old(nodes), old(writes))
      ensures HeldOrFresh(i, m)
      decreases |builders| - i, 0, 1
    {
      var invalid := AC.Check(env.schema, AC.CheckSteps, builders[i].mutation.data.fields);
      if invalid.Some? {
        NothingShows(plan, i, made, Some(ValidationFailed(invalid.value)));
        return Some(ValidationFailed(invalid.value));
      }
      e := Proceed(i, m, plan, own, substitute, made);
    }

    /** What mutator i does once its builder passed check. */
    method Proceed(i: nat, m: AC.AccountMutation, ghost plan: seq<Builder>, ghost own: Mutation,
                   ghost substitute: Option<Mutation>, ghost made: seq<CreateSpec>) returns (e: Option<Error>)
      requires Ready(i, m, plan, own, substitute, made) && CheckError(env, own).None?
      modifies Footprint(i), m
      ensures var o := AtLink(env, plan, i, own, substitute, made);
              e == o.err && Shows(i, o, old(nodes), old(writes))
      ensures HeldOrFresh(i, m)
      decreases |builders| - i, 0, 0
    {
      ghost var nodesBefore := nodes;
      var node, next := Build(i, m, made);
      ghost var o := if i + 1 < |plan| then AtHook(env, plan, i + 1, 0, plan[i + 1].own, None, next) else Write(env, next);
      e := Next(i, m, plan, o, next);
      if e.None? {
        Finish(i, m, o, node, nodesBefore, old(writes));
      } else {
        FailedLinkShows(i, o, node, nodesBefore, old(writes));
      }
    }

    /** A link that is passed an error leaves its builder unsaved. */
    lemma FailedLinkShows(i: nat, o: Outcome, node: Node, nodesBefore: seq<Option<Node>>, writesBefore: seq<Batch>)
      requires i < |builders| == |nodesBefore| && o.err.Some? && i !in o.saved && !builders[i].mutation.done
      requires Shows(i + 1, o, nodesBefore[i := Some(node)], writesBefore)
      ensures Shows(i, o, nodesBefore, writesBefore)
    {
      assert ShowsAt(o, i, builders[i], nodes[i]);
    }

    /** What follows link i: the next mutator, or the write. It leaves i alone. */
    method Next(i: nat, m: AC.AccountMutation, ghost plan: seq<Builder>, ghost o: Outcome, ghost next: seq<CreateSpec>) returns (e: Option<Error>)
      requires i < |builders| && builders[i].mutation == m && !m.done
      requires Distinct(i) && Pending(plan, i + 1) && Made(i + 1, next)
      requires o == if i + 1 < |plan| then AtHook(env, plan, i + 1, 0, plan[i + 1].own, None, next) else Write(env, next)
      modifies Footprint(i + 1)
      ensures e == o.err && Shows(i + 1, o, old(nodes), old(writes))
      ensures builders[i].mutation == m && !m.done
      ensures forall k :: i < k < |builders| ==> builders[k].mutation == old(builders[k].mutation) || fresh(builders[k].mutation)
      decreases |builders| - i - 1
    {
      if i < |builders| - 1 {
        assert builders[i] !in Footprint(i + 1) && m !in Footprint(i + 1);
        e := Mutate(i + 1, 0, builders[i + 1].mutation, plan, plan[i + 1].own, None, next);
      } else {
        e := BatchCreate(next);
      }
    }

    /** Puts the mutation in hand into the builder, and makes its node and specification. */
    method Build(i: nat, m: AC.AccountMutation, ghost made: seq<CreateSpec>) returns (node: Node, ghost next: seq<CreateSpec>)
      requires i < |builders| && Made(i, made)
      modifies this`nodes, this`specs, builders[i]
      ensures builders[i].mutation == m && node == env.create(m.data).0 && next == made + [env.create(m.data).1]
      ensures Made(i + 1, next) && nodes == old(nodes)[i := Some(node)]
    {
      builders[i].mutation := m;
      var (n, spec) := env.create(m.data);
      nodes, specs := nodes[i := Some(n)], specs[i := Some(spec)];
      return n, made + [spec];
    }

    /** Records the ID the store gave the node, and that the mutation is saved. */
    method Finish(i: nat, m: AC.AccountMutation, ghost o: Outcome, node: Node,
                  ghost nodesBefore: seq<Option<Node>>, ghost writesBefore: seq<Batch>)
      requires i < |builders| == |nodesBefore| && builders[i].mutation == m && o.err.None?
      requires Shows(i + 1, o, nodesBefore[i := Some(node)], writesBefore)
      requires forall k :: i < k < |builders| ==> builders[k].mutation != m
      modifies this`nodes, m`id, m`done
      ensures Shows(i, o.(saved := o.saved[i := WithID(node, IDAt(o.ids, i))]), nodesBefore, writesBefore)
    {
      nodes := nodes[i := Some(WithID(node, IDAt(ids, i)))];
      m.id := Some(IDOrZero(ids, i));
      m.done := true;
    }

    /** Runs every builder's defaults, dropping their errors. */
    method ApplyDefaults(steps: seq<AC.DefaultStep>)
      requires Distinct(0) && AC.DistinctColumns(steps)
      modifies set b | b in builders :: b.mutation
      ensures forall k :: 0 <= k < |builders| ==>
                DefaultsApplied(env.schema, steps, old(builders[k].mutation.data), builders[k].mutation.data)
      ensures forall k :: 0 <= k < |builders| ==> builders[k].mutation.done == old(builders[k].mutation.done)
    {
      for i := 0 to |builders|
        invariant forall k :: 0 <= k < i ==> DefaultsApplied(env.schema, steps, old(builders[k].mutation.data), builders[k].mutation.data)
        invariant forall k :: i <= k < |builders| ==> builders[k].mutation.data == old(builders[k].mutation.data)
        invariant forall k :: 0 <= k < |builders| ==> builders[k].mutation.done == old(builders[k].mutation.done)
      {
        var dropped := builders[i].mutation.Defaults(env.schema, steps);
      }
    }

    /** The loop of Save before the first mutator is called. */
    method Prepare() returns (ghost plan: seq<Builder>)
      requires Distinct(0) && forall k :: 0 <= k < |builders| ==> !builders[k].mutation.done
      modifies this`specs, this`nodes, this`ids, set b | b in builders :: b.mutation
      ensures Pending(plan, 0) && Made(0, [])
      ensures forall k :: 0 <= k < |builders| ==>
                DefaultsApplied(env.schema, AC.DefaultSteps, old(builders[k].mutation.data), plan[k].own)
    {
      specs, nodes, ids := seq(|builders|, _ => None), seq(|builders|, _ => None), [];
      AC.DefaultStepsDistinct();
      ApplyDefaults(AC.DefaultSteps);
      plan := Plan(builders);
    }

    /** The call of the first mutator, if there is one. */
    method Start(ghost plan: seq<Builder>) returns (e: Option<Error>)
      requires Distinct(0) && Pending(plan, 0) && Made(0, [])
      modifies Footprint(0)
      ensures e == Run(env, plan).err && Shows(0, Run(env, plan), old(nodes), old(writes))
    {
      if |builders| > 0 {
        e := Mutate(0, 0, builders[0].mutation, plan, plan[0].own, None, []);
      } else {
        return None;
      }
    }

    /** Save: the nodes by builder, or an error. */
    method Save() returns (result: Result<seq<Option<Node>>, Error>, ghost plan: seq<Builder>)
      requires Distinct(0) && forall k :: 0 <= k < |builders| ==> !builders[k].mutation.done
      modifies Footprint(0)
      ensures err.Some? ==> result == Err(err.value) && writes == old(writes)
      ensures err.None? ==>
                && |plan| == |builders| && Shows(0, Run(env, plan), nodes, old(writes))
                && result == if Run(env, plan).err.Some? then Err(Run(env, plan).err.value) else Ok(nodes)
      ensures err.None? ==>
                forall k :: 0 <= k < |builders| ==>
                  plan[k].hooks == builders[k].hooks
                  && DefaultsApplied(env.schema, AC.DefaultSteps, old(builders[k].mutation.data), plan[k].own)
    {
      if err.Some? {
        return Err(err.value), [];
      }
      plan := Prepare();
      var e := Start(plan);
      result := if e.Some? then Err(e.value) else Ok(nodes);
    }
  }

  /** defaults on a mutation: only fields change. */
  ghost predicate DefaultsApplied(schema: AC.Schema, steps: seq<AC.DefaultStep>, before: Mutation, after: Mutation) {
    && after == before.(fields := after.fields)
    && AC.DefaultsTried(schema, steps, before.fields, after.fields)
  }

  ghost function Plan(builders: seq<AccountCreate>): (plan: seq<Builder>)
    reads builders, set b | b in builders :: b.mutation
    ensures |plan| == |builders|
    ensures forall k :: 0 <= k < |builders| ==> plan[k] == Builder(builders[k].hooks, builders[k].mutation.data)
  {
    seq(|builders|, k requires 0 <= k < |builders| reads builders, set b | b in builders :: b.mutation =>
      Builder(builders[k].hooks, builders[k].mutation.data))
  }
}
