/** defaults and check of account_create.go. */
module AccountCreate {
  import opened Support
  import opened AccountRow

  type Fields = map<Column, Datum>

  /** What the runtime package registers: the values of the default functions that are not nil, the
      default constants, and the validators. */
  datatype Schema = Schema(functions: Fields, constant: Column -> Datum, isValid: (Column, Datum) -> bool)

  // ---------- defaults ----------

  /** A field with a default; from a function, which may not be registered, or a constant. */
  datatype DefaultStep = FromFunction(c: Column) | FromConstant(c: Column)

  const DefaultSteps := [
    FromFunction(CreatedAt), FromFunction(UpdatedAt), FromFunction(Credentials), FromFunction(Extra),
    FromConstant(Concurrency), FromConstant(Priority), FromConstant(RateMultiplier), FromConstant(Status),
    FromConstant(AutoPauseOnExpired), FromConstant(Schedulable)]

  function DefaultValue(schema: Schema, step: DefaultStep): Option<Datum> {
    if step.FromConstant? then Some(schema.constant(step.c))
    else if step.c in schema.functions then Some(schema.functions[step.c])
    else None
  }

  /** The step needs a default function that was never registered. */
  predicate Uninitialized(schema: Schema, fields: Fields, step: DefaultStep) {
    step.c !in fields && DefaultValue(schema, step).None?
  }

  /** How many steps are done before the first uninitialized one. */
  function StepsDone(schema: Schema, steps: seq<DefaultStep>, fields: Fields): (n: nat)
    ensures n <= |steps| && (n < |steps| ==> Uninitialized(schema, fields, steps[n]))
    ensures forall j :: 0 <= j < n ==> !Uninitialized(schema, fields, steps[j])
  {
    if steps == [] || Uninitialized(schema, fields, steps[0]) then 0
    else
      var n := StepsDone(schema, steps[1..], fields);
      assert n < |steps[1..]| ==> steps[n + 1] == steps[1..][n];
      assert forall j :: 1 <= j < n + 1 ==> steps[j] == steps[1..][j - 1];
      n + 1
  }

  ghost predicate DistinctColumns(steps: seq<DefaultStep>) {
    forall i, j :: 0 <= i < j < |steps| ==> steps[i].c != steps[j].c
  }

  /** after is before with the unset fields of the steps set to their defaults, and nothing else. */
  ghost predicate Defaulted(schema: Schema, steps: seq<DefaultStep>, before: Fields, after: Fields) {
    && (forall c :: c in before ==> c in after && after[c] == before[c])
    && (forall j :: 0 <= j < |steps| ==> steps[j].c in after)
    && (forall j :: 0 <= j < |steps| ==> steps[j].c !in before ==> DefaultValue(schema, steps[j]) == Some(after[steps[j].c]))
    && (forall c :: c in after && c !in before ==> exists j :: 0 <= j < |steps| && steps[j].c == c)
  }

  /** What defaults leaves: the steps before the first uninitialized one are done. */
  ghost predicate DefaultsTried(schema: Schema, steps: seq<DefaultStep>, before: Fields, after: Fields) {
    Defaulted(schema, steps[..StepsDone(schema, steps, before)], before, after)
  }

  /** What a builder was given so far, and what saving it leaves there. */
  class AccountMutation {
    var data: Mutation
    var id: Option<int>
    var done: bool

    constructor (data: Mutation)
      ensures this.data == data && id == None && !done
    {
      this.data := data;
      id, done := None, false;
    }

    /** defaults: sets the unset fields in order; None, or the field whose default function is nil. */
    method Defaults(schema: Schema, steps: seq<DefaultStep>) returns (err: Option<Column>)
      requires DistinctColumns(steps)
      modifies this`data
      ensures data == old(data).(fields := data.fields)
      ensures DefaultsTried(schema, steps, old(data.fields), data.fields)
      ensures var n := StepsDone(schema, steps, old(data.fields));
              err == if n == |steps| then None else Some(steps[n].c)
    {
      ghost var n := StepsDone(schema, steps, data.fields);
      for i := 0 to |steps|
        invariant i <= n && data == old(data).(fields := data.fields)
        invariant Defaulted(schema, steps[..i], old(data.fields), data.fields)
      {
        var step := steps[i];
        DefaultedStep(schema, steps, old(data.fields), data.fields, i);
        StopsIff(schema, steps, old(data.fields), i);
        if step.c !in data.fields {
          var v := DefaultValue(schema, step);
          if v.None? {
            return Some(step.c);
          }
          data := data.(fields := data.fields[step.c := v.value]);
        }
      }
      TakeAll(steps);
      return None;
    }
  }

  /** Before its own step a field is set exactly if it was given. */
  lemma DefaultedUnset(schema: Schema, steps: seq<DefaultStep>, before: Fields, now: Fields, i: nat)
    requires i < |steps| && DistinctColumns(steps) && Defaulted(schema, steps[..i], before, now)
    ensures steps[i].c in now <==> steps[i].c in before
  {
  }

  lemma StopsIff(schema: Schema, steps: seq<DefaultStep>, before: Fields, i: nat)
    requires i <= StepsDone(schema, steps, before) && i < |steps|
    ensures i == StepsDone(schema, steps, before) <==> Uninitialized(schema, before, steps[i])
  {
  }

  lemma DefaultedStep(schema: Schema, steps: seq<DefaultStep>, before: Fields, now: Fields, i: nat)
    requires i < |steps| && DistinctColumns(steps) && Defaulted(schema, steps[..i], before, now)
    ensures steps[i].c in now <==> steps[i].c in before
    ensures steps[i].c in before ==> Defaulted(schema, steps[..i + 1], before, now)
    ensures steps[i].c !in before && DefaultValue(schema, steps[i]).Some? ==>
              Defaulted(schema, steps[..i + 1], before, now[steps[i].c := DefaultValue(schema, steps[i]).value])
  {
    DefaultedUnset(schema, steps, before, now, i);
    TakeNext(steps, i);
    var next := if steps[i].c in before || DefaultValue(schema, steps[i]).None? then now
                else now[steps[i].c := DefaultValue(schema, steps[i]).value];
    var done := steps[..i + 1];
    forall c | c in next && c !in before
      ensures exists j :: 0 <= j < |done| && done[j].c == c
    {
      if c == steps[i].c {
        assert done[i].c == c;
      } else {
        var earlier := steps[..i];
        var j :| 0 <= j < |earlier| && earlier[j].c == c;
        assert done[j].c == c;
      }
    }
  }

  // ---------- check ----------

  datatype CheckStep = CheckStep(c: Column, required: bool, validated: bool)

  const CheckSteps := [
    CheckStep(CreatedAt, true, false), CheckStep(UpdatedAt, true, false), CheckStep(Name, true, true),
    CheckStep(Platform, true, true), CheckStep(Type, true, true), CheckStep(Credentials, true, false),
    CheckStep(Extra, true, false), CheckStep(Concurrency, true, false), CheckStep(Priority, true, false),
    CheckStep(RateMultiplier, true, false), CheckStep(Status, true, true), CheckStep(AutoPauseOnExpired, true, false),
    CheckStep(Schedulable, true, false), CheckStep(SessionWindowStatus, false, true)]

  datatype ValidationError = Missing(c: Column) | Invalid(c: Column)

  function StepError(schema: Schema, fields: Fields, step: CheckStep): Option<ValidationError> {
    if step.c !in fields then (if step.required then Some(Missing(step.c)) else None)
    else if step.validated && !schema.isValid(step.c, fields[step.c]) then Some(Invalid(step.c))
    else None
  }

  /** check: the first error, in order. */
  method Check(schema: Schema, steps: seq<CheckStep>, fields: Fields) returns (err: Option<ValidationError>)
    ensures err == FirstError(schema, steps, fields)
  {
    for i := 0 to |steps|
      invariant FirstError(schema, steps[i..], fields) == FirstError(schema, steps, fields)
    {
      assert steps[i..][0] == steps[i] && steps[i..][1..] == steps[i + 1..];
      err := StepError(schema, fields, steps[i]);
      if err.Some? {
        return;
      }
    }
    return None;
  }

  function FirstError(schema: Schema, steps: seq<CheckStep>, fields: Fields): Option<ValidationError> {
    if steps == [] then None
    else if StepError(schema, fields, steps[0]).Some? then StepError(schema, fields, steps[0])
    else FirstError(schema, steps[1..], fields)
  }

  /** A mutation passes check exactly when each step on its own finds nothing. */
  lemma {:induction false} PassesIff(schema: Schema, steps: seq<CheckStep>, fields: Fields)
    ensures FirstError(schema, steps, fields).None? <==> forall i :: 0 <= i < |steps| ==> StepError(schema, fields, steps[i]).None?
    ensures FirstError(schema, steps, fields).Some? ==>
              exists i :: 0 <= i < |steps| && StepError(schema, fields, steps[i]) == FirstError(schema, steps, fields)
  {
    if steps != [] {
      PassesIff(schema, steps[1..], fields);
      assert forall i :: 0 <= i < |steps[1..]| ==> steps[1..][i] == steps[i + 1];
    }
  }

  // ---------- which error, column by column ----------

  const CheckedColumns := [
    CreatedAt, UpdatedAt, Name, Platform, Type, Credentials, Extra, Concurrency, Priority, RateMultiplier, Status,
    AutoPauseOnExpired, Schedulable, SessionWindowStatus]

  predicate HasValidator(c: Column) {
    c == Name || c == Platform || c == Type || c == Status || c == SessionWindowStatus
  }

  /** A field that check accepts: set, or a session window status, and valid if it has a validator. */
  predicate IsFine(schema: Schema, fields: Fields, c: Column) {
    (c in fields || c == SessionWindowStatus) && (c in fields && HasValidator(c) ==> schema.isValid(c, fields[c]))
  }

  lemma CheckedStep(schema: Schema, fields: Fields, i: nat)
    requires i < |CheckSteps|
    ensures i < |CheckedColumns| == |CheckSteps|
    ensures var c := CheckedColumns[i];
            StepError(schema, fields, CheckSteps[i]) ==
            if IsFine(schema, fields, c) then None else Some(if c in fields then Invalid(c) else Missing(c))
  {
    CheckedColumn(i);
  }

  lemma CheckedColumn(i: nat)
    requires i < |CheckSteps|
    ensures |CheckedColumns| == |CheckSteps|
    ensures var c := CheckedColumns[i]; CheckSteps[i] == CheckStep(c, c != SessionWindowStatus, HasValidator(c))
  {
  }

  /** check reports the first of these columns, in this order, that is not fine: as missing if it is not
      set, and as invalid if it is. */
  lemma CheckReports(schema: Schema, fields: Fields, i: nat)
    requires i <= |CheckedColumns| && forall j :: 0 <= j < i ==> IsFine(schema, fields, CheckedColumns[j])
    ensures i == |CheckedColumns| ==> FirstError(schema, CheckSteps, fields) == None
    ensures i < |CheckedColumns| && !IsFine(schema, fields, CheckedColumns[i]) ==>
              FirstError(schema, CheckSteps, fields) ==
              Some(if CheckedColumns[i] in fields then Invalid(CheckedColumns[i]) else Missing(CheckedColumns[i]))
  {
    forall j | 0 <= j < i
      ensures StepError(schema, fields, CheckSteps[j]).None?
    {
      CheckedStep(schema, fields, j);
    }
    if i < |CheckedColumns| {
      CheckedStep(schema, fields, i);
    }
    FirstErrorAt(schema, CheckSteps, fields, i);
  }

  lemma {:induction false} FirstErrorAt(schema: Schema, steps: seq<CheckStep>, fields: Fields, i: nat)
    requires i <= |steps| && forall j :: 0 <= j < i ==> StepError(schema, fields, steps[j]).None?
    ensures i == |steps| ==> FirstError(schema, steps, fields) == None
    ensures i < |steps| && StepError(schema, fields, steps[i]).Some? ==>
              FirstError(schema, steps, fields) == StepError(schema, fields, steps[i])
  {
    if i > 0 {
      assert forall j :: 0 <= j < i - 1 ==> steps[1..][j] == steps[j + 1];
      FirstErrorAt(schema, steps[1..], fields, i - 1);
    }
  }

  // ---------- which defaults ----------

  /** The fields whose defaults come from functions. */
  const FunctionColumns := [CreatedAt, UpdatedAt, Credentials, Extra]

  lemma StepKind(i: nat)
    requires i < |DefaultSteps|
    ensures DefaultSteps[i] == if i < |FunctionColumns| then FromFunction(FunctionColumns[i]) else FromConstant(DefaultSteps[i].c)
  {
  }

  /** Given, or with a default function registered. */
  predicate CanDefault(schema: Schema, fields: Fields, c: Column) {
    c in fields || c in schema.functions
  }

  lemma UninitializedIff(schema: Schema, fields: Fields, i: nat)
    requires i < |DefaultSteps|
    ensures Uninitialized(schema, fields, DefaultSteps[i]) <==>
            i < |FunctionColumns| && !CanDefault(schema, fields, FunctionColumns[i])
  {
    StepKind(i);
  }

  /** defaults fails exactly if one of these four fields is neither given nor has a default function
      registered, and then at the first of them. */
  lemma DefaultsFailIff(schema: Schema, before: Fields)
    ensures var n := StepsDone(schema, DefaultSteps, before);
            && (n == |DefaultSteps| <==> forall i :: 0 <= i < |FunctionColumns| ==> CanDefault(schema, before, FunctionColumns[i]))
            && (n < |DefaultSteps| ==>
                  && n < |FunctionColumns| && DefaultSteps[n].c == FunctionColumns[n] && !CanDefault(schema, before, FunctionColumns[n])
                  && forall i :: 0 <= i < n ==> CanDefault(schema, before, FunctionColumns[i]))
  {
    var n := StepsDone(schema, DefaultSteps, before);
    forall i | 0 <= i < |DefaultSteps|
      ensures Uninitialized(schema, before, DefaultSteps[i]) <==>
              i < |FunctionColumns| && !CanDefault(schema, before, FunctionColumns[i])
    {
      UninitializedIff(schema, before, i);
    }
    if n < |DefaultSteps| {
      StepKind(n);
    }
  }

  /** After defaults that succeed each field with a default holds what was given, or else what its
      function returned or its constant; any other field is as it was. */
  lemma DefaultsGive(schema: Schema, before: Fields, after: Fields, c: Column)
    requires Defaulted(schema, DefaultSteps, before, after)
    ensures IsDefaulted(c) ==> c in after
    ensures c in before ==> c in after && after[c] == before[c]
    ensures IsDefaulted(c) && c !in before && c in FunctionColumns ==> c in schema.functions && after[c] == schema.functions[c]
    ensures IsDefaulted(c) && c !in before && c !in FunctionColumns ==> after[c] == schema.constant(c)
    ensures !IsDefaulted(c) && c !in before ==> c !in after
  {
    if IsDefaulted(c) {
      DefaultColumn(c);
      StepKind(DefaultIndex(c));
      FunctionColumn(c);
    } else {
      NotDefaulted(schema, before, after, c);
    }
  }

  lemma FunctionColumn(c: Column)
    requires IsDefaulted(c)
    ensures c in FunctionColumns <==> DefaultIndex(c) < |FunctionColumns|
  {
  }

  // ---------- defaults and check together ----------

  /** The position of the default of a column, or -1. */
  function DefaultIndex(c: Column): int {
    match c
    case CreatedAt => 0
    case UpdatedAt => 1
    case Credentials => 2
    case Extra => 3
    case Concurrency => 4
    case Priority => 5
    case RateMultiplier => 6
    case Status => 7
    case AutoPauseOnExpired => 8
    case Schedulable => 9
    case _ => -1
  }

  predicate IsDefaulted(c: Column) {
    DefaultIndex(c) >= 0
  }

  lemma DefaultColumn(c: Column)
    requires IsDefaulted(c)
    ensures DefaultIndex(c) < |DefaultSteps| && DefaultSteps[DefaultIndex(c)].c == c
  {
  }

  lemma DefaultIndexed(i: nat)
    requires i < |DefaultSteps|
    ensures DefaultIndex(DefaultSteps[i].c) == i
  {
  }

  /** A given, valid value; what check asks of name, platform, type and status. */
  predicate GivenValid(schema: Schema, fields: Fields, c: Column) {
    c in fields && schema.isValid(c, fields[c])
  }

  /** After defaults that succeed, check passes exactly when name, platform and type are given and
      valid, the status, given or default, is valid, and so is a session window status if given. */
  lemma CheckAfterDefaults(schema: Schema, before: Fields, after: Fields)
    requires Defaulted(schema, DefaultSteps, before, after)
    ensures FirstError(schema, CheckSteps, after).None? <==>
              && GivenValid(schema, before, Name) && GivenValid(schema, before, Platform) && GivenValid(schema, before, Type)
              && schema.isValid(Status, if Status in before then before[Status] else schema.constant(Status))
              && (SessionWindowStatus in before ==> GivenValid(schema, before, SessionWindowStatus))
  {
    AllDefaultsSet(schema, before, after);
    OtherStepsPass(schema, after);
    FiveStepsDecide(schema, CheckSteps, after);
    StatusAfterDefaults(schema, before, after);
    GivenAfterDefaults(schema, before, after);
  }

  lemma OtherStepsPass(schema: Schema, fields: Fields)
    requires forall c :: IsDefaulted(c) ==> c in fields
    ensures forall i :: 0 <= i < |CheckSteps| && i !in [2, 3, 4, 10, 13] ==> StepError(schema, fields, CheckSteps[i]).None?
  {
    forall i | 0 <= i < |CheckSteps| && i !in [2, 3, 4, 10, 13]
      ensures StepError(schema, fields, CheckSteps[i]).None?
    {
      PlainStep(i);
    }
  }

  lemma GivenAfterDefaults(schema: Schema, before: Fields, after: Fields)
    requires Defaulted(schema, DefaultSteps, before, after)
    ensures GivenValid(schema, after, Name) == GivenValid(schema, before, Name)
    ensures GivenValid(schema, after, Platform) == GivenValid(schema, before, Platform)
    ensures GivenValid(schema, after, Type) == GivenValid(schema, before, Type)
    ensures SessionWindowStatus in after <==> SessionWindowStatus in before
    ensures GivenValid(schema, after, SessionWindowStatus) == GivenValid(schema, before, SessionWindowStatus)
  {
    NotDefaulted(schema, before, after, Name);
    NotDefaulted(schema, before, after, Platform);
    NotDefaulted(schema, before, after, Type);
    NotDefaulted(schema, before, after, SessionWindowStatus);
  }

  lemma FiveStepsDecide(schema: Schema, steps: seq<CheckStep>, fields: Fields)
    requires |steps| == 14
    requires forall i :: 0 <= i < |steps| && i !in [2, 3, 4, 10, 13] ==> StepError(schema, fields, steps[i]).None?
    ensures FirstError(schema, steps, fields).None? <==>
              && StepError(schema, fields, steps[2]).None? && StepError(schema, fields, steps[3]).None?
              && StepError(schema, fields, steps[4]).None? && StepError(schema, fields, steps[10]).None?
              && StepError(schema, fields, steps[13]).None?
  {
    PassesIff(schema, steps, fields);
  }

  lemma PlainStep(i: nat)
    requires i < |CheckSteps| && i !in [2, 3, 4, 10, 13]
    ensures IsDefaulted(CheckSteps[i].c) && !CheckSteps[i].validated
  {
  }

  lemma StatusAfterDefaults(schema: Schema, before: Fields, after: Fields)
    requires Defaulted(schema, DefaultSteps, before, after)
    ensures Status in after && after[Status] == if Status in before then before[Status] else schema.constant(Status)
  {
    assert DefaultSteps[7] == FromConstant(Status);
  }

  lemma AllDefaultsSet(schema: Schema, before: Fields, after: Fields)
    requires Defaulted(schema, DefaultSteps, before, after)
    ensures forall c :: IsDefaulted(c) ==> c in after
  {
    forall c | IsDefaulted(c)
      ensures c in after
    {
      DefaultColumn(c);
    }
  }

  lemma NotDefaulted(schema: Schema, before: Fields, after: Fields, c: Column)
    requires Defaulted(schema, DefaultSteps, before, after) && !IsDefaulted(c)
    ensures c in after <==> c in before
    ensures c in after ==> after[c] == before[c]
  {
    if c in after && c !in before {
      var j :| 0 <= j < |DefaultSteps| && DefaultSteps[j].c == c;
      DefaultIndexed(j);
    }
  }

  lemma DefaultStepChecked(j: nat) returns (i: nat)
    requires j < |DefaultSteps|
    ensures i < |CheckSteps| && CheckSteps[i].c == DefaultSteps[j].c && CheckSteps[i].required
  {
    var places := [0, 1, 5, 6, 7, 8, 9, 10, 11, 12];
    i := places[j];
  }

  /** When defaults fail, check fails too for as long as the field that has no default stays unset,
      whatever else is set in between; bulk creation relies on this when it drops the error. */
  lemma DefaultsErrorResurfaces(schema: Schema, before: Fields, later: Fields)
    requires StepsDone(schema, DefaultSteps, before) < |DefaultSteps|
    requires DefaultSteps[StepsDone(schema, DefaultSteps, before)].c !in later
    ensures FirstError(schema, CheckSteps, later).Some?
  {
    var n := StepsDone(schema, DefaultSteps, before);
    var i := DefaultStepChecked(n);
    MissingFieldFails(schema, CheckSteps, later, i);
  }

  lemma MissingFieldFails(schema: Schema, steps: seq<CheckStep>, fields: Fields, i: nat)
    requires i < |steps| && steps[i].required && steps[i].c !in fields
    ensures FirstError(schema, steps, fields).Some?
  {
    PassesIff(schema, steps, fields);
    assert StepError(schema, fields, steps[i]).Some?;
  }

  /** Failed defaults leave a field with a default set exactly if it was given or its step comes before
      the one that failed; so check fails right after. */
  lemma FailedDefaultsLeaveUnset(schema: Schema, before: Fields, after: Fields)
    requires DefaultsTried(schema, DefaultSteps, before, after)
    requires StepsDone(schema, DefaultSteps, before) < |DefaultSteps|
    ensures forall j :: 0 <= j < |DefaultSteps| ==>
              (DefaultSteps[j].c in after <==> DefaultSteps[j].c in before || j < StepsDone(schema, DefaultSteps, before))
    ensures FirstError(schema, CheckSteps, after).Some?
  {
    DefaultStepsDistinct();
    SetExactlyIf(schema, DefaultSteps, before, after);
    DefaultsErrorResurfaces(schema, before, after);
  }

  lemma SetExactlyIf(schema: Schema, steps: seq<DefaultStep>, before: Fields, after: Fields)
    requires DistinctColumns(steps) && DefaultsTried(schema, steps, before, after)
    ensures forall j :: 0 <= j < |steps| ==>
              (steps[j].c in after <==> steps[j].c in before || j < StepsDone(schema, steps, before))
  {
    var n := StepsDone(schema, steps, before);
    var done := steps[..n];
    forall j | 0 <= j < |steps|
      ensures steps[j].c in after <==> steps[j].c in before || j < n
    {
      if j < n {
        assert done[j] == steps[j];
      }
    }
  }

  lemma DefaultStepsDistinct()
    ensures DistinctColumns(DefaultSteps)
  {
    forall i | 0 <= i < |DefaultSteps|
      ensures DefaultIndex(DefaultSteps[i].c) == i
    {
      DefaultIndexed(i);
    }
  }
}
