/** The Account entity between Go and a row: createSpec, scanValues and assignValues. */
module AccountRow {
  import opened Support

  /** The columns of the accounts table, and any other name a query may select. */
  datatype Column =
    | ID | CreatedAt | UpdatedAt | DeletedAt | Name | Notes | Platform | Type | Credentials | Extra
    | ProxyID | ProxyFallbackOriginID | Concurrency | LoadFactor | Priority | RateMultiplier | Status
    | ErrorMessage | LastUsedAt | ExpiresAt | AutoPauseOnExpired | Schedulable | RateLimitedAt
    | RateLimitResetAt | OverloadUntil | TempUnschedulableUntil | TempUnschedulableReason
    | SessionWindowStart | SessionWindowEnd | SessionWindowStatus
    | Other(name: string)

  type Doc = map<string, string>

  /** A Go value of a field. A JSON field may hold a nil map. */
  datatype Datum = Time(t: int) | Text(s: string) | Int(n: int) | Float(x: real) | Bool(b: bool) | Json(doc: Option<Doc>)

  /** A database value. */
  datatype Cell =
    | Null | TimeCell(t: int) | TextCell(s: string) | IntCell(n: int) | FloatCell(x: real) | BoolCell(b: bool) | JsonCell(s: string)

  /** A scan destination after scanning; None is a NULL. A NULL leaves a byte slice empty. */
  datatype Scanned =
    | NullTime(t: Option<int>) | NullString(s: Option<string>) | NullInt64(n: Option<int>)
    | NullFloat64(x: Option<real>) | NullBool(b: Option<bool>) | Bytes(bytes: string) | UnknownType(cell: Cell)

  /** encoding/json: None is the null document. */
  datatype Codec = Codec(marshal: Option<Doc> -> string, unmarshal: string -> Option<Option<Doc>>)

  ghost predicate Inverse(codec: Codec) {
    forall d :: codec.marshal(d) != "" && codec.unmarshal(codec.marshal(d)) == Some(d)
  }

  /** An Account: the fields that are not zero or nil, and the values selected besides them. */
  datatype Node = Node(fields: map<Column, Datum>, selected: map<string, Scanned>)

  const EmptyNode := Node(map[], map[])

  // ---------- reading ----------

  /** The switch of scanValues, filled from a cell. */
  function Scan(c: Column, cell: Cell): Option<Scanned> {
    match c
    case Credentials | Extra =>
      (match cell case Null => Some(Bytes("")) case JsonCell(s) => Some(Bytes(s)) case _ => None)
    case AutoPauseOnExpired | Schedulable =>
      (match cell case Null => Some(NullBool(None)) case BoolCell(b) => Some(NullBool(Some(b))) case _ => None)
    case RateMultiplier =>
      (match cell case Null => Some(NullFloat64(None)) case FloatCell(x) => Some(NullFloat64(Some(x))) case _ => None)
    case ID | ProxyID | ProxyFallbackOriginID | Concurrency | LoadFactor | Priority =>
      (match cell case Null => Some(NullInt64(None)) case IntCell(n) => Some(NullInt64(Some(n))) case _ => None)
    case Name | Notes | Platform | Type | Status | ErrorMessage | TempUnschedulableReason | SessionWindowStatus =>
      (match cell case Null => Some(NullString(None)) case TextCell(s) => Some(NullString(Some(s))) case _ => None)
    case CreatedAt | UpdatedAt | DeletedAt | LastUsedAt | ExpiresAt | RateLimitedAt | RateLimitResetAt | OverloadUntil
       | TempUnschedulableUntil | SessionWindowStart | SessionWindowEnd =>
      (match cell case Null => Some(NullTime(None)) case TimeCell(t) => Some(NullTime(Some(t))) case _ => None)
    case Other(_) => Some(UnknownType(cell))
  }

  datatype AssignError = CountMismatch | UnexpectedType(c: Column) | BadJson(c: Column)

  /** No other field than c is changed. */
  ghost predicate OnlyChanges(n: Node, next: Node, c: Column) {
    forall k :: k != c ==> (k in next.fields <==> k in n.fields) && (k in next.fields ==> next.fields[k] == n.fields[k])
  }

  function SetTime(n: Node, c: Column, v: Scanned): (r: Result<Node, AssignError>)
    ensures r.Ok? ==> OnlyChanges(n, r.value, c)
  {
    match v
    case NullTime(t) => Ok(if t.Some? then n.(fields := n.fields[c := Time(t.value)]) else n)
    case _ => Err(UnexpectedType(c))
  }

  function SetText(n: Node, c: Column, v: Scanned): (r: Result<Node, AssignError>)
    ensures r.Ok? ==> OnlyChanges(n, r.value, c)
  {
    match v
    case NullString(s) => Ok(if s.Some? then n.(fields := n.fields[c := Text(s.value)]) else n)
    case _ => Err(UnexpectedType(c))
  }

  function SetInt(n: Node, c: Column, v: Scanned): (r: Result<Node, AssignError>)
    ensures r.Ok? ==> OnlyChanges(n, r.value, c)
  {
    match v
    case NullInt64(i) => Ok(if i.Some? then n.(fields := n.fields[c := Int(i.value)]) else n)
    case _ => Err(UnexpectedType(c))
  }

  /** The ID is assigned even from a NULL, as zero. */
  function SetID(n: Node, v: Scanned): (r: Result<Node, AssignError>)
    ensures r.Ok? ==> OnlyChanges(n, r.value, ID)
  {
    match v
    case NullInt64(i) => Ok(n.(fields := n.fields[ID := Int(if i.Some? then i.value else 0)]))
    case _ => Err(UnexpectedType(ID))
  }

  function SetFloat(n: Node, c: Column, v: Scanned): (r: Result<Node, AssignError>)
    ensures r.Ok? ==> OnlyChanges(n, r.value, c)
  {
    match v
    case NullFloat64(x) => Ok(if x.Some? then n.(fields := n.fields[c := Float(x.value)]) else n)
    case _ => Err(UnexpectedType(c))
  }

  function SetBool(n: Node, c: Column, v: Scanned): (r: Result<Node, AssignError>)
    ensures r.Ok? ==> OnlyChanges(n, r.value, c)
  {
    match v
    case NullBool(b) => Ok(if b.Some? then n.(fields := n.fields[c := Bool(b.value)]) else n)
    case _ => Err(UnexpectedType(c))
  }

  /** json.Unmarshal into a map that is already there adds to it; null makes it nil. */
  function Merge(existing: map<Column, Datum>, c: Column, parsed: Option<Doc>): Datum {
    if parsed.Some? && c in existing && existing[c].Json? && existing[c].doc.Some? then
      Json(Some(existing[c].doc.value + parsed.value))
    else Json(parsed)
  }

  function SetJson(codec: Codec, n: Node, c: Column, v: Scanned): (r: Result<Node, AssignError>)
    ensures r.Ok? ==> OnlyChanges(n, r.value, c)
  {
    match v
    case Bytes(s) =>
      if s == "" then Ok(n)
      else (match codec.unmarshal(s)
            case None => Err(BadJson(c))
            case Some(parsed) => Ok(n.(fields := n.fields[c := Merge(n.fields, c, parsed)])))
    case _ => Err(UnexpectedType(c))
  }

  /** The switch of assignValues. */
  function Assign(codec: Codec, n: Node, c: Column, v: Scanned): (r: Result<Node, AssignError>)
    ensures r.Ok? ==> OnlyChanges(n, r.value, c)
  {
    match c
    case ID => SetID(n, v)
    case CreatedAt | UpdatedAt | DeletedAt => SetTime(n, c, v)
    case Name | Notes | Platform | Type => SetText(n, c, v)
    case Credentials | Extra => SetJson(codec, n, c, v)
    case ProxyID | ProxyFallbackOriginID | Concurrency | LoadFactor | Priority => SetInt(n, c, v)
    case RateMultiplier => SetFloat(n, c, v)
    case Status | ErrorMessage => SetText(n, c, v)
    case LastUsedAt | ExpiresAt => SetTime(n, c, v)
    case AutoPauseOnExpired | Schedulable => SetBool(n, c, v)
    case RateLimitedAt | RateLimitResetAt | OverloadUntil | TempUnschedulableUntil => SetTime(n, c, v)
    case TempUnschedulableReason => SetText(n, c, v)
    case SessionWindowStart | SessionWindowEnd => SetTime(n, c, v)
    case SessionWindowStatus => SetText(n, c, v)
    case Other(name) => Ok(n.(selected := n.selected[name := v]))
  }

  type Assigner = (Node, Column, Scanned) -> Result<Node, AssignError>

  function AssignerOf(codec: Codec): Assigner {
    (n: Node, c: Column, v: Scanned) => Assign(codec, n, c, v)
  }

  /** All columns assigned in order; the first error ends it. */
  function AssignEach(assign: Assigner, columns: seq<Column>, values: seq<Scanned>): Result<Node, AssignError>
    requires |columns| <= |values|
  {
    if columns == [] then Ok(EmptyNode)
    else match AssignEach(assign, columns[..|columns| - 1], values)
      case Err(e) => Err(e)
      case Ok(n) => assign(n, columns[|columns| - 1], values[|columns| - 1])
  }

  function AssignAll(codec: Codec, columns: seq<Column>, values: seq<Scanned>): Result<Node, AssignError>
    requires |columns| <= |values|
  {
    AssignEach(AssignerOf(codec), columns, values)
  }

  /** assignValues on a fresh node. */
  method AssignValues(codec: Codec, columns: seq<Column>, values: seq<Scanned>) returns (r: Result<Node, AssignError>)
    ensures |values| < |columns| ==> r == Err(CountMismatch)
    ensures |columns| <= |values| ==> r == AssignAll(codec, columns, values)
  {
    if |values| < |columns| {
      return Err(CountMismatch);
    }
    var n := EmptyNode;
    for i := 0 to |columns|
      invariant AssignEach(AssignerOf(codec), columns[..i], values) == Ok(n)
    {
      AssignStep(AssignerOf(codec), columns, values, i);
      var next := Assign(codec, n, columns[i], values[i]);
      if next.Err? {
        ErrorStays(AssignerOf(codec), columns, values, i + 1);
        return next;
      }
      n := next.value;
    }
    TakeAll(columns);
    return Ok(n);
  }

  lemma AssignStep(assign: Assigner, columns: seq<Column>, values: seq<Scanned>, k: nat)
    requires k < |columns| <= |values|
    ensures AssignEach(assign, columns[..k + 1], values) ==
            match AssignEach(assign, columns[..k], values)
            case Err(e) => Err(e)
            case Ok(n) => assign(n, columns[k], values[k])
  {
    assert columns[..k + 1][..k] == columns[..k];
  }

  lemma {:induction false} ErrorStays(assign: Assigner, columns: seq<Column>, values: seq<Scanned>, k: nat)
    requires k <= |columns| <= |values| && AssignEach(assign, columns[..k], values).Err?
    ensures AssignEach(assign, columns, values) == AssignEach(assign, columns[..k], values)
    decreases |columns| - k
  {
    if k == |columns| {
      assert columns[..k] == columns;
    } else {
      AssignStep(assign, columns, values, k);
      ErrorStays(assign, columns, values, k + 1);
    }
  }

  // ---------- scanValues and assignValues fit together ----------

  /** The destinations of scanValues hold what the row's cells scan to. */
  ghost predicate Scans(columns: seq<Column>, cells: seq<Cell>, values: seq<Scanned>) {
    |columns| == |cells| == |values| && forall i :: 0 <= i < |columns| ==> Scan(columns[i], cells[i]) == Some(values[i])
  }

  ghost predicate BadJsonAt(codec: Codec, columns: seq<Column>, values: seq<Scanned>, c: Column, i: int) {
    && 0 <= i < |columns| && i < |values| && columns[i] == c
    && values[i].Bytes? && values[i].bytes != "" && codec.unmarshal(values[i].bytes).None?
  }

  /** An error comes from one of the columns. */
  lemma {:induction false} ErrorHasColumn(assign: Assigner, columns: seq<Column>, values: seq<Scanned>) returns (i: nat, n: Node)
    requires |columns| <= |values| && AssignEach(assign, columns, values).Err?
    ensures i < |columns| && assign(n, columns[i], values[i]) == AssignEach(assign, columns, values)
  {
    var k := |columns| - 1;
    if AssignEach(assign, columns[..k], values).Err? {
      i, n := ErrorHasColumn(assign, columns[..k], values);
    } else {
      i, n := k, AssignEach(assign, columns[..k], values).value;
    }
  }

  lemma ScannedType(codec: Codec, n: Node, c: Column, cell: Cell, v: Scanned)
    requires Scan(c, cell) == Some(v) && Assign(codec, n, c, v).Err?
    ensures Assign(codec, n, c, v) == Err(BadJson(c)) && v.Bytes? && v.bytes != "" && codec.unmarshal(v.bytes).None?
  {
  }

  /** Whatever columns are selected, repeated or unknown ones too, assignValues never meets a type it
      did not expect: the only error it can return is a JSON text that does not parse. */
  lemma ScannedNeverMismatches(codec: Codec, columns: seq<Column>, cells: seq<Cell>, values: seq<Scanned>)
    requires Scans(columns, cells, values)
    ensures var r := AssignAll(codec, columns, values);
            r.Err? ==> r.error.BadJson? && exists i :: BadJsonAt(codec, columns, values, r.error.c, i)
  {
    if AssignAll(codec, columns, values).Err? {
      var i, n := ErrorHasColumn(AssignerOf(codec), columns, values);
      ScannedType(codec, n, columns[i], cells[i], values[i]);
      assert BadJsonAt(codec, columns, values, columns[i], i);
    }
  }

  /** The value a scanned destination carries for an ordinary field; none for a NULL. */
  function Carried(v: Scanned): Option<Datum> {
    match v
    case NullTime(Some(t)) => Some(Time(t))
    case NullString(Some(s)) => Some(Text(s))
    case NullInt64(Some(n)) => Some(Int(n))
    case NullFloat64(Some(x)) => Some(Float(x))
    case NullBool(Some(b)) => Some(Bool(b))
    case _ => None
  }

  predicate IsJsonColumn(c: Column) {
    c == Credentials || c == Extra
  }

  /** An assigner that sets the field c from its own non-NULL values and leaves it alone otherwise. */
  ghost predicate SetsOrdinary(assign: Assigner, c: Column) {
    forall n, column, v :: assign(n, column, v).Ok? ==>
      var next := assign(n, column, v).value.fields;
      if column == c && Carried(v).Some? then c in next && next[c] == Carried(v).value
      else (c in next <==> c in n.fields) && (c in next ==> next[c] == n.fields[c])
  }

  /** What the column list says of such a field: it holds its last non-NULL occurrence, and is unset without one. */
  ghost predicate HoldsLastCarrier(columns: seq<Column>, values: seq<Scanned>, c: Column, fields: map<Column, Datum>)
    requires |columns| <= |values|
  {
    if c in fields then exists i :: LastCarrier(columns, values, c, i) && fields[c] == Carried(values[i]).value
    else forall i :: 0 <= i < |columns| && columns[i] == c ==> Carried(values[i]).None?
  }

  lemma CarrierStep(columns: seq<Column>, values: seq<Scanned>, c: Column, before: map<Column, Datum>, after: map<Column, Datum>)
    requires columns != [] && |columns| <= |values|
    requires var k := |columns| - 1;
             && HoldsLastCarrier(columns[..k], values, c, before)
             && if columns[k] == c && Carried(values[k]).Some? then c in after && after[c] == Carried(values[k]).value
                else (c in after <==> c in before) && (c in after ==> after[c] == before[c])
    ensures HoldsLastCarrier(columns, values, c, after)
  {
    var k := |columns| - 1;
    if columns[k] == c && Carried(values[k]).Some? {
      assert LastCarrier(columns, values, c, k);
    } else if c in after {
      var i :| LastCarrier(columns[..k], values, c, i) && before[c] == Carried(values[i]).value;
      assert LastCarrier(columns, values, c, i);
    }
  }

  lemma {:induction false} LastCarrierWins(assign: Assigner, columns: seq<Column>, values: seq<Scanned>, c: Column)
    requires |columns| <= |values| && AssignEach(assign, columns, values).Ok? && SetsOrdinary(assign, c)
    ensures HoldsLastCarrier(columns, values, c, AssignEach(assign, columns, values).value.fields)
  {
    if columns != [] {
      var init := columns[..|columns| - 1];
      LastCarrierWins(assign, init, values, c);
      CarrierStep(columns, values, c, AssignEach(assign, init, values).value.fields, AssignEach(assign, columns, values).value.fields);
    }
  }

  /** The last non-NULL occurrence wins for every field but the ID, which a NULL sets to zero, and
      the JSON fields, which are merged. */
  lemma LastNonNullWins(codec: Codec, columns: seq<Column>, values: seq<Scanned>, c: Column)
    requires |columns| <= |values| && AssignAll(codec, columns, values).Ok?
    requires c != ID && !IsJsonColumn(c) && !c.Other?
    ensures HoldsLastCarrier(columns, values, c, AssignAll(codec, columns, values).value.fields)
  {
    forall n, column, v | Assign(codec, n, column, v).Ok?
      ensures var next := Assign(codec, n, column, v).value.fields;
              if column == c && Carried(v).Some? then c in next && next[c] == Carried(v).value
              else (c in next <==> c in n.fields) && (c in next ==> next[c] == n.fields[c])
    {
      AssignOrdinary(codec, n, column, v, c);
    }
    LastCarrierWins(AssignerOf(codec), columns, values, c);
  }

  lemma AssignOther(codec: Codec, n: Node, column: Column, v: Scanned, c: Column)
    requires Assign(codec, n, column, v).Ok? && column != c
    ensures var next := Assign(codec, n, column, v).value.fields;
            (c in next <==> c in n.fields) && (c in next ==> next[c] == n.fields[c])
  {
  }

  lemma AssignOrdinary(codec: Codec, n: Node, column: Column, v: Scanned, c: Column)
    requires Assign(codec, n, column, v).Ok? && c != ID && !IsJsonColumn(c) && !c.Other?
    ensures var next := Assign(codec, n, column, v).value.fields;
            if column == c && Carried(v).Some? then c in next && next[c] == Carried(v).value
            else (c in next <==> c in n.fields) && (c in next ==> next[c] == n.fields[c])
  {
    if column != c {
      AssignOther(codec, n, column, v, c);
    } else {
      AssignSelf(codec, n, v, c);
    }
  }

  datatype Kind = IDKind | TimeKind | TextKind | IntKind | FloatKind | BoolKind | JsonKind | OtherKind

  function KindOf(c: Column): Kind {
    match c
    case ID => IDKind
    case Credentials | Extra => JsonKind
    case ProxyID | ProxyFallbackOriginID | Concurrency | LoadFactor | Priority => IntKind
    case RateMultiplier => FloatKind
    case AutoPauseOnExpired | Schedulable => BoolKind
    case Name | Notes | Platform | Type | Status | ErrorMessage | TempUnschedulableReason | SessionWindowStatus => TextKind
    case Other(_) => OtherKind
    case _ => TimeKind
  }

  lemma AssignByKind(codec: Codec, n: Node, c: Column, v: Scanned)
    requires !c.Other?
    ensures Assign(codec, n, c, v) ==
            match KindOf(c)
            case IDKind => SetID(n, v)
            case TimeKind => SetTime(n, c, v)
            case TextKind => SetText(n, c, v)
            case IntKind => SetInt(n, c, v)
            case FloatKind => SetFloat(n, c, v)
            case BoolKind => SetBool(n, c, v)
            case JsonKind => SetJson(codec, n, c, v)
            case OtherKind => Ok(n)
  {
  }

  lemma AssignSelf(codec: Codec, n: Node, v: Scanned, c: Column)
    requires Assign(codec, n, c, v).Ok? && c != ID && !IsJsonColumn(c) && !c.Other?
    ensures Assign(codec, n, c, v).value ==
            if Carried(v).Some? then n.(fields := n.fields[c := Carried(v).value]) else n
  {
    AssignByKind(codec, n, c, v);
    assert KindOf(c) != IDKind && KindOf(c) != JsonKind && KindOf(c) != OtherKind;
  }

  ghost predicate LastCarrier(columns: seq<Column>, values: seq<Scanned>, c: Column, i: int)
    requires |columns| <= |values|
  {
    && 0 <= i < |columns| && columns[i] == c && Carried(values[i]).Some?
    && forall j :: i < j < |columns| && columns[j] == c ==> Carried(values[j]).None?
  }

  // ---------- the ID and the JSON fields ----------

  function Lookup(fields: map<Column, Datum>, c: Column): Option<Datum> {
    if c in fields then Some(fields[c]) else None
  }

  type FieldStep = (Option<Datum>, Scanned) -> Option<Datum>

  /** The values of a column applied one after the other. */
  function FieldFold(step: FieldStep, columns: seq<Column>, values: seq<Scanned>, c: Column): Option<Datum>
    requires |columns| <= |values|
  {
    if columns == [] then None
    else
      var k := |columns| - 1;
      var before := FieldFold(step, columns[..k], values, c);
      if columns[k] == c then step(before, values[k]) else before
  }

  /** An assigner that changes the field c by steps, and by nothing but its own values. */
  ghost predicate StepsField(assign: Assigner, step: FieldStep, c: Column) {
    forall n, column, v :: assign(n, column, v).Ok? ==>
      Lookup(assign(n, column, v).value.fields, c) ==
      if column == c then step(Lookup(n.fields, c), v) else Lookup(n.fields, c)
  }

  lemma {:induction false} FieldIsFold(assign: Assigner, step: FieldStep, columns: seq<Column>, values: seq<Scanned>, c: Column)
    requires |columns| <= |values| && AssignEach(assign, columns, values).Ok? && StepsField(assign, step, c)
    ensures Lookup(AssignEach(assign, columns, values).value.fields, c) == FieldFold(step, columns, values, c)
  {
    if columns != [] {
      FieldIsFold(assign, step, columns[..|columns| - 1], values, c);
    }
  }

  /** A NULL ID is zero. */
  function IDStep(): FieldStep {
    (before: Option<Datum>, v: Scanned) => Some(Int(if v.NullInt64? && v.n.Some? then v.n.value else 0))
  }

  /** A JSON text is merged into the document that is there; an empty one changes nothing. */
  function JsonStep(codec: Codec): FieldStep {
    (before: Option<Datum>, v: Scanned) =>
      if v.Bytes? && v.bytes != "" && codec.unmarshal(v.bytes).Some? then Some(Merged(before, codec.unmarshal(v.bytes).value))
      else before
  }

  function Merged(before: Option<Datum>, parsed: Option<Doc>): Datum {
    if parsed.Some? && before.Some? && before.value.Json? && before.value.doc.Some? then
      Json(Some(before.value.doc.value + parsed.value))
    else Json(parsed)
  }

  lemma AssignIDStep(codec: Codec, n: Node, column: Column, v: Scanned)
    requires Assign(codec, n, column, v).Ok?
    ensures Lookup(Assign(codec, n, column, v).value.fields, ID) ==
            if column == ID then IDStep()(Lookup(n.fields, ID), v) else Lookup(n.fields, ID)
  {
    if column != ID {
      AssignOther(codec, n, column, v, ID);
    }
  }

  lemma AssignJsonStep(codec: Codec, n: Node, column: Column, v: Scanned, c: Column)
    requires Assign(codec, n, column, v).Ok? && IsJsonColumn(c)
    ensures Lookup(Assign(codec, n, column, v).value.fields, c) ==
            if column == c then JsonStep(codec)(Lookup(n.fields, c), v) else Lookup(n.fields, c)
  {
    if column != c {
      AssignOther(codec, n, column, v, c);
    } else {
      AssignByKind(codec, n, c, v);
    }
  }

  /** A JSON field is the fold of the merges of its occurrences. */
  lemma JsonMerges(codec: Codec, columns: seq<Column>, values: seq<Scanned>, c: Column)
    requires |columns| <= |values| && AssignAll(codec, columns, values).Ok? && IsJsonColumn(c)
    ensures Lookup(AssignAll(codec, columns, values).value.fields, c) == FieldFold(JsonStep(codec), columns, values, c)
  {
    forall n, column, v | Assign(codec, n, column, v).Ok?
      ensures Lookup(Assign(codec, n, column, v).value.fields, c) ==
              if column == c then JsonStep(codec)(Lookup(n.fields, c), v) else Lookup(n.fields, c)
    {
      AssignJsonStep(codec, n, column, v, c);
    }
    FieldIsFold(AssignerOf(codec), JsonStep(codec), columns, values, c);
  }

  /** The ID is that of its last occurrence, zero if that is a NULL. */
  lemma LastIDWins(codec: Codec, columns: seq<Column>, values: seq<Scanned>, i: nat)
    requires |columns| <= |values| && AssignAll(codec, columns, values).Ok?
    requires i < |columns| && columns[i] == ID && forall j :: i < j < |columns| ==> columns[j] != ID
    ensures values[i].NullInt64?
    ensures Lookup(AssignAll(codec, columns, values).value.fields, ID) == Some(Int(if values[i].n.Some? then values[i].n.value else 0))
  {
    forall n, column, v | Assign(codec, n, column, v).Ok?
      ensures Lookup(Assign(codec, n, column, v).value.fields, ID) ==
              if column == ID then IDStep()(Lookup(n.fields, ID), v) else Lookup(n.fields, ID)
    {
      AssignIDStep(codec, n, column, v);
    }
    FieldIsFold(AssignerOf(codec), IDStep(), columns, values, ID);
    FoldEndsAt(IDStep(), columns, values, ID, i);
    var n := AssignedBefore(AssignerOf(codec), columns, values, i);
  }

  lemma {:induction false} FoldEndsAt(step: FieldStep, columns: seq<Column>, values: seq<Scanned>, c: Column, i: nat)
    requires |columns| <= |values| && i < |columns| && columns[i] == c && forall j :: i < j < |columns| ==> columns[j] != c
    ensures FieldFold(step, columns, values, c) == step(FieldFold(step, columns[..i], values, c), values[i])
  {
    var k := |columns| - 1;
    if i < k {
      FoldEndsAt(step, columns[..k], values, c, i);
      assert columns[..k][..i] == columns[..i];
    }
  }

  /** When all columns are assigned, so is each of them. */
  lemma AssignedBefore(assign: Assigner, columns: seq<Column>, values: seq<Scanned>, i: nat) returns (n: Node)
    requires i < |columns| <= |values| && AssignEach(assign, columns, values).Ok?
    ensures assign(n, columns[i], values[i]).Ok?
  {
    AssignStep(assign, columns, values, i);
    if AssignEach(assign, columns[..i + 1], values).Err? {
      ErrorStays(assign, columns, values, i + 1);
    }
    n := AssignEach(assign, columns[..i], values).value;
  }

  // ---------- columns that are not the table's ----------

  /** An assigner that keeps the values of such columns by name, and no others. */
  ghost predicate SelectsOthers(assign: Assigner) {
    forall n, column, v :: assign(n, column, v).Ok? ==>
      assign(n, column, v).value.selected == if column.Other? then n.selected[column.name := v] else n.selected
  }

  /** The i-th column is the last with this name. */
  ghost predicate IsLastOther(columns: seq<Column>, name: string, i: int) {
    0 <= i < |columns| && columns[i] == Other(name) && forall j :: i < j < |columns| ==> columns[j] != Other(name)
  }

  lemma {:induction false} LastOtherKept(assign: Assigner, columns: seq<Column>, values: seq<Scanned>, name: string)
    requires |columns| <= |values| && AssignEach(assign, columns, values).Ok? && SelectsOthers(assign)
    ensures var selected := AssignEach(assign, columns, values).value.selected;
            && (name in selected ==> exists i :: IsLastOther(columns, name, i))
            && forall i :: IsLastOther(columns, name, i) ==> name in selected && selected[name] == values[i]
  {
    if columns != [] {
      var k := |columns| - 1;
      LastOtherKept(assign, columns[..k], values, name);
      if columns[k] == Other(name) {
        assert IsLastOther(columns, name, k);
      } else {
        assert forall i :: IsLastOther(columns, name, i) <==> IsLastOther(columns[..k], name, i);
      }
    }
  }

  lemma AssignSelects(codec: Codec, n: Node, column: Column, v: Scanned)
    requires Assign(codec, n, column, v).Ok?
    ensures Assign(codec, n, column, v).value.selected == if column.Other? then n.selected[column.name := v] else n.selected
  {
    if !column.Other? {
      AssignByKind(codec, n, column, v);
    }
  }

  /** A selected column that is not the table's is kept under its name, with its last value; nothing else is. */
  lemma OthersAreSelected(codec: Codec, columns: seq<Column>, values: seq<Scanned>, name: string)
    requires |columns| <= |values| && AssignAll(codec, columns, values).Ok?
    ensures var selected := AssignAll(codec, columns, values).value.selected;
            && (name in selected ==> exists i :: IsLastOther(columns, name, i))
            && forall i :: IsLastOther(columns, name, i) ==> name in selected && selected[name] == values[i]
  {
    forall n, column, v | Assign(codec, n, column, v).Ok?
      ensures Assign(codec, n, column, v).value.selected == if column.Other? then n.selected[column.name := v] else n.selected
    {
      AssignSelects(codec, n, column, v);
    }
    LastOtherKept(AssignerOf(codec), columns, values, name);
  }

  // ---------- writing ----------

  /** The values a create builder was given: fields, and edges as IDs. */
  datatype Mutation = Mutation(
    fields: map<Column, Datum>, groups: set<int>, proxy: Option<int>, oauthPoolCredential: Option<int>, usageLogs: set<int>)

  datatype FieldType = TypeTime | TypeString | TypeInt | TypeInt64 | TypeFloat64 | TypeBool | TypeJSON

  datatype FieldSpec = FieldSpec(column: Column, fieldType: FieldType, value: Datum)

  datatype Edge = Groups | Proxy | OauthPoolCredential | UsageLogs

  datatype EdgeSpec = EdgeSpec(edge: Edge, nodes: seq<int>)

  /** What to do when a created row conflicts with one that is there. */
  type ConflictOption = int

  datatype CreateSpec = CreateSpec(fields: seq<FieldSpec>, edges: seq<EdgeSpec>, onConflict: seq<ConflictOption>)

  /** The Go types of the fields a mutation can hold. The proxy ID is not one of them: it is an edge. */
  predicate IsGoValue(c: Column, v: Datum) {
    match c
    case CreatedAt | UpdatedAt | DeletedAt | LastUsedAt | ExpiresAt | RateLimitedAt | RateLimitResetAt | OverloadUntil
       | TempUnschedulableUntil | SessionWindowStart | SessionWindowEnd => v.Time?
    case Name | Notes | Platform | Type | Status | ErrorMessage | TempUnschedulableReason | SessionWindowStatus => v.Text?
    case Credentials | Extra => v.Json?
    case ProxyFallbackOriginID | Concurrency | LoadFactor | Priority => v.Int?
    case RateMultiplier => v.Float?
    case AutoPauseOnExpired | Schedulable => v.Bool?
    case ID | ProxyID | Other(_) => false
  }

  ghost predicate WellTyped(m: Mutation) {
    forall c :: c in m.fields ==> IsGoValue(c, m.fields[c])
  }

  /** The fields createSpec copies, in its order, with the types it gives them. */
  const EarlyFields: seq<(Column, FieldType)> := [
    (CreatedAt, TypeTime), (UpdatedAt, TypeTime), (DeletedAt, TypeTime), (Name, TypeString), (Notes, TypeString),
    (Platform, TypeString), (Type, TypeString), (Credentials, TypeJSON), (Extra, TypeJSON),
    (ProxyFallbackOriginID, TypeInt64), (Concurrency, TypeInt), (LoadFactor, TypeInt), (Priority, TypeInt),
    (RateMultiplier, TypeFloat64)]

  const LateFields: seq<(Column, FieldType)> := [
    (Status, TypeString), (ErrorMessage, TypeString), (LastUsedAt, TypeTime), (ExpiresAt, TypeTime),
    (AutoPauseOnExpired, TypeBool), (Schedulable, TypeBool), (RateLimitedAt, TypeTime), (RateLimitResetAt, TypeTime),
    (OverloadUntil, TypeTime), (TempUnschedulableUntil, TypeTime), (TempUnschedulableReason, TypeString),
    (SessionWindowStart, TypeTime), (SessionWindowEnd, TypeTime), (SessionWindowStatus, TypeString)]

  const CreateFields := EarlyFields + LateFields

  /** How the driver writes a value of a specified type; None if the value is not of that type. */
  function Encode(codec: Codec, t: FieldType, v: Datum): Option<Cell> {
    match t
    case TypeTime => if v.Time? then Some(TimeCell(v.t)) else None
    case TypeString => if v.Text? then Some(TextCell(v.s)) else None
    case TypeInt | TypeInt64 => if v.Int? then Some(IntCell(v.n)) else None
    case TypeFloat64 => if v.Float? then Some(FloatCell(v.x)) else None
    case TypeBool => if v.Bool? then Some(BoolCell(v.b)) else None
    case TypeJSON => if v.Json? then Some(JsonCell(codec.marshal(v.doc))) else None
  }

  function EntriesFor(edges: seq<EdgeSpec>, edge: Edge): seq<EdgeSpec> {
    Filter((e: EdgeSpec) => e.edge == edge, edges)
  }

  /** One entry with exactly these targets, or none when there are no targets. */
  ghost predicate Lists(entries: seq<EdgeSpec>, ids: set<int>) {
    if ids == {} then entries == []
    else |entries| == 1 && entries[0].nodes != [] && forall k :: k in entries[0].nodes <==> k in ids
  }

  /** An edge entry for a set of IDs, in any order; none for the empty set. */
  method EdgeEntry(edge: Edge, ids: set<int>) returns (entries: seq<EdgeSpec>)
    ensures Lists(entries, ids) && forall i :: 0 <= i < |entries| ==> entries[i].edge == edge
  {
    if ids == {} {
      return [];
    }
    var nodes: seq<int> := [];
    var rest := ids;
    while rest != {}
      invariant rest <= ids
      invariant forall k :: k in nodes <==> k in ids - rest
    {
      ghost var some := SomeElement(rest);
      var k :| k in rest;
      nodes := nodes + [k];
      rest := rest - {k};
    }
    assert nodes != [] by {
      var k := SomeElement(ids);
      assert k in ids - rest;
    }
    return [EdgeSpec(edge, nodes)];
  }

  function IdSet(id: Option<int>): set<int> {
    if id.Some? then {id.value} else {}
  }

  /** The specifications of the listed fields that are set, in the order of the list. */
  function Copied(list: seq<(Column, FieldType)>, fields: map<Column, Datum>): seq<FieldSpec> {
    if list == [] then []
    else
      var (c, t) := list[|list| - 1];
      var init := Copied(list[..|list| - 1], fields);
      if c in fields then init + [FieldSpec(c, t, fields[c])] else init
  }

  lemma CopiedStep(list: seq<(Column, FieldType)>, fields: map<Column, Datum>, k: nat)
    requires k < |list|
    ensures var (c, t) := list[k];
            Copied(list[..k + 1], fields) ==
            if c in fields then Copied(list[..k], fields) + [FieldSpec(c, t, fields[c])] else Copied(list[..k], fields)
  {
    assert list[..k + 1][..k] == list[..k];
  }

  /** The foreign key that creating the node writes into its own row: the proxy entry's target. */
  function ProxyKey(edges: seq<EdgeSpec>): Option<int> {
    var entries := EntriesFor(edges, Proxy);
    if entries == [] || entries[0].nodes == [] then None else Some(entries[0].nodes[0])
  }

  /** The node createSpec returns: the values of the mutation, and the proxy as a field. */
  function NodeFields(m: Mutation): map<Column, Datum> {
    if m.proxy.Some? then m.fields[ProxyID := Int(m.proxy.value)] else m.fields
  }

  /** The part of createSpec that copies the listed fields into the specification and the node. */
  method CopyFields(list: seq<(Column, FieldType)>, m: Mutation) returns (node: Node, fields: seq<FieldSpec>)
    ensures fields == Copied(list, m.fields)
    ensures node.selected == map[] && ListedFields(list, m.fields, node.fields)
  {
    node, fields := EmptyNode, [];
    for i := 0 to |list|
      invariant fields == Copied(list[..i], m.fields)
      invariant node.selected == map[] && ListedFields(list[..i], m.fields, node.fields)
    {
      CopiedStep(list, m.fields, i);
      var (c, t) := list[i];
      if c in m.fields {
        fields := fields + [FieldSpec(c, t, m.fields[c])];
        node := node.(fields := node.fields[c := m.fields[c]]);
      }
    }
    TakeAll(list);
  }

  /** createSpec: the node to return and the specification to execute. */
  method MakeCreateSpec(m: Mutation, conflict: seq<ConflictOption>) returns (node: Node, spec: CreateSpec)
    requires WellTyped(m)
    ensures spec.onConflict == conflict
    ensures node == Node(NodeFields(m), map[])
    ensures spec.fields == Copied(CreateFields, m.fields)
    ensures forall edge :: Lists(EntriesFor(spec.edges, edge), Targets(m, edge))
  {
    var fields;
    node, fields := CopyFields(CreateFields, m);
    EveryFieldCopied(m, node.fields);
    var groups := EdgeEntry(Groups, m.groups);
    var proxy := EdgeEntry(Proxy, IdSet(m.proxy));
    if proxy != [] {
      assert proxy[0].nodes[0] in proxy[0].nodes;
      node := node.(fields := node.fields[ProxyID := Int(proxy[0].nodes[0])]);
    }
    var credential := EdgeEntry(OauthPoolCredential, IdSet(m.oauthPoolCredential));
    var usageLogs := EdgeEntry(UsageLogs, m.usageLogs);
    spec := CreateSpec(fields, groups + proxy + credential + usageLogs, conflict);
    forall edge
      ensures Lists(EntriesFor(spec.edges, edge), Targets(m, edge))
    {
      EntriesSplit(groups, proxy, credential, usageLogs, edge);
    }
  }

  lemma EntriesSplit(a: seq<EdgeSpec>, b: seq<EdgeSpec>, c: seq<EdgeSpec>, d: seq<EdgeSpec>, edge: Edge)
    requires forall i :: 0 <= i < |a| ==> a[i].edge == Groups
    requires forall i :: 0 <= i < |b| ==> b[i].edge == Proxy
    requires forall i :: 0 <= i < |c| ==> c[i].edge == OauthPoolCredential
    requires forall i :: 0 <= i < |d| ==> d[i].edge == UsageLogs
    ensures EntriesFor(a + b + c + d, edge) ==
            match edge case Groups => a case Proxy => b case OauthPoolCredential => c case UsageLogs => d
  {
    var p := (e: EdgeSpec) => e.edge == edge;
    FilterFour(p, a, b, c, d);
    FilterWhole(p, a, edge == Groups);
    FilterWhole(p, b, edge == Proxy);
    FilterWhole(p, c, edge == OauthPoolCredential);
    FilterWhole(p, d, edge == UsageLogs);
    SumOfOne(a, b, c, d);
  }

  lemma FilterFour(p: EdgeSpec -> bool, a: seq<EdgeSpec>, b: seq<EdgeSpec>, c: seq<EdgeSpec>, d: seq<EdgeSpec>)
    ensures Filter(p, a + b + c + d) == Filter(p, a) + Filter(p, b) + Filter(p, c) + Filter(p, d)
  {
    FilterConcat(p, a + b + c, d);
    FilterConcat(p, a + b, c);
    FilterConcat(p, a, b);
  }

  lemma SumOfOne(a: seq<EdgeSpec>, b: seq<EdgeSpec>, c: seq<EdgeSpec>, d: seq<EdgeSpec>)
    ensures a + [] + [] + [] == a && [] + b + [] + [] == b && [] + [] + c + [] == c && [] + [] + [] + d == d
  {
  }

  lemma FilterWhole(p: EdgeSpec -> bool, s: seq<EdgeSpec>, all: bool)
    requires forall i :: 0 <= i < |s| ==> p(s[i]) == all
    ensures Filter(p, s) == if all then s else []
  {
    if all {
      FilterAll(p, s);
    } else {
      FilterNone(p, s);
    }
  }

  function Targets(m: Mutation, edge: Edge): set<int> {
    match edge
    case Groups => m.groups
    case Proxy => IdSet(m.proxy)
    case OauthPoolCredential => IdSet(m.oauthPoolCredential)
    case UsageLogs => m.usageLogs
  }

  /** some holds exactly the listed fields of all that are set. */
  ghost predicate ListedFields(list: seq<(Column, FieldType)>, all: map<Column, Datum>, some: map<Column, Datum>) {
    && (forall c :: c in some ==> c in all && some[c] == all[c])
    && (forall j :: 0 <= j < |list| ==> list[j].0 in all ==> list[j].0 in some)
  }

  /** Every field of a mutation is in the list. */
  lemma FieldListed(c: Column, v: Datum) returns (i: nat)
    requires IsGoValue(c, v)
    ensures i < |CreateFields| && CreateFields[i].0 == c
  {
    match c
    case CreatedAt => i := 0;
    case UpdatedAt => i := 1;
    case DeletedAt => i := 2;
    case Name => i := 3;
    case Notes => i := 4;
    case Platform => i := 5;
    case Type => i := 6;
    case Credentials => i := 7;
    case Extra => i := 8;
    case ProxyFallbackOriginID => i := 9;
    case Concurrency => i := 10;
    case LoadFactor => i := 11;
    case Priority => i := 12;
    case RateMultiplier => i := 13;
    case Status => i := 14;
    case ErrorMessage => i := 15;
    case LastUsedAt => i := 16;
    case ExpiresAt => i := 17;
    case AutoPauseOnExpired => i := 18;
    case Schedulable => i := 19;
    case RateLimitedAt => i := 20;
    case RateLimitResetAt => i := 21;
    case OverloadUntil => i := 22;
    case TempUnschedulableUntil => i := 23;
    case TempUnschedulableReason => i := 24;
    case SessionWindowStart => i := 25;
    case SessionWindowEnd => i := 26;
    case SessionWindowStatus => i := 27;
  }

  lemma EveryFieldCopied(m: Mutation, fields: map<Column, Datum>)
    requires WellTyped(m) && ListedFields(CreateFields, m.fields, fields)
    ensures fields == m.fields
  {
    forall c | c in m.fields
      ensures c in fields
    {
      var i := FieldListed(c, m.fields[c]);
    }
  }

  function TypeFor(c: Column): FieldType {
    match c
    case CreatedAt | UpdatedAt | DeletedAt | LastUsedAt | ExpiresAt | RateLimitedAt | RateLimitResetAt | OverloadUntil
       | TempUnschedulableUntil | SessionWindowStart | SessionWindowEnd => TypeTime
    case Credentials | Extra => TypeJSON
    case ProxyFallbackOriginID => TypeInt64
    case Concurrency | LoadFactor | Priority => TypeInt
    case RateMultiplier => TypeFloat64
    case AutoPauseOnExpired | Schedulable => TypeBool
    case _ => TypeString
  }

  lemma EarlyType(i: nat)
    requires i < |EarlyFields|
    ensures EarlyFields[i].1 == TypeFor(EarlyFields[i].0)
  {
  }

  lemma LateType(i: nat)
    requires i < |LateFields|
    ensures LateFields[i].1 == TypeFor(LateFields[i].0)
  {
  }

  lemma ListedType(i: nat)
    requires i < |CreateFields|
    ensures CreateFields[i].1 == TypeFor(CreateFields[i].0)
  {
    if i < |EarlyFields| {
      EarlyType(i);
    } else {
      LateType(i - |EarlyFields|);
    }
  }

  // ---------- the round trip ----------

  function CellAt(row: map<Column, Cell>, c: Column): Cell {
    if c in row then row[c] else Null
  }

  /** The row an INSERT of the specification writes. */
  function InsertFields(codec: Codec, fields: seq<FieldSpec>): map<Column, Cell> {
    if fields == [] then map[]
    else
      var last := fields[|fields| - 1];
      var row := InsertFields(codec, fields[..|fields| - 1]);
      match Encode(codec, last.fieldType, last.value)
      case Some(cell) => row[last.column := cell]
      case None => row
  }

  function Insert(codec: Codec, spec: CreateSpec, id: int): map<Column, Cell> {
    var row := InsertFields(codec, spec.fields)[ID := IntCell(id)];
    if ProxyKey(spec.edges).Some? then row[ProxyID := IntCell(ProxyKey(spec.edges).value)] else row
  }

  /** A Go value as a cell of its field's type. */
  function AsCell(codec: Codec, c: Column, v: Datum): Option<Cell> {
    Encode(codec, TypeFor(c), v)
  }

  lemma {:induction false} InsertedFields(codec: Codec, list: seq<(Column, FieldType)>, m: Mutation)
    requires WellTyped(m) && forall i :: 0 <= i < |list| ==> list[i].1 == TypeFor(list[i].0)
    ensures var row := InsertFields(codec, Copied(list, m.fields));
            && (forall c :: c in row ==> c in m.fields && AsCell(codec, c, m.fields[c]) == Some(row[c]))
            && (forall j :: 0 <= j < |list| ==> list[j].0 in m.fields ==> list[j].0 in row)
  {
    if list != [] {
      var init := list[..|list| - 1];
      var (c, t) := list[|list| - 1];
      InsertedFields(codec, init, m);
      if c in m.fields {
        FitsType(codec, c, m.fields[c]);
        var specs := Copied(init, m.fields) + [FieldSpec(c, t, m.fields[c])];
        assert specs[..|specs| - 1] == Copied(init, m.fields);
      }
    }
  }

  lemma FitsType(codec: Codec, c: Column, v: Datum)
    requires IsGoValue(c, v)
    ensures AsCell(codec, c, v).Some?
  {
  }

  /** The inserted row holds every field of the returned node as a cell of its type, and no other. */
  lemma InsertedRow(codec: Codec, m: Mutation, spec: CreateSpec, id: int, c: Column)
    requires WellTyped(m) && spec.fields == Copied(CreateFields, m.fields)
    requires forall edge :: Lists(EntriesFor(spec.edges, edge), Targets(m, edge))
    ensures var fields, row := NodeFields(m)[ID := Int(id)], Insert(codec, spec, id);
            CellAt(row, c) ==
            if c == ID then IntCell(id)
            else if c == ProxyID then (if m.proxy.Some? then IntCell(m.proxy.value) else Null)
            else if c in m.fields then AsCell(codec, c, m.fields[c]).value
            else Null
  {
    InsertedField(codec, m, c);
    ProxyKeyWritten(m, spec.edges);
  }

  lemma InsertedField(codec: Codec, m: Mutation, c: Column)
    requires WellTyped(m)
    ensures var row := InsertFields(codec, Copied(CreateFields, m.fields));
            if c in m.fields then c in row && Some(row[c]) == AsCell(codec, c, m.fields[c]) else c !in row
  {
    ListedTypes(CreateFields);
    InsertedFields(codec, CreateFields, m);
    if c in m.fields {
      var i := FieldListed(c, m.fields[c]);
    }
  }

  lemma ListedTypes(list: seq<(Column, FieldType)>)
    requires list == CreateFields
    ensures forall i :: 0 <= i < |list| ==> list[i].1 == TypeFor(list[i].0)
  {
    forall i | 0 <= i < |list|
      ensures list[i].1 == TypeFor(list[i].0)
    {
      ListedType(i);
    }
  }

  lemma ProxyKeyWritten(m: Mutation, edges: seq<EdgeSpec>)
    requires Lists(EntriesFor(edges, Proxy), Targets(m, Proxy))
    ensures ProxyKey(edges) == m.proxy
  {
    var entries := EntriesFor(edges, Proxy);
    if m.proxy.Some? {
      assert Targets(m, Proxy) == {m.proxy.value};
      assert m.proxy.value in Targets(m, Proxy);
      assert entries[0].nodes[0] in entries[0].nodes;
      assert entries[0].nodes[0] == m.proxy.value;
    } else {
      assert Targets(m, Proxy) == {};
    }
  }

  /** Reading a column of the inserted row back into a node that lacks it gives it the field's value. */
  lemma AssignOwnCell(codec: Codec, n: Node, c: Column, v: Datum, scanned: Scanned)
    requires Inverse(codec) && (IsGoValue(c, v) || (c == ProxyID && v.Int?))
    requires Scan(c, if c == ProxyID then IntCell(v.n) else AsCell(codec, c, v).value) == Some(scanned)
    requires c in n.fields ==> n.fields[c] == v
    ensures Assign(codec, n, c, scanned) == Ok(n.(fields := n.fields[c := v]))
  {
    if IsJsonColumn(c) {
      AssignByKind(codec, n, c, scanned);
      if c in n.fields && v.doc.Some? {
        assert v.doc.value + v.doc.value == v.doc.value;
      }
    } else {
      ScanCarries(codec, n, c, v, scanned);
      AssignSelf(codec, n, scanned, c);
    }
  }

  lemma ScanCarries(codec: Codec, n: Node, c: Column, v: Datum, scanned: Scanned)
    requires (IsGoValue(c, v) || (c == ProxyID && v.Int?)) && !IsJsonColumn(c)
    requires Scan(c, if c == ProxyID then IntCell(v.n) else AsCell(codec, c, v).value) == Some(scanned)
    ensures Carried(scanned) == Some(v) && c != ID && !c.Other? && Assign(codec, n, c, scanned).Ok?
  {
    AssignByKind(codec, n, c, scanned);
  }

  lemma AssignNull(codec: Codec, n: Node, c: Column, scanned: Scanned)
    requires c != ID && !c.Other? && Scan(c, Null) == Some(scanned)
    ensures Assign(codec, n, c, scanned) == Ok(n)
  {
    AssignByKind(codec, n, c, scanned);
  }

  /** The columns of the table itself. */
  predicate IsTableColumn(c: Column) {
    !c.Other?
  }

  ghost predicate Reads(row: map<Column, Cell>, columns: seq<Column>, values: seq<Scanned>) {
    |columns| == |values| && forall i :: 0 <= i < |columns| ==> Scan(columns[i], CellAt(row, columns[i])) == Some(values[i])
  }

  /** The fields are those of the whole node, restricted to some columns. */
  ghost predicate AgreesOn(fields: map<Column, Datum>, whole: map<Column, Datum>, columns: seq<Column>) {
    forall c :: if c in columns && c in whole then c in fields && fields[c] == whole[c] else c !in fields
  }

  /** On a node that does not contradict the whole one, assigning v sets c as the whole node has it. */
  ghost predicate Restores(assign: Assigner, whole: map<Column, Datum>, c: Column, v: Scanned) {
    forall n: Node :: (c in n.fields ==> c in whole && n.fields[c] == whole[c]) ==>
      assign(n, c, v) == Ok(if c in whole then n.(fields := n.fields[c := whole[c]]) else n)
  }

  lemma {:induction false} RestoreEach(assign: Assigner, whole: map<Column, Datum>, columns: seq<Column>, values: seq<Scanned>)
    requires |columns| <= |values| && forall i :: 0 <= i < |columns| ==> Restores(assign, whole, columns[i], values[i])
    ensures var r := AssignEach(assign, columns, values);
            r.Ok? && r.value.selected == map[] && AgreesOn(r.value.fields, whole, columns)
  {
    if columns != [] {
      var k := |columns| - 1;
      RestoreEach(assign, whole, columns[..k], values);
      assert columns == columns[..k] + [columns[k]];
      assert Restores(assign, whole, columns[k], values[k]);
    }
  }

  lemma ReadsBack(codec: Codec, m: Mutation, spec: CreateSpec, id: int, c: Column, v: Scanned)
    requires Inverse(codec) && WellTyped(m) && IsTableColumn(c)
    requires spec.fields == Copied(CreateFields, m.fields)
    requires forall edge :: Lists(EntriesFor(spec.edges, edge), Targets(m, edge))
    requires Scan(c, CellAt(Insert(codec, spec, id), c)) == Some(v)
    ensures Restores(AssignerOf(codec), NodeFields(m)[ID := Int(id)], c, v)
  {
    var whole := NodeFields(m)[ID := Int(id)];
    InsertedRow(codec, m, spec, id, c);
    forall n: Node | c in n.fields ==> c in whole && n.fields[c] == whole[c]
      ensures Assign(codec, n, c, v) == Ok(if c in whole then n.(fields := n.fields[c := whole[c]]) else n)
    {
      ReadBackInto(codec, m, id, n, c, v);
    }
  }

  lemma ReadBackInto(codec: Codec, m: Mutation, id: int, n: Node, c: Column, v: Scanned)
    requires Inverse(codec) && WellTyped(m) && IsTableColumn(c)
    requires Scan(c, if c == ID then IntCell(id)
                     else if c == ProxyID then (if m.proxy.Some? then IntCell(m.proxy.value) else Null)
                     else if c in m.fields then AsCell(codec, c, m.fields[c]).value
                     else Null) == Some(v)
    requires var whole := NodeFields(m)[ID := Int(id)]; c in n.fields ==> c in whole && n.fields[c] == whole[c]
    ensures var whole := NodeFields(m)[ID := Int(id)];
            Assign(codec, n, c, v) == Ok(if c in whole then n.(fields := n.fields[c := whole[c]]) else n)
  {
    var whole := NodeFields(m)[ID := Int(id)];
    if c == ID {
    } else if c in whole {
      AssignOwnCell(codec, n, c, whole[c], v);
    } else {
      AssignNull(codec, n, c, v);
    }
  }

  /** What a create specification writes can be read back: over any list of the table's columns, in
      any order and with repetitions, the fields read are those of the returned node. */
  lemma CreateReadBack(codec: Codec, m: Mutation, spec: CreateSpec, id: int, columns: seq<Column>, values: seq<Scanned>)
    requires Inverse(codec) && WellTyped(m)
    requires spec.fields == Copied(CreateFields, m.fields)
    requires forall edge :: Lists(EntriesFor(spec.edges, edge), Targets(m, edge))
    requires forall i :: 0 <= i < |columns| ==> IsTableColumn(columns[i])
    requires Reads(Insert(codec, spec, id), columns, values)
    ensures var r := AssignAll(codec, columns, values);
            && r.Ok? && r.value.selected == map[]
            && AgreesOn(r.value.fields, NodeFields(m)[ID := Int(id)], columns)
  {
    forall i | 0 <= i < |columns|
      ensures Restores(AssignerOf(codec), NodeFields(m)[ID := Int(id)], columns[i], values[i])
    {
      ReadsBack(codec, m, spec, id, columns[i], values[i]);
    }
    RestoreEach(AssignerOf(codec), NodeFields(m)[ID := Int(id)], columns, values);
  }

  lemma AgreesOnAll(fields: map<Column, Datum>, whole: map<Column, Datum>, columns: seq<Column>)
    requires AgreesOn(fields, whole, columns) && forall c :: c in whole ==> c in columns
    ensures fields == whole
  {
  }

  lemma NodeColumns(m: Mutation, id: int)
    requires WellTyped(m)
    ensures forall c :: c in NodeFields(m)[ID := Int(id)] ==> IsTableColumn(c)
  {
  }

  /** Reading every column of the table gives back the node that creating it returned. */
  lemma CreateReadRoundTrip(
    codec: Codec, m: Mutation, spec: CreateSpec, id: int, columns: seq<Column>, values: seq<Scanned>)
    requires Inverse(codec) && WellTyped(m)
    requires spec.fields == Copied(CreateFields, m.fields)
    requires forall edge :: Lists(EntriesFor(spec.edges, edge), Targets(m, edge))
    requires forall c :: c in columns <==> IsTableColumn(c)
    requires Reads(Insert(codec, spec, id), columns, values)
    ensures AssignAll(codec, columns, values) == Ok(Node(NodeFields(m)[ID := Int(id)], map[]))
  {
    forall i | 0 <= i < |columns|
      ensures IsTableColumn(columns[i])
    {
      assert columns[i] in columns;
    }
    CreateReadBack(codec, m, spec, id, columns, values);
    NodeColumns(m, id);
    AgreesOnAll(AssignAll(codec, columns, values).value.fields, NodeFields(m)[ID := Int(id)], columns);
  }
}
