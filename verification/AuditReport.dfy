/** The audit report: how tools/check_pnpm_audit_exceptions.py lists findings from pnpm's JSON. */
module AuditReport {
  import opened Support

  /** A parsed JSON value. A dict keeps its fields in insertion order, under distinct keys. */
  datatype Json =
    | Null
    | Bool(b: bool)
    | Int(n: int)
    | Float(x: real)
    | Str(s: string)
    | Arr(items: seq<Json>)
    | Obj(fields: seq<(string, Json)>)

  /** The operations of Python's runtime the script relies on, each left arbitrary:
      str() of a value that is not text, str.lower(), and date.fromisoformat() as a day number. */
  datatype Runtime = Runtime(str: Json -> string, lower: string -> string, parseDate: string -> Option<int>)

  /** An uncaught Python exception. */
  datatype Crash = Crash

  datatype Finding = Finding(name: Json, severity: Json, advisoryId: Json)

  predicate Truthy(j: Json) {
    match j
    case Null => false
    case Bool(b) => b
    case Int(n) => n != 0
    case Float(x) => x != 0.0
    case Str(s) => s != ""
    case Arr(items) => items != []
    case Obj(fields) => fields != []
  }

  /** Python's truth value: all but these values are true. */
  lemma TruthyIff(j: Json)
    ensures Truthy(j) <==> j !in [Null, Bool(false), Int(0), Float(0.0), Str(""), Arr([]), Obj([])]
  {
  }

  /** Python's `a or b`. */
  function Or(a: Json, b: Json): Json {
    if Truthy(a) then a else b
  }

  function Lookup(fields: seq<(string, Json)>, key: string): Json {
    if fields == [] then Null else if fields[0].0 == key then fields[0].1 else Lookup(fields[1..], key)
  }

  /** dict.get */
  function Get(j: Json, key: string): Json
    requires j.Obj?
  {
    Lookup(j.fields, key)
  }

  function Text(rt: Runtime, j: Json): string {
    if j.Str? then j.s else rt.str(j)
  }

  /** (cves or [None])[0] */
  function FirstCve(cves: Json): Result<Json, Crash> {
    if !Truthy(cves) then Ok(Null)
    else match cves
      case Arr(items) => Ok(items[0])
      case Str(s) => Ok(Str([s[0]]))
      case _ => Err(Crash)
  }

  function PickAdvisoryId(rt: Runtime, a: Json): Result<Json, Crash>
    requires a.Obj?
  {
    var stable := Or(Get(a, "github_advisory_id"), Get(a, "url"));
    if Truthy(stable) then Ok(stable)
    else match FirstCve(Get(a, "cves"))
      case Err(e) => Err(e)
      case Ok(cve) =>
        var id := Get(a, "id");
        var shown := if id.Null? then Null else Str(Text(rt, id));
        Ok(Or(cve, Or(shown, Or(Get(a, "title"), Or(Get(a, "advisory"), Get(a, "overview"))))))
  }

  // ---------- what each part of the report contributes ----------

  function AdvisoryFinding(rt: Runtime, a: Json): Result<Finding, Crash> {
    if !a.Obj? then Err(Crash)
    else match PickAdvisoryId(rt, a)
      case Err(e) => Err(e)
      case Ok(id) => Ok(Finding(Or(Get(a, "module_name"), Get(a, "name")), Get(a, "severity"), id))
  }

  /** The entries of a "via" value that name an advisory: its dicts and texts, or the text itself. */
  function ViaEntries(via: Json): seq<Json> {
    match via
    case Arr(items) => Filter(IsViaEntry, items)
    case Str(_) => [via]
    case _ => []
  }

  predicate IsViaEntry(item: Json) {
    item.Obj? || item.Str?
  }

  function EntryId(item: Json): Json {
    if item.Obj? then
      Or(Get(item, "github_advisory_id"),
         Or(Get(item, "url"), Or(Get(item, "source"), Or(Get(item, "title"), Get(item, "name")))))
    else item
  }

  function EntryTitle(item: Json): Json {
    if item.Obj? then
      Or(Get(item, "title"), Or(Get(item, "url"), Or(Get(item, "advisory"), Get(item, "source"))))
    else item
  }

  /** "; ".join raises TypeError on a title that is not text. */
  predicate CannotJoin(title: Json) {
    Truthy(title) && !title.Str?
  }

  function VulnFindings(name: string, v: Json): Result<seq<Finding>, Crash> {
    if !v.Obj? then Err(Crash)
    else
      var entries := ViaEntries(Get(v, "via"));
      if exists i :: 0 <= i < |entries| && CannotJoin(EntryTitle(entries[i])) then Err(Crash)
      else Ok(Map(id => Finding(Str(name), Get(v, "severity"), id), Filter(Truthy, Map(EntryId, entries))))
  }

  /** The findings of all the fields of a dict, in order; one crash ends the listing. */
  function Gather(part: ((string, Json)) -> Result<seq<Finding>, Crash>, fields: seq<(string, Json)>)
    : Result<seq<Finding>, Crash>
  {
    if fields == [] then Ok([])
    else match (Gather(part, fields[..|fields| - 1]), part(fields[|fields| - 1]))
      case (Ok(fs), Ok(more)) => Ok(fs + more)
      case _ => Err(Crash)
  }

  function FromAdvisory(rt: Runtime): ((string, Json)) -> Result<seq<Finding>, Crash> {
    (field: (string, Json)) =>
      match AdvisoryFinding(rt, field.1)
      case Ok(f) => Ok([f])
      case Err(e) => Err(e)
  }

  function FromVulnerability(): ((string, Json)) -> Result<seq<Finding>, Crash> {
    (field: (string, Json)) => VulnFindings(field.0, field.1)
  }

  function FieldsOf(j: Json): seq<(string, Json)> {
    if j.Obj? then j.fields else []
  }

  function Findings(rt: Runtime, data: Json): Result<seq<Finding>, Crash> {
    if !data.Obj? then Err(Crash)
    else match (Gather(FromAdvisory(rt), FieldsOf(Get(data, "advisories"))),
                Gather(FromVulnerability(), FieldsOf(Get(data, "vulnerabilities"))))
      case (Ok(fs), Ok(more)) => Ok(fs + more)
      case _ => Err(Crash)
  }

  // ---------- the generator ----------

  /** The two lists filled from one "via" value: advisory ids and titles. */
  method CollectVia(via: Json) returns (advisories: seq<Json>, titles: seq<Json>)
    ensures advisories == Map(EntryId, ViaEntries(via))
    ensures titles == Map(EntryTitle, ViaEntries(via))
  {
    advisories, titles := [], [];
    if via.Arr? {
      var items := via.items;
      for k := 0 to |items|
        invariant advisories == Map(EntryId, Filter(IsViaEntry, items[..k]))
        invariant titles == Map(EntryTitle, Filter(IsViaEntry, items[..k]))
      {
        var item := items[k];
        ghost var kept := Filter(IsViaEntry, items[..k]);
        assert items[..k + 1] == items[..k] + [item];
        FilterAppend(IsViaEntry, items[..k], item);
        MapAppend(EntryId, kept, item);
        MapAppend(EntryTitle, kept, item);
        if item.Obj? {
          advisories := advisories + [EntryId(item)];
          titles := titles + [EntryTitle(item)];
        } else if item.Str? {
          advisories := advisories + [item];
          titles := titles + [item];
        }
      }
      TakeAll(items);
    } else if via.Str? {
      advisories := advisories + [via];
      titles := titles + [via];
    }
  }

  /** What iter_vulns yields for one entry of "vulnerabilities". */
  method YieldVulnerability(name: string, vuln: Json) returns (r: Result<seq<Finding>, Crash>)
    ensures r == VulnFindings(name, vuln)
  {
    if !vuln.Obj? {
      return Err(Crash);
    }
    var advisories, titles := CollectVia(Get(vuln, "via"));
    if exists i :: 0 <= i < |titles| && CannotJoin(titles[i]) {
      return Err(Crash);
    }
    var found := YieldEach(name, Get(vuln, "severity"), Filter(Truthy, advisories));
    return Ok(found);
  }

  method YieldEach(name: string, severity: Json, ids: seq<Json>) returns (found: seq<Finding>)
    ensures found == Map(id => Finding(Str(name), severity, id), ids)
  {
    found := [];
    for j := 0 to |ids|
      invariant found == Map(id => Finding(Str(name), severity, id), ids[..j])
    {
      found := found + [Finding(Str(name), severity, ids[j])];
    }
  }

  method YieldAdvisories(rt: Runtime, advisories: seq<(string, Json)>) returns (r: Result<seq<Finding>, Crash>)
    ensures r == Gather(FromAdvisory(rt), advisories)
  {
    var found: seq<Finding> := [];
    for k := 0 to |advisories|
      invariant Gather(FromAdvisory(rt), advisories[..k]) == Ok(found)
    {
      GatherStep(FromAdvisory(rt), advisories, k);
      var f := AdvisoryFinding(rt, advisories[k].1);
      if f.Err? {
        return Err(Crash);
      }
      found := found + [f.value];
    }
    TakeAll(advisories);
    return Ok(found);
  }

  method YieldVulnerabilities(vulnerabilities: seq<(string, Json)>) returns (r: Result<seq<Finding>, Crash>)
    ensures r == Gather(FromVulnerability(), vulnerabilities)
  {
    var found: seq<Finding> := [];
    for k := 0 to |vulnerabilities|
      invariant Gather(FromVulnerability(), vulnerabilities[..k]) == Ok(found)
    {
      GatherStep(FromVulnerability(), vulnerabilities, k);
      var yielded := YieldVulnerability(vulnerabilities[k].0, vulnerabilities[k].1);
      if yielded.Err? {
        return Err(Crash);
      }
      found := found + yielded.value;
    }
    TakeAll(vulnerabilities);
    return Ok(found);
  }

  /** iter_vulns, run to its end: first the advisories, then the vulnerabilities. */
  method IterVulns(rt: Runtime, data: Json) returns (r: Result<seq<Finding>, Crash>)
    ensures r == Findings(rt, data)
  {
    if !data.Obj? {
      return Err(Crash);
    }
    var first := YieldAdvisories(rt, FieldsOf(Get(data, "advisories")));
    if first.Err? {
      return Err(Crash);
    }
    var second := YieldVulnerabilities(FieldsOf(Get(data, "vulnerabilities")));
    if second.Err? {
      return Err(Crash);
    }
    return Ok(first.value + second.value);
  }

  lemma GatherStep(part: ((string, Json)) -> Result<seq<Finding>, Crash>, fields: seq<(string, Json)>, k: nat)
    requires k < |fields|
    ensures Gather(part, fields[..k + 1]) ==
            match (Gather(part, fields[..k]), part(fields[k]))
            case (Ok(fs), Ok(more)) => Ok(fs + more)
            case _ => Err(Crash)
    ensures part(fields[k]).Err? ==> Gather(part, fields).Err?
  {
    assert fields[..k + 1][..k] == fields[..k];
    GatherSucceeds(part, fields);
  }

  lemma {:induction false} GatherSucceeds(part: ((string, Json)) -> Result<seq<Finding>, Crash>, fields: seq<(string, Json)>)
    ensures Gather(part, fields).Ok? <==> forall i :: 0 <= i < |fields| ==> part(fields[i]).Ok?
  {
    if fields != [] {
      GatherSucceeds(part, fields[..|fields| - 1]);
    }
  }

  // ---------- what the findings say ----------

  /** dict.get: the value of the field with the key, or null without one. */
  lemma {:induction false} LookupMeaning(fields: seq<(string, Json)>, key: string)
    ensures if exists i :: 0 <= i < |fields| && fields[i].0 == key then IsValueOf(fields, key, Lookup(fields, key))
            else Lookup(fields, key) == Null
  {
    if fields != [] {
      LookupMeaning(fields[1..], key);
      assert forall i :: 1 <= i < |fields| ==> fields[i] == fields[1..][i - 1];
      if fields[0].0 == key {
        assert IsFieldAt(fields, key, Lookup(fields, key), 0);
      } else if exists i :: 0 <= i < |fields[1..]| && fields[1..][i].0 == key {
        var i :| IsFieldAt(fields[1..], key, Lookup(fields, key), i);
        assert IsFieldAt(fields, key, Lookup(fields, key), i + 1);
      }
    }
  }

  ghost predicate IsFieldAt(fields: seq<(string, Json)>, key: string, value: Json, i: int) {
    0 <= i < |fields| && fields[i] == (key, value)
  }

  ghost predicate IsValueOf(fields: seq<(string, Json)>, key: string, value: Json) {
    exists i :: IsFieldAt(fields, key, value, i)
  }

  /** The first truthy one of some values; not truthy when none is. */
  ghost predicate IsFirstTruthy(picked: Json, values: seq<Json>) {
    && (forall i :: 0 <= i < |values| && Truthy(values[i]) && (forall j :: 0 <= j < i ==> !Truthy(values[j])) ==>
          picked == values[i])
    && ((forall i :: 0 <= i < |values| ==> !Truthy(values[i])) ==> !Truthy(picked))
  }

  /** One more value in front of the others. */
  lemma OrPicks(a: Json, b: Json, values: seq<Json>)
    requires IsFirstTruthy(b, values)
    ensures IsFirstTruthy(Or(a, b), [a] + values)
  {
    var all := [a] + values;
    assert all[0] == a && forall i :: 0 <= i < |values| ==> all[i + 1] == values[i];
    if Truthy(a) {
    } else {
      forall i | 0 <= i < |all| && Truthy(all[i]) && forall j :: 0 <= j < i ==> !Truthy(all[j])
        ensures b == all[i]
      {
        assert Truthy(values[i - 1]);
        forall j | 0 <= j < i - 1
          ensures !Truthy(values[j])
        {
          assert all[j + 1] == values[j];
        }
      }
    }
  }

  lemma LastPicks(a: Json)
    ensures IsFirstTruthy(a, [a])
  {
    assert [a][0] == a;
  }

  /** The text of an ID that is there. */
  function IdText(rt: Runtime, id: Json): Json {
    if id.Null? then Null else Str(if id.Str? then id.s else rt.str(id))
  }

  /** The first of a list of CVEs; of a text, its first character. */
  function FirstOfCves(cves: Json): Json {
    match cves
    case Arr(items) => if items == [] then Null else items[0]
    case Str(s) => if s == "" then Null else Str([s[0]])
    case _ => Null
  }

  /** What a finding takes from an advisory. Of the fields that may identify it, the stable ones come first. */
  ghost predicate TakenFrom(rt: Runtime, a: Json, f: Finding) {
    && a.Obj?
    && IsFirstTruthy(f.name, [Get(a, "module_name"), Get(a, "name")])
    && f.severity == Get(a, "severity")
    && IsFirstTruthy(f.advisoryId,
         [Get(a, "github_advisory_id"), Get(a, "url"), FirstOfCves(Get(a, "cves")), IdText(rt, Get(a, "id")),
          Get(a, "title"), Get(a, "advisory"), Get(a, "overview")])
  }

  lemma AdvisoryTaken(rt: Runtime, a: Json)
    requires AdvisoryFinding(rt, a).Ok?
    ensures TakenFrom(rt, a, AdvisoryFinding(rt, a).value)
  {
    LastPicks(Get(a, "name"));
    OrPicks(Get(a, "module_name"), Get(a, "name"), [Get(a, "name")]);
    assert [Get(a, "module_name")] + [Get(a, "name")] == [Get(a, "module_name"), Get(a, "name")];
    AdvisoryIdPicked(rt, a);
  }

  lemma AdvisoryIdPicked(rt: Runtime, a: Json)
    requires a.Obj? && PickAdvisoryId(rt, a).Ok?
    ensures IsFirstTruthy(PickAdvisoryId(rt, a).value,
              [Get(a, "github_advisory_id"), Get(a, "url"), FirstOfCves(Get(a, "cves")), IdText(rt, Get(a, "id")),
               Get(a, "title"), Get(a, "advisory"), Get(a, "overview")])
  {
    var ghsa, url, cve, id := Get(a, "github_advisory_id"), Get(a, "url"), FirstOfCves(Get(a, "cves")), IdText(rt, Get(a, "id"));
    var title, advisory, overview := Get(a, "title"), Get(a, "advisory"), Get(a, "overview");
    var texts := Or(title, Or(advisory, overview));
    assert PickAdvisoryId(rt, a).value == Or(ghsa, Or(url, Or(cve, Or(id, texts))));
    ThreePick(title, advisory, overview);
    FourMorePick(ghsa, url, cve, id, texts, [title, advisory, overview]);
    assert [ghsa, url, cve, id] + [title, advisory, overview] == [ghsa, url, cve, id, title, advisory, overview];
  }

  lemma FourMorePick(a: Json, b: Json, c: Json, d: Json, rest: Json, values: seq<Json>)
    requires IsFirstTruthy(rest, values)
    ensures IsFirstTruthy(Or(a, Or(b, Or(c, Or(d, rest)))), [a, b, c, d] + values)
  {
    OrPicks(d, rest, values);
    OrPicks(c, Or(d, rest), [d] + values);
    OrPicks(b, Or(c, Or(d, rest)), [c] + ([d] + values));
    OrPicks(a, Or(b, Or(c, Or(d, rest))), [b] + ([c] + ([d] + values)));
    assert [a] + ([b] + ([c] + ([d] + values))) == [a, b, c, d] + values;
  }

  lemma ThreePick(a: Json, b: Json, c: Json)
    ensures IsFirstTruthy(Or(a, Or(b, c)), [a, b, c])
  {
    LastPicks(c);
    OrPicks(b, c, [c]);
    OrPicks(a, Or(b, c), [b] + [c]);
    assert [a] + ([b] + [c]) == [a, b, c];
  }

  /** What identifies a via entry: of a dict the first truthy one of five fields, in this order. */
  ghost predicate Identifies(item: Json, id: Json) {
    if item.Obj? then
      IsFirstTruthy(id,
        [Get(item, "github_advisory_id"), Get(item, "url"), Get(item, "source"), Get(item, "title"), Get(item, "name")])
    else id == item
  }

  lemma EntryIdentified(item: Json)
    ensures Identifies(item, EntryId(item))
  {
    if item.Obj? {
      var ghsa, url, source, title, name :=
        Get(item, "github_advisory_id"), Get(item, "url"), Get(item, "source"), Get(item, "title"), Get(item, "name");
      ThreePick(source, title, name);
      var last := [source, title, name];
      OrPicks(url, Or(source, Or(title, name)), last);
      OrPicks(ghsa, Or(url, Or(source, Or(title, name))), [url] + last);
      assert [ghsa] + ([url] + last) == [ghsa, url, source, title, name];
    }
  }

  /** What a vulnerability yields: for each of its via entries that is identified a finding, in order,
      under its name and with its severity. */
  ghost predicate YieldedBy(name: string, v: Json, fs: seq<Finding>) {
    && v.Obj?
    && (forall i :: 0 <= i < |fs| ==> fs[i].name == Str(name) && fs[i].severity == Get(v, "severity"))
    && exists ids: seq<Json> :: IdsOf(ViaEntries(Get(v, "via")), ids) && Map((f: Finding) => f.advisoryId, fs) == Filter(Truthy, ids)
  }

  ghost predicate IdsOf(entries: seq<Json>, ids: seq<Json>) {
    |ids| == |entries| && forall j :: 0 <= j < |ids| ==> Identifies(entries[j], ids[j])
  }

  lemma VulnerabilityYielded(name: string, v: Json)
    requires VulnFindings(name, v).Ok?
    ensures YieldedBy(name, v, VulnFindings(name, v).value)
  {
    var entries := ViaEntries(Get(v, "via"));
    var ids := Map(EntryId, entries);
    forall j | 0 <= j < |ids|
      ensures Identifies(entries[j], ids[j])
    {
      EntryIdentified(entries[j]);
    }
    assert IdsOf(entries, ids);
    VulnerabilityYields(name, v);
  }

  /** The findings of a report: one of each advisory, and then those of each vulnerability. */
  ghost predicate Listed(rt: Runtime, data: Json, fs: seq<Finding>) {
    data.Obj? &&
    var advisories, vulnerabilities := FieldsOf(Get(data, "advisories")), FieldsOf(Get(data, "vulnerabilities"));
    exists first: seq<Finding>, parts: seq<seq<Finding>> ::
      && fs == first + Flatten(parts) && |first| == |advisories| && |parts| == |vulnerabilities|
      && (forall i :: 0 <= i < |first| ==> TakenFrom(rt, advisories[i].1, first[i]))
      && (forall i :: 0 <= i < |parts| ==> YieldedBy(vulnerabilities[i].0, vulnerabilities[i].1, parts[i]))
  }

  lemma {:induction false} GatherFlattens(part: ((string, Json)) -> Result<seq<Finding>, Crash>, fields: seq<(string, Json)>)
    returns (parts: seq<seq<Finding>>)
    requires Gather(part, fields).Ok?
    ensures |parts| == |fields| && Gather(part, fields) == Ok(Flatten(parts))
    ensures forall i :: 0 <= i < |fields| ==> part(fields[i]) == Ok(parts[i])
  {
    if fields == [] {
      parts := [];
    } else {
      var k := |fields| - 1;
      var init := GatherFlattens(part, fields[..k]);
      parts := init + [part(fields[k]).value];
      FlattenStep(init, part(fields[k]).value);
    }
  }

  lemma {:induction false} FlattenSingles(fs: seq<Finding>, parts: seq<seq<Finding>>)
    requires |fs| == |parts| && forall i :: 0 <= i < |fs| ==> parts[i] == [fs[i]]
    ensures Flatten(parts) == fs
  {
    if fs != [] {
      var k := |fs| - 1;
      FlattenSingles(fs[..k], parts[..k]);
      assert fs == fs[..k] + [fs[k]];
    }
  }

  lemma AdvisoriesTaken(rt: Runtime, advisories: seq<(string, Json)>)
    requires Gather(FromAdvisory(rt), advisories).Ok?
    ensures var fs := Gather(FromAdvisory(rt), advisories).value;
            |fs| == |advisories| && forall i :: 0 <= i < |fs| ==> TakenFrom(rt, advisories[i].1, fs[i])
  {
    var parts := GatherFlattens(FromAdvisory(rt), advisories);
    forall i | 0 <= i < |parts|
      ensures |parts[i]| == 1 && TakenFrom(rt, advisories[i].1, parts[i][0])
    {
      assert FromAdvisory(rt)(advisories[i]) == Ok(parts[i]);
      AdvisoryTaken(rt, advisories[i].1);
    }
    FlattenSingles(seq(|parts|, i requires 0 <= i < |parts| && |parts[i]| == 1 => parts[i][0]), parts);
  }

  /** Whatever listing returns is what the report's fields say. */
  lemma FindingsListed(rt: Runtime, data: Json)
    ensures Findings(rt, data).Ok? ==> Listed(rt, data, Findings(rt, data).value)
  {
    if Findings(rt, data).Ok? {
      var advisories, vulnerabilities := FieldsOf(Get(data, "advisories")), FieldsOf(Get(data, "vulnerabilities"));
      var first := Gather(FromAdvisory(rt), advisories).value;
      AdvisoriesTaken(rt, advisories);
      var parts := GatherFlattens(FromVulnerability(), vulnerabilities);
      forall i | 0 <= i < |parts|
        ensures YieldedBy(vulnerabilities[i].0, vulnerabilities[i].1, parts[i])
      {
        assert FromVulnerability()(vulnerabilities[i]) == Ok(parts[i]);
        VulnerabilityYielded(vulnerabilities[i].0, vulnerabilities[i].1);
      }
      assert Findings(rt, data).value == first + Flatten(parts);
    }
  }

  // ---------- when a report is readable ----------

  ghost predicate ReadableAdvisory(a: Json) {
    a.Obj? &&
    (Truthy(Get(a, "github_advisory_id")) || Truthy(Get(a, "url")) ||
     !Truthy(Get(a, "cves")) || Get(a, "cves").Arr? || Get(a, "cves").Str?)
  }

  /** The title of a via dict is the first truthy one of title, url, advisory and source. */
  ghost predicate ReadableVia(item: Json) {
    item.Obj? ==>
      if Truthy(Get(item, "title")) then Get(item, "title").Str?
      else if Truthy(Get(item, "url")) then Get(item, "url").Str?
      else if Truthy(Get(item, "advisory")) then Get(item, "advisory").Str?
      else Truthy(Get(item, "source")) ==> Get(item, "source").Str?
  }

  ghost predicate ReadableVulnerability(v: Json) {
    v.Obj? && (Get(v, "via").Arr? ==>
      forall i :: 0 <= i < |Get(v, "via").items| ==> ReadableVia(Get(v, "via").items[i]))
  }

  ghost predicate ReadableReport(data: Json) {
    && data.Obj?
    && (forall i :: 0 <= i < |FieldsOf(Get(data, "advisories"))| ==>
          ReadableAdvisory(FieldsOf(Get(data, "advisories"))[i].1))
    && (forall i :: 0 <= i < |FieldsOf(Get(data, "vulnerabilities"))| ==>
          ReadableVulnerability(FieldsOf(Get(data, "vulnerabilities"))[i].1))
  }

  lemma AdvisoryReadable(rt: Runtime, a: Json)
    ensures AdvisoryFinding(rt, a).Ok? <==> ReadableAdvisory(a)
  {
  }

  lemma VulnerabilityReadable(name: string, v: Json)
    ensures VulnFindings(name, v).Ok? <==> ReadableVulnerability(v)
  {
    if v.Obj? {
      var via := Get(v, "via");
      var entries := ViaEntries(via);
      if via.Arr? {
        forall i | 0 <= i < |via.items|
          ensures !ReadableVia(via.items[i]) <==> IsViaEntry(via.items[i]) && CannotJoin(EntryTitle(via.items[i]))
        {
        }
        if i :| 0 <= i < |via.items| && !ReadableVia(via.items[i]) {
          assert via.items[i] in entries;
        }
        if i :| 0 <= i < |entries| && CannotJoin(EntryTitle(entries[i])) {
          assert entries[i] in via.items;
        }
      }
    }
  }

  /** Listing the findings raises no exception exactly when the report is readable. */
  lemma ListingSucceedsIffReadable(rt: Runtime, data: Json)
    ensures Findings(rt, data).Ok? <==> ReadableReport(data)
  {
    if data.Obj? {
      var advisories, vulnerabilities := FieldsOf(Get(data, "advisories")), FieldsOf(Get(data, "vulnerabilities"));
      GatherSucceeds(FromAdvisory(rt), advisories);
      GatherSucceeds(FromVulnerability(), vulnerabilities);
      forall i | 0 <= i < |advisories|
        ensures FromAdvisory(rt)(advisories[i]).Ok? <==> ReadableAdvisory(advisories[i].1)
      {
        AdvisoryReadable(rt, advisories[i].1);
      }
      forall i | 0 <= i < |vulnerabilities|
        ensures FromVulnerability()(vulnerabilities[i]).Ok? <==>
                ReadableVulnerability(vulnerabilities[i].1)
      {
        VulnerabilityReadable(vulnerabilities[i].0, vulnerabilities[i].1);
      }
    }
  }

  lemma OnlyField(key: string, value: Json, asked: string)
    ensures Get(Obj([(key, value)]), asked) == if asked == key then value else Null
  {
    var fields := [(key, value)];
    assert fields[1..] == [] && Lookup(fields[1..], asked) == Null;
    assert Obj(fields).fields == fields;
  }

  /** A via dict that identifies itself by a numeric source alone is turned into an advisory id, but
      its title cannot be joined: such a report is never readable, although the script means to
      accept numeric sources. */
  lemma NumericSourceCrashes(rt: Runtime, name: string, severity: Json, source: int)
    requires source != 0
    ensures var item := Obj([("source", Int(source))]);
            var vuln := Obj([("severity", severity), ("via", Arr([item]))]);
            && EntryId(item) == Int(source) && EntryTitle(item) == Int(source)
            && Findings(rt, Obj([("vulnerabilities", Obj([(name, vuln)]))])).Err?
  {
    var item := Obj([("source", Int(source))]);
    var vuln := Obj([("severity", severity), ("via", Arr([item]))]);
    var data := Obj([("vulnerabilities", Obj([(name, vuln)]))]);
    OnlyField("source", Int(source), "github_advisory_id");
    OnlyField("source", Int(source), "url");
    OnlyField("source", Int(source), "title");
    OnlyField("source", Int(source), "advisory");
    OnlyField("source", Int(source), "source");
    OnlyField("via", Arr([item]), "via");
    OnlyField("vulnerabilities", Obj([(name, vuln)]), "vulnerabilities");
    assert |"severity"| != |"via"| && vuln.fields[1..] == [("via", Arr([item]))];
    assert Get(vuln, "via") == Arr([item]);
    assert FieldsOf(Get(data, "vulnerabilities"))[0].1 == vuln;
    assert !ReadableVia(Get(vuln, "via").items[0]);
    assert !ReadableVulnerability(vuln);
    ListingSucceedsIffReadable(rt, data);
  }

  /** One finding for each via entry that yields an id, in order, under the vulnerability's name. */
  lemma VulnerabilityYields(name: string, v: Json)
    requires VulnFindings(name, v).Ok?
    ensures var entries := ViaEntries(Get(v, "via"));
            var fs := VulnFindings(name, v).value;
            && (forall i :: 0 <= i < |fs| ==>
                  fs[i].name == Str(name) && fs[i].severity == Get(v, "severity") && Truthy(fs[i].advisoryId))
            && Map((f: Finding) => f.advisoryId, fs) == Filter(Truthy, Map(EntryId, entries))
  {
  }
}
