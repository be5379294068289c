/** One exception and one advisory through the whole gate, from the two texts to the verdict. */
module GateEndToEnd {
  import opened Support
  import opened PyText
  import opened ExceptionsFile
  import opened AuditReport
  import opened AuditGate

  // ---------- the exception file ----------

  /** An exception as it is written, each value in a style of its own. */
  function Block(package: string, advisory: string, severity: string, mitigation: string, expires: string, styles: seq<Style>): seq<Written>
    requires |styles| == 5
  {
    [Written("package", package, styles[0]), Written("advisory", advisory, styles[1]), Written("severity", severity, styles[2]),
     Written("mitigation", mitigation, styles[3]), Written("expires_on", expires, styles[4])]
  }

  /** The values fit on their lines, and their styles can show them. */
  ghost predicate Writable(ws: seq<Written>) {
    forall i :: 0 <= i < |ws| ==> NewlineFree(ws[i].value) && Showable(ws[i])
  }

  predicate IsNameChar(c: char) {
    'a' <= c <= 'z' || c == '_'
  }

  /** A key of letters and underscores is read as a key, unless it is a header. */
  lemma NameKey(w: Written)
    requires w.key != "" && (forall i :: 0 <= i < |w.key| ==> IsNameChar(w.key[i])) && w.key != "version" && w.key != "exceptions"
    ensures Trimmed(w.key) && ':' !in w.key && NewlineFree(w.key) && IsVisible(w) && !IsItemLike(w)
  {
  }

  lemma FieldNames()
    ensures forall c :: c in "package" || c in "advisory" || c in "severity" || c in "mitigation" || c in "expires_on" ==> IsNameChar(c)
  {
  }

  lemma NamesDiffer()
    ensures DistinctStrings(["package", "advisory", "severity", "mitigation", "expires_on"])
    ensures "version" !in ["package", "advisory", "severity", "mitigation", "expires_on"]
    ensures "exceptions" !in ["package", "advisory", "severity", "mitigation", "expires_on"]
  {
    assert |"package"| == 7 && |"advisory"| == 8 && |"severity"| == 8 && |"mitigation"| == 10 && |"expires_on"| == 10;
    assert "advisory"[0] == 'a' && "severity"[0] == 's' && "mitigation"[0] == 'm' && "expires_on"[0] == 'e';
    assert "package"[0] == 'p' && "version"[0] == 'v' && |"version"| == 7;
    assert |"exceptions"| == 10 && "exceptions"[2] == 'c' && "expires_on"[2] == 'p' && "exceptions"[0] == 'e';
  }

  ghost predicate DistinctStrings(s: seq<string>) {
    forall i, j :: 0 <= i < j < |s| ==> s[i] != s[j]
  }

  lemma BlockKey(ws: seq<Written>, i: nat)
    requires |ws| == 5 && i < 5 && forall j :: 0 <= j < 5 ==> ws[j].key == RequiredFields[j]
    ensures Trimmed(ws[i].key) && ':' !in ws[i].key && NewlineFree(ws[i].key) && IsVisible(ws[i]) && !IsItemLike(ws[i])
    ensures forall j :: 0 <= j < 5 && j != i ==> ws[j].key != ws[i].key
  {
    FieldNames();
    NamesDiffer();
    assert RequiredFields == ["package", "advisory", "severity", "mitigation", "expires_on"];
    assert ws[i].key in RequiredFields;
    assert |ws[i].key| >= 7;
    NameKey(ws[i]);
  }

  /** The file is read as one record with these values. */
  lemma BlockParsed(package: string, advisory: string, severity: string, mitigation: string, expires: string, styles: seq<Style>, eol: string)
    returns (r: Record)
    requires |styles| == 5 && IsLineEnd(eol)
    requires Writable(Block(package, advisory, severity, mitigation, expires, styles))
    ensures Parse(Render([Block(package, advisory, severity, mitigation, expires, styles)], eol)) == Ok([r])
    ensures Value(r, "package") == package && Value(r, "advisory") == advisory && Value(r, "severity") == severity
    ensures Value(r, "mitigation") == mitigation && Value(r, "expires_on") == expires
  {
    var ws := Block(package, advisory, severity, mitigation, expires, styles);
    forall i | 0 <= i < |ws|
      ensures CleanEntry(Meant(ws[i])) && IsVisible(ws[i]) && !IsItemLike(ws[i])
      ensures forall j :: 0 <= j < |ws| && j != i ==> ws[j].key != ws[i].key
    {
      BlockKey(ws, i);
    }
    var recs := [ws];
    assert Readable(recs[0]);
    ReadableRoundTrip(recs, eol);
    r := Dict(ws);
    assert Map(Dict, recs) == [r];
    forall i | 0 <= i < |ws|
      ensures Value(r, ws[i].key) == ws[i].value
    {
      PutAllValues(map[], Map(Meant, ws), i);
    }
    assert ws[0].key == "package" && ws[1].key == "advisory" && ws[2].key == "severity" && ws[3].key == "mitigation";
    assert ws[4].key == "expires_on";
  }

  // ---------- the report ----------

  /** A report with one advisory. */
  function Report(id: string, name: Json, severity: Json, ghsa: Json): Json {
    Obj([("advisories", Obj([(id, Obj([("module_name", name), ("severity", severity), ("github_advisory_id", ghsa)]))]))])
  }

  function TruthyOrNull(j: Json): Json {
    if Truthy(j) then j else Null
  }

  lemma ThreeFields(name: Json, severity: Json, ghsa: Json, key: string)
    ensures Get(Obj([("module_name", name), ("severity", severity), ("github_advisory_id", ghsa)]), key) ==
            if key == "module_name" then name else if key == "severity" then severity
            else if key == "github_advisory_id" then ghsa else Null
  {
    var x, y, z := ("module_name", name), ("severity", severity), ("github_advisory_id", ghsa);
    LookupFirst(x, [y, z], key);
    LookupFirst(y, [z], key);
    LookupFirst(z, [], key);
    assert [x] + [y, z] == [x, y, z] && [y] + [z] == [y, z] && [z] + [] == [z];
    assert |"module_name"| == 11 && |"severity"| == 8 && |"github_advisory_id"| == 18;
  }

  lemma LookupFirst(first: (string, Json), rest: seq<(string, Json)>, key: string)
    ensures Lookup([first] + rest, key) == if first.0 == key then first.1 else Lookup(rest, key)
  {
    assert ([first] + rest)[1..] == rest;
  }

  /** It lists one finding. */
  lemma ReportListed(rt: Runtime, id: string, name: Json, severity: Json, ghsa: Json)
    ensures Findings(rt, Report(id, name, severity, ghsa)) == Ok([Finding(TruthyOrNull(name), severity, TruthyOrNull(ghsa))])
  {
    var a := Obj([("module_name", name), ("severity", severity), ("github_advisory_id", ghsa)]);
    AdvisoryListed(rt, name, severity, ghsa);
    var fields := [(id, a)];
    OnlyField("advisories", Obj(fields), "advisories");
    OnlyField("advisories", Obj(fields), "vulnerabilities");
    assert |"advisories"| != |"vulnerabilities"|;
    var f := Finding(TruthyOrNull(name), severity, TruthyOrNull(ghsa));
    assert FromAdvisory(rt)(fields[0]) == Ok([f]);
    GatherStep(FromAdvisory(rt), fields, 0);
    assert fields[..0] == [] && fields[..1] == fields && [] + [f] == [f];
    var data := Report(id, name, severity, ghsa);
    assert Get(data, "advisories") == Obj(fields) && Get(data, "vulnerabilities") == Null;
    assert Gather(FromVulnerability(), []) == Ok([]) && [f] + [] == [f];
  }

  lemma AdvisoryListed(rt: Runtime, name: Json, severity: Json, ghsa: Json)
    ensures AdvisoryFinding(rt, Obj([("module_name", name), ("severity", severity), ("github_advisory_id", ghsa)])) ==
            Ok(Finding(TruthyOrNull(name), severity, TruthyOrNull(ghsa)))
  {
    ThreeFields(name, severity, ghsa, "module_name");
    ThreeFields(name, severity, ghsa, "name");
    ThreeFields(name, severity, ghsa, "severity");
    ThreeFields(name, severity, ghsa, "github_advisory_id");
    ThreeFields(name, severity, ghsa, "url");
    ThreeFields(name, severity, ghsa, "cves");
    ThreeFields(name, severity, ghsa, "id");
    ThreeFields(name, severity, ghsa, "title");
    ThreeFields(name, severity, ghsa, "advisory");
    ThreeFields(name, severity, ghsa, "overview");
    assert |"name"| == 4 && |"url"| == 3 && |"cves"| == 4 && |"id"| == 2 && |"title"| == 5 && |"advisory"| == 8 && |"overview"| == 8;
    assert "severity"[0] == 's' && "advisory"[0] == 'a' && "overview"[0] == 'o';
    assert |"module_name"| == 11 && |"github_advisory_id"| == 18 && |"severity"| == 8;
  }

  // ---------- the verdict ----------

  /** str() of a value. */
  function Shown(rt: Runtime, j: Json): string {
    if j.Str? then j.s else rt.str(j)
  }

  /** The exception is complete: no value is empty, the date is one, and package and advisory are more
      than white space. */
  predicate IsSound(rt: Runtime, package: string, advisory: string, severity: string, mitigation: string, expires: string) {
    && package != "" && advisory != "" && severity != "" && mitigation != "" && expires != ""
    && rt.parseDate(expires).Some?
    && Strip(package) != "" && rt.lower(Strip(advisory)) != ""
  }

  /** The exception is for the finding: the same package but for white space around it, the same advisory
      and severity but for white space and case, or a blank severity, and not past its date. */
  predicate IsFor(rt: Runtime, package: string, advisory: string, severity: string, expires: string, name: Json, found: string,
                  ghsa: Json, today: int)
  {
    && Truthy(ghsa) && Strip(Shown(rt, name)) == Strip(package)
    && rt.lower(Strip(Shown(rt, ghsa))) == rt.lower(Strip(advisory)) != ""
    && (rt.lower(Strip(severity)) == "" || rt.lower(Strip(severity)) == rt.lower(Strip(found)))
    && rt.parseDate(expires).Some? && today <= rt.parseDate(expires).value
  }

  lemma OneSound(rt: Runtime, r: Record)
    ensures ExceptionsSound(rt, [r]) <==>
            IsSound(rt, Value(r, "package"), Value(r, "advisory"), Value(r, "severity"), Value(r, "mitigation"), Value(r, "expires_on"))
  {
    assert [r][0] == r;
    NothingMissing(r);
  }

  lemma NothingMissing(r: Record)
    ensures (forall i :: 0 <= i < |RequiredFields| ==> !IsMissing(r, RequiredFields[i])) <==>
            && Value(r, "package") != "" && Value(r, "advisory") != "" && Value(r, "severity") != ""
            && Value(r, "mitigation") != "" && Value(r, "expires_on") != ""
  {
    assert RequiredFields[0] == "package" && RequiredFields[1] == "advisory" && RequiredFields[2] == "severity";
    assert RequiredFields[3] == "mitigation" && RequiredFields[4] == "expires_on";
  }

  lemma OneCovered(rt: Runtime, r: Record, f: Finding, today: int)
    requires SeverityReadable(f.severity)
    ensures IsCovered(rt, [r], f, today) <==> Covers(rt, r, f, today)
  {
    assert [r][0] == r;
  }

  lemma OneFinding(rt: Runtime, recs: seq<Record>, f: Finding, today: int)
    ensures FindingsPass(rt, recs, [f], today) <==> PassesAlone(rt, recs, f, today)
  {
    assert [f][0] == f;
    if PassesAlone(rt, recs, f, today) {
      assert FindingPasses(rt, recs, [f], 0, today);
    }
    if FindingsPass(rt, recs, [f], today) {
      FirstMustPass(rt, recs, [f], today);
    }
  }

  /** The gate on an exception file with one exception, in any style and with any line end, and a report
      with one advisory: it passes if and only if the exception is complete, the severity of the advisory
      is text or nothing, and the exception is for it unless it has no name or is neither high nor critical. */
  lemma OneExceptionOneAdvisory(
    rt: Runtime, package: string, advisory: string, severity: string, mitigation: string, expires: string, styles: seq<Style>,
    eol: string, id: string, name: Json, found: Json, ghsa: Json, today: int)
    requires |styles| == 5 && IsLineEnd(eol)
    requires Writable(Block(package, advisory, severity, mitigation, expires, styles))
    ensures GatePasses(rt, Render([Block(package, advisory, severity, mitigation, expires, styles)], eol), Report(id, name, found, ghsa), today)
            <==>
            && IsSound(rt, package, advisory, severity, mitigation, expires)
            && (!Truthy(found) || found.Str?)
            && (Truthy(name) && rt.lower(Strip(if found.Str? then found.s else "")) in {"high", "critical"} ==>
                  IsFor(rt, package, advisory, severity, expires, name, if found.Str? then found.s else "", ghsa, today))
  {
    var r := BlockParsed(package, advisory, severity, mitigation, expires, styles, eol);
    var f := Finding(TruthyOrNull(name), found, TruthyOrNull(ghsa));
    ReportListed(rt, id, name, found, ghsa);
    ReadGate(rt, Render([Block(package, advisory, severity, mitigation, expires, styles)], eol), Report(id, name, found, ghsa), [r], [f], today);
    OneSound(rt, r);
    OneFinding(rt, [r], f, today);
    if SeverityReadable(found) {
      OneCovered(rt, r, f, today);
      CoversFor(rt, r, name, found, ghsa, today);
    }
  }

  lemma CoversFor(rt: Runtime, r: Record, name: Json, found: Json, ghsa: Json, today: int)
    requires SeverityReadable(found)
    ensures var f := Finding(TruthyOrNull(name), found, TruthyOrNull(ghsa));
            Truthy(name) ==>
              (FindingKey(rt, f).1 != "" && Covers(rt, r, f, today) <==>
               IsFor(rt, Value(r, "package"), Value(r, "advisory"), Value(r, "severity"), Value(r, "expires_on"), name,
                     if found.Str? then found.s else "", ghsa, today))
  {
    var f := Finding(TruthyOrNull(name), found, TruthyOrNull(ghsa));
    if Truthy(name) {
      KeyFor(rt, r, name, found, ghsa);
      assert NormalizeSeverity(rt, found) == rt.lower(Strip(if found.Str? then found.s else ""));
      assert ExceptionSeverity(rt, r) == rt.lower(Strip(Value(r, "severity")));
    }
  }

  lemma KeyFor(rt: Runtime, r: Record, name: Json, found: Json, ghsa: Json)
    requires Truthy(name)
    ensures var key := FindingKey(rt, Finding(TruthyOrNull(name), found, TruthyOrNull(ghsa)));
            key.1 != "" && ExceptionKey(rt, r) == key <==>
            && Truthy(ghsa) && Strip(Shown(rt, name)) == Strip(Value(r, "package"))
            && rt.lower(Strip(Shown(rt, ghsa))) == rt.lower(Strip(Value(r, "advisory"))) != ""
  {
  }
}
