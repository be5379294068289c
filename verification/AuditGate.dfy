/** The decision of tools/check_pnpm_audit_exceptions.py: which audits pass. */
module AuditGate {
  import opened Support
  import PyText
  import opened ExceptionsFile
  import opened AuditReport

  type Key = (string, string)

  // ---------- normalisation ----------

  /** A severity that is truthy but not text has no strip(): the script crashes. */
  predicate SeverityReadable(severity: Json) {
    !Truthy(severity) || severity.Str?
  }

  function NormalizeSeverity(rt: Runtime, severity: Json): string
    requires SeverityReadable(severity)
  {
    rt.lower(PyText.Strip(if Truthy(severity) then severity.s else ""))
  }

  function NormalizePackage(rt: Runtime, name: Json): string {
    if name.Null? then "" else PyText.Strip(Text(rt, name))
  }

  function NormalizeAdvisory(rt: Runtime, advisory: Json): string {
    if advisory.Null? then "" else rt.lower(PyText.Strip(Text(rt, advisory)))
  }

  predicate IsHigh(severity: string) {
    severity == "high" || severity == "critical"
  }

  // ---------- one exception, one finding ----------

  const RequiredFields := ["package", "advisory", "severity", "mitigation", "expires_on"]

  /** dict.get, with the absent field as the (equally falsy) empty text. */
  function Value(r: Record, field: string): string {
    if field in r then r[field] else ""
  }

  predicate IsMissing(r: Record, field: string) {
    Value(r, field) == ""
  }

  function ExceptionKey(rt: Runtime, r: Record): Key {
    (NormalizePackage(rt, Str(Value(r, "package"))), NormalizeAdvisory(rt, Str(Value(r, "advisory"))))
  }

  function ExceptionSeverity(rt: Runtime, r: Record): string {
    NormalizeSeverity(rt, Str(Value(r, "severity")))
  }

  function Expiry(rt: Runtime, r: Record): Option<int> {
    rt.parseDate(Value(r, "expires_on"))
  }

  ghost predicate IsComplete(rt: Runtime, r: Record) {
    && (forall i :: 0 <= i < |RequiredFields| ==> !IsMissing(r, RequiredFields[i]))
    && Expiry(rt, r).Some?
    && ExceptionKey(rt, r).0 != "" && ExceptionKey(rt, r).1 != ""
  }

  function FindingKey(rt: Runtime, f: Finding): Key {
    (NormalizePackage(rt, f.name), NormalizeAdvisory(rt, f.advisoryId))
  }

  /** The findings the gate looks at: named, and of high or critical severity. */
  predicate IsRelevant(rt: Runtime, f: Finding) {
    SeverityReadable(f.severity) && IsHigh(NormalizeSeverity(rt, f.severity)) && Truthy(f.name)
  }

  /** The exception r covers the finding f on a day: same package and advisory, no other severity
      (a blank one matches any), not expired. */
  ghost predicate Covers(rt: Runtime, r: Record, f: Finding, today: int)
    requires SeverityReadable(f.severity)
  {
    && ExceptionKey(rt, r) == FindingKey(rt, f)
    && (ExceptionSeverity(rt, r) == "" || ExceptionSeverity(rt, r) == NormalizeSeverity(rt, f.severity))
    && Expiry(rt, r).Some? && today <= Expiry(rt, r).value
  }

  ghost predicate IsCovered(rt: Runtime, recs: seq<Record>, f: Finding, today: int)
    requires SeverityReadable(f.severity)
  {
    exists k :: 0 <= k < |recs| && Covers(rt, recs[k], f, today)
  }

  // ---------- the verdict, stated outright ----------

  function KeyFunction(rt: Runtime): Record -> Key {
    (r: Record) => ExceptionKey(rt, r)
  }

  /** No two elements have the same key. */
  ghost predicate DistinctBy<T, K>(key: T -> K, s: seq<T>) {
    forall i, j :: 0 <= i < j < |s| ==> key(s[i]) != key(s[j])
  }

  /** Every exception is complete, and no two are for the same package and advisory. */
  ghost predicate ExceptionsSound(rt: Runtime, recs: seq<Record>) {
    && (forall i :: 0 <= i < |recs| ==> IsComplete(rt, recs[i]))
    && DistinctBy(KeyFunction(rt), recs)
  }

  /** No relevant finding before position i has the same key. */
  ghost predicate IsFirst(rt: Runtime, fs: seq<Finding>, i: nat)
    requires i < |fs|
  {
    forall j :: 0 <= j < i ==> IsRelevant(rt, fs[j]) ==> FindingKey(rt, fs[j]) != FindingKey(rt, fs[i])
  }

  ghost predicate FindingPasses(rt: Runtime, recs: seq<Record>, fs: seq<Finding>, i: nat, today: int)
    requires i < |fs|
  {
    && SeverityReadable(fs[i].severity)
    && (IsRelevant(rt, fs[i]) ==>
          && FindingKey(rt, fs[i]).1 != ""
          && (IsFirst(rt, fs, i) ==> IsCovered(rt, recs, fs[i], today)))
  }

  ghost predicate FindingsPass(rt: Runtime, recs: seq<Record>, fs: seq<Finding>, today: int) {
    forall i :: 0 <= i < |fs| ==> FindingPasses(rt, recs, fs, i, today)
  }

  ghost predicate Passes(rt: Runtime, recs: seq<Record>, fs: seq<Finding>, today: int) {
    ExceptionsSound(rt, recs) && FindingsPass(rt, recs, fs, today)
  }

  ghost predicate GatePasses(rt: Runtime, exceptions: string, audit: Json, today: int) {
    && Parse(exceptions).Ok? && Findings(rt, audit).Ok?
    && Passes(rt, Parse(exceptions).value, Findings(rt, audit).value, today)
  }

  // ---------- the script ----------

  datatype IndexEntry = IndexEntry(severity: string, expiresOn: int)

  datatype Problem = MissingFields | InvalidDate | BlankKey | Duplicate | NoAdvisoryId | SeverityMismatch

  function EntryOf(rt: Runtime, r: Record): IndexEntry {
    IndexEntry(ExceptionSeverity(rt, r), match Expiry(rt, r) case Some(d) => d case None => 0)
  }

  /** The index holds exactly the given items, each under its key. */
  ghost predicate IndexesBy<R>(key: R -> Key, entry: R -> IndexEntry, index: map<Key, IndexEntry>, items: seq<R>) {
    && (forall i :: 0 <= i < |items| ==> key(items[i]) in index && index[key(items[i])] == entry(items[i]))
    && (forall k :: k in index ==> exists i :: 0 <= i < |items| && key(items[i]) == k)
  }

  lemma IndexStep<R>(key: R -> Key, entry: R -> IndexEntry, index: map<Key, IndexEntry>, items: seq<R>, item: R)
    requires IndexesBy(key, entry, index, items) && key(item) !in index
    ensures IndexesBy(key, entry, index[key(item) := entry(item)], items + [item])
  {
    var all := items + [item];
    assert all[|items|] == item;
    assert forall i :: 0 <= i < |items| ==> all[i] == items[i];
  }

  function EntryFunction(rt: Runtime): Record -> IndexEntry {
    (r: Record) => EntryOf(rt, r)
  }

  ghost predicate Indexes(rt: Runtime, index: map<Key, IndexEntry>, recs: seq<Record>) {
    && (forall i :: 0 <= i < |recs| ==> Expiry(rt, recs[i]).Some?)
    && IndexesBy(KeyFunction(rt), EntryFunction(rt), index, recs)
  }

  function MissingFieldsOf(r: Record): seq<string> {
    Filter(field => IsMissing(r, field), RequiredFields)
  }

  lemma MissingNone(r: Record)
    ensures MissingFieldsOf(r) == [] <==> forall i :: 0 <= i < |RequiredFields| ==> !IsMissing(r, RequiredFields[i])
  {
    var missing := MissingFieldsOf(r);
    if i :| 0 <= i < |RequiredFields| && IsMissing(r, RequiredFields[i]) {
      assert RequiredFields[i] in missing;
    }
    if missing != [] {
      assert missing[0] in RequiredFields && IsMissing(r, missing[0]);
    }
  }

  lemma DistinctStep<T, K>(key: T -> K, s: seq<T>, x: T)
    ensures DistinctBy(key, s + [x]) <==> DistinctBy(key, s) && forall i :: 0 <= i < |s| ==> key(s[i]) != key(x)
  {
    var all := s + [x];
    assert all[|s|] == x && forall i :: 0 <= i < |s| ==> all[i] == s[i];
    if DistinctBy(key, all) {
      forall i, j | 0 <= i < j < |s|
        ensures key(s[i]) != key(s[j])
      {
        assert all[i] == s[i] && all[j] == s[j];
      }
      forall i | 0 <= i < |s|
        ensures key(s[i]) != key(x)
      {
        assert all[i] == s[i] && all[|s|] == x;
      }
    }
  }

  lemma SoundStep(rt: Runtime, recs: seq<Record>, r: Record)
    ensures ExceptionsSound(rt, recs + [r]) <==>
            && ExceptionsSound(rt, recs) && IsComplete(rt, r)
            && forall i :: 0 <= i < |recs| ==> KeyFunction(rt)(recs[i]) != KeyFunction(rt)(r)
  {
    DistinctStep(KeyFunction(rt), recs, r);
    CompleteStep(rt, recs, r);
  }

  lemma CompleteStep(rt: Runtime, recs: seq<Record>, r: Record)
    ensures (forall i :: 0 <= i < |recs + [r]| ==> IsComplete(rt, (recs + [r])[i])) <==>
            (forall i :: 0 <= i < |recs| ==> IsComplete(rt, recs[i])) && IsComplete(rt, r)
  {
    var all := recs + [r];
    assert all[|recs|] == r && forall i :: 0 <= i < |recs| ==> all[i] == recs[i];
    if forall i :: 0 <= i < |all| ==> IsComplete(rt, all[i]) {
      forall i | 0 <= i < |recs|
        ensures IsComplete(rt, recs[i])
      {
        assert IsComplete(rt, all[i]);
      }
      assert IsComplete(rt, all[|recs|]);
    }
  }

  lemma NewKey(rt: Runtime, index: map<Key, IndexEntry>, recs: seq<Record>, key: Key)
    requires Indexes(rt, index, recs) && key !in index
    ensures forall i :: 0 <= i < |recs| ==> KeyFunction(rt)(recs[i]) != key
  {
  }

  /** Reads one exception: its key and index entry, or the problem main reports for it. */
  method ReadException(rt: Runtime, exc: Record) returns (r: Result<(Key, IndexEntry), Problem>)
    ensures r.Ok? <==> IsComplete(rt, exc)
    ensures r.Ok? ==> r.value == (ExceptionKey(rt, exc), EntryOf(rt, exc))
  {
    MissingNone(exc);
    if MissingFieldsOf(exc) != [] {
      return Err(MissingFields);
    }
    var date := Expiry(rt, exc);
    if date.None? {
      return Err(InvalidDate);
    }
    var key := ExceptionKey(rt, exc);
    if key.0 == "" || key.1 == "" {
      return Err(BlankKey);
    }
    return Ok((key, IndexEntry(ExceptionSeverity(rt, exc), date.value)));
  }

  lemma DuplicateUnsound(rt: Runtime, index: map<Key, IndexEntry>, recs: seq<Record>, r: Record)
    requires Indexes(rt, index, recs) && ExceptionKey(rt, r) in index
    ensures !ExceptionsSound(rt, recs + [r])
  {
    SoundStep(rt, recs, r);
    var i :| 0 <= i < |recs| && KeyFunction(rt)(recs[i]) == ExceptionKey(rt, r);
  }

  lemma NewSound(rt: Runtime, index: map<Key, IndexEntry>, recs: seq<Record>, r: Record)
    requires Indexes(rt, index, recs) && ExceptionsSound(rt, recs) && IsComplete(rt, r) && ExceptionKey(rt, r) !in index
    ensures ExceptionsSound(rt, recs + [r])
  {
    SoundStep(rt, recs, r);
    NewKey(rt, index, recs, ExceptionKey(rt, r));
  }

  lemma NewIndexed(rt: Runtime, index: map<Key, IndexEntry>, recs: seq<Record>, r: Record)
    requires Indexes(rt, index, recs) && Expiry(rt, r).Some? && ExceptionKey(rt, r) !in index
    ensures Indexes(rt, index[ExceptionKey(rt, r) := EntryOf(rt, r)], recs + [r])
  {
    IndexStep(KeyFunction(rt), EntryFunction(rt), index, recs, r);
  }

  /** The state of the first loop: no error so far exactly if the exceptions read are sound, and then
      the index holds them. */
  ghost predicate IndexState(rt: Runtime, index: map<Key, IndexEntry>, clean: bool, recs: seq<Record>) {
    (clean <==> ExceptionsSound(rt, recs)) && (clean ==> Indexes(rt, index, recs))
  }

  lemma IndexStateStep(rt: Runtime, index: map<Key, IndexEntry>, clean: bool, recs: seq<Record>, r: Record)
    requires IndexState(rt, index, clean, recs)
    ensures if !IsComplete(rt, r) || ExceptionKey(rt, r) in index then IndexState(rt, index, false, recs + [r])
            else IndexState(rt, index[ExceptionKey(rt, r) := EntryOf(rt, r)], clean, recs + [r])
  {
    if !clean || !IsComplete(rt, r) {
      SoundStep(rt, recs, r);
    } else if ExceptionKey(rt, r) in index {
      DuplicateUnsound(rt, index, recs, r);
    } else {
      NewSound(rt, index, recs, r);
      NewIndexed(rt, index, recs, r);
    }
  }

  /** The first loop of main: collects problems and indexes the other exceptions by key. */
  method BuildIndex(rt: Runtime, recs: seq<Record>) returns (index: map<Key, IndexEntry>, errors: seq<Problem>)
    ensures errors == [] <==> ExceptionsSound(rt, recs)
    ensures errors == [] ==> Indexes(rt, index, recs)
  {
    index, errors := map[], [];
    for k := 0 to |recs|
      invariant IndexState(rt, index, errors == [], recs[..k])
    {
      IndexStateStep(rt, index, errors == [], recs[..k], recs[k]);
      TakeNext(recs, k);
      var exc := ReadException(rt, recs[k]);
      if exc.Err? {
        errors := errors + [exc.error];
        continue;
      }
      var (key, entry) := exc.value;
      if key in index {
        errors := errors + [Duplicate];
        continue;
      }
      index := index[key := entry];
    }
    TakeAll(recs);
  }

  /** A finding's exception, looked up by key: present, of no other severity, not expired. */
  predicate IndexCovers(rt: Runtime, index: map<Key, IndexEntry>, f: Finding, today: int)
    requires SeverityReadable(f.severity)
  {
    var key := FindingKey(rt, f);
    && key in index
    && (index[key].severity == "" || index[key].severity == NormalizeSeverity(rt, f.severity))
    && today <= index[key].expiresOn
  }

  ghost predicate IndexPasses(rt: Runtime, index: map<Key, IndexEntry>, fs: seq<Finding>, i: nat, today: int)
    requires i < |fs|
  {
    && SeverityReadable(fs[i].severity)
    && (IsRelevant(rt, fs[i]) ==>
          && FindingKey(rt, fs[i]).1 != ""
          && (IsFirst(rt, fs, i) ==> IndexCovers(rt, index, fs[i], today)))
  }

  /** The first k findings pass against the index. */
  ghost predicate AllIndexPass(rt: Runtime, index: map<Key, IndexEntry>, fs: seq<Finding>, k: nat, today: int)
    requires k <= |fs|
  {
    forall i :: 0 <= i < k ==> IndexPasses(rt, index, fs, i, today)
  }

  lemma AllIndexPassStep(rt: Runtime, index: map<Key, IndexEntry>, fs: seq<Finding>, k: nat, today: int)
    requires k < |fs|
    ensures AllIndexPass(rt, index, fs, k + 1, today) <==> AllIndexPass(rt, index, fs, k, today) && IndexPasses(rt, index, fs, k, today)
    ensures AllIndexPass(rt, index, fs, |fs|, today) ==> IndexPasses(rt, index, fs, k, today)
  {
  }

  /** What the second loop of main collects. */
  datatype Report = Report(errors: seq<Problem>, missing: seq<Finding>, expired: seq<Finding>) {
    predicate IsClean() {
      errors == [] && missing == [] && expired == []
    }
  }

  /** The second loop of main: skips irrelevant and repeated findings and looks the others up. */
  method CheckFindings(rt: Runtime, index: map<Key, IndexEntry>, fs: seq<Finding>, today: int)
    returns (r: Result<Report, Crash>)
    ensures r.Ok? && r.value.IsClean() <==> AllIndexPass(rt, index, fs, |fs|, today)
  {
    var errors: seq<Problem>, missing: seq<Finding>, expired: seq<Finding> := [], [], [];
    var seen: set<Key> := {};
    for k := 0 to |fs|
      invariant SeenBefore(rt, fs, k, seen)
      invariant Report(errors, missing, expired).IsClean() <==> AllIndexPass(rt, index, fs, k, today)
    {
      AllIndexPassStep(rt, index, fs, k, today);
      SeenStep(rt, fs, k, seen);
      var f := fs[k];
      if !SeverityReadable(f.severity) {
        assert !IndexPasses(rt, index, fs, k, today);
        return Err(Crash);
      }
      var sev := NormalizeSeverity(rt, f.severity);
      if !IsHigh(sev) || !Truthy(f.name) {
        assert IndexPasses(rt, index, fs, k, today);
        continue;
      }
      var key := FindingKey(rt, f);
      if key.1 == "" {
        errors := errors + [NoAdvisoryId];
        assert !IndexPasses(rt, index, fs, k, today);
        continue;
      }
      SeenMeansNotFirst(rt, fs, k, seen);
      if key in seen {
        assert IndexPasses(rt, index, fs, k, today);
        continue;
      }
      seen := seen + {key};
      if key !in index {
        missing := missing + [f];
        assert !IndexPasses(rt, index, fs, k, today);
        continue;
      }
      if index[key].severity != "" && index[key].severity != sev {
        errors := errors + [SeverityMismatch];
        assert !IndexPasses(rt, index, fs, k, today);
      }
      if index[key].expiresOn < today {
        expired := expired + [f];
        assert !IndexPasses(rt, index, fs, k, today);
      }
    }
    return Ok(Report(errors, missing, expired));
  }

  /** seen holds the non-blank keys of the relevant findings before position k. */
  ghost predicate SeenBefore(rt: Runtime, fs: seq<Finding>, k: nat, seen: set<Key>)
    requires k <= |fs|
  {
    forall key: Key :: key in seen <==>
      key.1 != "" && exists j :: 0 <= j < k && IsRelevant(rt, fs[j]) && FindingKey(rt, fs[j]) == key
  }

  lemma SeenStep(rt: Runtime, fs: seq<Finding>, k: nat, seen: set<Key>)
    requires k < |fs| && SeenBefore(rt, fs, k, seen)
    ensures !(IsRelevant(rt, fs[k]) && FindingKey(rt, fs[k]).1 != "") || FindingKey(rt, fs[k]) in seen ==>
              SeenBefore(rt, fs, k + 1, seen)
  {
  }

  lemma SeenMeansNotFirst(rt: Runtime, fs: seq<Finding>, k: nat, seen: set<Key>)
    requires k < |fs| && SeenBefore(rt, fs, k, seen)
    requires IsRelevant(rt, fs[k]) && FindingKey(rt, fs[k]).1 != ""
    ensures FindingKey(rt, fs[k]) in seen <==> !IsFirst(rt, fs, k)
    ensures SeenBefore(rt, fs, k + 1, seen + {FindingKey(rt, fs[k])})
  {
  }

  lemma IndexedMeansCovered(rt: Runtime, index: map<Key, IndexEntry>, recs: seq<Record>, f: Finding, today: int)
    requires Indexes(rt, index, recs) && SeverityReadable(f.severity)
    ensures IndexCovers(rt, index, f, today) <==> IsCovered(rt, recs, f, today)
  {
    if IndexCovers(rt, index, f, today) {
      var k :| 0 <= k < |recs| && KeyFunction(rt)(recs[k]) == FindingKey(rt, f);
      assert Covers(rt, recs[k], f, today);
    }
    if IsCovered(rt, recs, f, today) {
      var k :| 0 <= k < |recs| && Covers(rt, recs[k], f, today);
      assert KeyFunction(rt)(recs[k]) in index;
    }
  }

  /** main: exit status 0 is a pass; 1 is a list of problems or an uncaught exception. */
  method RunGate(rt: Runtime, exceptions: string, audit: Json, today: int) returns (exit: int)
    ensures exit == 0 || exit == 1
    ensures exit == 0 <==> GatePasses(rt, exceptions, audit, today)
  {
    var parsed := ParseExceptions(exceptions);
    if parsed.Err? {
      return 1;
    }
    var index, errors := BuildIndex(rt, parsed.value);
    var findings := IterVulns(rt, audit);
    if findings.Err? {
      return 1;
    }
    exit := Decide(rt, parsed.value, index, errors, findings.value, today);
    ReadGate(rt, exceptions, audit, parsed.value, findings.value, today);
  }

  /** When both inputs can be read, the verdict on what they say decides. */
  lemma ReadGate(rt: Runtime, exceptions: string, audit: Json, recs: seq<Record>, fs: seq<Finding>, today: int)
    requires Parse(exceptions) == Ok(recs) && Findings(rt, audit) == Ok(fs)
    ensures GatePasses(rt, exceptions, audit, today) <==> Passes(rt, recs, fs, today)
  {
  }

  /** The part of main behind the index: checks the findings and reports. */
  method Decide(rt: Runtime, ghost recs: seq<Record>, index: map<Key, IndexEntry>, errors: seq<Problem>, fs: seq<Finding>, today: int)
    returns (exit: int)
    requires errors == [] <==> ExceptionsSound(rt, recs)
    requires errors == [] ==> Indexes(rt, index, recs)
    ensures exit == if Passes(rt, recs, fs, today) then 0 else 1
  {
    var checked := CheckFindings(rt, index, fs, today);
    if errors == [] {
      CheckedAgainstIndex(rt, index, recs, fs, today);
    }
    if checked.Err? || errors != [] || !checked.value.IsClean() {
      return 1;
    }
    return 0;
  }

  lemma CheckedAgainstIndex(rt: Runtime, index: map<Key, IndexEntry>, recs: seq<Record>, fs: seq<Finding>, today: int)
    requires Indexes(rt, index, recs)
    ensures FindingsPass(rt, recs, fs, today) <==> forall i :: 0 <= i < |fs| ==> IndexPasses(rt, index, fs, i, today)
  {
    forall i | 0 <= i < |fs|
      ensures FindingPasses(rt, recs, fs, i, today) <==> IndexPasses(rt, index, fs, i, today)
    {
      if SeverityReadable(fs[i].severity) {
        IndexedMeansCovered(rt, index, recs, fs[i], today);
      }
    }
  }

  // ---------- the algebra of the verdict ----------

  /** An earlier day is no stricter. */
  lemma EarlierDayPasses(rt: Runtime, exceptions: string, audit: Json, today: int, earlier: int)
    requires GatePasses(rt, exceptions, audit, today) && earlier <= today
    ensures GatePasses(rt, exceptions, audit, earlier)
  {
    var recs, fs := Parse(exceptions).value, Findings(rt, audit).value;
    forall i | 0 <= i < |fs|
      ensures FindingPasses(rt, recs, fs, i, earlier)
    {
      assert FindingPasses(rt, recs, fs, i, today);
      if IsRelevant(rt, fs[i]) && IsFirst(rt, fs, i) {
        var k :| 0 <= k < |recs| && Covers(rt, recs[k], fs[i], today);
        assert Covers(rt, recs[k], fs[i], earlier);
      }
    }
  }

  /** More findings never turn a failure into a pass. */
  lemma FewerFindingsPass(rt: Runtime, recs: seq<Record>, fs: seq<Finding>, more: seq<Finding>, today: int)
    requires Passes(rt, recs, fs + more, today)
    ensures Passes(rt, recs, fs, today)
  {
    forall i | 0 <= i < |fs|
      ensures FindingPasses(rt, recs, fs, i, today)
    {
      var all := fs + more;
      assert forall j :: 0 <= j < |fs| ==> all[j] == fs[j];
      assert FindingPasses(rt, recs, all, i, today);
      assert IsFirst(rt, fs, i) <==> IsFirst(rt, all, i);
    }
  }

  lemma TwoOccurrences<T>(s: seq<T>, x: T) returns (i: nat, j: nat)
    requires multiset(s)[x] >= 2
    ensures i < j < |s| && s[i] == x && s[j] == x
  {
    i :| 0 <= i < |s| && s[i] == x;
    assert s == s[..i] + [x] + s[i + 1..];
    assert multiset(s) == multiset(s[..i]) + multiset{x} + multiset(s[i + 1..]);
    var rest := s[..i] + s[i + 1..];
    assert multiset(rest)[x] >= 1;
    var k :| 0 <= k < |rest| && rest[k] == x;
    if k < i {
      i, j := k, i;
    } else {
      j := k + 1;
    }
  }

  lemma DistinctPermuted<T, K(!new)>(key: T -> K, s: seq<T>, s': seq<T>)
    requires multiset(s) == multiset(s')
    requires DistinctBy(key, s)
    ensures DistinctBy(key, s')
  {
    forall i, j | 0 <= i < j < |s'|
      ensures key(s'[i]) != key(s'[j])
    {
      if s'[i] == s'[j] {
        assert s' == s'[..i] + [s'[i]] + s'[i + 1..j] + [s'[j]] + s'[j + 1..];
        var m, n := TwoOccurrences(s, s'[i]);
        assert false;
      } else {
        assert s'[i] in multiset(s) && s'[j] in multiset(s);
        var m :| 0 <= m < |s| && s[m] == s'[i];
        var n :| 0 <= n < |s| && s[n] == s'[j];
      }
    }
  }

  lemma SoundPermuted(rt: Runtime, recs: seq<Record>, recs': seq<Record>)
    requires multiset(recs) == multiset(recs') && ExceptionsSound(rt, recs)
    ensures ExceptionsSound(rt, recs')
  {
    forall i | 0 <= i < |recs'|
      ensures IsComplete(rt, recs'[i])
    {
      assert recs'[i] in multiset(recs);
      var j :| 0 <= j < |recs| && recs[j] == recs'[i];
    }
    DistinctPermuted(KeyFunction(rt), recs, recs');
  }

  /** The order of the exceptions does not matter. */
  lemma ExceptionOrderIrrelevant(rt: Runtime, recs: seq<Record>, recs': seq<Record>, fs: seq<Finding>, today: int)
    requires multiset(recs) == multiset(recs')
    ensures Passes(rt, recs, fs, today) <==> Passes(rt, recs', fs, today)
  {
    if Passes(rt, recs, fs, today) {
      ExceptionsPermuted(rt, recs, recs', fs, today);
    }
    if Passes(rt, recs', fs, today) {
      ExceptionsPermuted(rt, recs', recs, fs, today);
    }
  }

  lemma ExceptionsPermuted(rt: Runtime, recs: seq<Record>, recs': seq<Record>, fs: seq<Finding>, today: int)
    requires multiset(recs) == multiset(recs') && Passes(rt, recs, fs, today)
    ensures Passes(rt, recs', fs, today)
  {
    SoundPermuted(rt, recs, recs');
    forall i | 0 <= i < |fs|
      ensures FindingPasses(rt, recs', fs, i, today)
    {
      assert FindingPasses(rt, recs, fs, i, today);
      if IsRelevant(rt, fs[i]) && IsFirst(rt, fs, i) {
        var k :| 0 <= k < |recs| && Covers(rt, recs[k], fs[i], today);
        assert recs[k] in multiset(recs');
        var m :| 0 <= m < |recs'| && recs'[m] == recs[k];
      }
    }
  }

  /** A finding that passes whatever came before it. */
  ghost predicate PassesAlone(rt: Runtime, recs: seq<Record>, f: Finding, today: int) {
    && SeverityReadable(f.severity)
    && (IsRelevant(rt, f) ==> FindingKey(rt, f).1 != "" && IsCovered(rt, recs, f, today))
  }

  /** No package and advisory is reported with two severities. */
  ghost predicate OneSeverityPerKey(rt: Runtime, fs: seq<Finding>) {
    forall i, j :: 0 <= i < |fs| && 0 <= j < |fs| && IsRelevant(rt, fs[i]) && IsRelevant(rt, fs[j]) &&
                   FindingKey(rt, fs[i]) == FindingKey(rt, fs[j]) ==>
                   NormalizeSeverity(rt, fs[i].severity) == NormalizeSeverity(rt, fs[j].severity)
  }

  lemma FirstOccurrence(rt: Runtime, fs: seq<Finding>, i: nat) returns (j: nat)
    requires i < |fs| && IsRelevant(rt, fs[i])
    ensures j <= i && IsRelevant(rt, fs[j]) && FindingKey(rt, fs[j]) == FindingKey(rt, fs[i]) && IsFirst(rt, fs, j)
    decreases i
  {
    if IsFirst(rt, fs, i) {
      j := i;
    } else {
      var k :| 0 <= k < i && IsRelevant(rt, fs[k]) && FindingKey(rt, fs[k]) == FindingKey(rt, fs[i]);
      j := FirstOccurrence(rt, fs, k);
    }
  }

  /** With one severity per key the findings pass exactly when each of them passes alone, so neither
      their order nor repetitions among them matter. */
  lemma FindingsPassOneByOne(rt: Runtime, recs: seq<Record>, fs: seq<Finding>, today: int)
    requires OneSeverityPerKey(rt, fs)
    ensures FindingsPass(rt, recs, fs, today) <==>
            forall i :: 0 <= i < |fs| ==> PassesAlone(rt, recs, fs[i], today)
  {
    if FindingsPass(rt, recs, fs, today) {
      forall i | 0 <= i < |fs|
        ensures PassesAlone(rt, recs, fs[i], today)
      {
        assert FindingPasses(rt, recs, fs, i, today);
        if IsRelevant(rt, fs[i]) {
          var j := FirstOccurrence(rt, fs, i);
          assert FindingPasses(rt, recs, fs, j, today);
          var k :| 0 <= k < |recs| && Covers(rt, recs[k], fs[j], today);
          assert Covers(rt, recs[k], fs[i], today);
        }
      }
    }
  }

  lemma FindingOrderIrrelevant(rt: Runtime, recs: seq<Record>, fs: seq<Finding>, fs': seq<Finding>, today: int)
    requires OneSeverityPerKey(rt, fs)
    requires forall f :: f in fs <==> f in fs'
    ensures Passes(rt, recs, fs, today) <==> Passes(rt, recs, fs', today)
  {
    assert forall i :: 0 <= i < |fs'| ==> fs'[i] in fs;
    assert forall i :: 0 <= i < |fs| ==> fs[i] in fs';
    assert OneSeverityPerKey(rt, fs');
    FindingsPassOneByOne(rt, recs, fs, today);
    FindingsPassOneByOne(rt, recs, fs', today);
  }

  /** The same findings, each as often, in some order. */
  ghost predicate IsOrderOf(fs: seq<Finding>, order: seq<Finding>) {
    multiset(order) == multiset(fs)
  }

  lemma OrderMembers(fs: seq<Finding>, order: seq<Finding>)
    requires IsOrderOf(fs, order)
    ensures forall i :: 0 <= i < |order| ==> order[i] in fs
    ensures forall i :: 0 <= i < |fs| ==> fs[i] in order
  {
    assert forall i :: 0 <= i < |order| ==> order[i] in multiset(order);
    assert forall i :: 0 <= i < |fs| ==> fs[i] in multiset(fs);
  }

  /** Without that condition: every ordering of the findings passes exactly when each finding passes
      alone, because each of them comes first in some ordering. */
  lemma EveryOrderPassesIff(rt: Runtime, recs: seq<Record>, fs: seq<Finding>, today: int)
    ensures (forall order: seq<Finding> :: IsOrderOf(fs, order) ==> FindingsPass(rt, recs, order, today)) <==>
            AllPassAlone(rt, recs, fs, today)
  {
    if forall order: seq<Finding> :: IsOrderOf(fs, order) ==> FindingsPass(rt, recs, order, today) {
      forall i | 0 <= i < |fs|
        ensures PassesAlone(rt, recs, fs[i], today)
      {
        var front := [fs[i]] + fs[..i] + fs[i + 1..];
        assert fs == fs[..i] + [fs[i]] + fs[i + 1..];
        assert IsOrderOf(fs, front);
        FirstMustPass(rt, recs, front, today);
      }
    }
    if AllPassAlone(rt, recs, fs, today) {
      forall order: seq<Finding> | IsOrderOf(fs, order)
        ensures FindingsPass(rt, recs, order, today)
      {
        PassAloneInAnyOrder(rt, recs, fs, order, today);
      }
    }
  }

  ghost predicate AllPassAlone(rt: Runtime, recs: seq<Record>, fs: seq<Finding>, today: int) {
    forall i :: 0 <= i < |fs| ==> PassesAlone(rt, recs, fs[i], today)
  }

  lemma PassAloneInAnyOrder(rt: Runtime, recs: seq<Record>, fs: seq<Finding>, order: seq<Finding>, today: int)
    requires AllPassAlone(rt, recs, fs, today) && IsOrderOf(fs, order)
    ensures FindingsPass(rt, recs, order, today)
  {
    OrderMembers(fs, order);
    forall i | 0 <= i < |order|
      ensures FindingPasses(rt, recs, order, i, today)
    {
      var j :| 0 <= j < |fs| && fs[j] == order[i];
      assert PassesAlone(rt, recs, fs[j], today);
    }
  }

  /** Every finding is readable, and every relevant one has an advisory and a relevant, covered finding
      with the same key, maybe itself, among all. */
  ghost predicate CanPass(rt: Runtime, recs: seq<Record>, fs: seq<Finding>, today: int) {
    forall i :: 0 <= i < |fs| ==>
      && SeverityReadable(fs[i].severity)
      && (IsRelevant(rt, fs[i]) ==> FindingKey(rt, fs[i]).1 != "" && HasCovered(rt, recs, fs, FindingKey(rt, fs[i]), today))
  }

  ghost predicate HasCovered(rt: Runtime, recs: seq<Record>, fs: seq<Finding>, key: Key, today: int) {
    exists f :: f in fs && FindingKey(rt, f) == key && IsLead(rt, recs, today)(f)
  }

  /** The findings that may come first: relevant and covered. */
  ghost function IsLead(rt: Runtime, recs: seq<Record>, today: int): Finding -> bool {
    (f: Finding) => IsRelevant(rt, f) && IsCovered(rt, recs, f, today)
  }

  lemma PassingCanPass(rt: Runtime, recs: seq<Record>, fs: seq<Finding>, today: int)
    requires FindingsPass(rt, recs, fs, today)
    ensures CanPass(rt, recs, fs, today)
  {
    forall i | 0 <= i < |fs|
      ensures SeverityReadable(fs[i].severity)
      ensures IsRelevant(rt, fs[i]) ==> FindingKey(rt, fs[i]).1 != "" && HasCovered(rt, recs, fs, FindingKey(rt, fs[i]), today)
    {
      assert FindingPasses(rt, recs, fs, i, today);
      if IsRelevant(rt, fs[i]) {
        var j := FirstOccurrence(rt, fs, i);
        assert FindingPasses(rt, recs, fs, j, today);
        assert fs[j] in fs && IsLead(rt, recs, today)(fs[j]);
      }
    }
  }

  lemma CanPassPermuted(rt: Runtime, recs: seq<Record>, fs: seq<Finding>, order: seq<Finding>, today: int)
    requires IsOrderOf(fs, order) && CanPass(rt, recs, fs, today)
    ensures CanPass(rt, recs, order, today)
  {
    OrderMembers(fs, order);
    forall i | 0 <= i < |order|
      ensures SeverityReadable(order[i].severity)
      ensures IsRelevant(rt, order[i]) ==>
                FindingKey(rt, order[i]).1 != "" && HasCovered(rt, recs, order, FindingKey(rt, order[i]), today)
    {
      var j :| 0 <= j < |fs| && fs[j] == order[i];
      if IsRelevant(rt, fs[j]) {
        var f :| f in fs && FindingKey(rt, f) == FindingKey(rt, fs[j]) && IsLead(rt, recs, today)(f);
        assert f in order;
      }
    }
  }

  /** Among findings that can pass, with the covered ones in front, the first of a key is covered. */
  lemma FirstIsLead(rt: Runtime, recs: seq<Record>, leads: seq<Finding>, others: seq<Finding>, i: nat, today: int)
    requires forall j :: 0 <= j < |others| ==> !IsLead(rt, recs, today)(others[j])
    requires i < |leads + others| && IsRelevant(rt, (leads + others)[i]) && IsFirst(rt, leads + others, i)
    requires HasCovered(rt, recs, leads + others, FindingKey(rt, (leads + others)[i]), today)
    ensures i < |leads|
  {
    var fs := leads + others;
    assert forall j :: |leads| <= j < |fs| ==> fs[j] == others[j - |leads|];
    var f :| f in fs && FindingKey(rt, f) == FindingKey(rt, fs[i]) && IsLead(rt, recs, today)(f);
    var j :| 0 <= j < |fs| && fs[j] == f;
  }

  /** Findings that can pass do when the covered ones come first. */
  lemma LeadsFirstPass(rt: Runtime, recs: seq<Record>, leads: seq<Finding>, others: seq<Finding>, today: int)
    requires CanPass(rt, recs, leads + others, today)
    requires forall i :: 0 <= i < |leads| ==> IsLead(rt, recs, today)(leads[i])
    requires forall i :: 0 <= i < |others| ==> !IsLead(rt, recs, today)(others[i])
    ensures FindingsPass(rt, recs, leads + others, today)
  {
    var fs := leads + others;
    forall i | 0 <= i < |fs|
      ensures FindingPasses(rt, recs, fs, i, today)
    {
      if IsRelevant(rt, fs[i]) && IsFirst(rt, fs, i) {
        FirstIsLead(rt, recs, leads, others, i, today);
        assert IsLead(rt, recs, today)(fs[i]);
      }
    }
  }

  lemma PassingOrder(rt: Runtime, recs: seq<Record>, fs: seq<Finding>, today: int) returns (order: seq<Finding>)
    requires CanPass(rt, recs, fs, today)
    ensures IsOrderOf(fs, order) && FindingsPass(rt, recs, order, today)
  {
    var lead := IsLead(rt, recs, today);
    var leads, others := Filter(lead, fs), Filter(Not(lead), fs);
    order := leads + others;
    FilterPartition(lead, fs);
    CanPassPermuted(rt, recs, fs, order, today);
    LeadsFirstPass(rt, recs, leads, others, today);
  }

  /** Some order of the findings passes exactly when they can pass. */
  lemma SomeOrderPassesIff(rt: Runtime, recs: seq<Record>, fs: seq<Finding>, today: int)
    ensures (exists order: seq<Finding> :: IsOrderOf(fs, order) && FindingsPass(rt, recs, order, today)) <==>
            CanPass(rt, recs, fs, today)
  {
    if order: seq<Finding> :| IsOrderOf(fs, order) && FindingsPass(rt, recs, order, today) {
      PassingCanPass(rt, recs, order, today);
      CanPassPermuted(rt, recs, order, fs, today);
    }
    if CanPass(rt, recs, fs, today) {
      var order := PassingOrder(rt, recs, fs, today);
    }
  }

  /** Every two orders of the findings have the same verdict. */
  ghost predicate OrderIrrelevant(rt: Runtime, recs: seq<Record>, fs: seq<Finding>, today: int) {
    forall a: seq<Finding>, b: seq<Finding> :: IsOrderOf(fs, a) && IsOrderOf(fs, b) ==>
      (Passes(rt, recs, a, today) <==> Passes(rt, recs, b, today))
  }

  lemma IrrelevantMeansAlone(rt: Runtime, recs: seq<Record>, fs: seq<Finding>, today: int)
    requires OrderIrrelevant(rt, recs, fs, today) && ExceptionsSound(rt, recs) && CanPass(rt, recs, fs, today)
    ensures AllPassAlone(rt, recs, fs, today)
  {
    var passing := PassingOrder(rt, recs, fs, today);
    forall order: seq<Finding> | IsOrderOf(fs, order)
      ensures FindingsPass(rt, recs, order, today)
    {
      assert Passes(rt, recs, passing, today) <==> Passes(rt, recs, order, today);
    }
    EveryOrderPassesIff(rt, recs, fs, today);
  }

  lemma NoOrderPasses(rt: Runtime, recs: seq<Record>, fs: seq<Finding>, order: seq<Finding>, today: int)
    requires IsOrderOf(fs, order) && !CanPass(rt, recs, fs, today)
    ensures !FindingsPass(rt, recs, order, today)
  {
    if FindingsPass(rt, recs, order, today) {
      PassingCanPass(rt, recs, order, today);
      CanPassPermuted(rt, recs, order, fs, today);
    }
  }

  /** The verdict is the same for every order of the findings exactly when the exceptions are not sound,
      or every finding passes alone, or no order passes at all. */
  lemma OrderIrrelevantIff(rt: Runtime, recs: seq<Record>, fs: seq<Finding>, today: int)
    ensures OrderIrrelevant(rt, recs, fs, today) <==>
            !ExceptionsSound(rt, recs) || AllPassAlone(rt, recs, fs, today) || !CanPass(rt, recs, fs, today)
  {
    if ExceptionsSound(rt, recs) && CanPass(rt, recs, fs, today) {
      if OrderIrrelevant(rt, recs, fs, today) {
        IrrelevantMeansAlone(rt, recs, fs, today);
      }
    }
    if AllPassAlone(rt, recs, fs, today) || !CanPass(rt, recs, fs, today) {
      forall a: seq<Finding>, b: seq<Finding> | IsOrderOf(fs, a) && IsOrderOf(fs, b)
        ensures FindingsPass(rt, recs, a, today) <==> FindingsPass(rt, recs, b, today)
      {
        if AllPassAlone(rt, recs, fs, today) {
          PassAloneInAnyOrder(rt, recs, fs, a, today);
          PassAloneInAnyOrder(rt, recs, fs, b, today);
        } else {
          NoOrderPasses(rt, recs, fs, a, today);
          NoOrderPasses(rt, recs, fs, b, today);
        }
      }
    }
  }

  lemma PairPasses(rt: Runtime, recs: seq<Record>, a: Finding, b: Finding, today: int)
    requires IsRelevant(rt, a) && IsRelevant(rt, b) && FindingKey(rt, a) == FindingKey(rt, b)
    requires PassesAlone(rt, recs, a, today)
    ensures FindingsPass(rt, recs, [a, b], today)
  {
    var fs := [a, b];
    assert fs[0] == a && fs[1] == b;
    assert !IsFirst(rt, fs, 1);
  }

  lemma FirstMustPass(rt: Runtime, recs: seq<Record>, fs: seq<Finding>, today: int)
    requires fs != [] && FindingsPass(rt, recs, fs, today)
    ensures PassesAlone(rt, recs, fs[0], today)
  {
    assert IsFirst(rt, fs, 0);
    assert FindingPasses(rt, recs, fs, 0, today);
  }

  /** With sound exceptions, the one for a finding's key decides. */
  lemma OwnExceptionDecides(rt: Runtime, recs: seq<Record>, k: nat, f: Finding, today: int)
    requires ExceptionsSound(rt, recs) && k < |recs| && SeverityReadable(f.severity)
    requires ExceptionKey(rt, recs[k]) == FindingKey(rt, f)
    ensures IsCovered(rt, recs, f, today) <==> Covers(rt, recs[k], f, today)
  {
    if m :| 0 <= m < |recs| && Covers(rt, recs[m], f, today) {
      assert KeyFunction(rt)(recs[m]) == KeyFunction(rt)(recs[k]);
      assert m == k;
    }
  }

  /** The condition is needed: when a key is reported with two severities and its exception is for
      the first of them, the verdict depends on which report comes first. */
  lemma TwoSeveritiesDependOnOrder(rt: Runtime, recs: seq<Record>, k: nat, a: Finding, b: Finding, today: int)
    requires ExceptionsSound(rt, recs) && k < |recs|
    requires IsRelevant(rt, a) && IsRelevant(rt, b) && FindingKey(rt, a) == FindingKey(rt, b)
    requires NormalizeSeverity(rt, a.severity) != NormalizeSeverity(rt, b.severity)
    requires FindingKey(rt, a).1 != "" && Covers(rt, recs[k], a, today) && ExceptionSeverity(rt, recs[k]) != ""
    ensures Passes(rt, recs, [a, b], today) && !Passes(rt, recs, [b, a], today)
  {
    OwnExceptionDecides(rt, recs, k, a, today);
    OwnExceptionDecides(rt, recs, k, b, today);
    PairPasses(rt, recs, a, b, today);
    if FindingsPass(rt, recs, [b, a], today) {
      FirstMustPass(rt, recs, [b, a], today);
    }
  }
}
