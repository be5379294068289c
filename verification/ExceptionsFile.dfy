/** The exception list: the line parser of tools/check_pnpm_audit_exceptions.py. */
module ExceptionsFile {
  import opened Support
  import opened PyText

  /** One exception: a Python dict from field names to text. */
  type Record = map<string, string>

  /** split_kv on an item line without a colon raises ValueError. */
  datatype ParseError = NoColon

  // ---------- lines ----------

  predicate NewlineFree(s: string) {
    '\n' !in s && '\r' !in s
  }

  /** How many characters come before the first line end. */
  function LineLength(text: string): (n: nat)
    ensures n <= |text| && NewlineFree(text[..n])
    ensures n < |text| ==> text[n] == '\n' || text[n] == '\r'
  {
    if text == "" || text[0] == '\n' || text[0] == '\r' then 0
    else
      var n := LineLength(text[1..]);
      assert text[..n + 1] == [text[0]] + text[1..][..n];
      n + 1
  }

  /** Text-mode iteration: lines end at \n, \r or \r\n. The line end itself is dropped here;
      the parser strips every line before it looks at it. */
  function Lines(text: string): (ls: seq<string>)
    ensures forall i :: 0 <= i < |ls| ==> NewlineFree(ls[i])
    decreases |text|
  {
    if text == "" then [] else
    var n := LineLength(text);
    if n == |text| then [text]
    else if text[n] == '\r' && n + 1 < |text| && text[n + 1] == '\n' then [text[..n]] + Lines(text[n + 2..])
    else [text[..n]] + Lines(text[n + 1..])
  }

  predicate IsLineEnd(eol: string) {
    eol == "\n" || eol == "\r" || eol == "\r\n"
  }

  /** Lines, each with a line end. */
  function Unlines(ls: seq<string>, eol: string): string {
    if ls == [] then "" else ls[0] + eol + Unlines(ls[1..], eol)
  }

  lemma {:induction false} LineLengthBefore(line: string, rest: string)
    requires NewlineFree(line) && rest != "" && (rest[0] == '\n' || rest[0] == '\r')
    ensures LineLength(line + rest) == |line|
  {
    if line == "" {
      assert (line + rest)[0] == rest[0];
    } else {
      assert (line + rest)[0] == line[0];
      assert (line + rest)[1..] == line[1..] + rest;
      LineLengthBefore(line[1..], rest);
    }
  }

  lemma {:induction false} LineLengthAll(line: string)
    requires NewlineFree(line)
    ensures LineLength(line) == |line|
  {
    if line != "" {
      LineLengthAll(line[1..]);
    }
  }

  /** The first of the lines is read off. */
  lemma FirstLine(line: string, eol: string, rest: string)
    requires NewlineFree(line) && IsLineEnd(eol) && (rest != "" ==> rest[0] != '\n' || eol != "\r")
    ensures Lines(line + eol + rest) == [line] + Lines(rest)
  {
    var text := line + eol + rest;
    assert text == line + (eol + rest);
    LineLengthBefore(line, eol + rest);
    assert text[..|line|] == line && text[|line|..] == eol + rest;
    assert text[|line|] == eol[0] && text[|line| + |eol|..] == rest;
    if rest != "" {
      assert text[|line| + |eol|] == rest[0];
    }
  }

  /** Reading undoes writing, for each kind of line end and whether or not the last line has one. */
  lemma {:induction false} LinesUnlines(ls: seq<string>, eol: string, last: string)
    requires (forall i :: 0 <= i < |ls| ==> NewlineFree(ls[i])) && IsLineEnd(eol) && NewlineFree(last)
    ensures Lines(Unlines(ls, eol) + last) == ls + if last == "" then [] else [last]
  {
    if ls == [] {
      LineLengthAll(last);
      assert Unlines(ls, eol) + last == last;
    } else {
      var rest := Unlines(ls[1..], eol) + last;
      ConcatAssoc(ls[0] + eol, Unlines(ls[1..], eol), last);
      LinesUnlines(ls[1..], eol, last);
      StartsLine(ls[1..], eol, last);
      FirstLine(ls[0], eol, rest);
      ConsTail(ls, if last == "" then [] else [last]);
    }
  }

  lemma StartsLine(ls: seq<string>, eol: string, last: string)
    requires (forall i :: 0 <= i < |ls| ==> NewlineFree(ls[i])) && IsLineEnd(eol) && NewlineFree(last)
    ensures var text := Unlines(ls, eol) + last; eol == "\r" && text != "" ==> text[0] != '\n'
  {
    if ls == [] {
      assert Unlines(ls, eol) + last == last;
    } else if eol == "\r" {
      var rest := eol + (Unlines(ls[1..], eol) + last);
      ConcatAssoc(ls[0] + eol, Unlines(ls[1..], eol), last);
      ConcatAssoc(ls[0], eol, Unlines(ls[1..], eol) + last);
      assert rest[0] == '\r';
      StaysInLine(ls[0], rest);
    }
  }

  lemma StaysInLine(line: string, rest: string)
    requires NewlineFree(line) && rest != "" && rest[0] != '\n'
    ensures (line + rest)[0] != '\n'
  {
    if line != "" {
      assert (line + rest)[0] == line[0];
    }
  }

  lemma LinesTerminated(ls: seq<string>, eol: string)
    requires (forall i :: 0 <= i < |ls| ==> NewlineFree(ls[i])) && IsLineEnd(eol)
    ensures Lines(Unlines(ls, eol)) == ls
  {
    LinesUnlines(ls, eol, "");
    assert Unlines(ls, eol) + "" == Unlines(ls, eol);
  }

  // ---------- the parser and what it computes ----------

  type Entry = (string, string)

  /** What a line means to the parser. The body of an item or field line is None without a colon. */
  datatype Line = Noise | Item(body: Option<Entry>) | Field(body: Option<Entry>)

  /** A stripped line the parser passes over: blank, a comment, or one of the two headers. */
  predicate IsNoise(line: string) {
    line == "" || StartsWith(line, "#") || StartsWith(line, "version:") || StartsWith(line, "exceptions:")
  }

  function Classify(raw: string): Line {
    var line := Strip(raw);
    if IsNoise(line) then Noise
    else if StartsWith(line, "- ") then Item(SplitKv(Strip(line[2..])))
    else Field(SplitKv(line))
  }

  /** The record r with the entry of one line added; a line without a colon adds nothing. */
  function Extend(r: Record, l: Line): Record {
    if l.Noise? || l.body.None? then r else r[l.body.value.0 := l.body.value.1]
  }

  /** The record r completed by the lines up to the next item. */
  function Fill(r: Record, ls: seq<Line>): Record
    decreases |ls|
  {
    if ls == [] || ls[0].Item? then r else Fill(Extend(r, ls[0]), ls[1..])
  }

  /** One record for each item line. Lines before the first item belong to none. */
  function Records(ls: seq<Line>): seq<Record> {
    if ls == [] then []
    else if ls[0].Item? then [Fill(Extend(map[], ls[0]), ls[1..])] + Records(ls[1..])
    else Records(ls[1..])
  }

  function Assemble(ls: seq<Line>): Result<seq<Record>, ParseError> {
    if Item(None) in ls then Err(NoColon) else Ok(Records(ls))
  }

  function Parse(text: string): Result<seq<Record>, ParseError> {
    Assemble(Map(Classify, Lines(text)))
  }

  /** A stripped line that starts with "- " has more than the dash on it. */
  lemma ItemBodyNonEmpty(line: string)
    requires Trimmed(line) && StartsWith(line, "- ")
    ensures Strip(line[2..]) != ""
  {
    assert line[|line| - 1] != ' ' && line[1] == ' ';
    LStripNonEmpty(line[2..]);
  }

  lemma {:induction false} LStripNonEmpty(s: string)
    requires s != "" && !IsSpace(s[|s| - 1])
    ensures LStrip(s) != "" && RStrip(LStrip(s)) != ""
  {
    if IsSpace(s[0]) {
      LStripNonEmpty(s[1..]);
    }
  }

  /** What is still to be returned: the finished records, the open one, and those ahead. */
  ghost function Resume(exceptions: seq<Record>, current: Option<Record>, rest: seq<Line>): seq<Record> {
    exceptions + (if current.Some? then [Fill(current.value, rest)] else []) + Records(rest)
  }

  /** Reading one more line moves it from what is ahead into the open record, or opens a new one. */
  lemma ResumeStep(exceptions: seq<Record>, current: Option<Record>, rest: seq<Line>)
    requires rest != []
    ensures !rest[0].Item? && current.Some? ==>
              Resume(exceptions, current, rest) == Resume(exceptions, Some(Extend(current.value, rest[0])), rest[1..])
    ensures !rest[0].Item? && current.None? ==>
              Resume(exceptions, current, rest) == Resume(exceptions, None, rest[1..])
    ensures rest[0].Item? ==>
              Resume(exceptions, current, rest) ==
              Resume(exceptions + (if current.Some? then [current.value] else []),
                     Some(Extend(map[], rest[0])), rest[1..])
  {
  }

  /** parse_exceptions: one pass over the lines with an open record. */
  method ParseExceptions(text: string) returns (r: Result<seq<Record>, ParseError>)
    ensures r == Parse(text)
  {
    var exceptions: seq<Record> := [];
    var current: Option<Record> := None;
    var lines := Lines(text);
    ghost var ls := Map(Classify, lines);
    DropNone(ls);
    for k := 0 to |lines|
      invariant current.Some? ==> current.value != map[]
      invariant forall i :: 0 <= i < k ==> ls[i] != Item(None)
      invariant Resume(exceptions, current, ls[k..]) == Records(ls)
    {
      ghost var rest := ls[k..];
      DropNext(ls, k);
      ResumeStep(exceptions, current, rest);
      var line := Strip(lines[k]);
      if line == "" || StartsWith(line, "#") {
        assert ls[k] == Noise;
        continue;
      }
      if StartsWith(line, "version:") || StartsWith(line, "exceptions:") {
        assert ls[k] == Noise;
        continue;
      }
      if StartsWith(line, "- ") {
        ghost var finished := exceptions + (if current.Some? then [current.value] else []);
        if current.Some? && current.value != map[] {
          exceptions := exceptions + [current.value];
        }
        assert exceptions == finished;
        current := Some(map[]);
        ItemBodyNonEmpty(line);
        line := Strip(line[2..]);
        assert ls[k] == Item(SplitKv(line));
        if line != "" {
          var kv := SplitKv(line);
          if kv.None? {
            return Err(NoColon);
          }
          assert ls[k] == Item(Some(kv.value));
          current := Some(current.value[kv.value.0 := kv.value.1]);
          assert kv.value.0 in current.value;
        }
        assert Resume(exceptions, current, rest[1..]) == Records(ls);
        continue;
      }
      assert ls[k] == Field(SplitKv(line));
      if current.Some? && ':' in line {
        var kv := SplitKv(line);
        current := Some(current.value[kv.value.0 := kv.value.1]);
        assert kv.value.0 in current.value;
      }
      assert current.Some? ==> current.value != map[];
      assert Resume(exceptions, current, rest[1..]) == Records(ls);
    }
    if current.Some? && current.value != map[] {
      exceptions := exceptions + [current.value];
    }
    assert exceptions == Records(ls);
    return Ok(exceptions);
  }

  // ---------- the shape of the result ----------

  lemma {:induction false} FillKeeps(r: Record, ls: seq<Line>)
    ensures r.Keys <= Fill(r, ls).Keys
    decreases |ls|
  {
    if ls != [] && !ls[0].Item? {
      FillKeeps(Extend(r, ls[0]), ls[1..]);
    }
  }

  function CountItems(ls: seq<Line>): nat {
    if ls == [] then 0 else (if ls[0].Item? then 1 else 0) + CountItems(ls[1..])
  }

  lemma {:induction false} OneRecordPerItem(ls: seq<Line>)
    ensures |Records(ls)| == CountItems(ls)
    ensures Item(None) !in ls ==> map[] !in Records(ls)
  {
    if ls != [] {
      OneRecordPerItem(ls[1..]);
      if ls[0].Item? {
        FillKeeps(Extend(map[], ls[0]), ls[1..]);
        assert ls[0] in ls && ls == [ls[0]] + ls[1..];
        if ls[0].body.Some? {
          assert ls[0].body.value.0 in Records(ls)[0];
        }
      }
    }
  }

  /** Parsing fails exactly when some item line has no colon behind its dash; otherwise there is
      one record for each item line, and none of them is empty. */
  lemma ParseShape(text: string)
    ensures Parse(text).Err? <==>
              exists i :: 0 <= i < |Lines(text)| && Classify(Lines(text)[i]).Item? && Classify(Lines(text)[i]).body.None?
    ensures Parse(text).Ok? ==>
              && |Parse(text).value| == CountItems(Map(Classify, Lines(text)))
              && map[] !in Parse(text).value
  {
    var ls := Map(Classify, Lines(text));
    OneRecordPerItem(ls);
    if Item(None) in ls {
      var i :| 0 <= i < |ls| && ls[i] == Item(None);
      assert Classify(Lines(text)[i]) == ls[i];
    }
    if i :| 0 <= i < |Lines(text)| && Classify(Lines(text)[i]) == Item(None) {
      assert ls[i] == Item(None);
    }
  }

  function Significant(ls: seq<Line>): seq<Line> {
    if ls == [] then []
    else if ls[0].Noise? then Significant(ls[1..])
    else [ls[0]] + Significant(ls[1..])
  }

  lemma {:induction false} FillIgnoresNoise(r: Record, ls: seq<Line>)
    ensures Fill(r, Significant(ls)) == Fill(r, ls)
    decreases |ls|
  {
    if ls != [] {
      if !ls[0].Noise? {
        assert Significant(ls)[1..] == Significant(ls[1..]);
      }
      if !ls[0].Item? {
        FillIgnoresNoise(Extend(r, ls[0]), ls[1..]);
      }
    }
  }

  lemma {:induction false} AssembleIgnoresNoise(ls: seq<Line>)
    ensures Records(Significant(ls)) == Records(ls)
    ensures Item(None) in Significant(ls) <==> Item(None) in ls
  {
    if ls != [] {
      AssembleIgnoresNoise(ls[1..]);
      assert ls == [ls[0]] + ls[1..];
      if ls[0].Item? {
        FillIgnoresNoise(Extend(map[], ls[0]), ls[1..]);
      }
      if !ls[0].Noise? {
        assert Significant(ls)[1..] == Significant(ls[1..]);
      }
    }
  }

  /** Two files with the same significant lines in the same order parse alike: blank lines,
      comments and the two headers may be added or removed anywhere. */
  lemma NoiseIsIrrelevant(a: string, b: string)
    requires Significant(Map(Classify, Lines(a))) == Significant(Map(Classify, Lines(b)))
    ensures Parse(a) == Parse(b)
  {
    AssembleIgnoresNoise(Map(Classify, Lines(a)));
    AssembleIgnoresNoise(Map(Classify, Lines(b)));
  }

  // ---------- rendering and reading back ----------

  datatype Style = Plain | SingleQuoted | DoubleQuoted

  /** A key and a value, and how the value is written. */
  datatype Written = Written(key: string, value: string, style: Style)

  function Body(w: Written): string {
    match w.style
    case Plain => w.value
    case SingleQuoted => "'" + w.value + "'"
    case DoubleQuoted => "\"" + w.value + "\""
  }

  function RenderEntry(w: Written): string {
    w.key + ": " + Body(w)
  }

  function First(w: Written): string {
    "- " + RenderEntry(w)
  }

  function Further(w: Written): string {
    "  " + RenderEntry(w)
  }

  ghost predicate AllNonEmpty(recs: seq<seq<Written>>) {
    forall i :: 0 <= i < |recs| ==> recs[i] != []
  }

  /** A record is written as one item line and one indented line for each further entry. */
  function RenderLines(recs: seq<seq<Written>>): seq<string>
    requires AllNonEmpty(recs)
  {
    if recs == [] then []
    else [First(recs[0][0])] + Map(Further, recs[0][1..]) + RenderLines(recs[1..])
  }

  function Render(recs: seq<seq<Written>>, eol: string): string
    requires AllNonEmpty(recs)
  {
    Unlines(RenderLines(recs), eol)
  }

  /** The dict built by assigning the entries in order. */
  function PutAll(r: Record, es: seq<Entry>): Record
    decreases |es|
  {
    if es == [] then r else PutAll(r[es[0].0 := es[0].1], es[1..])
  }

  /** The entry that is meant, and the entry that split_kv makes of it. */
  function Meant(w: Written): Entry {
    (w.key, w.value)
  }

  function Seen(w: Written): Entry {
    (w.key, Unquote(Strip(Body(w))))
  }

  function Dict(ws: seq<Written>): Record {
    PutAll(map[], Map(Meant, ws))
  }

  function DictSeen(ws: seq<Written>): Record {
    PutAll(map[], Map(Seen, ws))
  }

  /** A key and value that survive one line: the key is trimmed and has no colon, neither has a line end. */
  predicate CleanEntry(e: Entry) {
    Trimmed(e.0) && ':' !in e.0 && NewlineFree(e.0) && NewlineFree(e.1)
  }

  /** A value that its style can show: any in quotes; without them one that is trimmed and not itself in quotes. */
  predicate Showable(w: Written) {
    w.style.Plain? ==> Trimmed(w.value) && !InQuotes(w.value, '"') && !InQuotes(w.value, '\'')
  }

  /** A key that an indented line may start with: not taken for a comment or a header ... */
  predicate IsVisible(w: Written) {
    !StartsWith(w.key, "#") && w.key != "version" && w.key != "exceptions"
  }

  /** ... and not taken for a new item. */
  predicate IsItemLike(w: Written) {
    StartsWith(w.key, "- ")
  }

  ghost predicate Readable(ws: seq<Written>) {
    && (forall i :: 0 <= i < |ws| ==> CleanEntry(Meant(ws[i])) && Showable(ws[i]))
    && (forall i :: 1 <= i < |ws| ==> IsVisible(ws[i]) && !IsItemLike(ws[i]))
  }

  ghost predicate DistinctKeys(ws: seq<Written>) {
    forall i, j :: 0 <= i < j < |ws| ==> ws[i].key != ws[j].key
  }

  // How rendered lines are classified.

  /** An entry is seen as it is meant exactly if its style can show its value. */
  lemma SeenAsMeantIff(w: Written)
    requires CleanEntry(Meant(w))
    ensures Seen(w) == Meant(w) <==> Showable(w)
  {
    SplitKvBody(w.key, Body(w));
    match w.style
    case Plain => SplitKvPlainIff(w.key, w.value);
    case SingleQuoted => SplitKvQuoted(w.key, w.value, '\'');
      assert "'" + w.value + "'" == ['\''] + w.value + ['\''];
    case DoubleQuoted => SplitKvQuoted(w.key, w.value, '"');
      assert "\"" + w.value + "\"" == ['"'] + w.value + ['"'];
  }

  /** A rendered entry without the white space at its end. */
  function Tail(w: Written): string {
    RStrip(" " + Body(w))
  }

  function Stripped(w: Written): string {
    w.key + ":" + Tail(w)
  }

  lemma StrippedTrimmed(w: Written)
    requires CleanEntry(Meant(w))
    ensures Trimmed(Stripped(w)) && Trimmed("- " + Stripped(w))
  {
    var tail := Tail(w);
    assert Stripped(w)[0] == (if w.key == "" then ':' else w.key[0]);
    assert Stripped(w)[|Stripped(w)| - 1] == if tail == "" then ':' else tail[|tail| - 1];
  }

  lemma RenderedLines(w: Written)
    requires CleanEntry(Meant(w))
    ensures Strip(First(w)) == "- " + Stripped(w) && Strip(Further(w)) == Stripped(w)
  {
    var line := Stripped(w);
    var pad := RenderedEntry(w);
    StrippedTrimmed(w);
    ConcatAssoc("- ", line, pad);
    StripRight("- " + line, pad);
    ConcatAssoc("  ", line, pad);
    StripPadding("  ", line, pad);
  }

  lemma RenderedEntry(w: Written) returns (pad: string)
    ensures RenderEntry(w) == Stripped(w) + pad && AllSpace(pad)
  {
    pad := RStripRemoves(" " + Body(w));
    assert ": " == ":" + " ";
    ConcatAssoc(w.key, ":", " ");
    ConcatAssoc(w.key + ":", " ", Body(w));
    ConcatAssoc(w.key + ":", Tail(w), pad);
  }

  lemma SplitStripped(w: Written)
    requires CleanEntry(Meant(w))
    ensures SplitKv(Stripped(w)) == Some(Seen(w))
  {
    assert Stripped(w) == w.key + [':'] + Tail(w);
    SplitAtColon(w.key, Tail(w));
    StripTrimmed(w.key);
    StripRStrip(" " + Body(w));
    StripIndented(" ", Body(w));
  }

  lemma ItemLine(raw: string, body: string)
    requires Strip(raw) == "- " + body && Trimmed(body)
    ensures Classify(raw) == Item(SplitKv(body))
  {
    var line := Strip(raw);
    assert line[0] == '-' && line[2..] == body;
    StripTrimmed(body);
  }

  lemma ClassifyFirst(w: Written)
    requires CleanEntry(Meant(w))
    ensures Classify(First(w)) == Item(Some(Seen(w)))
  {
    StrippedTrimmed(w);
    RenderedLines(w);
    SplitStripped(w);
    ItemLine(First(w), Stripped(w));
  }

  /** A colon-free key starts a line like a prefix without a colon only if the key itself does. */
  lemma KeyPrefix(w: Written, prefix: string)
    requires ':' !in prefix
    ensures StartsWith(Stripped(w), prefix) <==> StartsWith(w.key, prefix)
  {
    var line := Stripped(w);
    assert line == w.key + (":" + Tail(w));
    assert line[|w.key|] == ':';
  }

  lemma HeaderPrefix(w: Written, name: string)
    requires ':' !in w.key && ':' !in name
    ensures StartsWith(Stripped(w), name + ":") <==> w.key == name
  {
    var line, header := Stripped(w), name + ":";
    if header <= line {
      KeyPrefix(w, name);
      assert name <= w.key;
      assert line[|name|] == header[|name|];
      assert |w.key| == |name|;
    }
  }

  lemma NoiseEntry(w: Written)
    requires CleanEntry(Meant(w))
    ensures IsNoise(Stripped(w)) <==> !IsVisible(w)
  {
    KeyPrefix(w, "#");
    HeaderPrefix(w, "version");
    HeaderPrefix(w, "exceptions");
  }

  lemma ClassifyFurther(w: Written)
    requires CleanEntry(Meant(w))
    ensures !IsVisible(w) ==> Classify(Further(w)) == Noise
    ensures IsVisible(w) && IsItemLike(w) ==> Classify(Further(w)).Item?
    ensures IsVisible(w) && !IsItemLike(w) ==> Classify(Further(w)) == Field(Some(Seen(w)))
  {
    RenderedLines(w);
    SplitStripped(w);
    NoiseEntry(w);
    KeyPrefix(w, "- ");
  }

  /** The classified lines of rendered records, without the text. */
  function Shape(recs: seq<seq<Written>>): seq<Line>
    requires AllNonEmpty(recs)
  {
    if recs == [] then []
    else [Item(Some(Seen(recs[0][0])))] + Map(ShapeFurther, recs[0][1..]) + Shape(recs[1..])
  }

  function ShapeFurther(w: Written): Line {
    if !IsVisible(w) then Noise else if IsItemLike(w) then Classify(Further(w)) else Field(Some(Seen(w)))
  }

  ghost predicate AllClean(recs: seq<seq<Written>>) {
    forall i :: 0 <= i < |recs| ==> forall j :: 0 <= j < |recs[i]| ==> CleanEntry(Meant(recs[i][j]))
  }

  lemma {:induction false} ShapeOfRendered(recs: seq<seq<Written>>)
    requires AllNonEmpty(recs) && AllClean(recs)
    ensures Map(Classify, RenderLines(recs)) == Shape(recs)
  {
    if recs != [] {
      var w, ws, rest := recs[0][0], recs[0][1..], RenderLines(recs[1..]);
      ShapeOfRendered(recs[1..]);
      MapConcat([First(w)] + Map(Further, ws), rest);
      MapConcat([First(w)], Map(Further, ws));
      ClassifyFirst(w);
      assert Map(Classify, [First(w)]) == [Item(Some(Seen(w)))];
      forall j | 0 <= j < |ws|
        ensures Map(Classify, Map(Further, ws))[j] == Map(ShapeFurther, ws)[j]
      {
        assert CleanEntry(Meant(recs[0][j + 1]));
        ClassifyFurther(ws[j]);
      }
      assert Map(Classify, Map(Further, ws)) == Map(ShapeFurther, ws);
    }
  }

  lemma MapConcat(a: seq<string>, b: seq<string>)
    ensures Map(Classify, a + b) == Map(Classify, a) + Map(Classify, b)
  {
  }

  lemma {:induction false} NewlineFreeLines(recs: seq<seq<Written>>)
    requires AllNonEmpty(recs) && AllClean(recs)
    ensures forall k :: 0 <= k < |RenderLines(recs)| ==> NewlineFree(RenderLines(recs)[k])
  {
    if recs != [] {
      NewlineFreeLines(recs[1..]);
      NewlineFreeEntry(recs[0][0]);
      forall j | 0 <= j < |recs[0][1..]|
        ensures NewlineFree(Map(Further, recs[0][1..])[j])
      {
        NewlineFreeEntry(recs[0][j + 1]);
      }
    }
  }

  lemma NewlineFreeEntry(w: Written)
    requires CleanEntry(Meant(w))
    ensures NewlineFree(First(w)) && NewlineFree(Further(w))
  {
  }

  lemma ParseRendered(recs: seq<seq<Written>>, eol: string)
    requires AllNonEmpty(recs) && AllClean(recs) && IsLineEnd(eol)
    ensures Parse(Render(recs, eol)) == Assemble(Shape(recs))
  {
    NewlineFreeLines(recs);
    LinesTerminated(RenderLines(recs), eol);
    ShapeOfRendered(recs);
  }

  // What the parser makes of rendered records none of whose further keys looks like a new item.

  ghost predicate NoneItemLike(recs: seq<seq<Written>>) {
    forall i :: 0 <= i < |recs| ==> forall j :: 1 <= j < |recs[i]| ==> IsVisible(recs[i][j]) ==> !IsItemLike(recs[i][j])
  }

  /** The entries of a rendered record that are read: the first, and the visible ones after it. */
  function Kept(ws: seq<Written>): seq<Written>
    requires ws != []
  {
    [ws[0]] + Visible(ws[1..])
  }

  function Visible(ws: seq<Written>): (r: seq<Written>)
    ensures forall i :: 0 <= i < |r| ==> IsVisible(r[i])
    ensures (forall i :: 0 <= i < |ws| ==> IsVisible(ws[i])) ==> r == ws
  {
    if ws == [] then []
    else if IsVisible(ws[0]) then [ws[0]] + Visible(ws[1..])
    else Visible(ws[1..])
  }

  lemma {:induction false} FillShape(r: Record, ws: seq<Written>, rest: seq<Line>)
    requires forall j :: 0 <= j < |ws| ==> IsVisible(ws[j]) ==> !IsItemLike(ws[j])
    ensures Fill(r, Map(ShapeFurther, ws) + rest) == Fill(PutAll(r, Map(Seen, Visible(ws))), rest)
    ensures Records(Map(ShapeFurther, ws) + rest) == Records(rest)
    ensures Item(None) in Map(ShapeFurther, ws) + rest <==> Item(None) in rest
    decreases |ws|
  {
    var ls := Map(ShapeFurther, ws) + rest;
    if ws == [] {
      assert ls == rest;
    } else {
      assert ls[0] == ShapeFurther(ws[0]) && ls[1..] == Map(ShapeFurther, ws[1..]) + rest;
      assert ls == [ls[0]] + ls[1..];
      FillShape(Extend(r, ls[0]), ws[1..], rest);
      PutVisible(r, ws);
    }
  }

  lemma PutVisible(r: Record, ws: seq<Written>)
    requires ws != []
    ensures PutAll(r, Map(Seen, Visible(ws))) ==
            if IsVisible(ws[0]) then PutAll(r[ws[0].key := Seen(ws[0]).1], Map(Seen, Visible(ws[1..])))
            else PutAll(r, Map(Seen, Visible(ws[1..])))
  {
    MapCons(Seen, ws[0], Visible(ws[1..]));
    PutAllCons(r, Seen(ws[0]), Map(Seen, Visible(ws[1..])));
  }

  lemma PutAllCons(r: Record, e: Entry, es: seq<Entry>)
    ensures PutAll(r, [e] + es) == PutAll(r[e.0 := e.1], es)
  {
    assert ([e] + es)[1..] == es;
  }

  lemma AssembleRecord(ws: seq<Written>, rest: seq<Line>)
    requires ws != [] && forall j :: 1 <= j < |ws| ==> IsVisible(ws[j]) ==> !IsItemLike(ws[j])
    requires rest != [] ==> rest[0].Item?
    ensures var ls := [Item(Some(Seen(ws[0])))] + Map(ShapeFurther, ws[1..]) + rest;
            && Records(ls) == [DictSeen(Kept(ws))] + Records(rest)
            && (Item(None) in ls <==> Item(None) in rest)
  {
    var further := Map(ShapeFurther, ws[1..]) + rest;
    var first := Item(Some(Seen(ws[0])));
    assert [first] + Map(ShapeFurther, ws[1..]) + rest == [first] + further;
    assert ([first] + further)[1..] == further;
    FillShape(Extend(map[], first), ws[1..], rest);
    MapCons(Seen, ws[0], Visible(ws[1..]));
    PutAllCons(map[], Seen(ws[0]), Map(Seen, Visible(ws[1..])));
  }

  lemma {:induction false} AssembleShape(recs: seq<seq<Written>>)
    requires AllNonEmpty(recs) && NoneItemLike(recs)
    ensures Item(None) !in Shape(recs)
    ensures |Records(Shape(recs))| == |recs|
    ensures forall i :: 0 <= i < |recs| ==> Records(Shape(recs))[i] == DictSeen(Kept(recs[i]))
    ensures recs != [] ==> Shape(recs)[0].Item?
  {
    if recs != [] {
      var rest := recs[1..];
      AssembleShape(rest);
      AssembleRecord(recs[0], Shape(rest));
      assert Records(Shape(recs)) == [DictSeen(Kept(recs[0]))] + Records(Shape(rest));
      forall i | 0 <= i < |recs|
        ensures Records(Shape(recs))[i] == DictSeen(Kept(recs[i]))
      {
        if i > 0 {
          assert recs[i] == rest[i - 1];
        }
      }
    }
  }

  lemma AllKept(ws: seq<Written>)
    requires ws != [] && forall j :: 1 <= j < |ws| ==> IsVisible(ws[j])
    ensures Kept(ws) == ws
  {
    assert forall j :: 0 <= j < |ws[1..]| ==> ws[1..][j] == ws[j + 1];
    assert Visible(ws[1..]) == ws[1..];
  }

  /** Sufficiency: readable records are read back as they were written. */
  lemma ReadableRoundTrip(recs: seq<seq<Written>>, eol: string)
    requires AllNonEmpty(recs) && IsLineEnd(eol)
    requires forall i :: 0 <= i < |recs| ==> Readable(recs[i])
    ensures Parse(Render(recs, eol)) == Ok(Map(Dict, recs))
  {
    ParseRendered(recs, eol);
    AssembleShape(recs);
    forall i | 0 <= i < |recs|
      ensures DictSeen(Kept(recs[i])) == Dict(recs[i])
    {
      AllKept(recs[i]);
      forall j | 0 <= j < |recs[i]|
        ensures Seen(recs[i][j]) == Meant(recs[i][j])
      {
        SeenAsMeantIff(recs[i][j]);
      }
      assert Map(Seen, recs[i]) == Map(Meant, recs[i]);
    }
    assert Records(Shape(recs)) == Map(Dict, recs);
  }

  // Necessity: what every parsed record looks like.

  ghost predicate CleanRecord(r: Record) {
    forall k :: k in r ==> CleanEntry((k, r[k]))
  }

  ghost predicate CleanLine(l: Line) {
    !l.Noise? && l.body.Some? ==> CleanEntry(l.body.value)
  }

  lemma ClassifyClean(raw: string)
    requires NewlineFree(raw)
    ensures CleanLine(Classify(raw))
  {
  }

  lemma {:induction false} FillClean(r: Record, ls: seq<Line>)
    requires CleanRecord(r) && forall i :: 0 <= i < |ls| ==> CleanLine(ls[i])
    ensures CleanRecord(Fill(r, ls))
    decreases |ls|
  {
    if ls != [] && !ls[0].Item? {
      FillClean(Extend(r, ls[0]), ls[1..]);
    }
  }

  lemma {:induction false} RecordsClean(ls: seq<Line>)
    requires forall i :: 0 <= i < |ls| ==> CleanLine(ls[i])
    ensures forall i :: 0 <= i < |Records(ls)| ==> CleanRecord(Records(ls)[i])
  {
    if ls != [] {
      RecordsClean(ls[1..]);
      if ls[0].Item? {
        FillClean(Extend(map[], ls[0]), ls[1..]);
      }
    }
  }

  /** Every key the parser returns is trimmed and colon-free, and keys and values have no line end. */
  lemma ParsedRecordsAreClean(text: string)
    ensures Parse(text).Ok? ==> forall i :: 0 <= i < |Parse(text).value| ==> CleanRecord(Parse(text).value[i])
  {
    var ls := Map(Classify, Lines(text));
    forall i | 0 <= i < |ls|
      ensures CleanLine(ls[i])
    {
      ClassifyClean(Lines(text)[i]);
    }
    RecordsClean(ls);
  }

  lemma {:induction false} PutAllKeys(r: Record, es: seq<Entry>, k: string)
    requires k in PutAll(r, es) && k !in r
    ensures exists j :: 0 <= j < |es| && es[j].0 == k
    decreases |es|
  {
    if es[0].0 != k {
      PutAllKeys(r[es[0].0 := es[0].1], es[1..], k);
      var j :| 0 <= j < |es[1..]| && es[1..][j].0 == k;
      assert es[j + 1].0 == k;
    }
  }

  lemma {:induction false} PutAllUntouched(r: Record, es: seq<Entry>, k: string)
    requires k in r && forall j :: 0 <= j < |es| ==> es[j].0 != k
    ensures k in PutAll(r, es) && PutAll(r, es)[k] == r[k]
    decreases |es|
  {
    if es != [] {
      PutAllUntouched(r[es[0].0 := es[0].1], es[1..], k);
    }
  }

  lemma {:induction false} PutAllValues(r: Record, es: seq<Entry>, j: nat)
    requires j < |es| && forall i, k :: 0 <= i < k < |es| ==> es[i].0 != es[k].0
    ensures es[j].0 in PutAll(r, es) && PutAll(r, es)[es[j].0] == es[j].1
    decreases |es|
  {
    if j > 0 {
      PutAllValues(r[es[0].0 := es[0].1], es[1..], j - 1);
    } else {
      PutAllUntouched(r[es[0].0 := es[0].1], es[1..], es[0].0);
    }
  }

  lemma {:induction false} CountItemsConcat(a: seq<Line>, b: seq<Line>)
    ensures CountItems(a + b) == CountItems(a) + CountItems(b)
  {
    if a == [] {
      assert a + b == b;
    } else {
      assert (a + b)[1..] == a[1..] + b;
      CountItemsConcat(a[1..], b);
    }
  }

  lemma {:induction false} CountItemsPositive(ls: seq<Line>, i: nat)
    requires i < |ls| && ls[i].Item?
    ensures CountItems(ls) > 0
  {
    if i > 0 {
      CountItemsPositive(ls[1..], i - 1);
    }
  }

  /** Rendered lines hold one item for each record, and one more for each item-like further key. */
  lemma {:induction false} ItemsOfShape(recs: seq<seq<Written>>)
    requires AllNonEmpty(recs) && AllClean(recs)
    ensures CountItems(Shape(recs)) >= |recs|
    ensures CountItems(Shape(recs)) == |recs| ==> NoneItemLike(recs)
  {
    if recs != [] {
      var ws := recs[0];
      ItemsOfShape(recs[1..]);
      CountItemsConcat([Item(Some(Seen(ws[0])))] + Map(ShapeFurther, ws[1..]), Shape(recs[1..]));
      forall j | 0 <= j < |ws|
        ensures CleanEntry(Meant(ws[j]))
      {
        assert CleanEntry(Meant(recs[0][j]));
      }
      ItemsOfRecord(ws);
    }
  }

  lemma ItemsOfRecord(ws: seq<Written>)
    requires ws != [] && forall j :: 0 <= j < |ws| ==> CleanEntry(Meant(ws[j]))
    ensures var n := CountItems([Item(Some(Seen(ws[0])))] + Map(ShapeFurther, ws[1..]));
            n >= 1 && (n == 1 ==> forall j :: 1 <= j < |ws| ==> IsVisible(ws[j]) ==> !IsItemLike(ws[j]))
  {
    CountFirst(Item(Some(Seen(ws[0]))), Map(ShapeFurther, ws[1..]));
    forall j | 1 <= j < |ws| && IsVisible(ws[j]) && IsItemLike(ws[j])
      ensures CountItems(Map(ShapeFurther, ws[1..])) > 0
    {
      FurtherItem(ws, j);
    }
  }

  lemma CountFirst(first: Line, further: seq<Line>)
    requires first.Item?
    ensures CountItems([first] + further) == 1 + CountItems(further)
  {
    assert ([first] + further)[1..] == further;
  }

  lemma FurtherItem(ws: seq<Written>, j: nat)
    requires 1 <= j < |ws| && CleanEntry(Meant(ws[j])) && IsVisible(ws[j]) && IsItemLike(ws[j])
    ensures CountItems(Map(ShapeFurther, ws[1..])) > 0
  {
    ClassifyFurther(ws[j]);
    MappedItem(ShapeFurther, ws, j);
  }

  lemma MappedItem(f: Written -> Line, ws: seq<Written>, j: nat)
    requires 1 <= j < |ws| && f(ws[j]).Item?
    ensures CountItems(Map(f, ws[1..])) > 0
  {
    assert ws[1..][j - 1] == ws[j];
    CountItemsPositive(Map(f, ws[1..]), j - 1);
  }

  /** Necessity: records that are read back as they were written are readable. */
  lemma RoundTripReadable(recs: seq<seq<Written>>, eol: string)
    requires AllNonEmpty(recs) && IsLineEnd(eol)
    requires forall i :: 0 <= i < |recs| ==> DistinctKeys(recs[i])
    requires Parse(Render(recs, eol)) == Ok(Map(Dict, recs))
    ensures forall i :: 0 <= i < |recs| ==> Readable(recs[i])
  {
    ParsedRecordsAreClean(Render(recs, eol));
    forall i, j | 0 <= i < |recs| && 0 <= j < |recs[i]|
      ensures CleanEntry(Meant(recs[i][j]))
    {
      PutAllValues(map[], Map(Meant, recs[i]), j);
      assert Map(Dict, recs)[i] == Dict(recs[i]);
    }
    ParseRendered(recs, eol);
    OneRecordPerItem(Shape(recs));
    ItemsOfShape(recs);
    AssembleShape(recs);
    forall i | 0 <= i < |recs|
      ensures Readable(recs[i])
    {
      assert Map(Dict, recs)[i] == Dict(recs[i]);
      SeenWholeIsReadable(recs[i]);
    }
  }

  lemma SeenWholeIsReadable(ws: seq<Written>)
    requires ws != [] && DistinctKeys(ws) && (forall j :: 0 <= j < |ws| ==> CleanEntry(Meant(ws[j])))
    requires forall j :: 1 <= j < |ws| ==> IsVisible(ws[j]) ==> !IsItemLike(ws[j])
    requires DictSeen(Kept(ws)) == Dict(ws)
    ensures Readable(ws)
  {
    forall j | 1 <= j < |ws|
      ensures IsVisible(ws[j])
    {
      KeptWholeIsVisible(ws, j);
    }
    AllKept(ws);
    forall j | 0 <= j < |ws|
      ensures Showable(ws[j])
    {
      PutAllValues(map[], Map(Meant, ws), j);
      PutAllValues(map[], Map(Seen, ws), j);
      SeenAsMeantIff(ws[j]);
    }
  }

  lemma KeptWholeIsVisible(ws: seq<Written>, j: nat)
    requires 1 <= j < |ws| && DistinctKeys(ws)
    requires DictSeen(Kept(ws)) == Dict(ws)
    ensures IsVisible(ws[j])
  {
    PutAllValues(map[], Map(Meant, ws), j);
    PutAllKeys(map[], Map(Seen, Kept(ws)), ws[j].key);
    var m :| 0 <= m < |Kept(ws)| && Kept(ws)[m].key == ws[j].key;
    assert m > 0;
    assert Kept(ws)[m] == Visible(ws[1..])[m - 1];
  }

  /** Round trip, exactly: records written as item blocks, with any line end and each value without
      quotes or in quotes of either kind, are read back unchanged if and only if each key and value fits
      on its line, each bare value is trimmed and not itself in quotes, and no key but a record's first
      looks like a comment, a header or a new item. */
  lemma RoundTripIff(recs: seq<seq<Written>>, eol: string)
    requires AllNonEmpty(recs) && IsLineEnd(eol)
    requires forall i :: 0 <= i < |recs| ==> DistinctKeys(recs[i])
    ensures Parse(Render(recs, eol)) == Ok(Map(Dict, recs)) <==> forall i :: 0 <= i < |recs| ==> Readable(recs[i])
  {
    if Parse(Render(recs, eol)) == Ok(Map(Dict, recs)) {
      RoundTripReadable(recs, eol);
    }
    if forall i :: 0 <= i < |recs| ==> Readable(recs[i]) {
      ReadableRoundTrip(recs, eol);
    }
  }
}
