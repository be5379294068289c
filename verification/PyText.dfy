/** The string primitives that tools/check_pnpm_audit_exceptions.py takes from Python. */
module PyText {
  import opened Support

  /** The characters str.strip() removes: Python's white space. */
  predicate IsSpace(c: char) {
    || '\t' <= c <= '\r'
    || '\U{1c}' <= c <= ' '
    || c == '\U{85}' || c == '\U{a0}' || c == '\U{1680}'
    || '\U{2000}' <= c <= '\U{200a}'
    || c == '\U{2028}' || c == '\U{2029}' || c == '\U{202f}' || c == '\U{205f}' || c == '\U{3000}'
  }

  /** Python's 29 white-space characters, one by one. */
  const WhiteSpace := [
    '\t', '\n', '\U{b}', '\U{c}', '\r', '\U{1c}', '\U{1d}', '\U{1e}', '\U{1f}', ' ', '\U{85}', '\U{a0}', '\U{1680}',
    '\U{2000}', '\U{2001}', '\U{2002}', '\U{2003}', '\U{2004}', '\U{2005}', '\U{2006}', '\U{2007}', '\U{2008}',
    '\U{2009}', '\U{200a}', '\U{2028}', '\U{2029}', '\U{202f}', '\U{205f}', '\U{3000}']

  lemma IsSpaceIff(c: char)
    ensures IsSpace(c) <==> c in WhiteSpace
  {
    if '\U{2000}' <= c <= '\U{200a}' {
      assert c == WhiteSpace[13 + (c as int - '\U{2000}' as int)];
    } else if '\t' <= c <= '\r' {
      assert c == WhiteSpace[c as int - '\t' as int];
    } else if '\U{1c}' <= c <= ' ' {
      assert c == WhiteSpace[5 + (c as int - '\U{1c}' as int)];
    }
  }

  predicate AllSpace(s: string) {
    forall i :: 0 <= i < |s| ==> IsSpace(s[i])
  }

  predicate Trimmed(s: string) {
    s != "" ==> !IsSpace(s[0]) && !IsSpace(s[|s| - 1])
  }

  function LStrip(s: string): (r: string)
    ensures r != "" ==> !IsSpace(r[0]) && s != "" && r[|r| - 1] == s[|s| - 1]
    ensures forall c :: c in r ==> c in s
  {
    if s != "" && IsSpace(s[0]) then LStrip(s[1..]) else s
  }

  function RStrip(s: string): (r: string)
    ensures r <= s
    ensures r != "" ==> !IsSpace(r[|r| - 1])
  {
    if s != "" && IsSpace(s[|s| - 1]) then RStrip(s[..|s| - 1]) else s
  }

  function Strip(s: string): (r: string)
    ensures Trimmed(r)
    ensures forall c :: c in r ==> c in s
  {
    RStrip(LStrip(s))
  }

  lemma {:induction false} LStripRemoves(s: string) returns (left: string)
    ensures s == left + LStrip(s) && AllSpace(left)
  {
    if s != "" && IsSpace(s[0]) {
      var rest := LStripRemoves(s[1..]);
      left := [s[0]] + rest;
      assert s == [s[0]] + s[1..];
    } else {
      left := "";
    }
  }

  lemma {:induction false} RStripRemoves(s: string) returns (right: string)
    ensures s == RStrip(s) + right && AllSpace(right)
  {
    if s != "" && IsSpace(s[|s| - 1]) {
      var rest := RStripRemoves(s[..|s| - 1]);
      right := rest + [s[|s| - 1]];
      assert s == s[..|s| - 1] + [s[|s| - 1]];
    } else {
      right := "";
    }
  }

  /** strip removes white space at both ends, nothing else, and all of it. */
  lemma StripRemoves(s: string) returns (left: string, right: string)
    ensures s == left + Strip(s) + right && AllSpace(left) && AllSpace(right) && Trimmed(Strip(s))
  {
    left := LStripRemoves(s);
    right := RStripRemoves(LStrip(s));
    assert left + (Strip(s) + right) == left + Strip(s) + right;
  }

  lemma {:induction false} LStripPadding(pad: string, t: string)
    requires AllSpace(pad)
    ensures LStrip(pad + t) == LStrip(t)
  {
    if pad == "" {
      assert pad + t == t;
    } else {
      assert (pad + t)[1..] == pad[1..] + t;
      LStripPadding(pad[1..], t);
    }
  }

  lemma {:induction false} RStripPadding(t: string, pad: string)
    requires AllSpace(pad)
    ensures RStrip(t + pad) == RStrip(t)
  {
    if pad == "" {
      assert t + pad == t;
    } else {
      assert (t + pad)[..|t + pad| - 1] == t + pad[..|pad| - 1];
      RStripPadding(t, pad[..|pad| - 1]);
    }
  }

  /** Strip removes exactly the white space around a trimmed text. */
  lemma StripPadding(left: string, t: string, right: string)
    requires AllSpace(left) && AllSpace(right) && Trimmed(t)
    ensures Strip(left + t + right) == t
  {
    assert left + t + right == left + (t + right);
    LStripPadding(left, t + right);
    if t == "" {
      assert t + right == right == right + "";
      LStripPadding(right, "");
    } else {
      assert LStrip(t + right) == t + right;
      RStripPadding(t, right);
    }
  }

  lemma StripRight(t: string, pad: string)
    requires Trimmed(t) && AllSpace(pad)
    ensures Strip(t + pad) == t
  {
    assert "" + t == t;
    StripPadding("", t, pad);
  }

  lemma StripTrimmed(t: string)
    requires Trimmed(t)
    ensures Strip(t) == t
  {
    assert t + "" == t;
    StripRight(t, "");
  }

  predicate StartsWith(s: string, prefix: string) {
    prefix <= s
  }

  /** The position of the first c in s. */
  function Find(s: string, c: char): (i: nat)
    requires c in s
    ensures i < |s| && s[i] == c && c !in s[..i]
  {
    if s[0] == c then 0 else 1 + Find(s[1..], c)
  }

  lemma FindAfter(head: string, c: char, tail: string)
    requires c !in head
    ensures Find(head + [c] + tail, c) == |head|
  {
    var s := head + [c] + tail;
    assert s[|head|] == c;
    assert s[..|head|] == head;
  }

  /** Removes one pair of matching quotes; like Python's v[1:-1], a lone quote becomes empty. */
  function Unquote(v: string): (r: string)
    ensures forall c :: c in r ==> c in v
  {
    if v != "" && (v[0] == '"' || v[0] == '\'') && v[|v| - 1] == v[0] then
      if |v| == 1 then "" else v[1..|v| - 1]
    else
      v
  }

  /** split_kv: the key before the first colon and the unquoted value after it.
      None is Python's ValueError for a line without a colon. */
  function SplitKv(line: string): (r: Option<(string, string)>)
    ensures r.None? <==> ':' !in line
    ensures r.Some? ==> Trimmed(r.value.0) && ':' !in r.value.0
    ensures r.Some? ==> forall c :: c in r.value.0 || c in r.value.1 ==> c in line
  {
    if ':' !in line then None
    else
      var i := Find(line, ':');
      Some((Strip(line[..i]), Unquote(Strip(line[i + 1..]))))
  }

  lemma SplitAtColon(key: string, tail: string)
    requires ':' !in key
    ensures SplitKv(key + [':'] + tail) == Some((Strip(key), Unquote(Strip(tail))))
  {
    var line := key + [':'] + tail;
    FindAfter(key, ':', tail);
    assert line[|key|] == ':' && line[..|key|] == key && line[|key| + 1..] == tail;
  }

  /** v begins and ends with the quote mark q; it may be that one mark. */
  predicate InQuotes(v: string, q: char) {
    v != "" && v[0] == q && v[|v| - 1] == q
  }

  predicate IsQuote(q: char) {
    q == '"' || q == '\''
  }

  /** What is behind the colon is stripped and then unquoted. */
  lemma SplitKvBody(key: string, body: string)
    requires Trimmed(key) && ':' !in key
    ensures SplitKv(key + ": " + body) == Some((key, Unquote(Strip(body))))
  {
    assert ": " == [':'] + " ";
    ConcatAssoc(key, [':'], " ");
    ConcatAssoc(key + [':'], " ", body);
    SplitAtColon(key, " " + body);
    StripTrimmed(key);
    StripIndented(" ", body);
  }

  lemma StripIndented(pad: string, body: string)
    requires AllSpace(pad)
    ensures Strip(pad + body) == Strip(body)
  {
    var left, right := StripRemoves(body);
    ConcatAssoc(pad, left + Strip(body), right);
    ConcatAssoc(pad, left, Strip(body));
    StripPadding(pad + left, Strip(body), right);
  }

  /** Stripping the right end first changes nothing. */
  lemma StripRStrip(s: string)
    ensures Strip(RStrip(s)) == Strip(s)
  {
    var pad := RStripRemoves(s);
    var left, right := StripRemoves(RStrip(s));
    ConcatAssoc(left + Strip(RStrip(s)), right, pad);
    StripPadding(left, Strip(RStrip(s)), right + pad);
  }

  lemma UnquoteQuoted(value: string, q: char)
    requires IsQuote(q)
    ensures Trimmed([q] + value + [q]) && Unquote([q] + value + [q]) == value
  {
    var quoted := [q] + value + [q];
    assert quoted[1..|quoted| - 1] == value;
  }

  /** A key and a value in quotes of either kind, written as one line, are read back unchanged, whatever
      colons, quotes and spaces the value holds. A lone quote mark is read as the empty text. */
  lemma SplitKvQuoted(key: string, value: string, q: char)
    requires Trimmed(key) && ':' !in key && IsQuote(q)
    ensures SplitKv(key + ": " + ([q] + value + [q])) == Some((key, value))
    ensures SplitKv(key + ": " + [q]) == Some((key, ""))
  {
    var quoted := [q] + value + [q];
    UnquoteQuoted(value, q);
    SplitKvBody(key, quoted);
    StripTrimmed(quoted);
    SplitKvBody(key, [q]);
    StripTrimmed([q]);
  }

  lemma UnquoteIff(v: string)
    ensures Unquote(v) == v <==> !InQuotes(v, '"') && !InQuotes(v, '\'')
    ensures |Unquote(v)| <= |v|
  {
  }

  lemma StripIff(v: string)
    ensures Strip(v) == v <==> Trimmed(v)
    ensures |Strip(v)| <= |v| && (|Strip(v)| == |v| ==> Strip(v) == v)
  {
    var left, right := StripRemoves(v);
    if Trimmed(v) {
      StripTrimmed(v);
    }
  }

  /** A value written without quotes is read back exactly if it is trimmed and does not both begin and
      end with the same quote mark. */
  lemma SplitKvPlainIff(key: string, v: string)
    requires Trimmed(key) && ':' !in key
    ensures SplitKv(key + ": " + v) == Some((key, v)) <==> Trimmed(v) && !InQuotes(v, '"') && !InQuotes(v, '\'')
  {
    SplitKvBody(key, v);
    StripIff(v);
    UnquoteIff(Strip(v));
  }
}
