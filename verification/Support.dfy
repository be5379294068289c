/** Values shared by the other modules: optional values, results and a few sequence functions. */
module Support {

  datatype Option<+T> = None | Some(value: T)

  datatype Result<+T, +E> = Ok(value: T) | Err(error: E)

  /** The elements of s that satisfy p, in order. */
  function Filter<T>(p: T -> bool, s: seq<T>): (r: seq<T>)
    ensures forall i :: 0 <= i < |r| ==> r[i] in s && p(r[i])
    ensures forall i :: 0 <= i < |s| && p(s[i]) ==> s[i] in r
  {
    if s == [] then []
    else
      var last := s[|s| - 1];
      var init := Filter(p, s[..|s| - 1]);
      assert s == s[..|s| - 1] + [last];
      if p(last) then init + [last] else init
  }

  lemma FilterAppend<T>(p: T -> bool, s: seq<T>, x: T)
    ensures Filter(p, s + [x]) == if p(x) then Filter(p, s) + [x] else Filter(p, s)
  {
    assert (s + [x])[..|s|] == s;
  }

  lemma {:induction false} FilterConcat<T>(p: T -> bool, a: seq<T>, b: seq<T>)
    ensures Filter(p, a + b) == Filter(p, a) + Filter(p, b)
  {
    if b == [] {
      assert a + b == a;
    } else {
      var init, last := b[..|b| - 1], b[|b| - 1];
      assert a + b == (a + init) + [last] && b == init + [last];
      FilterConcat(p, a, init);
      FilterAppend(p, a + init, last);
      FilterAppend(p, init, last);
    }
  }

  function Not<T>(p: T -> bool): T -> bool {
    x => !p(x)
  }

  /** What satisfies p and what does not are together all there is. */
  lemma {:induction false} FilterPartition<T>(p: T -> bool, s: seq<T>)
    ensures multiset(Filter(p, s) + Filter(Not(p), s)) == multiset(s)
  {
    if s != [] {
      var init, last := s[..|s| - 1], s[|s| - 1];
      FilterPartition(p, init);
      assert s == init + [last];
    }
  }

  lemma FilterNone<T>(p: T -> bool, s: seq<T>)
    requires forall i :: 0 <= i < |s| ==> !p(s[i])
    ensures Filter(p, s) == []
  {
    var r := Filter(p, s);
    if r != [] {
      var i :| 0 <= i < |s| && s[i] == r[0];
      assert false;
    }
  }

  lemma {:induction false} FilterAll<T>(p: T -> bool, s: seq<T>)
    requires forall i :: 0 <= i < |s| ==> p(s[i])
    ensures Filter(p, s) == s
  {
    if s != [] {
      FilterAll(p, s[..|s| - 1]);
      assert s == s[..|s| - 1] + [s[|s| - 1]];
    }
  }

  lemma {:induction false} FilterSame<T>(p: T -> bool, q: T -> bool, s: seq<T>)
    requires forall i :: 0 <= i < |s| ==> p(s[i]) == q(s[i])
    ensures Filter(p, s) == Filter(q, s)
  {
    if s != [] {
      FilterSame(p, q, s[..|s| - 1]);
    }
  }

  function Map<T, U>(f: T -> U, s: seq<T>): (r: seq<U>)
    ensures |r| == |s| && forall i :: 0 <= i < |s| ==> r[i] == f(s[i])
  {
    seq(|s|, i requires 0 <= i < |s| => f(s[i]))
  }

  lemma MapAppend<T, U>(f: T -> U, s: seq<T>, x: T)
    ensures Map(f, s + [x]) == Map(f, s) + [f(x)]
  {
  }

  lemma MapCons<T, U>(f: T -> U, x: T, s: seq<T>)
    ensures Map(f, [x] + s) == [f(x)] + Map(f, s)
  {
  }

  /** Filtering mapped elements is mapping the filtered ones. */
  lemma {:induction false} FilterMap<T, U>(f: T -> U, p: T -> bool, q: U -> bool, s: seq<T>)
    requires forall i :: 0 <= i < |s| ==> p(s[i]) == q(f(s[i]))
    ensures Filter(q, Map(f, s)) == Map(f, Filter(p, s))
  {
    if s != [] {
      var init, last := s[..|s| - 1], s[|s| - 1];
      FilterMap(f, p, q, init);
      assert s == init + [last];
      MapAppend(f, init, last);
      FilterAppend(p, init, last);
      FilterAppend(q, Map(f, init), f(last));
      MapAppend(f, Filter(p, init), last);
    }
  }

  /** The position of the first x in s, or the length of s. */
  function FirstIndex<T(==)>(s: seq<T>, x: T): (n: nat)
    ensures n <= |s| && (n < |s| ==> s[n] == x)
    ensures forall j :: 0 <= j < n ==> s[j] != x
  {
    if s == [] || s[0] == x then 0 else 1 + FirstIndex(s[1..], x)
  }

  /** The values of f increase along s. */
  ghost predicate Increasing<T>(f: T -> int, s: seq<T>) {
    forall i, j :: 0 <= i < j < |s| ==> f(s[i]) < f(s[j])
  }

  lemma {:induction false} FilterIncreasing<T>(f: T -> int, p: T -> bool, s: seq<T>)
    requires Increasing(f, s)
    ensures Increasing(f, Filter(p, s))
  {
    if s != [] {
      var init := s[..|s| - 1];
      FilterIncreasing(f, p, init);
      assert forall x :: x in Filter(p, init) ==> x in init;
    }
  }

  /** Only one sequence of given elements is increasing. */
  lemma {:induction false} IncreasingUnique<T>(f: T -> int, s: seq<T>, t: seq<T>)
    requires Increasing(f, s) && Increasing(f, t) && (s == [] <==> t == [])
    requires (forall i :: 0 <= i < |s| ==> s[i] in t) && forall i :: 0 <= i < |t| ==> t[i] in s
    ensures s == t
  {
    if s != [] {
      SameLast(f, s, t);
      InitContained(f, s, t);
      InitContained(f, t, s);
      IncreasingUnique(f, s[..|s| - 1], t[..|t| - 1]);
      SameSplit(s, t);
    }
  }

  lemma SameSplit<T>(s: seq<T>, t: seq<T>)
    requires s != [] && t != [] && s[..|s| - 1] == t[..|t| - 1] && s[|s| - 1] == t[|t| - 1]
    ensures s == t
  {
    assert s == s[..|s| - 1] + [s[|s| - 1]] && t == t[..|t| - 1] + [t[|t| - 1]];
  }

  lemma SameLast<T>(f: T -> int, s: seq<T>, t: seq<T>)
    requires Increasing(f, s) && Increasing(f, t) && s != [] && t != []
    requires s[|s| - 1] in t && t[|t| - 1] in s
    ensures s[|s| - 1] == t[|t| - 1]
  {
    var i :| 0 <= i < |t| && t[i] == s[|s| - 1];
    var j :| 0 <= j < |s| && s[j] == t[|t| - 1];
  }

  lemma InitContained<T>(f: T -> int, s: seq<T>, t: seq<T>)
    requires Increasing(f, s) && s != [] && t != [] && s[|s| - 1] == t[|t| - 1]
    requires forall i :: 0 <= i < |s| ==> s[i] in t
    ensures var s', t' := s[..|s| - 1], t[..|t| - 1];
            Increasing(f, s') && (t' == [] ==> s' == []) && forall i :: 0 <= i < |s'| ==> s'[i] in t'
  {
    var s', t' := s[..|s| - 1], t[..|t| - 1];
    forall i | 0 <= i < |s'|
      ensures s'[i] in t'
    {
      var j :| 0 <= j < |t| && t[j] == s[i];
      assert f(s[i]) < f(s[|s| - 1]);
      assert t'[j] == s[i];
    }
    assert s' != [] ==> s'[0] in t';
  }

  lemma FirstIndexAppend<T>(s: seq<T>, x: T, y: T)
    ensures FirstIndex(s, x) < |s| ==> FirstIndex(s + [y], x) == FirstIndex(s, x)
    ensures FirstIndex(s, x) == |s| ==> FirstIndex(s + [y], x) == if x == y then |s| else |s| + 1
  {
    var t := s + [y];
    var n, m := FirstIndex(s, x), FirstIndex(t, x);
    if n < |s| {
      assert t[n] == x;
    } else if x == y {
      assert t[|s|] == x;
    }
    if m < |s| {
      assert s[m] == x;
    }
  }

  lemma IncreasingAppend<T>(f: T -> int, g: T -> int, s: seq<T>, x: T)
    requires Increasing(f, s) && forall i :: 0 <= i < |s| ==> f(s[i]) == g(s[i])
    ensures Increasing(g, s)
    ensures (forall i :: 0 <= i < |s| ==> g(s[i]) < g(x)) ==> Increasing(g, s + [x])
  {
  }

  lemma ConcatAssoc<T>(a: seq<T>, b: seq<T>, c: seq<T>)
    ensures a + (b + c) == a + b + c
  {
  }

  lemma ConsTail<T>(s: seq<T>, t: seq<T>)
    requires s != []
    ensures [s[0]] + (s[1..] + t) == s + t
  {
  }

  lemma TakeNext<T>(s: seq<T>, k: nat)
    requires k < |s|
    ensures s[..k + 1] == s[..k] + [s[k]]
  {
  }

  lemma DropNext<T>(s: seq<T>, k: nat)
    requires k < |s|
    ensures s[k..] != [] && s[k..][0] == s[k] && s[k..][1..] == s[k + 1..]
  {
  }

  lemma DropNone<T>(s: seq<T>)
    ensures s[0..] == s
  {
  }

  lemma TakeAll<T>(s: seq<T>)
    ensures s[..|s|] == s
  {
  }

  /** The lists one after the other. */
  function Flatten<R>(lists: seq<seq<R>>): seq<R> {
    if lists == [] then [] else Flatten(lists[..|lists| - 1]) + lists[|lists| - 1]
  }

  lemma FlattenStep<R>(lists: seq<seq<R>>, last: seq<R>)
    ensures Flatten(lists + [last]) == Flatten(lists) + last
  {
    assert (lists + [last])[..|lists|] == lists;
  }

  lemma SomeElement<T>(s: set<T>) returns (x: T)
    requires s != {}
    ensures x in s
  {
    x :| x in s;
  }

  ghost predicate Distinct<T>(s: seq<T>) {
    forall i, j :: 0 <= i < j < |s| ==> s[i] != s[j]
  }
}
