/** Go slices: a length on a backing array that may have room to spare and may be shared. */
module GoSlice {

  datatype Slice<!T> = Slice(buf: array<T>, len: nat) {
    ghost predicate Valid() {
      len <= buf.Length
    }

    function Items(): seq<T>
      requires Valid()
      reads buf
    {
      buf[..len]
    }
  }

  /** append: in place while there is room, and otherwise on a new array with some more. */
  method Append<T(0)>(s: Slice<T>, xs: seq<T>, spare: nat) returns (r: Slice<T>)
    requires s.Valid()
    modifies s.buf
    ensures r.Valid() && r.len == s.len + |xs| && r.Items() == old(s.Items()) + xs
    ensures r.buf == s.buf || fresh(r.buf)
    ensures s.len + |xs| <= s.buf.Length ==> r.buf == s.buf
    ensures s.Items() == old(s.Items())
  {
    var buf := s.buf;
    if s.buf.Length < s.len + |xs| {
      buf := new T[s.len + |xs| + spare];
      for i := 0 to s.len
        invariant buf[..i] == s.buf[..i]
        invariant s.buf[..] == old(s.buf[..])
      {
        buf[i] := s.buf[i];
      }
    }
    for i := 0 to |xs|
      invariant buf[..s.len + i] == old(s.buf[..s.len]) + xs[..i]
      invariant s.buf[..s.len] == old(s.buf[..s.len])
    {
      buf[s.len + i] := xs[i];
    }
    assert xs[..|xs|] == xs;
    r := Slice(buf, s.len + |xs|);
  }

  /** append([]T{}, s...): a copy on an array of its own. */
  method Copy<T(0)>(s: Slice<T>, spare: nat) returns (r: Slice<T>)
    requires s.Valid()
    ensures r.Valid() && fresh(r.buf) && r.Items() == s.Items()
  {
    var none := new T[0];
    r := Append(Slice(none, 0), s.buf[..s.len], spare);
  }

  /** Two slices on one array are not independent: what is appended to the second shows in the first.
      This is what Clone would do if it only copied the slices. */
  method SharedAppends<T(0)>(s: Slice<T>, x: T, y: T, spare: nat) returns (a: Slice<T>, b: Slice<T>)
    requires s.len < s.buf.Length
    modifies s.buf
    ensures a.Valid() && b.Valid() && a.Items() == b.Items() == old(s.Items()) + [y]
  {
    a := Append(s, [x], spare);
    b := Append(s, [y], spare);
  }
}
