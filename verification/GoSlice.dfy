/** Go slices on the heap: a header (offset, length, capacity) over a shared backing array. */
module GoSlice {

  datatype Slice<T> = Slice(arr: array?<T>, off: nat, len: nat, cap: nat) {

    ghost predicate Valid() {
      len <= cap && if arr == null then off == 0 && cap == 0 else off + cap <= arr.Length
    }

    ghost function Elems(): (s: seq<T>)
      requires Valid()
      reads arr
      ensures |s| == len
    {
      if arr == null then [] else arr[off..off + len]
    }
  }

  /** `nil`. */
  function Nil<T>(): Slice<T> { Slice(null, 0, 0, 0) }

  /** `s[lo:hi]`: a new header over the same storage. */
  function Reslice<T>(s: Slice<T>, lo: nat, hi: nat): (r: Slice<T>)
    requires s.Valid() && lo <= hi <= s.len
    reads s.arr
    ensures r.Valid() && r.arr == s.arr && r.Elems() == s.Elems()[lo..hi]
  {
    if s.arr == null then s else Slice(s.arr, s.off + lo, hi - lo, s.cap - lo)
  }

  function Min(a: nat, b: nat): nat { if a < b then a else b }

  /** `a` with the cells from `at` on overwritten by `xs`. */
  ghost function Spliced<T>(a: seq<T>, at: nat, xs: seq<T>): (r: seq<T>)
    requires at + |xs| <= |a|
    ensures |r| == |a|
  {
    a[..at] + xs + a[at + |xs|..]
  }

  lemma SplicedWindow<T>(a: seq<T>, at: nat, xs: seq<T>, len: nat)
    requires |xs| <= len && at + len <= |a|
    ensures Spliced(a, at, xs)[at..at + len] == xs + a[at..at + len][|xs|..]
  {
  }

  lemma SplicedTail<T>(a: seq<T>, off: nat, len: nat, xs: seq<T>)
    requires off + len + |xs| <= |a|
    ensures Spliced(a, off + len, xs)[off..off + len + |xs|] == a[off..off + len] + xs
  {
  }

  /**
   * memmove: `n` cells of `s` from `sOff` go to `d` from `dOff`. The direction of the walk depends on
   * how the windows overlap, so what arrives is the source as it was before the call.
   */
  method MoveCells<T>(d: array<T>, dOff: nat, s: array<T>, sOff: nat, n: nat)
    requires dOff + n <= d.Length && sOff + n <= s.Length
    modifies d
    ensures d[..] == Spliced(old(d[..]), dOff, old(s[sOff..sOff + n]))
  {
    ghost var was, from := d[..], s[sOff..sOff + n];
    if sOff < dOff {
      var j := n;
      while j > 0
        invariant 0 <= j <= n
        invariant forall k :: 0 <= k < d.Length && !(dOff + j <= k < dOff + n) ==> d[k] == was[k]
        invariant forall k :: dOff + j <= k < dOff + n ==> d[k] == from[k - dOff]
        invariant forall k :: sOff <= k < sOff + j ==> s[k] == from[k - sOff]
      {
        j := j - 1;
        d[dOff + j] := s[sOff + j];
      }
    } else {
      var j := 0;
      while j < n
        invariant 0 <= j <= n
        invariant forall k :: 0 <= k < d.Length && !(dOff <= k < dOff + j) ==> d[k] == was[k]
        invariant forall k :: dOff <= k < dOff + j ==> d[k] == from[k - dOff]
        invariant forall k :: sOff + j <= k < sOff + n ==> s[k] == from[k - sOff]
      {
        d[dOff + j] := s[sOff + j];
        j := j + 1;
      }
    }
  }

  /** `copy(dst, src)`. */
  method Copy<T>(dst: Slice<T>, src: Slice<T>) returns (n: nat)
    requires dst.Valid() && src.Valid()
    modifies dst.arr
    ensures n == Min(dst.len, src.len)
    ensures dst.Elems() == old(src.Elems())[..n] + old(dst.Elems())[n..]
  {
    n := Min(dst.len, src.len);
    if n == 0 { return; }
    ghost var cells, was, moved := dst.arr[..], dst.Elems(), src.Elems()[..n];
    assert moved == src.arr[src.off..src.off + n] && was == cells[dst.off..dst.off + dst.len];
    MoveCells(dst.arr, dst.off, src.arr, src.off, n);
    SplicedWindow(cells, dst.off, moved, dst.len);
    assert dst.Elems() == dst.arr[..][dst.off..dst.off + dst.len];
  }

  /** A fresh slice of length `len` whose capacity is at least `need`, as append's growth allocates it. */
  method Grow<T(0)>(s: Slice<T>, need: nat) returns (r: Slice<T>)
    requires s.Valid() && s.len <= need && 0 < need
    ensures r.Valid() && r.arr != null && fresh(r.arr) && r.len == s.len && need <= r.cap
    ensures r.Elems() == s.Elems()
  {
    var room: nat :| need <= room;
    var arr := new T[room];
    r := Slice(arr, 0, s.len, room);
    var _ := Copy(r, s);
  }

  /** `append(s, x)`: writes into spare capacity when there is some, otherwise moves to fresh storage. */
  method Append<T(0)>(s: Slice<T>, x: T) returns (r: Slice<T>)
    requires s.Valid()
    modifies if s.len < s.cap then {s.arr} else {}
    ensures r.Valid() && r.Elems() == old(s.Elems()) + [x]
    ensures if s.len < s.cap then r == s.(len := s.len + 1) else fresh(r.arr)
  {
    r := s;
    if s.len == s.cap {
      r := Grow(s, s.len + 1);
    }
    r.arr[r.off + r.len] := x;
    r := r.(len := r.len + 1);
  }

  /** Writes `xs` into the spare capacity behind `s`. */
  method Extend<T>(s: Slice<T>, xs: Slice<T>) returns (r: Slice<T>)
    requires s.Valid() && xs.Valid() && s.len + xs.len <= s.cap
    modifies s.arr
    ensures r == s.(len := s.len + xs.len) && r.Elems() == old(s.Elems()) + old(xs.Elems())
  {
    r := s.(len := s.len + xs.len);
    if xs.len == 0 { return; }
    ghost var cells, tail := s.arr[..], xs.Elems();
    assert s.Elems() == cells[s.off..s.off + s.len];
    MoveCells(s.arr, s.off + s.len, xs.arr, xs.off, xs.len);
    SplicedTail(cells, s.off, s.len, tail);
    assert r.Elems() == s.arr[..][r.off..r.off + r.len];
  }

  /** `append(s, xs...)`. */
  method AppendAll<T(0)>(s: Slice<T>, xs: Slice<T>) returns (r: Slice<T>)
    requires s.Valid() && xs.Valid()
    modifies if s.len + xs.len <= s.cap then {s.arr} else {}
    ensures r.Valid() && r.Elems() == old(s.Elems()) + old(xs.Elems())
    ensures if s.len + xs.len <= s.cap then r == s.(len := s.len + xs.len) else fresh(r.arr)
  {
    r := s;
    if s.len + xs.len > s.cap {
      r := Grow(s, s.len + xs.len);
    }
    r := Extend(r, xs);
  }
}
