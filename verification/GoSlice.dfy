/**
 Go slices: a window of a backing array with a length and a capacity. Two slices may share one
 backing array, and an append that fits the capacity writes that array in place.
 */
module GoSlice {

  datatype Slice<T> = Slice(arr: array<T>, off: nat, len: nat, cap: nat)

  ghost predicate Valid<T>(s: Slice<T>) {
    s.len <= s.cap && s.off + s.cap <= s.arr.Length
  }

  ghost function Elems<T>(s: Slice<T>): (r: seq<T>)
    requires Valid(s)
    reads s.arr
    ensures |r| == s.len
  {
    s.arr[s.off..s.off + s.len]
  }

  /** s[:hi], which may reach beyond the length but not beyond the capacity. */
  function Upto<T>(s: Slice<T>, hi: nat): Slice<T>
    requires hi <= s.cap
  {
    s.(len := hi)
  }

  /** s[lo:]. */
  function From<T>(s: Slice<T>, lo: nat): Slice<T>
    requires lo <= s.len <= s.cap
  {
    Slice(s.arr, s.off + lo, s.len - lo, s.cap - lo)
  }

  /** Cutting a slice in two cuts its elements in two. */
  lemma CutElems<T>(s: Slice<T>, at: nat)
    requires Valid(s) && at <= s.len
    ensures Valid(Upto(s, at)) && Valid(From(s, at))
    ensures Elems(Upto(s, at)) == Elems(s)[..at] && Elems(From(s, at)) == Elems(s)[at..]
  {
  }

  method Get<T>(s: Slice<T>, i: nat) returns (v: T)
    requires Valid(s) && i < s.len
    ensures v == Elems(s)[i]
  {
    v := s.arr[s.off + i];
  }

  /** make([]T, |vs|) followed by copying vs into it. */
  method FromSeq<T>(vs: seq<T>) returns (s: Slice<T>)
    ensures Valid(s) && fresh(s.arr) && s.len == s.cap == |vs|
    ensures Elems(s) == vs
  {
    var a := new T[|vs|](i requires 0 <= i < |vs| => vs[i]);
    s := Slice(a, 0, |vs|, |vs|);
    assert a[..] == vs;
  }

  /**
   append(s, t...). When the result fits the capacity of s, the backing array of s is overwritten
   after the end of s, with the elements t had before the call (t may share the array); otherwise
   a new array of any sufficient capacity is allocated and the old one is left alone.
   */
  method Append<T(0)>(s: Slice<T>, t: Slice<T>) returns (r: Slice<T>)
    requires Valid(s) && Valid(t)
    modifies s.arr
    ensures Valid(r)
    ensures r.len == s.len + t.len
    ensures Elems(r) == old(Elems(s)) + old(Elems(t))
    ensures s.len + t.len <= s.cap ==> r == s.(len := s.len + t.len)
    ensures s.len + t.len <= s.cap ==>
              forall i | 0 <= i < s.arr.Length ::
                !(s.off + s.len <= i < s.off + s.len + t.len) ==> s.arr[i] == old(s.arr[i])
    ensures s.len + t.len > s.cap ==> fresh(r.arr) && s.arr[..] == old(s.arr[..])
  {
    var n := s.len + t.len;
    ghost var was, add := Elems(s), Elems(t);
    if n <= s.cap {
      forall i | 0 <= i < t.len {
        s.arr[s.off + s.len + i] := t.arr[t.off + i];
      }
      r := s.(len := n);
      assert forall i | 0 <= i < n :: Elems(r)[i] == (was + add)[i];
    } else {
      var slack :| 0 <= slack;
      var a := new T[n + slack];
      forall i | 0 <= i < s.len {
        a[i] := s.arr[s.off + i];
      }
      forall i | 0 <= i < t.len {
        a[s.len + i] := t.arr[t.off + i];
      }
      r := Slice(a, 0, n, n + slack);
      assert forall i | 0 <= i < n :: Elems(r)[i] == (was + add)[i];
    }
  }
}
