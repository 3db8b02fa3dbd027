/**
 * `StackVec<T, N>` of `src/prelude/data/prelude/stack_vec.rs`: a vector with
 * a fixed capacity `N` stored inline. Only the first `len` slots of the buffer
 * are initialised and visible; `Contents()` is that visible prefix.
 */
module StackVecs {

  class StackVec<T(0,==)> {
    const capacity: nat
    const buf: array<T>
    var len: nat

    ghost predicate Valid()
      reads this
    {
      buf.Length == capacity && len <= capacity
    }

    /** The visible elements; `iter`, `deref` and `deref_mut` all expose exactly these. */
    function Contents(): seq<T>
      reads this, buf
      requires Valid()
    {
      buf[..len]
    }

    /** `StackVec::new(slice)`: panics unless the slice fits, then copies it in. */
    constructor New(n: nat, slice: seq<T>)
      requires |slice| <= n
      ensures Valid() && fresh(buf)
      ensures capacity == n && len == |slice| && Contents() == slice
    {
      capacity := n;
      buf := new T[n];
      len := |slice|;
      new;
      var i := 0;
      while i < |slice|
        invariant i <= |slice| <= buf.Length
        invariant forall j :: 0 <= j < i ==> buf[j] == slice[j]
        modifies buf
      {
        buf[i] := slice[i];
        i := i + 1;
      }
      assert buf[..len] == slice;
    }

    /** `Default`: `new(&[])`. */
    constructor Default(n: nat)
      ensures Valid() && fresh(buf)
      ensures capacity == n && Contents() == []
    {
      capacity := n;
      buf := new T[n];
      len := 0;
    }

    function Len(): (r: nat)
      reads this, buf
      requires Valid()
      ensures r == |Contents()| && r <= capacity
    {
      len
    }

    function IsEmpty(): (r: bool)
      reads this, buf
      requires Valid()
      ensures r <==> Contents() == []
    {
      len == 0
    }

    /** `Index<usize>`: the element at a visible position. */
    function At(i: nat): (r: T)
      reads this, buf
      requires Valid() && i < len
      ensures r == Contents()[i]
      ensures r in Contents()
    {
      buf[i]
    }

    /** `push`: panics when full; otherwise appends and leaves the earlier elements alone. */
    method Push(v: T)
      requires Valid() && len < capacity
      modifies this, buf
      ensures Valid()
      ensures Contents() == old(Contents()) + [v]
      ensures len == old(len) + 1
    {
      buf[len] := v;
      len := len + 1;
      assert buf[..len] == old(buf[..len]) + [v];
    }

    /** `PartialEq for StackVec`: same length, then element by element. */
    method Equals(other: StackVec<T>) returns (eq: bool)
      requires Valid() && other.Valid()
      ensures eq <==> Contents() == other.Contents()
    {
      if len != other.len {
        return false;
      }
      var i := 0;
      while i < len
        invariant i <= len
        invariant forall j :: 0 <= j < i ==> buf[j] == other.buf[j]
      {
        if buf[i] != other.buf[i] {
          assert Contents()[i] != other.Contents()[i];
          return false;
        }
        i := i + 1;
      }
      assert Contents() == other.Contents();
      return true;
    }

    /** `PartialEq<Vec<T>> for StackVec`. */
    method EqualsSeq(v: seq<T>) returns (eq: bool)
      requires Valid()
      ensures eq <==> Contents() == v
    {
      if len != |v| {
        return false;
      }
      var i := 0;
      while i < len
        invariant i <= len
        invariant forall j :: 0 <= j < i ==> buf[j] == v[j]
      {
        if buf[i] != v[i] {
          assert Contents()[i] != v[i];
          return false;
        }
        i := i + 1;
      }
      assert Contents() == v;
      return true;
    }
  }

  /** `PartialEq<StackVec<T, N>> for Vec<T>`: the same rule with the operands swapped. */
  method SeqEquals<T(0,==)>(v: seq<T>, s: StackVec<T>) returns (eq: bool)
    requires s.Valid()
    ensures eq <==> v == s.Contents()
  {
    if |v| != s.len {
      return false;
    }
    var i := 0;
    while i < |v|
      invariant i <= |v|
      invariant forall j :: 0 <= j < i ==> v[j] == s.buf[j]
    {
      if v[i] != s.buf[i] {
        assert v[i] != s.Contents()[i];
        return false;
      }
      i := i + 1;
    }
    assert v == s.Contents();
    return true;
  }

  /** The test vectors: `new(&[])` equals `vec![]` and `new(&[1, 2])` equals `vec![1, 2]`. */
  method Examples() returns (e1: bool, e2: bool)
    ensures e1 && e2
  {
    var empty := new StackVec<int>.New(4, []);
    e1 := empty.EqualsSeq([]);
    var two := new StackVec<int>.New(4, [1, 2]);
    e2 := two.EqualsSeq([1, 2]);
  }
}
