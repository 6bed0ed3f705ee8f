/**
 * The fixed-size array and its non-owning views of fenz/array.hpp. A view
 * (Iterable, or the read-only ConstIterable) is a window of len elements
 * starting at offset in a shared Dafny array: the source's base pointer is
 * (data, offset) and its template parameter N is len. Making a view copies
 * nothing, so a write through a view is a write to the shared array. The
 * compile-time checks (static_assert) become preconditions. enumerate and zip
 * are loops that call a callback once per index; the model returns the
 * sequence of arguments those calls receive, in call order.
 */
module Arrays {

  /** Iterable<T, N>: a mutable view of len elements of data, from offset. */
  datatype Iterable<T> = Iterable(data: array<T>, offset: nat, len: nat) {

    /** Every view has N > 0 and lies inside its array. */
    predicate Valid()
    {
      0 < len && offset + len <= data.Length
    }

    /** The elements the view currently shows. */
    ghost function Elements(): (s: seq<T>)
      reads data
      requires Valid()
      ensures |s| == len
    {
      data[offset..offset + len]
    }

    /** at<i>(): element i, for 0 <= i < N. */
    function At(i: int): (x: T)
      reads data
      requires Valid() && 0 <= i < len
      ensures x == Elements()[i]
    {
      data[offset + i]
    }

    /** Assignment through the reference at<i>() returns: element i of the view, and nothing else, becomes x. */
    method AtAssign(i: int, x: T)
      requires Valid() && 0 <= i < len
      modifies data
      ensures data[..] == old(data[..])[offset + i := x]
      ensures Elements() == old(Elements())[i := x]
    {
      data[offset + i] := x;
    }

    /**
     * view<Start, End>(): the elements Start .. End-1 of this view, sharing
     * its storage.
     */
    function View(start: int, end: int): (v: Iterable<T>)
      reads data
      requires Valid() && 0 <= start && end <= len && end > start
      ensures v.Valid() && v.data == data && v.len == end - start
      ensures v.Elements() == Elements()[start..end]
      ensures forall j :: 0 <= j < v.len ==> v.At(j) == At(start + j)
    {
      var v := Iterable(data, offset + start, end - start);
      assert v.Elements() == Elements()[start..end];
      v
    }

    /** constView<Start, End>(): the same window, read-only. */
    function ConstView(start: int, end: int): (v: ConstIterable<T>)
      reads data
      requires Valid() && 0 <= start && end <= len && end > start
      ensures v.Valid() && v.data == data && v.len == end - start
      ensures v.Elements() == Elements()[start..end]
    {
      var v := ConstIterable(data, offset + start, end - start);
      assert v.Elements() == Elements()[start..end];
      v
    }

    /** enumerate(func): calls func(element i, i) for i = 0, 1, .., N-1. */
    method Enumerate() returns (calls: seq<(T, int)>)
      requires Valid()
      ensures |calls| == len
      ensures forall i :: 0 <= i < len ==> calls[i] == (At(i), i)
    {
      calls := [];
      for i := 0 to len
        invariant |calls| == i
        invariant forall k :: 0 <= k < i ==> calls[k] == (data[offset + k], k)
      {
        calls := calls + [(data[offset + i], i)];
      }
    }

    /** zip(other, func): calls func(this[i], other[i]) for i = 0, 1, .., N-1. */
    method Zip<U>(other: Iterable<U>) returns (calls: seq<(T, U)>)
      requires Valid() && other.Valid() && other.len == len
      ensures |calls| == len
      ensures forall i :: 0 <= i < len ==> calls[i] == (At(i), other.At(i))
    {
      calls := [];
      for i := 0 to len
        invariant |calls| == i
        invariant forall k :: 0 <= k < i ==> calls[k] == (data[offset + k], other.data[other.offset + k])
      {
        calls := calls + [(data[offset + i], other.data[other.offset + i])];
      }
    }
  }

  /** ConstIterable<T, N>: a read-only view of len elements of data, from offset. */
  datatype ConstIterable<T> = ConstIterable(data: array<T>, offset: nat, len: nat) {

    predicate Valid()
    {
      0 < len && offset + len <= data.Length
    }

    ghost function Elements(): (s: seq<T>)
      reads data
      requires Valid()
      ensures |s| == len
    {
      data[offset..offset + len]
    }

    /** ConstIterable(const Iterable&): a read-only view of the same data. */
    static function FromIterable(other: Iterable<T>): (c: ConstIterable<T>)
      reads other.data
      requires other.Valid()
      ensures c.Valid() && c.data == other.data && c.len == other.len
      ensures c.Elements() == other.Elements()
      ensures forall i :: 0 <= i < c.len ==> c.At(i) == other.At(i)
    {
      ConstIterable(other.data, other.offset, other.len)
    }

    /** at<i>(): element i, for 0 <= i < N. */
    function At(i: int): (x: T)
      reads data
      requires Valid() && 0 <= i < len
      ensures x == Elements()[i]
    {
      data[offset + i]
    }

    /** constView<Start, End>(): the elements Start .. End-1, sharing storage. */
    function ConstView(start: int, end: int): (v: ConstIterable<T>)
      reads data
      requires Valid() && 0 <= start && end <= len && end > start
      ensures v.Valid() && v.data == data && v.len == end - start
      ensures v.Elements() == Elements()[start..end]
    {
      var v := ConstIterable(data, offset + start, end - start);
      assert v.Elements() == Elements()[start..end];
      v
    }

    /** enumerate(func): calls func(element i, i) for i = 0, 1, .., N-1. */
    method Enumerate() returns (calls: seq<(T, int)>)
      requires Valid()
      ensures |calls| == len
      ensures forall i :: 0 <= i < len ==> calls[i] == (At(i), i)
    {
      calls := [];
      for i := 0 to len
        invariant |calls| == i
        invariant forall k :: 0 <= k < i ==> calls[k] == (data[offset + k], k)
      {
        calls := calls + [(data[offset + i], i)];
      }
    }

    /**
     * zip(other, func): calls func(this[i], other[i], i) for i = 0, 1, ..,
     * N-1; unlike Iterable's zip, the index is passed too.
     */
    method Zip<U>(other: ConstIterable<U>) returns (calls: seq<(T, U, int)>)
      requires Valid() && other.Valid() && other.len == len
      ensures |calls| == len
      ensures forall i :: 0 <= i < len ==> calls[i] == (At(i), other.At(i), i)
    {
      calls := [];
      for i := 0 to len
        invariant |calls| == i
        invariant forall k :: 0 <= k < i ==> calls[k] == (data[offset + k], other.data[other.offset + k], k)
      {
        calls := calls + [(data[offset + i], other.data[other.offset + i], i)];
      }
    }
  }

  /**
   * Array<T, N>: owns its N elements and is the Iterable over all of them.
   * The elements are default-initialised storage, so T must have a default.
   */
  class Array<T(0)> {
    const ownedData: array<T>

    constructor (n: int, defaultValue: T)
      requires n > 0
      ensures fresh(ownedData) && ownedData.Length == n
      ensures AsIterable().Valid()
      ensures forall i :: 0 <= i < n ==> AsIterable().At(i) == defaultValue
    {
      ownedData := new T[n];
      new;
      for i := 0 to n
        invariant forall k :: 0 <= k < i ==> ownedData[k] == defaultValue
      {
        ownedData[i] := defaultValue;
      }
    }

    /** The Iterable base of the Array: a view of the whole owned storage. */
    function AsIterable(): (it: Iterable<T>)
      reads ownedData
      ensures it.data == ownedData
      ensures 0 < ownedData.Length ==> it.Valid() && it.Elements() == ownedData[..]
    {
      Iterable(ownedData, 0, ownedData.Length)
    }
  }

  /**
   * Writing x through view<Start, End>().at<j>() changes element Start + j
   * of the base view and no other element of it.
   */
  method WriteThroughView<T>(base: Iterable<T>, start: int, end: int, j: int, x: T)
    requires base.Valid() && 0 <= start && end <= base.len && end > start
    requires 0 <= j < end - start
    modifies base.data
    ensures base.data[..] == old(base.data[..])[base.offset + start + j := x]
    ensures base.Elements() == old(base.Elements())[start + j := x]
    ensures base.At(start + j) == x
    ensures forall k :: 0 <= k < base.len && k != start + j ==> base.At(k) == old(base.At(k))
  {
    var v := base.View(start, end);
    v.AtAssign(j, x);
  }
}
