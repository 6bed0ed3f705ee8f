/**
 * The bounded circular queue of fenz/queue.hpp: a fixed array of Option
 * slots and three unsigned indices, front (oldest element), rear (next slot
 * to write) and count (number of live elements). Every index moves modulo
 * the capacity. The queue's abstract value is the sequence of the count
 * slots read circularly from front; the methods are proved against it.
 */
module CircularQueue {
  import opened Optional

  /** Largest value of the source's `unsigned int` template parameter and indices. */
  const UINT_MAX: nat := 0xFFFF_FFFF

  /** The slot i steps past front, going round the ring of slots. */
  function Circular<T>(slots: seq<Option<T>>, front: nat, i: nat): Option<T>
    requires 0 < |slots|
  {
    slots[(front + i) % |slots|]
  }

  /** The count slots starting at front, read circularly, all hold a value. */
  predicate LivePresent<T>(slots: seq<Option<T>>, front: nat, count: nat)
    requires 0 < |slots|
  {
    forall i :: 0 <= i < count ==> Circular(slots, front, i).HasValue()
  }

  /** The values of the count live slots starting at front, oldest first. */
  function Live<T>(slots: seq<Option<T>>, front: nat, count: nat): (s: seq<T>)
    requires 0 < |slots| && LivePresent(slots, front, count)
    ensures |s| == count
  {
    seq(count, i requires 0 <= i < count && LivePresent(slots, front, count) =>
      Circular(slots, front, i).value)
  }

  /** A circular index that has moved less than one full turn past n wraps at most once. */
  lemma WrapOnce(x: nat, n: nat)
    requires 0 < n && x < 2 * n
    ensures x % n == if x < n then x else x - n
  {
  }

  /**
   * Writing Some(x) at the slot just past the live window (the rear) extends
   * the abstract sequence by x and keeps every older element.
   */
  lemma {:induction false} LiveAppend<T>(slots: seq<Option<T>>, front: nat, count: nat, x: T)
    requires 0 < |slots| && front < |slots| && count < |slots|
    requires LivePresent(slots, front, count)
    ensures LivePresent(slots[(front + count) % |slots| := Some(x)], front, count + 1)
    ensures Live(slots[(front + count) % |slots| := Some(x)], front, count + 1)
            == Live(slots, front, count) + [x]
    ensures ((front + count) % |slots| + 1) % |slots| == (front + (count + 1)) % |slots|
  {
    var n := |slots|;
    var rear := (front + count) % n;
    var written := slots[rear := Some(x)];
    WrapOnce(front + count, n);
    WrapOnce(front + count + 1, n);
    WrapOnce(rear + 1, n);
    forall i | 0 <= i < count + 1
      ensures Circular(written, front, i) == if i < count then Circular(slots, front, i) else Some(x)
    {
      WrapOnce(front + i, n);
    }
    assert LivePresent(written, front, count + 1);
    var before, after := Live(slots, front, count), Live(written, front, count + 1);
    assert forall i :: 0 <= i < count ==> after[i] == before[i];
  }

  /**
   * Advancing front by one (mod n) and dropping one from count removes the
   * oldest element and keeps the rear where it was.
   */
  lemma {:induction false} LiveDrop<T>(slots: seq<Option<T>>, front: nat, count: nat)
    requires 0 < |slots| && front < |slots| && 0 < count <= |slots|
    requires LivePresent(slots, front, count)
    ensures ((front + 1) % |slots| + (count - 1)) % |slots| == (front + count) % |slots|
    ensures LivePresent(slots, (front + 1) % |slots|, count - 1)
    ensures slots[front].HasValue() && Live(slots, front, count)[0] == slots[front].value
    ensures Live(slots, (front + 1) % |slots|, count - 1) == Live(slots, front, count)[1..]
  {
    var n := |slots|;
    var next := (front + 1) % n;
    WrapOnce(front + 1, n);
    WrapOnce(front, n);
    assert Circular(slots, front, 0) == slots[front];
    WrapOnce(front + count, n);
    WrapOnce(next + (count - 1), n);
    forall i | 0 <= i < count - 1
      ensures Circular(slots, next, i) == Circular(slots, front, i + 1)
    {
      WrapOnce(front + 1 + i, n);
      WrapOnce(next + i, n);
    }
    assert LivePresent(slots, next, count - 1);
    var before, after := Live(slots, front, count), Live(slots, next, count - 1);
    assert forall i :: 0 <= i < count - 1 ==> after[i] == before[i + 1];
  }

  class Queue<T> {
    /** The slot array `data[Capacity]`; its length is the capacity. */
    const data: array<Option<T>>
    var front: nat
    var rear: nat
    var count: nat

    /** The index invariant, and every live slot holds a value. */
    ghost predicate Valid()
      reads this, data
    {
      && 0 < data.Length <= UINT_MAX
      && count <= data.Length
      && front < data.Length
      && rear < data.Length
      && rear == (front + count) % data.Length
      && LivePresent(data[..], front, count)
    }

    /** The queued elements, oldest first. */
    ghost function Contents(): seq<T>
      reads this, data
      requires Valid()
    {
      Live(data[..], front, count)
    }

    /** Queue(): front = rear = count = 0, every slot an empty Option. */
    constructor (capacity: nat)
      requires 0 < capacity <= UINT_MAX
      ensures Valid() && fresh(data) && data.Length == capacity
      ensures front == 0 && rear == 0 && count == 0
      ensures forall i :: 0 <= i < capacity ==> data[i] == None
      ensures Contents() == []
    {
      data := new Option<T>[capacity](_ => None);
      front, rear, count := 0, 0, 0;
    }

    /** size(): the number of queued elements. */
    function Size(): (n: nat)
      reads this, data
      requires Valid()
      ensures n == |Contents()|
      ensures n <= Capacity()
    {
      count
    }

    /** capacity(): the fixed maximum number of elements. */
    function Capacity(): (cap: nat)
      reads this, data
      requires Valid()
      ensures 0 < cap <= UINT_MAX
      ensures |Contents()| <= cap
    {
      data.Length
    }

    /** isFull(): no room for another element. */
    function IsFull(): (full: bool)
      reads this, data
      requires Valid()
      ensures full <==> |Contents()| == Capacity()
    {
      count == data.Length
    }

    /** isEmpty(): no element queued. */
    function IsEmpty(): (empty: bool)
      reads this, data
      requires Valid()
      ensures empty <==> Contents() == []
    {
      count == 0
    }

    /**
     * enqueue(item): refuses when full and then changes nothing; otherwise
     * writes item into slot rear, advances rear and appends item.
     */
    method Enqueue(item: T) returns (added: bool)
      requires Valid()
      modifies this, data
      ensures Valid()
      ensures added <==> old(count) < data.Length
      ensures !added ==> unchanged(this) && unchanged(data)
      ensures added ==> && data[..] == old(data[..])[old(rear) := Some(item)]
                        && front == old(front)
                        && rear == (old(rear) + 1) % data.Length
                        && count == old(count) + 1
      ensures Contents() == if added then old(Contents()) + [item] else old(Contents())
    {
      if IsFull() {
        return false;
      }
      LiveAppend(data[..], front, count, item);
      ghost var written := data[..][rear := Some(item)];
      data[rear] := Some(item);
      assert data[..] == written;
      rear := (rear + 1) % data.Length;
      count := count + 1;
      assert Valid() && Contents() == old(Contents()) + [item];
      return true;
    }

    /**
     * forceEnqueue(item): never fails. When full it first evicts the oldest
     * element by advancing front, then enqueues as above.
     */
    method ForceEnqueue(item: T)
      requires Valid()
      modifies this, data
      ensures Valid()
      ensures old(count) == data.Length ==> count == old(count) && Contents() == old(Contents())[1..] + [item]
      ensures old(count) < data.Length ==> count == old(count) + 1 && Contents() == old(Contents()) + [item]
      ensures data[..] == old(data[..])[old(rear) := Some(item)]
      ensures rear == (old(rear) + 1) % data.Length
    {
      if IsFull() {
        LiveDrop(data[..], front, count);
        front := (front + 1) % data.Length;
        count := count - 1;
        assert Valid() && Contents() == old(Contents())[1..];
      }
      var added := Enqueue(item);
    }

    /**
     * dequeue(): an empty Option, changing nothing, when empty; otherwise
     * the Option in slot front (the oldest element), after which front
     * advances and the oldest element is gone. No slot is written.
     */
    method Dequeue() returns (item: Option<T>)
      requires Valid()
      modifies this
      ensures Valid()
      ensures old(count) == 0 ==> item == None && unchanged(this)
      ensures old(count) > 0 ==> && item == old(data[front])
                                 && item == Some(old(Contents())[0])
                                 && Contents() == old(Contents())[1..]
                                 && front == (old(front) + 1) % data.Length
                                 && rear == old(rear)
                                 && count == old(count) - 1
    {
      if IsEmpty() {
        return None;
      }
      LiveDrop(data[..], front, count);
      item := data[front];
      front := (front + 1) % data.Length;
      count := count - 1;
    }
  }

  /**
   * A capacity-2 queue: two enqueues succeed and fill it, a third is
   * refused, and three dequeues give 10, 20 and then an empty Option.
   */
  method RefusesWhenFull() returns (results: seq<bool>, sizes: seq<nat>, full: bool, out: seq<Option<int>>)
    ensures results == [true, true, false]
    ensures sizes == [1, 2, 2, 1, 0, 0]
    ensures full
    ensures out == [Some(10), Some(20), None]
  {
    var q := new Queue<int>(2);
    var a := q.Enqueue(10);
    var s1 := q.Size();
    var b := q.Enqueue(20);
    var s2 := q.Size();
    full := q.IsFull();
    assert q.Contents() == [10, 20];
    var c := q.Enqueue(30);
    var s3 := q.Size();
    var x := q.Dequeue();
    var s4 := q.Size();
    var y := q.Dequeue();
    var s5 := q.Size();
    var z := q.Dequeue();
    var s6 := q.Size();
    results, sizes, out := [a, b, c], [s1, s2, s3, s4, s5, s6], [x, y, z];
  }

  /**
   * A capacity-3 queue holding 1, 2, 3: after one dequeue and enqueue(4)
   * the rear has wrapped past slot 0, and the rest come out as 2, 3, 4.
   */
  method WrapsAround() returns (out: seq<Option<int>>)
    ensures out == [Some(1), Some(2), Some(3), Some(4), None]
  {
    var q := new Queue<int>(3);
    var _ := q.Enqueue(1);
    var _ := q.Enqueue(2);
    var _ := q.Enqueue(3);
    assert q.Contents() == [1, 2, 3];
    var first := q.Dequeue();
    var added := q.Enqueue(4);
    assert q.Contents() == [2, 3, 4];
    var second := q.Dequeue();
    var third := q.Dequeue();
    var fourth := q.Dequeue();
    var fifth := q.Dequeue();
    out := [first, second, third, fourth, fifth];
  }

  /**
   * forceEnqueue on a full capacity-3 queue holding 1, 2, 3 evicts 1; the
   * size stays 3 and the queue then yields 2, 3, 4.
   */
  method EvictsOldest() returns (size: nat, out: seq<Option<int>>)
    ensures size == 3
    ensures out == [Some(2), Some(3), Some(4), None]
  {
    var q := new Queue<int>(3);
    q.ForceEnqueue(1);
    q.ForceEnqueue(2);
    q.ForceEnqueue(3);
    assert q.Contents() == [1, 2, 3] && q.IsFull();
    q.ForceEnqueue(4);
    assert q.Contents() == [2, 3, 4];
    size := q.Size();
    var a := q.Dequeue();
    var b := q.Dequeue();
    var c := q.Dequeue();
    var d := q.Dequeue();
    out := [a, b, c, d];
  }
}
