/** The growable array and its iterator of Behavioral/Iterator/Vector.h.

    `Vector` owns a buffer of `capacity` slots of which the first `size` hold
    the elements; it is a class over an `array`, and every method is stated in
    terms of Elements(), the contents `arr[..size]`, and the capacity.  The
    iterator is a class holding a buffer and a position in it, the model of
    the raw address `m_ptr`. */
module GrowableVector {

  // ---------------------------------------------------------------- growth

  /** The capacity `pushBack` and `emplaceBack` ask for when the buffer is full,
      as written: `m_capacity + m_capacity / 2`. */
  function GrowthAsWritten(capacity: nat): (c: nat)
    ensures c >= capacity
    ensures capacity >= 2 ==> c > capacity
  {
    capacity + capacity / 2
  }

  /** Below 2 slots the written growth adds none, so the write that follows at
      index `m_size == m_capacity` is past the end of the new buffer: an empty
      initializer list, or one of a single item, then a `pushBack`. */
  lemma GrowthAsWrittenStalls(capacity: nat)
    requires capacity < 2
    ensures GrowthAsWritten(capacity) == capacity
    ensures !(capacity < GrowthAsWritten(capacity))
  {
  }

  /** The growth evidently intended: half as much again, and at least one slot. */
  function Growth(capacity: nat): (c: nat)
    ensures c > capacity
    ensures capacity >= 2 ==> c == GrowthAsWritten(capacity)
  {
    if capacity < 2 then capacity + 1 else capacity + capacity / 2
  }

  /** After a growth a full vector has room for one more element. */
  lemma GrowthMakesRoom(size: nat, capacity: nat)
    requires size == capacity
    ensures size < Growth(capacity)
  {
  }

  // ---------------------------------------------------------------- the vector

  class Vector<T(0)> {
    /** `m_array`; its length is `m_capacity`. */
    var arr: array<T>
    /** `m_size`. */
    var size: nat
    /** `m_capacity`. */
    var capacity: nat

    /** Every public operation keeps size within capacity. */
    predicate Valid()
      reads this
    {
      capacity == arr.Length && size <= capacity
    }

    /** The elements, first to last. */
    function Elements(): (xs: seq<T>)
      reads this, arr
      requires Valid()
      ensures |xs| == size
    {
      arr[..size]
    }

    /** `Vector()`: no elements, room for two. */
    constructor ()
      ensures Valid() && Elements() == [] && capacity == 2
    {
      arr := new T[2];
      size := 0;
      capacity := 2;
    }

    /** `Vector(std::initializer_list<T>)`: exactly as many slots as items, filled
        in list order. */
    constructor FromList(items: seq<T>)
      ensures Valid() && Elements() == items && capacity == |items|
    {
      var a := new T[|items|];
      var i := 0;
      while i < |items|
        invariant i <= |items| && a[..i] == items[..i]
      {
        a[i] := items[i];
        i := i + 1;
      }
      arr := a;
      capacity := |items|;
      size := |items|;
      assert a[..] == items;
    }

    /** `allocate(n)`: a new buffer of n slots holding the first min(size, n)
        elements. */
    method Allocate(newCapacity: nat)
      requires Valid()
      modifies this
      ensures Valid() && fresh(arr)
      ensures capacity == newCapacity
      ensures size == if old(size) <= newCapacity then old(size) else newCapacity
      ensures Elements() == old(Elements())[..size]
    {
      var newArray := new T[newCapacity];
      if newCapacity < size {
        size := newCapacity;
      }
      var i := 0;
      while i < size
        invariant arr == old(arr) && size == if old(size) <= newCapacity then old(size) else newCapacity
        invariant i <= size <= newCapacity && size <= arr.Length
        invariant newArray[..i] == arr[..i]
      {
        newArray[i] := arr[i];
        i := i + 1;
      }
      arr := newArray;
      capacity := newCapacity;
    }

    /** `pushBack`: x goes last; a full buffer grows first. */
    method PushBack(x: T)
      requires Valid()
      modifies this, arr
      ensures Valid() && Elements() == old(Elements()) + [x]
      ensures capacity == if old(size) == old(capacity) then Growth(old(capacity)) else old(capacity)
    {
      if size == capacity {
        Allocate(Growth(capacity));
      }
      arr[size] := x;
      size := size + 1;
      assert arr[..size] == old(Elements()) + [x];
    }

    /** `emplaceBack`: as `pushBack`, returning the element placed. */
    method EmplaceBack(x: T) returns (r: T)
      requires Valid()
      modifies this, arr
      ensures Valid() && Elements() == old(Elements()) + [x] && r == x
      ensures capacity == if old(size) == old(capacity) then Growth(old(capacity)) else old(capacity)
    {
      PushBack(x);
      r := arr[size - 1];
    }

    /** `popBack`: drops the last element; nothing on an empty vector. */
    method PopBack()
      requires Valid()
      modifies this
      ensures Valid() && capacity == old(capacity) && arr == old(arr)
      ensures old(size) == 0 ==> size == 0
      ensures old(size) > 0 ==> Elements() == old(Elements())[..old(size) - 1]
    {
      if size > 0 {
        size := size - 1;
      }
    }

    /** `clear`: no elements, same capacity. */
    method Clear()
      requires Valid()
      modifies this
      ensures Valid() && Elements() == [] && capacity == old(capacity) && arr == old(arr)
    {
      size := 0;
    }

    /** `size()`. */
    function Size(): (n: nat)
      reads this, arr
      requires Valid()
      ensures n == |Elements()|
    {
      size
    }

    /** `operator[] const`: the element at a valid index. */
    function Get(i: nat): (x: T)
      reads this, arr
      requires Valid() && i < size
      ensures x == Elements()[i]
    {
      arr[i]
    }

    /** `operator[]` used for assignment: replaces one element. */
    method Set(i: nat, x: T)
      requires Valid() && i < size
      modifies arr
      ensures Valid() && Elements() == old(Elements())[i := x]
    {
      arr[i] := x;
    }

    /** `begin()`: an iterator at the first slot. */
    method Begin() returns (it: VectorIterator<T>)
      requires Valid()
      ensures fresh(it) && it.buf == arr && it.pos == 0
    {
      it := new VectorIterator(arr, 0);
    }

    /** `end()`: an iterator one past the last element. */
    method End() returns (it: VectorIterator<T>)
      requires Valid()
      ensures fresh(it) && it.buf == arr && it.pos == size
    {
      it := new VectorIterator(arr, size);
    }
  }

  // ---------------------------------------------------------------- the iterator

  /** `VectorIterator`: a position in a buffer, as the buffer and an offset. */
  class VectorIterator<T> {
    const buf: array<T>
    var pos: int

    constructor (buf: array<T>, pos: int)
      ensures this.buf == buf && this.pos == pos
    {
      this.buf := buf;
      this.pos := pos;
    }

    /** Pre-increment. */
    method Increment()
      modifies this
      ensures pos == old(pos) + 1
    {
      pos := pos + 1;
    }

    /** Post-increment: moves on, returns a copy at the old position. */
    method PostIncrement() returns (copy: VectorIterator<T>)
      modifies this
      ensures fresh(copy) && copy.buf == buf && copy.pos == old(pos) && pos == old(pos) + 1
    {
      copy := new VectorIterator(buf, pos);
      pos := pos + 1;
    }

    /** Pre-decrement. */
    method Decrement()
      modifies this
      ensures pos == old(pos) - 1
    {
      pos := pos - 1;
    }

    /** Post-decrement: moves back, returns a copy at the old position. */
    method PostDecrement() returns (copy: VectorIterator<T>)
      modifies this
      ensures fresh(copy) && copy.buf == buf && copy.pos == old(pos) && pos == old(pos) - 1
    {
      copy := new VectorIterator(buf, pos);
      pos := pos - 1;
    }

    /** `it[i]`: the slot i past the position. */
    function At(i: nat): (x: T)
      reads this, buf
      requires 0 <= pos + i < buf.Length
      ensures x == buf[pos + i]
    {
      buf[pos + i]
    }

    /** `*it`. */
    function Deref(): (x: T)
      reads this, buf
      requires 0 <= pos < buf.Length
      ensures x == At(0)
    {
      buf[pos]
    }

    /** `==`: the same address, that is the same buffer at the same offset. */
    function Equals(other: VectorIterator<T>): (r: bool)
      reads this, other
      ensures r <==> buf == other.buf && pos == other.pos
    {
      buf == other.buf && pos == other.pos
    }
  }

  /** The range-for over a vector: from `begin()` with `++` until `end()`,
      reading `*it`, visits the elements in order. */
  method Traverse<T(0)>(v: Vector<T>) returns (visited: seq<T>)
    requires v.Valid()
    ensures visited == v.Elements()
  {
    var it := v.Begin();
    var last := v.End();
    visited := [];
    while !it.Equals(last)
      invariant it.buf == v.arr && last.buf == v.arr && last.pos == v.size
      invariant 0 <= it.pos <= v.size && visited == v.arr[..it.pos]
      decreases v.size - it.pos
    {
      visited := visited + [it.Deref()];
      it.Increment();
    }
  }
}
