// The growable vector of temp.cpp: a heap buffer `_MY_PTR` of capacity
// `_MY_RES` whose first `_MY_SIZE` slots hold the elements.

module VectorSpec {
  /** The capacity `_Tidy_init` allocates, and the slack added on every reallocation. */
  const InitialCapacity: nat := 10
  const Growth: nat := 10

  /** `s` without its element at index `i`. */
  function Removed<T>(s: seq<T>, i: nat): (r: seq<T>)
    requires i < |s|
    ensures |r| == |s| - 1
    ensures forall k :: 0 <= k < i ==> r[k] == s[k]
    ensures forall k :: i <= k < |r| ==> r[k] == s[k + 1]
  {
    s[..i] + s[i + 1..]
  }

  /** `s` with `v` placed at index `i`, later elements moving one to the right. */
  function Inserted<T>(s: seq<T>, i: nat, v: T): (r: seq<T>)
    requires i <= |s|
    ensures |r| == |s| + 1 && r[i] == v
    ensures forall k :: 0 <= k < i ==> r[k] == s[k]
    ensures forall k :: i < k < |r| ==> r[k] == s[k - 1]
  {
    s[..i] + [v] + s[i..]
  }

  /** The elements `subset(start, end)` copies: those from `start` up to `end`, or none. */
  function Slice<T>(s: seq<T>, start: nat, end: nat): (r: seq<T>)
    requires start <= |s| && end <= |s|
    ensures |r| == if start < end then end - start else 0
    ensures forall k :: 0 <= k < |r| ==> r[k] == s[start + k]
  {
    if start < end then s[start..end] else []
  }

  /** The capacity after storing `n` elements into a buffer of capacity `cap`. */
  function CapacityFor(cap: nat, n: nat): (r: nat)
    ensures r > n
    ensures cap > n ==> r == cap
  {
    if cap > n then cap else n + Growth
  }

  /** Removing what was just inserted gives back the original elements. */
  lemma RemoveInserted<T>(s: seq<T>, i: nat, v: T)
    requires i <= |s|
    ensures Removed(Inserted(s, i, v), i) == s
  {
    var r := Removed(Inserted(s, i, v), i);
    assert |r| == |s|;
    forall k | 0 <= k < |s| ensures r[k] == s[k] {
    }
  }

  /** Inserting the element that was removed, at the same place, gives back the original. */
  lemma InsertRemoved<T>(s: seq<T>, i: nat)
    requires i < |s|
    ensures Inserted(Removed(s, i), i, s[i]) == s
  {
    var r := Inserted(Removed(s, i), i, s[i]);
    assert |r| == |s|;
    forall k | 0 <= k < |s| ensures r[k] == s[k] {
    }
  }

  /** Appending is inserting at the end. */
  lemma AppendIsInsertAtEnd<T>(s: seq<T>, v: T)
    ensures Inserted(s, |s|, v) == s + [v]
  {
    assert s[..|s|] == s;
  }

  /** The whole range is the whole sequence; an empty or inverted range is empty. */
  lemma SliceBounds<T>(s: seq<T>, start: nat, end: nat)
    requires start <= |s| && end <= |s|
    ensures Slice(s, 0, |s|) == s
    ensures end <= start ==> Slice(s, start, end) == []
  {
  }
}

module Vector {
  import opened VectorSpec

  /** `_NSTD copyinto`: the first `|src|` slots of `dst` receive `src`, the rest are kept. */
  method CopyInto<T>(dst: array<T>, src: seq<T>)
    requires |src| <= dst.Length
    modifies dst
    ensures dst[..|src|] == src
    ensures dst[|src|..] == old(dst[|src|..])
  {
    var i := 0;
    while i < |src|
      invariant 0 <= i <= |src|
      invariant dst[..i] == src[..i]
      invariant dst[|src|..] == old(dst[|src|..])
    {
      dst[i] := src[i];
      i := i + 1;
    }
  }

  class Vector<T(0)> {
    /** `_MY_PTR`; its length is the capacity `_MY_RES`. */
    var buffer: array<T>
    /** `_MY_SIZE`. */
    var size: nat

    ghost predicate Valid()
      reads this
    {
      size <= buffer.Length
    }

    /** The elements, in order. */
    function Contents(): seq<T>
      reads this, buffer
      requires Valid()
    {
      buffer[..size]
    }

    function Capacity(): nat
      reads this
    {
      buffer.Length
    }

    /** The default constructor, which runs `_Tidy_init`: capacity 10, size 0. */
    constructor ()
      ensures Valid() && fresh(buffer)
      ensures Contents() == [] && Capacity() == InitialCapacity
    {
      buffer := new T[InitialCapacity];
      size := 0;
    }

    /** The constructors from an initializer list or a start address and a count: `_Tidy_init`, then `_Construct_contents`. */
    constructor FromElements(elements: seq<T>)
      ensures Valid() && fresh(buffer)
      ensures Contents() == elements && Capacity() == CapacityFor(InitialCapacity, |elements|)
    {
      buffer := new T[InitialCapacity];
      size := 0;
      new;
      ConstructContents(elements);
    }

    /** The copy constructor: `_Tidy_init`, then the other vector's elements. */
    constructor Copy(other: Vector<T>)
      requires other.Valid()
      ensures Valid() && fresh(buffer)
      ensures Contents() == other.Contents() && Capacity() == CapacityFor(InitialCapacity, other.size)
    {
      buffer := new T[InitialCapacity];
      size := 0;
      new;
      ConstructContents(other.Contents());
    }

    /** `operator=`: a vector assigned to itself is left alone; otherwise it takes the other's elements. */
    method AssignFrom(other: Vector<T>)
      requires Valid() && other.Valid()
      modifies this, buffer
      ensures Valid() && Contents() == old(other.Contents())
      ensures other == this ==> buffer == old(buffer) && size == old(size)
    {
      if other != this {
        ConstructContents(other.Contents());
      }
    }

    /** `_Construct_contents(start, n)`: the old elements are replaced by the `n` given ones; the buffer is reallocated to `n + 10` unless its capacity exceeds `n`. */
    method ConstructContents(elements: seq<T>)
      requires Valid()
      modifies this, buffer
      ensures Valid() && if old(buffer.Length) > |elements| then buffer == old(buffer) else fresh(buffer)
      ensures Contents() == elements
      ensures Capacity() == CapacityFor(old(Capacity()), |elements|)
    {
      if buffer.Length > |elements| {
        CopyInto(buffer, elements);
        size := |elements|;
        return;
      }
      var newArray := new T[|elements| + Growth];
      buffer := newArray;
      CopyInto(buffer, elements);
      size := |elements|;
    }

    /** `append`: the value goes to index `size`; a full buffer is first reallocated to `size + 10` with its elements kept. */
    method Append(v: T)
      requires Valid()
      modifies this, buffer
      ensures Valid() && if old(buffer.Length) > old(size) then buffer == old(buffer) else fresh(buffer)
      ensures Contents() == old(Contents()) + [v]
      ensures Capacity() == CapacityFor(old(Capacity()), old(size))
    {
      if buffer.Length > size {
        buffer[size] := v;
        size := size + 1;
        return;
      }
      var newArray := new T[size + Growth];
      CopyInto(newArray, buffer[..size]);
      buffer := newArray;
      buffer[size] := v;
      size := size + 1;
    }

    /** `pop()`: the size shrinks by one and the buffer is left as it is. */
    method Pop()
      requires Valid() && size > 0
      modifies this
      ensures Valid() && buffer == old(buffer) && unchanged(buffer)
      ensures Contents() == old(Contents())[..old(size) - 1]
    {
      size := size - 1;
    }

    /** `pop(index)`: later elements shift one to the left over the removed one. An index past the end copies nothing but still shrinks the size, dropping the last element. */
    method PopAt(index: nat)
      requires Valid() && size > 0
      modifies buffer, this`size
      ensures Valid() && buffer == old(buffer)
      ensures index < old(size) ==> Contents() == Removed(old(Contents()), index)
      ensures index >= old(size) ==> Contents() == old(Contents())[..old(size) - 1]
    {
      ghost var s := buffer[..size];
      var j, into := 0, 0;
      while j < size
        invariant 0 <= j <= size == |s| && into == (if index < j then j - 1 else j)
        invariant forall k :: 0 <= k < into ==> buffer[k] == s[if index <= k then k + 1 else k]
        invariant forall k :: j <= k < size ==> buffer[k] == s[k]
      {
        if j == index {
          j := j + 1;
          continue;
        }
        buffer[into] := buffer[j];
        j, into := j + 1, into + 1;
      }
      size := size - 1;
      if index < |s| {
        assert buffer[..size] == Removed(s, index);
      } else {
        assert buffer[..size] == s[..size];
      }
    }

    /** The growth step of `insert`: a full buffer is reallocated to `size + 10`, keeping the elements. */
    method GrowIfFull()
      requires Valid()
      modifies this`buffer
      ensures Valid() && size < buffer.Length && Contents() == old(Contents())
      ensures if old(buffer.Length) > size then buffer == old(buffer) else fresh(buffer)
      ensures Capacity() == CapacityFor(old(Capacity()), size)
    {
      if buffer.Length <= size {
        var newArray := new T[size + Growth];
        CopyInto(newArray, buffer[..size]);
        buffer := newArray;
      }
    }

    /** `insert(pos, value)` with the position already resolved: a full buffer grows by 10, then elements from `pos` on shift right and the value lands at `pos`. */
    method Insert(pos: nat, v: T)
      requires Valid() && pos <= size
      modifies this, buffer
      ensures Valid() && if old(buffer.Length) > old(size) then buffer == old(buffer) else fresh(buffer)
      ensures Contents() == Inserted(old(Contents()), pos, v)
      ensures Capacity() == CapacityFor(old(Capacity()), old(size))
    {
      ghost var s := buffer[..size];
      GrowIfFull();
      ghost var grown := buffer;
      var i := size;
      while i != pos
        invariant pos <= i <= size == |s| && size < buffer.Length && buffer == grown
        invariant forall k :: 0 <= k < i ==> buffer[k] == s[k]
        invariant forall k :: i < k <= size ==> buffer[k] == s[k - 1]
        decreases i
      {
        buffer[i] := buffer[i - 1];
        i := i - 1;
      }
      buffer[i] := v;
      size := size + 1;
      assert buffer[..size] == Inserted(s, pos, v);
    }

    /** `assign(index, value)`: at `size` it appends, past `size` it does nothing, otherwise it overwrites. */
    method Assign(index: nat, v: T)
      requires Valid()
      modifies this, buffer
      ensures Valid()
      ensures index == old(size) ==> Contents() == old(Contents()) + [v]
      ensures index > old(size) ==> Contents() == old(Contents()) && buffer == old(buffer)
      ensures index < old(size) ==> Contents() == old(Contents())[index := v] && buffer == old(buffer)
    {
      if index == size {
        Append(v);
        return;
      } else if index > size {
        return;
      }
      buffer[index] := v;
    }

    /** `operator+`: a fresh vector holding this vector's elements, then the right operand's. */
    method Plus(right: Vector<T>) returns (total: Vector<T>)
      requires Valid() && right.Valid()
      ensures fresh(total) && fresh(total.buffer) && total.Valid()
      ensures total.Contents() == Contents() + right.Contents()
    {
      total := new Vector();
      var i := 0;
      while i < size
        invariant 0 <= i <= size
        invariant fresh(total) && fresh(total.buffer) && total.Valid()
        invariant total.Contents() == buffer[..i]
      {
        total.Append(buffer[i]);
        i := i + 1;
      }
      var k := 0;
      while k < right.size
        invariant 0 <= k <= right.size
        invariant fresh(total) && fresh(total.buffer) && total.Valid()
        invariant total.Contents() == Contents() + right.buffer[..k]
      {
        total.Append(right.buffer[k]);
        k := k + 1;
      }
    }

    /** `subset(start, end)` with both bounds already resolved: a fresh vector of the elements from `start` up to `end`. */
    method Subset(start: nat, end: nat) returns (part: Vector<T>)
      requires Valid() && start <= size && end <= size
      ensures fresh(part) && fresh(part.buffer) && part.Valid()
      ensures part.Contents() == Slice(Contents(), start, end)
    {
      part := new Vector();
      var i := start;
      while i < end
        invariant start <= i <= (if start < end then end else start)
        invariant fresh(part) && fresh(part.buffer) && part.Valid()
        invariant part.Contents() == buffer[start..i]
      {
        part.Append(buffer[i]);
        i := i + 1;
      }
    }

    /** `to_array`: a fresh array with exactly the elements. */
    method ToArray() returns (copy: array<T>)
      requires Valid()
      ensures fresh(copy) && copy[..] == Contents()
    {
      copy := new T[size];
      var i := 0;
      while i < size
        invariant 0 <= i <= size
        invariant copy[..i] == buffer[..i]
      {
        copy[i] := buffer[i];
        i := i + 1;
      }
    }

    /** `index(i)` with the index already resolved. */
    method Index(i: nat) returns (v: T)
      requires Valid() && i < size
      ensures v == Contents()[i]
    {
      v := buffer[i];
    }

    /** `clear`: the size drops to zero and the buffer is kept. */
    method Clear()
      requires Valid()
      modifies this`size
      ensures Valid() && Contents() == [] && Capacity() == old(Capacity())
    {
      size := 0;
    }
  }

  /** Insert then `pop(pos)` leaves a vector with its former elements. */
  method InsertThenPop<T(0)>(v: Vector<T>, pos: nat, x: T)
    requires v.Valid() && pos <= v.size
    modifies v, v.buffer
    ensures v.Valid() && v.Contents() == old(v.Contents())
  {
    ghost var s := v.Contents();
    v.Insert(pos, x);
    v.PopAt(pos);
    RemoveInserted(s, pos, x);
  }
}
