/** A vector with inline slots: objects built, moved and destroyed in place, on two kinds of
    storage. A block checks every access: building needs a raw slot, moving, reading and destroying
    a live object, and freeing an empty block that has not been freed. */
module SmallVectors {
  import opened Options

  /** A live object holds a value, or nothing in particular once it has been moved from. */
  datatype Slot<T> = Raw | Live(value: Option<T>)

  class Block<T> {
    const capacity: nat
    var slots: seq<Slot<T>>
    var freed: bool

    constructor (capacity: nat)
      ensures this.capacity == capacity && slots == seq(capacity, _ => Raw) && !freed
    {
      this.capacity := capacity;
      slots, freed := seq(capacity, _ => Raw), false;
    }

    method Construct(i: nat, value: Option<T>)
      requires !freed && i < |slots| && slots[i].Raw?
      modifies this`slots
      ensures slots == old(slots)[i := Live(value)]
    {
      slots := slots[i := Live(value)];
    }

    method Destroy(i: nat)
      requires !freed && i < |slots| && slots[i].Live?
      modifies this`slots
      ensures slots == old(slots)[i := Raw]
    {
      slots := slots[i := Raw];
    }

    /** What moving out of a live object yields; the object stays alive. */
    method MoveOut(i: nat) returns (value: Option<T>)
      requires !freed && i < |slots| && slots[i].Live?
      modifies this`slots
      ensures value == old(slots)[i].value && slots == old(slots)[i := Live(None)]
    {
      value := slots[i].value;
      slots := slots[i := Live(None)];
    }

    /** Move assignment between live objects. Onto itself it keeps the value only for types that
        promise so. */
    method MoveAssign(dst: nat, src: nat, selfMoveKeeps: bool)
      requires !freed && dst < |slots| && src < |slots| && slots[dst].Live? && slots[src].Live?
      modifies this`slots
      ensures dst != src ==> slots == old(slots)[src := Live(None)][dst := old(slots)[src]]
      ensures dst == src ==> slots == if selfMoveKeeps then old(slots) else old(slots)[dst := Live(None)]
    {
      if dst != src {
        var value := MoveOut(src);
        slots := slots[dst := Live(value)];
      } else if !selfMoveKeeps {
        slots := slots[dst := Live(None)];
      }
    }

    method Deallocate(n: nat)
      requires !freed && n == capacity == |slots| && forall i :: 0 <= i < |slots| ==> slots[i].Raw?
      modifies this`freed
      ensures freed
    {
      freed := true;
    }
  }

  // ---------------------------------------------------------------- runs of slots

  /** n objects with these values, then raw slots up to the capacity. */
  function Laid<T>(values: seq<Option<T>>, capacity: nat): seq<Slot<T>>
    requires |values| <= capacity
  {
    seq(capacity, i requires 0 <= i < capacity => if i < |values| then Live(values[i]) else Raw)
  }

  /** Slots in [from, to) raw, the rest as before. */
  function Cleared<T>(slots: seq<Slot<T>>, from: nat, to: nat): seq<Slot<T>> {
    seq(|slots|, i requires 0 <= i < |slots| => if from <= i < to then Raw else slots[i])
  }

  /** The first n slots of one run over another. */
  function Overlaid<T>(top: seq<Slot<T>>, bottom: seq<Slot<T>>, n: nat): seq<Slot<T>> {
    seq(|bottom|, i requires 0 <= i < |bottom| => if i < n && i < |top| then top[i] else bottom[i])
  }

  method DestroyRange<T>(b: Block<T>, from: nat, to: nat)
    requires !b.freed && from <= to <= |b.slots| && forall i :: from <= i < to ==> b.slots[i].Live?
    modifies b`slots
    ensures b.slots == Cleared(old(b.slots), from, to)
  {
    var i := from;
    while i < to
      invariant from <= i <= to && b.slots == Cleared(old(b.slots), from, i)
    {
      b.Destroy(i);
      i := i + 1;
    }
  }

  /** Builds copies of one value in [from, to). */
  method FillRange<T>(b: Block<T>, from: nat, to: nat, value: T)
    requires !b.freed && from <= to <= |b.slots| && forall i :: from <= i < to ==> b.slots[i].Raw?
    modifies b`slots
    ensures |b.slots| == |old(b.slots)|
    ensures forall i :: 0 <= i < |b.slots| ==> b.slots[i] == if from <= i < to then Live(Some(value)) else old(b.slots)[i]
  {
    var i := from;
    while i < to
      invariant from <= i <= to && |b.slots| == |old(b.slots)|
      invariant forall k :: 0 <= k < |b.slots| ==> b.slots[k] == if from <= k < i then Live(Some(value)) else old(b.slots)[k]
    {
      b.Construct(i, Some(value));
      i := i + 1;
    }
  }

  /** Moves n objects into raw slots elsewhere and destroys what is left of them. */
  method Relocate<T>(src: Block<T>, dst: Block<T>, n: nat)
    requires src != dst && !src.freed && !dst.freed && n <= |src.slots| && n <= |dst.slots|
    requires forall i :: 0 <= i < n ==> src.slots[i].Live? && dst.slots[i].Raw?
    modifies src`slots, dst`slots
    ensures src.slots == Cleared(old(src.slots), 0, n)
    ensures dst.slots == Overlaid(old(src.slots), old(dst.slots), n)
    ensures forall i :: 0 <= i < n ==> src.slots[i].Raw? && dst.slots[i] == old(src.slots)[i]
    ensures forall i :: n <= i < |src.slots| ==> src.slots[i] == old(src.slots)[i]
    ensures forall i :: n <= i < |dst.slots| ==> dst.slots[i] == old(dst.slots)[i]
  {
    var i := 0;
    while i < n
      invariant i <= n && |src.slots| == |old(src.slots)| && |dst.slots| == |old(dst.slots)|
      invariant forall k :: 0 <= k < |src.slots| ==> src.slots[k] == if k < i then Raw else old(src.slots)[k]
      invariant forall k :: 0 <= k < |dst.slots| ==> dst.slots[k] == if k < i then old(src.slots)[k] else old(dst.slots)[k]
    {
      RelocateOne(src, dst, i);
      i := i + 1;
    }
  }

  method RelocateOne<T>(src: Block<T>, dst: Block<T>, i: nat)
    requires src != dst && !src.freed && !dst.freed && i < |src.slots| && i < |dst.slots|
    requires src.slots[i].Live? && dst.slots[i].Raw?
    modifies src`slots, dst`slots
    ensures src.slots == old(src.slots)[i := Raw] && dst.slots == old(dst.slots)[i := old(src.slots)[i]]
  {
    var value := src.MoveOut(i);
    dst.Construct(i, value);
    src.Destroy(i);
  }

  /** Moves n objects into raw slots elsewhere; what is left of them stays alive. */
  method MoveRange<T>(src: Block<T>, dst: Block<T>, n: nat)
    requires src != dst && !src.freed && !dst.freed && n <= |src.slots| && n <= |dst.slots|
    requires forall i :: 0 <= i < n ==> src.slots[i].Live? && dst.slots[i].Raw?
    modifies src`slots, dst`slots
    ensures |src.slots| == |old(src.slots)|
    ensures forall i :: 0 <= i < |src.slots| ==> src.slots[i] == if i < n then Live(None) else old(src.slots)[i]
    ensures dst.slots == Overlaid(old(src.slots), old(dst.slots), n)
  {
    var i := 0;
    while i < n
      invariant i <= n && |src.slots| == |old(src.slots)|
      invariant forall k :: 0 <= k < |src.slots| ==> src.slots[k] == if k < i then Live(None) else old(src.slots)[k]
      invariant |dst.slots| == |old(dst.slots)|
      invariant forall k :: 0 <= k < |dst.slots| ==> dst.slots[k] == if k < i then old(src.slots)[k] else old(dst.slots)[k]
    {
      var value := src.MoveOut(i);
      dst.Construct(i, value);
      i := i + 1;
    }
  }

  method CopyRange<T>(src: Block<T>, dst: Block<T>, n: nat)
    requires src != dst && !src.freed && !dst.freed && n <= |src.slots| && n <= |dst.slots|
    requires forall i :: 0 <= i < n ==> src.slots[i].Live? && dst.slots[i].Raw?
    modifies dst`slots
    ensures dst.slots == Overlaid(src.slots, old(dst.slots), n)
  {
    var i := 0;
    while i < n
      invariant i <= n && |dst.slots| == |old(dst.slots)|
      invariant forall k :: 0 <= k < |dst.slots| ==> dst.slots[k] == if k < i then src.slots[k] else old(dst.slots)[k]
    {
      dst.Construct(i, src.slots[i].value);
      i := i + 1;
    }
  }

  function ValueOf<T>(s: Slot<T>): Option<T> {
    if s.Live? then s.value else None
  }

  function Values<T>(slots: seq<Slot<T>>, n: nat): seq<Option<T>> {
    seq(if n <= |slots| then n else |slots|, i requires 0 <= i < |slots| => ValueOf(slots[i]))
  }

  lemma ValuesOfLaid<T>(values: seq<Option<T>>, capacity: nat)
    requires |values| <= capacity
    ensures Values(Laid(values, capacity), |values|) == values
  {
  }

  function Copies<T>(n: nat, value: T): seq<Option<T>> {
    seq(n, _ => Some(value))
  }

  class SmallVector<T> {
    const N: nat
    const inlineBlock: Block<T>
    var data: Block<T>
    var size: nat
    var capacity: nat

    /** The sequence the vector stands for. */
    ghost function Contents(): seq<Option<T>>
      reads this, data
    {
      Values(data.slots, size)
    }

    /** Exactly the slots below the size hold objects; the inline block is empty while the data is
        elsewhere. */
    ghost predicate Valid()
      reads this, data, inlineBlock
    {
      && N >= 1 && inlineBlock.capacity == N && !inlineBlock.freed && !data.freed
      && capacity == data.capacity >= N && size <= capacity
      && |data.slots| == capacity && data.slots == Laid(Contents(), capacity)
      && (data != inlineBlock ==> inlineBlock.slots == Laid([], N) && capacity > N)
    }

    constructor (n: nat)
      requires n >= 1
      ensures Valid() && N == n && Contents() == [] && data == inlineBlock && fresh(inlineBlock)
    {
      var b := new Block(n);
      N, inlineBlock, data, size, capacity := n, b, b, 0, n;
      new;
      assert data.slots == Laid([], n);
    }

    /** Frees the data's block unless it is the inline one. */
    method ReleaseHeapIfAny()
      requires inlineBlock.capacity == N && capacity == data.capacity == |data.slots|
      requires data != inlineBlock ==> !data.freed && forall i :: 0 <= i < |data.slots| ==> data.slots[i].Raw?
      modifies data`freed
      ensures data != inlineBlock ==> data.freed
      ensures data == inlineBlock ==> data.freed == old(data.freed)
    {
      if data != inlineBlock {
        data.Deallocate(capacity);
      }
    }

    /** Moves everything to a larger block and frees the old one, if it was on the heap. */
    method Reallocate(requested: nat)
      requires Valid() && requested > capacity
      modifies this, data, inlineBlock
      ensures Valid() && Contents() == old(Contents()) && capacity == requested && fresh(data)
      ensures old(data) != inlineBlock ==> old(data).freed
    {
      ghost var values := Contents();
      var newCapacity := if requested < N then N else requested;
      var block := new Block(newCapacity);
      Relocate(data, block, size);
      ReleaseHeapIfAny();
      data := block;
      capacity := newCapacity;
      assert data.slots == Laid(values, capacity);
      ValuesOfLaid(values, capacity);
    }

    method Reserve(newCapacity: nat)
      requires Valid()
      modifies this, data, inlineBlock
      ensures Valid() && Contents() == old(Contents()) && (data == old(data) || fresh(data))
      ensures capacity == if newCapacity <= old(capacity) then old(capacity) else newCapacity
      ensures data != old(data) && old(data) != inlineBlock ==> old(data).freed
    {
      if newCapacity <= capacity {
        return;
      }
      Reallocate(newCapacity);
    }

    method EmplaceBack(value: T)
      requires Valid()
      modifies this, data, inlineBlock
      ensures Valid() && Contents() == old(Contents()) + [Some(value)]
      ensures capacity == if old(size) == old(capacity) then 2 * old(capacity) else old(capacity)
      ensures if old(size) == old(capacity) then fresh(data) else data == old(data)
      ensures data != old(data) && old(data) != inlineBlock ==> old(data).freed
    {
      if size == capacity {
        Reallocate(capacity * 2);
      }
      Append(Some(value));
    }

    method Append(value: Option<T>)
      requires Valid() && size < capacity
      modifies this`size, data
      ensures Valid() && Contents() == old(Contents()) + [value] && size == old(size) + 1
    {
      ghost var values := Contents() + [value];
      data.Construct(size, value);
      size := size + 1;
      assert data.slots == Laid(values, capacity);
      ValuesOfLaid(values, capacity);
    }

    /** Grows with copies of one value, or destroys the tail. */
    method Resize(newSize: nat, value: T)
      requires Valid()
      modifies this, data, inlineBlock
      ensures Valid() && (data == old(data) || fresh(data))
      ensures capacity == if newSize <= old(capacity) then old(capacity) else newSize
      ensures data != old(data) && old(data) != inlineBlock ==> old(data).freed
      ensures Contents() == if newSize > old(size) then old(Contents()) + Copies(newSize - old(size), value) else old(Contents())[..newSize]
      ensures |Contents()| == newSize && forall i :: old(size) <= i < newSize ==> Contents()[i] == Some(value)
    {
      ghost var values := Contents();
      if newSize > size {
        Reserve(newSize);
        FillRange(data, size, newSize, value);
        values := values + Copies(newSize - size, value);
      } else {
        DestroyRange(data, newSize, size);
        values := values[..newSize];
      }
      size := newSize;
      assert data.slots == Laid(values, capacity);
      ValuesOfLaid(values, capacity);
    }

    method Clear()
      requires Valid()
      modifies this`size, data
      ensures Valid() && Contents() == [] && size == 0
    {
      DestroyRange(data, 0, size);
      size := 0;
      assert data.slots == Laid([], capacity);
    }

    method PopBack()
      requires Valid() && size > 0
      modifies this`size, data
      ensures Valid() && Contents() == old(Contents())[..old(size) - 1]
    {
      ghost var values := Contents()[..size - 1];
      size := size - 1;
      data.Destroy(size);
      assert data.slots == Laid(values, capacity);
      ValuesOfLaid(values, capacity);
    }

    /** Back to the inline block when everything fits there. */
    method ShrinkToFit()
      requires Valid()
      modifies this, data, inlineBlock
      ensures Valid() && Contents() == old(Contents())
      ensures if old(data) != inlineBlock && size <= N then data == inlineBlock && old(data).freed else data == old(data)
    {
      if data == inlineBlock || size > N {
        return;
      }
      ghost var values := Contents();
      var heap := data;
      data := inlineBlock;
      Relocate(heap, data, size);
      heap.Deallocate(capacity);
      capacity := N;
      assert data.slots == Laid(values, capacity);
      ValuesOfLaid(values, capacity);
    }

    /** Moves the tail down over [first, last) and destroys what is left behind. Erasing nothing
        moves every later element onto itself, so the tail survives only if self-move keeps it. */
    method Erase(first: nat, last: nat, selfMoveKeeps: bool)
      requires Valid() && first <= last <= size
      modifies this`size, data
      ensures Valid() && size == old(size) - (last - first)
      ensures Contents() == old(Contents())[..first] +
        if first < last || selfMoveKeeps then old(Contents())[last..] else Nothings(old(size) - last)
    {
      ghost var values := Contents();
      var tail := size - last;
      ShiftDown(first, last, tail, selfMoveKeeps);
      DestroyRange(data, first + tail, size);
      size := size - (last - first);
      values := values[..first] + if first < last || selfMoveKeeps then values[last..] else Nothings(tail);
      assert data.slots == Laid(values, capacity);
      ValuesOfLaid(values, capacity);
    }

    method ShiftDown(first: nat, last: nat, tail: nat, selfMoveKeeps: bool)
      requires Valid() && first <= last <= size && tail == size - last
      modifies data`slots
      ensures |data.slots| == |old(data.slots)|
      ensures forall k :: 0 <= k < size ==> data.slots[k].Live?
      ensures forall k :: size <= k < |data.slots| ==> data.slots[k].Raw?
      ensures forall k :: 0 <= k < first ==> data.slots[k] == old(data.slots)[k]
      ensures forall k :: first <= k < first + tail ==> data.slots[k] == Shifted(old(data.slots), k, last - first, selfMoveKeeps)
    {
      var i := 0;
      while i < tail
        invariant i <= tail && |data.slots| == |old(data.slots)|
        invariant forall k :: 0 <= k < size ==> data.slots[k].Live?
        invariant forall k :: size <= k < |data.slots| ==> data.slots[k].Raw?
        invariant forall k :: 0 <= k < first || last + i <= k < size ==> data.slots[k] == old(data.slots)[k]
        invariant forall k :: first <= k < first + i ==> data.slots[k] == Shifted(old(data.slots), k, last - first, selfMoveKeeps)
      {
        data.MoveAssign(first + i, last + i, selfMoveKeeps);
        i := i + 1;
      }
    }

    /** The destructor: every object is destroyed and a heap block freed. */
    method Dispose()
      requires Valid()
      modifies this, data
      ensures forall i :: 0 <= i < |data.slots| ==> data.slots[i].Raw?
      ensures data == old(data) && (data != inlineBlock ==> data.freed)
    {
      Clear();
      ReleaseHeapIfAny();
    }

    /** Apart from the other vector: no shared block. */
    ghost predicate Separate(other: SmallVector<T>)
      reads this, other
    {
      && data != other.data && data != other.inlineBlock && inlineBlock != other.data && inlineBlock != other.inlineBlock
      && N == other.N
    }

    /** Takes over the other's heap block, or moves its inline elements one by one. */
    method MoveFrom(other: SmallVector<T>)
      requires this != other && Separate(other) && Valid() && other.Valid() && data == inlineBlock && size == 0
      modifies this, data, other, other.data
      ensures Valid() && other.Valid() && Separate(other)
      ensures Contents() == old(other.Contents()) && other.Contents() == []
      ensures old(other.data) != other.inlineBlock ==>
        data == old(other.data) && data.slots == old(other.data.slots) && other.data == other.inlineBlock
    {
      ghost var values := other.Contents();
      if other.data != other.inlineBlock {
        data, size, capacity := other.data, other.size, other.capacity;
        other.data, other.size, other.capacity := other.inlineBlock, 0, N;
      } else {
        MoveRange(other.data, data, other.size);
        size := other.size;
        assert data.slots == Laid(values, capacity);
        ValuesOfLaid(values, capacity);
        other.ClearMoved();
      }
    }

    /** Clear, for elements that may have been moved from. */
    method ClearMoved()
      requires !data.freed && size <= |data.slots| && inlineBlock.capacity == N >= 1 && !inlineBlock.freed
      requires data == inlineBlock && capacity == N == |data.slots|
      requires forall i :: 0 <= i < capacity ==> data.slots[i].Live? == (i < size)
      modifies this`size, data`slots
      ensures Valid() && Contents() == [] && size == 0
    {
      DestroyRange(data, 0, size);
      size := 0;
      assert data.slots == Laid([], capacity);
    }

    method AssignMove(other: SmallVector<T>)
      requires Valid() && other.Valid() && (this != other ==> Separate(other))
      modifies this, data, inlineBlock, other, other.data
      ensures Valid() && other.Valid()
      ensures this == other ==> Contents() == old(Contents()) && data == old(data)
      ensures this != other ==> Contents() == old(other.Contents()) && other.Contents() == []
      ensures this != other && old(data) != inlineBlock ==> old(data).freed
    {
      if this != other {
        Clear();
        ReleaseHeapIfAny();
        data, capacity := inlineBlock, N;
        assert data.slots == Laid([], N);
        MoveFrom(other);
      }
    }

    method AssignCopy(other: SmallVector<T>)
      requires Valid() && other.Valid() && (this != other ==> Separate(other))
      modifies this, data, inlineBlock
      ensures Valid() && other.Valid() && other.Contents() == old(other.Contents())
      ensures Contents() == other.Contents() && (data == old(data) || fresh(data))
      ensures capacity == if old(other.size) <= old(capacity) then old(capacity) else old(other.size)
      ensures data != old(data) && old(data) != inlineBlock ==> old(data).freed
    {
      if this != other {
        Clear();
        Reserve(other.size);
        CopyElements(other);
      }
    }

    method CopyElements(other: SmallVector<T>)
      requires Valid() && other.Valid() && size == 0 && other.size <= capacity && data != other.data
      modifies this`size, data`slots
      ensures Valid() && Contents() == Values(other.data.slots, old(other.size))
    {
      ghost var values := other.Contents();
      CopyRange(other.data, data, other.size);
      size := other.size;
      assert data.slots == Laid(values, capacity);
      ValuesOfLaid(values, capacity);
    }
  }

  function Nothings<T>(n: nat): seq<Option<T>> {
    seq(n, _ => None)
  }

  /** Slot k after its successor by `gap` has been moved onto it. */
  function Shifted<T>(slots: seq<Slot<T>>, k: nat, gap: nat, selfMoveKeeps: bool): Slot<T> {
    if k + gap >= |slots| then Raw else if gap > 0 || selfMoveKeeps then slots[k + gap] else Live(None)
  }
}
