/** The growable slot array of slots.c. */
module SlotArrays {
  import opened Wrappers
  import opened SlotWords
  import opened SlotGrowth

  class Slots {
    var size: nat
    var capacity: nat
    var data: array<Word>
    ghost var appended: nat
    ghost var copied: nat

    ghost function Shape(): Rep
      reads this
    {
      Rep(size, capacity, appended, copied)
    }

    ghost predicate Valid()
      reads this
    {
      data.Length == capacity && Paid(Shape())
    }

    ghost function Contents(): (s: seq<Word>)
      requires Valid()
      reads this, data
      ensures |s| == size
    {
      data[..size]
    }

    /** slots_init. */
    constructor ()
      ensures Valid() && fresh(data) && Contents() == [] && Shape() == EMPTY && capacity == 10
    {
      size := 0;
      capacity := SLOTS_INITIAL_CAPACITY;
      data := new Word[SLOTS_INITIAL_CAPACITY];
      appended, copied := 0, 0;
      new;
      EmptyPaid();
    }

    /** Moves the elements into a new block of `newCapacity` words. */
    method Resize(newCapacity: nat)
      requires data.Length == capacity && size <= newCapacity && size <= capacity
      modifies this
      ensures size == old(size) && fresh(data) && data.Length == capacity == newCapacity
      ensures data[..size] == old(data[..size]) && appended == old(appended) && copied == old(copied) + size
    {
      var block := new Word[newCapacity];
      var i := 0;
      while i != size
        invariant i <= size && forall j :: 0 <= j < i ==> block[j] == data[j]
        invariant copied == old(copied) + i
        modifies block, `copied
        decreases size - i
      {
        block[i] := data[i];
        copied := copied + 1;
        i := i + 1;
      }
      capacity := newCapacity;
      data := block;
    }

    /** slots_double_capacity_if_full. */
    method DoubleCapacityIfFull()
      requires Valid()
      modifies this
      ensures Valid() && Contents() == old(Contents()) && size < capacity
      ensures Shape() == Doubled(old(Shape()))
      ensures capacity == if size == old(capacity) then 2 * old(capacity) else old(capacity)
      ensures data == old(data) || fresh(data)
    {
      AppendedPaid(Shape());
      if size >= capacity {
        Resize(capacity * 2);
      }
    }

    /** slots_append. */
    method Append(value: Word)
      requires Valid()
      modifies this, data
      ensures Valid() && Contents() == old(Contents()) + [value]
      ensures Shape() == Appended(old(Shape()))
      ensures data == old(data) || fresh(data)
    {
      AppendedPaid(Shape());
      DoubleCapacityIfFull();
      data[size] := value;
      size := size + 1;
      appended := appended + 1;
    }

    /** slots_get: a read may first halve the block; None is the out-of-bounds exit. */
    method Get(index: nat) returns (r: Option<Word>)
      requires Valid()
      modifies this
      ensures Valid() && Contents() == old(Contents())
      ensures Shape() == Halved(old(Shape()))
      ensures capacity ==
        if old(capacity) != 10 && 10 * size <= 3 * old(capacity) then old(capacity) / 2 else old(capacity)
      ensures data == old(data) || fresh(data)
      ensures r == if index < size then Some(Contents()[index]) else None
    {
      HalvedPaid(Shape());
      CapacityFacts(capacity);
      if ShouldHalve(size, capacity) {
        Resize(capacity / 2);
      }
      if index >= size {
        return None;
      }
      return Some(data[index]);
    }

    /** slots_set. */
    method Set(index: nat, value: Word)
      requires Valid()
      modifies this, data
      ensures Valid() && Contents() == SetAt(old(Contents()), index, value)
      ensures Shape() == Extended(old(Shape()), index)
      ensures data == old(data) || fresh(data)
    {
      while index >= size
        invariant Valid()
        invariant data == old(data) || fresh(data)
        invariant old(size) <= size && (size <= old(size) || size <= index + 1)
        invariant Contents() == old(Contents()) + seq(size - old(size), _ => NIL)
        invariant Extended(Shape(), index) == Extended(old(Shape()), index)
        decreases index + 1 - size
      {
        Append(0);
      }
      data[index] := value;
    }

    /** The direct assignment to `slots.size` in RET. */
    method Truncate(n: nat)
      requires Valid() && n <= size
      modifies this
      ensures Valid() && Contents() == old(Contents())[..n] && data == old(data)
      ensures Shape() == Truncated(old(Shape()), n)
    {
      size := n;
    }
  }
}
