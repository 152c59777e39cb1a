/** The growable context stack of stack.c. */
module ContextStacks {
  import opened Wrappers

  const STACK_INITIAL_CAPACITY := 10

  /** What a call saves of its caller. */
  datatype Context = Context(baseSlot: nat, ip: nat)

  class Stack {
    var top: int
    var capacity: nat
    var data: array<Context>

    ghost predicate Valid()
      reads this
    {
      0 <= top <= capacity == data.Length && 0 < capacity
    }

    ghost function Contents(): (s: seq<Context>)
      requires Valid()
      reads this, data
      ensures |s| == top
    {
      data[..top]
    }

    /** stack_init. */
    constructor ()
      ensures Valid() && fresh(data) && Contents() == [] && capacity == 10
    {
      top := 0;
      capacity := STACK_INITIAL_CAPACITY;
      data := new Context[STACK_INITIAL_CAPACITY];
    }

    /** stack_double_capacity_if_full; realloc keeps the old elements. */
    method DoubleCapacityIfFull()
      requires Valid()
      modifies this
      ensures Valid() && Contents() == old(Contents()) && top < capacity
      ensures capacity == if top == old(capacity) then 2 * old(capacity) else old(capacity)
      ensures data == old(data) || fresh(data)
    {
      if top >= capacity {
        capacity := capacity * 2;
        var old_ := data;
        var block := new Context[capacity];
        forall i | 0 <= i < top {
          block[i] := old_[i];
        }
        data := block;
      }
    }

    method Push(ctx: Context)
      requires Valid()
      modifies this, data
      ensures Valid() && Contents() == old(Contents()) + [ctx]
      ensures data == old(data) || fresh(data)
    {
      DoubleCapacityIfFull();
      data[top] := ctx;
      top := top + 1;
    }

    /** None is the underflow exit. */
    method Pop() returns (r: Option<Context>)
      requires Valid()
      modifies this
      ensures data == old(data)
      ensures old(Contents()) == [] ==> r == None
      ensures old(Contents()) != [] ==>
        Valid() && r == Some(old(Contents())[|old(Contents())| - 1]) &&
        Contents() == old(Contents())[..|old(Contents())| - 1]
    {
      top := top - 1;
      if top < 0 {
        return None;
      }
      return Some(data[top]);
    }
  }
}
