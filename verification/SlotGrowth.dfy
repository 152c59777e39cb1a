/** How the slot array's capacity follows its size, and what the copying costs in total. */
module SlotGrowth {
  import opened Bits

  const SLOTS_INITIAL_CAPACITY := 10

  /** Size and capacity, with two counts kept only for the proof: elements ever appended and
      elements ever copied by a resize. */
  datatype Rep = Rep(size: nat, capacity: nat, appended: nat, copied: nat)

  const EMPTY := Rep(0, SLOTS_INITIAL_CAPACITY, 0, 0)

  /** The test of slots_get. The capacity is 10 * 2^k, so 0.6 times its half is the exact whole
      number 3 * 2^k also in floating point. */
  predicate ShouldHalve(size: nat, capacity: nat) {
    capacity != SLOTS_INITIAL_CAPACITY && 6 * (capacity / 2) >= 10 * size
  }

  function Doubled(r: Rep): Rep {
    if r.size >= r.capacity then r.(capacity := r.capacity * 2, copied := r.copied + r.size) else r
  }

  function Appended(r: Rep): Rep {
    var d := Doubled(r);
    d.(size := d.size + 1, appended := d.appended + 1)
  }

  function Halved(r: Rep): Rep {
    if ShouldHalve(r.size, r.capacity)
    then r.(capacity := r.capacity / 2, copied := r.copied + r.size) else r
  }

  /** A write past the end appends zeros up to it first. */
  function Extended(r: Rep, index: nat): Rep
    decreases index + 1 - r.size
  {
    if index >= r.size then Extended(Appended(r), index) else r
  }

  function Truncated(r: Rep, n: nat): Rep
    requires n <= r.size
  {
    r.(size := n)
  }

  // ---- The invariant ----

  ghost predicate IsCapacity(c: nat) {
    exists k: nat :: c == SLOTS_INITIAL_CAPACITY * Pow2(k)
  }

  /** The surplus of size over 60% of the capacity, plus the capacity itself, pay for copying. */
  ghost function Potential(r: Rep): nat {
    (if 20 * r.size > 12 * r.capacity then 20 * r.size - 12 * r.capacity else 0) + 3 * r.capacity
  }

  ghost predicate Paid(r: Rep) {
    && IsCapacity(r.capacity) && r.size <= r.capacity
    && 5 * r.copied + Potential(r) <= 20 * r.appended + 30
  }

  lemma CapacityFacts(c: nat)
    requires IsCapacity(c)
    ensures c >= 10 && IsCapacity(2 * c)
    ensures c != SLOTS_INITIAL_CAPACITY ==> c % 20 == 0 && IsCapacity(c / 2)
  {
    var k: nat :| c == SLOTS_INITIAL_CAPACITY * Pow2(k);
    assert 2 * c == SLOTS_INITIAL_CAPACITY * Pow2(k + 1);
    if k > 0 {
      assert c == 20 * Pow2(k - 1);
      assert c / 2 == SLOTS_INITIAL_CAPACITY * Pow2(k - 1);
    }
  }

  lemma EmptyPaid()
    ensures Paid(EMPTY)
  {
    assert 10 == SLOTS_INITIAL_CAPACITY * Pow2(0);
  }

  lemma AppendedPaid(r: Rep)
    requires Paid(r)
    ensures Paid(Doubled(r)) && Doubled(r).size < Doubled(r).capacity
    ensures Paid(Appended(r))
  {
    CapacityFacts(r.capacity);
  }

  /** Halving always leaves room for what is stored. */
  lemma HalvedPaid(r: Rep)
    requires Paid(r)
    ensures Paid(Halved(r)) && r.size <= Halved(r).capacity
  {
    CapacityFacts(r.capacity);
  }

  lemma {:induction false} ExtendedPaid(r: Rep, index: nat)
    requires Paid(r)
    ensures Paid(Extended(r, index)) && index < Extended(r, index).size
    ensures Extended(r, index).size == if index < r.size then r.size else index + 1
    decreases index + 1 - r.size
  {
    if index >= r.size {
      AppendedPaid(r);
      ExtendedPaid(Appended(r), index);
    }
  }

  // ---- Whole runs ----

  /** The operations the virtual machine performs on the slot array. */
  datatype Op = Append | Get | Set(index: nat) | Truncate(n: nat)

  function Apply(r: Rep, op: Op): Rep {
    match op
    case Append => Appended(r)
    case Get => Halved(r)
    case Set(index) => Extended(r, index)
    case Truncate(n) => if n <= r.size then Truncated(r, n) else r
  }

  function ApplyAll(r: Rep, ops: seq<Op>): Rep
    decreases |ops|
  {
    if ops == [] then r else ApplyAll(Apply(r, ops[0]), ops[1..])
  }

  lemma ApplyPaid(r: Rep, op: Op)
    requires Paid(r)
    ensures Paid(Apply(r, op))
  {
    match op
    case Append => AppendedPaid(r);
    case Get => HalvedPaid(r);
    case Set(index) => ExtendedPaid(r, index);
    case Truncate(n) =>
  }

  lemma {:induction false} RunPaid(r: Rep, ops: seq<Op>)
    requires Paid(r)
    ensures Paid(ApplyAll(r, ops))
    decreases |ops|
  {
    if ops != [] {
      ApplyPaid(r, ops[0]);
      RunPaid(Apply(r, ops[0]), ops[1..]);
    }
  }

  /** Amortised cost: over any run from the empty array, at most four elements are copied for
      each one appended, and the capacity is always 10 * 2^k and never below the size. */
  lemma AmortisedCopying(ops: seq<Op>)
    ensures var r := ApplyAll(EMPTY, ops);
      && r.copied <= 4 * r.appended && r.size <= r.capacity
      && exists k: nat :: r.capacity == 10 * Pow2(k)
  {
    EmptyPaid();
    RunPaid(EMPTY, ops);
    CapacityFacts(ApplyAll(EMPTY, ops).capacity);
  }
}
