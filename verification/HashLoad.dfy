/** How full the buckets are allowed to get: the bookkeeping behind automatic bucket expansion,
    and the bound on chain lengths that it buys. */
module HashLoad {
  import opened Handles
  import opened Bits

  const CAPACITY_THRESH := 10
  const INITIAL_NUM_BUCKETS := 32
  const INITIAL_NUM_BUCKETS_LOG2 := 5

  /** One entry of the bucket array. */
  datatype Bucket = Bucket(hhHead: Handle?, count: nat, expandMult: nat)

  const EMPTY_BUCKET := Bucket(null, 0, 0)

  function Count(b: Bucket): nat { b.count }

  /** How many threshold steps a bucket has been granted beyond the first, counting a bucket that
      sits exactly at the first threshold as one. */
  ghost function Weight(b: Bucket): nat {
    if b.expandMult == 0 && b.count >= CAPACITY_THRESH then 1 else b.expandMult
  }

  /** The items of a bucket beyond the ideal chain length. */
  ghost function Excess(ideal: nat): Bucket -> nat {
    (b: Bucket) => if b.count > ideal then b.count - ideal else 0
  }

  ghost function Total(f: Bucket -> nat, bs: seq<Bucket>): nat {
    if bs == [] then 0 else f(bs[0]) + Total(f, bs[1..])
  }

  lemma {:induction false} TotalUpdate(f: Bucket -> nat, bs: seq<Bucket>, i: nat, b: Bucket)
    requires i < |bs|
    ensures Total(f, bs[i := b]) == Total(f, bs) - f(bs[i]) + f(b)
    decreases |bs|
  {
    if i == 0 {
      assert bs[i := b][1..] == bs[1..];
    } else {
      assert bs[i := b][1..] == bs[1..][i - 1 := b];
      TotalUpdate(f, bs[1..], i - 1, b);
    }
  }

  lemma {:induction false} TotalSnoc(f: Bucket -> nat, bs: seq<Bucket>, b: Bucket)
    ensures Total(f, bs + [b]) == Total(f, bs) + f(b)
    decreases |bs|
  {
    if bs == [] {
      assert ([] + [b])[1..] == [];
    } else {
      assert (bs + [b])[1..] == bs[1..] + [b];
      TotalSnoc(f, bs[1..], b);
    }
  }

  lemma TotalUpto(f: Bucket -> nat, bs: seq<Bucket>, n: nat)
    requires n < |bs|
    ensures Total(f, bs[..n + 1]) == Total(f, bs[..n]) + f(bs[n])
  {
    hide Total;
    assert bs[..n + 1] == bs[..n] + [bs[n]];
    TotalSnoc(f, bs[..n], bs[n]);
  }

  lemma {:induction false} TotalZero(f: Bucket -> nat, bs: seq<Bucket>)
    requires forall i :: 0 <= i < |bs| ==> f(bs[i]) == 0
    ensures Total(f, bs) == 0
    decreases |bs|
  {
    if bs != [] {
      TotalZero(f, bs[1..]);
    }
  }

  /** `c * f <= d + e * g` in every bucket gives the same over the whole table. */
  lemma {:induction false} TotalBound(f: Bucket -> nat, g: Bucket -> nat, c: nat, d: nat, e: nat, bs: seq<Bucket>)
    requires forall i :: 0 <= i < |bs| ==> c * f(bs[i]) <= d + e * g(bs[i])
    ensures c * Total(f, bs) <= d * |bs| + e * Total(g, bs)
    decreases |bs|
  {
    if bs == [] {
    } else {
      TotalBound(f, g, c, d, e, bs[1..]);
      Distribute(c, f(bs[0]), Total(f, bs[1..]));
      Distribute(e, g(bs[0]), Total(g, bs[1..]));
      Distribute(d, 1, |bs[1..]|);
    }
  }

  lemma Distribute(c: nat, x: nat, y: nat)
    ensures c * (x + y) == c * x + c * y
  {
  }

  // ---- The invariant while expansion is not inhibited ----

  /** Below the bucket's own threshold, or exactly at the first one. */
  ghost predicate WithinThreshold(b: Bucket) {
    b.count < CAPACITY_THRESH * (b.expandMult + 1) || (b.expandMult == 0 && b.count == CAPACITY_THRESH)
  }

  /** No bucket is past its own threshold, and the thresholds handed out fit the bucket array. */
  ghost predicate Balanced(bs: seq<Bucket>, ideal: nat) {
    && (forall i :: 0 <= i < |bs| ==> WithinThreshold(bs[i]))
    && Total(Weight, bs) <= |bs|
    && ideal <= CAPACITY_THRESH
  }

  /** The load bound: at most 19 items per bucket on average, and no chain longer than its own
      multiple of the threshold. */
  lemma LoadBound(bs: seq<Bucket>, ideal: nat)
    requires Balanced(bs, ideal)
    ensures Total(Count, bs) <= 19 * |bs|
    ensures ideal <= CAPACITY_THRESH
    ensures forall i :: 0 <= i < |bs| ==> bs[i].count <= CAPACITY_THRESH * (bs[i].expandMult + 1)
  {
    TotalBound(Count, Weight, 1, 9, 10, bs);
  }

  lemma BalancedInit(bs: seq<Bucket>)
    requires forall i :: 0 <= i < |bs| ==> bs[i] == EMPTY_BUCKET
    ensures Balanced(bs, 0) && Total(Count, bs) == 0
  {
    TotalZero(Weight, bs);
    TotalZero(Count, bs);
  }

  /** An addition that does not reach the bucket's threshold keeps the balance. */
  lemma BalancedAdd(bs: seq<Bucket>, i: nat, b: Bucket, ideal: nat)
    requires Balanced(bs, ideal) && i < |bs|
    requires b.expandMult == bs[i].expandMult && b.count == bs[i].count + 1
    requires b.count < (b.expandMult + 1) * CAPACITY_THRESH
    ensures Balanced(bs[i := b], ideal)
  {
    TotalUpdate(Weight, bs, i, b);
    assert Weight(b) == Weight(bs[i]);
  }

  lemma BalancedDelete(bs: seq<Bucket>, i: nat, b: Bucket, ideal: nat)
    requires Balanced(bs, ideal) && i < |bs|
    requires b.expandMult == bs[i].expandMult && b.count + 1 == bs[i].count
    ensures Balanced(bs[i := b], ideal)
  {
    TotalUpdate(Weight, bs, i, b);
  }

  // ---- What an expansion establishes ----

  /** The multiplier that redistribution leaves on a bucket of `count` items. */
  function MultFor(count: nat, ideal: nat): nat {
    if count > ideal && ideal > 0 then count / ideal else 0
  }

  /** ceil(n / b) is the least chain length that lets b buckets hold n items. */
  ghost predicate IsCeiling(ideal: nat, n: nat, b: nat) {
    n <= ideal * b && (ideal > 0 ==> (ideal - 1) * b < n)
  }

  /** The quotient, plus one for a remainder, is the ceiling. */
  lemma CeilingByDivision(n: nat, b: nat)
    requires 0 < b
    ensures IsCeiling(n / b + if n % b != 0 then 1 else 0, n, b)
  {
    var q, r := QuotientAndRemainder(n, b);
    DivModUnique(n, b, q, r);
  }

  lemma CeilingUpTo(ideal: nat, n: nat, b: nat, c: nat)
    requires IsCeiling(ideal, n, b) && 0 < b && n <= c * b
    ensures ideal <= c
  {
    if ideal > c {
      TimesAtMost(c, ideal - 1, b);
    }
  }

  lemma AtLeastOne(m: nat, d: nat, r: nat)
    requires m * d + r > d > r
    ensures m >= 1
  {
  }

  lemma WeightAfterExpand(count: nat, ideal: nat, b: Bucket)
    requires 0 < ideal <= CAPACITY_THRESH
    requires b.count == count && b.expandMult == MultFor(count, ideal)
    ensures ideal * Weight(b) <= count && WithinThreshold(b)
  {
    if count > ideal {
      var m, r := QuotientAndRemainder(count, ideal);
      DivModUnique(count, ideal, m, r);
      hide MultFor;
      WeightBound(count, ideal, m, r, b);
    }
  }

  lemma WeightBound(count: nat, ideal: nat, m: nat, r: nat, b: Bucket)
    requires count == m * ideal + r && r < ideal <= CAPACITY_THRESH && ideal < count
    requires b.count == count && b.expandMult == m
    ensures ideal * Weight(b) <= count && WithinThreshold(b)
  {
    AtLeastOne(m, ideal, r);
    TimesAtMost(ideal, CAPACITY_THRESH, m + 1);
    assert (m + 1) * ideal == m * ideal + ideal;
  }

  /** After an expansion that started from at most 10 items per new bucket the table is balanced. */
  lemma BalancedAfterExpand(bs: seq<Bucket>, ideal: nat)
    requires IsCeiling(ideal, Total(Count, bs), |bs|)
    requires 0 < Total(Count, bs) <= CAPACITY_THRESH * |bs|
    requires forall i :: 0 <= i < |bs| ==> bs[i].expandMult == MultFor(bs[i].count, ideal)
    ensures Balanced(bs, ideal)
  {
    CeilingUpTo(ideal, Total(Count, bs), |bs|, CAPACITY_THRESH);
    assert ideal > 0;
    forall i | 0 <= i < |bs|
      ensures ideal * Weight(bs[i]) <= 0 + 1 * Count(bs[i])
      ensures WithinThreshold(bs[i])
    {
      WeightAfterExpand(bs[i].count, ideal, bs[i]);
    }
    TotalBound(Weight, Count, ideal, 0, 1, bs);
    Cancel(ideal, Total(Weight, bs), |bs|);
  }

  lemma Cancel(c: nat, x: nat, y: nat)
    requires 0 < c && c * x <= c * y
    ensures x <= y
  {
    assert (y + 1) * c == y * c + c;
    if x > y {
      TimesAtMost(y + 1, x, c);
    }
  }

  lemma TimesAtMost(x: nat, y: nat, c: nat)
    requires x <= y
    ensures x * c <= y * c
  {
    assert (y - x) * c >= 0;
    assert y * c == x * c + (y - x) * c;
  }
}
