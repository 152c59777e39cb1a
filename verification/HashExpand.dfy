/** HASH_EXPAND_BUCKETS: doubling the bucket array and redistributing the handles into it. */
module HashExpand {
  import opened Handles
  import opened Bits
  import opened HashLoad
  import opened HashChains

  /** The bucket array `bs` holds exactly the handles of `all`, chained and counted. */
  ghost predicate Tabled(bs: seq<Bucket>, chains: seq<seq<Handle>>, all: set<Handle>, hash: Key -> nat)
    reads Members(chains)`hhNext, Members(chains)`hhPrev
  {
    Placed(all, chains, hash) && AllLinked(chains) && Describes(bs, chains)
  }

  /** Every handle carries the hash value of its own key. */
  ghost predicate Hashed(all: set<Handle>, hash: Key -> nat)
    reads all`hashv
  {
    forall h :: h in all ==> h.hashv == hash(h.key)
  }

  /** Multipliers and the count of badly placed items, as redistribution leaves them. */
  ghost predicate Scored(bs: seq<Bucket>, ideal: nat, nonideal: nat) {
    && (forall i :: 0 <= i < |bs| ==> bs[i].expandMult == MultFor(bs[i].count, ideal))
    && nonideal == Total(Excess(ideal), bs)
  }

  /** One handle's bucket entry after it moves in. */
  lemma ScoreOne(bs: seq<Bucket>, i: nat, b: Bucket, ideal: nat, nonideal: nat)
    requires Scored(bs, ideal, nonideal) && i < |bs| && 0 < ideal
    requires b.count == bs[i].count + 1
    requires b.expandMult == if b.count > ideal then b.count / ideal else bs[i].expandMult
    ensures Scored(bs[i := b], ideal, if b.count > ideal then nonideal + 1 else nonideal)
  {
    TotalUpdate(Excess(ideal), bs, i, b);
  }

  lemma PlacedPush(bs: seq<Bucket>, chains: seq<seq<Handle>>, all: set<Handle>, h: Handle, b: Bucket, hash: Key -> nat)
    requires Placed(all, chains, hash) && Describes(bs, chains) && h !in all
    requires var j := Home(h, hash, |chains|); b.hhHead == h && b.count == bs[j].count + 1
    ensures var j := Home(h, hash, |chains|);
      Placed(all + {h}, chains[j := [h] + chains[j]], hash) &&
      Describes(bs[j := b], chains[j := [h] + chains[j]])
  {
    PlacedAdd(all, chains, h, hash);
  }

  /** The chains with `h` in front of its own. */
  ghost function Pushed(chains: seq<seq<Handle>>, h: Handle, hash: Key -> nat): seq<seq<Handle>>
    requires 0 < |chains|
  {
    var b := Home(h, hash, |chains|);
    chains[b := [h] + chains[b]]
  }

  ghost function Without(c: seq<Handle>, h: Handle): seq<Handle> {
    if c == [] then [] else if c[0] == h then c[1..] else [c[0]] + Without(c[1..], h)
  }

  /** The chains without `h`: its own chain closes up in order, every other one is as it was. */
  ghost function Pulled(chains: seq<seq<Handle>>, h: Handle, hash: Key -> nat): seq<seq<Handle>>
    requires 0 < |chains|
  {
    var b := Home(h, hash, |chains|);
    chains[b := Without(chains[b], h)]
  }

  lemma {:induction false} WithoutAt(c: seq<Handle>, i: nat)
    requires Distinct(c) && i < |c|
    ensures Without(c, c[i]) == c[..i] + c[i + 1..]
    decreases i
  {
    if i > 0 {
      WithoutAt(c[1..], i - 1);
      assert c[1..][..i - 1] == c[1..i] && c[1..][i..] == c[i + 1..];
      assert c[..i] == [c[0]] + c[1..i];
    }
  }

  /** Puts one handle at the front of its bucket, as HASH_ADD_TO_BKT does before it looks at the
      threshold; `b` is the bucket. */
  method PushBucket(h: Handle, buckets: array<Bucket>, ghost k: nat, ghost chains: seq<seq<Handle>>,
                    ghost all: set<Handle>, ghost hash: Key -> nat)
    returns (b: nat, ghost chains': seq<seq<Handle>>)
    requires Tabled(buckets[..], chains, all, hash)
    requires buckets.Length == Pow2(k) && h.hashv == hash(h.key) && h !in all
    modifies buckets, h`hhNext, h`hhPrev, all`hhPrev
    ensures Tabled(buckets[..], chains', all + {h}, hash)
    ensures b < buckets.Length && b == Home(h, hash, buckets.Length) && |chains| == buckets.Length
    ensures chains' == Pushed(chains, h, hash)
    ensures buckets[..] == old(buckets[..])[b := Bucket(h, old(buckets[..])[b].count + 1, old(buckets[..])[b].expandMult)]
  {
    hide Pow2, ToBucket, Placed, Describes, Linked;
    TabledSizes(buckets[..], chains, all, hash);
    b := ToBucket(h.hashv, buckets.Length, k);
    var was := buckets[b];
    var now := Bucket(h, was.count + 1, was.expandMult);
    ghost var bs := buckets[..];
    PushChain(was.hhHead, h, b, chains, all, hash);
    buckets[b] := now;
    chains' := chains[b := [h] + chains[b]];
    assert buckets[..] == bs[b := now];
    PlacedPush(bs, chains, all, h, now, hash);
  }

  /** HASH_DEL_IN_BKT: takes `h` off its chain and out of its bucket's count. */
  method PullBucket(h: Handle, buckets: array<Bucket>, ghost k: nat, ghost chains: seq<seq<Handle>>,
                    ghost all: set<Handle>, ghost hash: Key -> nat)
    returns (b: nat, first: Handle?, ghost chains': seq<seq<Handle>>)
    requires Tabled(buckets[..], chains, all, hash)
    requires buckets.Length == Pow2(k) && h.hashv == hash(h.key) && h in all
    modifies buckets, all`hhNext, all`hhPrev
    ensures Tabled(buckets[..], chains', all - {h}, hash)
    ensures b < buckets.Length && old(buckets[..])[b].count > 0
    ensures |chains| == buckets.Length && chains' == Pulled(chains, h, hash)
    ensures buckets[..] ==
      old(buckets[..])[b := Bucket(first, old(buckets[..])[b].count - 1, old(buckets[..])[b].expandMult)]
  {
    hide Pow2, ToBucket, Placed, Describes, Linked;
    TabledSizes(buckets[..], chains, all, hash);
    b := ToBucket(h.hashv, buckets.Length, k);
    ghost var bs, i := buckets[..], Position(chains, all, h, hash);
    var was := buckets[b];
    first := was.hhHead;
    if first == h {
      first := h.hhNext;
    }
    var now := Bucket(first, was.count - 1, was.expandMult);
    PlacedPull(bs, chains, all, b, i, now, hash);
    PulledAt(chains, all, h, i, hash);
    PullChain(h, b, i, chains, all, hash);
    buckets[b] := now;
    chains' := chains[b := chains[b][..i] + chains[b][i + 1..]];
    assert buckets[..] == bs[b := now];
  }

  lemma TabledSizes(bs: seq<Bucket>, chains: seq<seq<Handle>>, all: set<Handle>, hash: Key -> nat)
    requires Tabled(bs, chains, all, hash)
    ensures |bs| == |chains|
    ensures forall j :: 0 <= j < |bs| ==> bs[j].count == |chains[j]| && bs[j].hhHead == First(chains[j])
  {
  }

  ghost function Position(chains: seq<seq<Handle>>, all: set<Handle>, h: Handle, hash: Key -> nat): (i: nat)
    requires Placed(all, chains, hash) && h in all
    ensures var b := hash(h.key) % |chains|; b < |chains| && i < |chains[b]| && chains[b][i] == h
  {
    var i :| 0 <= i < |chains[Home(h, hash, |chains|)]| && chains[Home(h, hash, |chains|)][i] == h;
    i
  }

  lemma PulledAt(chains: seq<seq<Handle>>, all: set<Handle>, h: Handle, i: nat, hash: Key -> nat)
    requires Placed(all, chains, hash) && h in all
    requires i < |chains[Home(h, hash, |chains|)]| && chains[Home(h, hash, |chains|)][i] == h
    ensures var b := Home(h, hash, |chains|);
      Pulled(chains, h, hash) == chains[b := chains[b][..i] + chains[b][i + 1..]]
  {
    WithoutAt(chains[Home(h, hash, |chains|)], i);
  }

  lemma PlacedPull(bs: seq<Bucket>, chains: seq<seq<Handle>>, all: set<Handle>, j: nat, i: nat, b: Bucket, hash: Key -> nat)
    requires Tabled(bs, chains, all, hash) && j < |bs| && i < |chains[j]|
    requires b.count == bs[j].count - 1
    requires b.hhHead == if bs[j].hhHead == chains[j][i] then chains[j][i].hhNext else bs[j].hhHead
    ensures var c' := chains[j][..i] + chains[j][i + 1..];
      Placed(all - {chains[j][i]}, chains[j := c'], hash) && Describes(bs[j := b], chains[j := c'])
  {
    PlacedDelete(all, chains, j, i, hash);
    assert Linked(chains[j]);
    HeadAfterCut(chains[j], i, b.hhHead, bs[j].hhHead);
  }

  /** The chain's new head is the old one's successor exactly when the old head went. */
  lemma HeadAfterCut(c: seq<Handle>, i: nat, first: Handle?, head: Handle?)
    requires Follows(c) && Distinct(c) && i < |c| && head == c[0]
    requires first == if head == c[i] then c[i].hhNext else head
    ensures first == First(c[..i] + c[i + 1..])
  {
    if i == 0 {
      FollowsTail(c);
      assert c[..0] + c[1..] == c[1..];
    }
  }

  /** Moves one handle to the front of its new bucket. */
  method MoveOne(h: Handle, newBuckets: array<Bucket>, ideal: nat, nonideal: nat,
                 ghost k: nat, ghost chains: seq<seq<Handle>>, ghost all: set<Handle>, ghost hash: Key -> nat)
    returns (nonideal': nat, ghost chains': seq<seq<Handle>>)
    requires Tabled(newBuckets[..], chains, all, hash) && Scored(newBuckets[..], ideal, nonideal)
    requires newBuckets.Length == Pow2(k) && h.hashv == hash(h.key) && h !in all && 0 < ideal
    modifies newBuckets, h`hhNext, h`hhPrev, all`hhPrev
    ensures Tabled(newBuckets[..], chains', all + {h}, hash)
    ensures Scored(newBuckets[..], ideal, nonideal')
  {
    hide Pow2, ToBucket, Placed, Describes, Linked, Scored;
    TabledSizes(newBuckets[..], chains, all, hash);
    var j := ToBucket(h.hashv, newBuckets.Length, k);
    var first, count, mult := newBuckets[j].hhHead, newBuckets[j].count + 1, newBuckets[j].expandMult;
    nonideal' := nonideal;
    if count > ideal {
      nonideal' := nonideal + 1;
      mult := count / ideal;
    }
    ghost var bs := newBuckets[..];
    PushChain(first, h, j, chains, all, hash);
    newBuckets[j] := Bucket(h, count, mult);
    chains' := chains[j := [h] + chains[j]];
    assert newBuckets[..] == bs[j := Bucket(h, count, mult)];
    PlacedPush(bs, chains, all, h, Bucket(h, count, mult), hash);
    ScoreOne(bs, j, Bucket(h, count, mult), ideal, nonideal);
  }

  ghost function Elements(c: seq<Handle>): set<Handle> {
    set h | h in c
  }

  lemma FollowsTail(c: seq<Handle>)
    requires Follows(c) && c != []
    ensures Follows(c[1..]) && c[0].hhNext == First(c[1..])
  {
  }

  lemma ElementsStep(c: seq<Handle>, p: nat)
    requires p < |c|
    ensures Elements(c[..p + 1]) == Elements(c[..p]) + {c[p]}
    ensures c[p..][1..] == c[p + 1..]
    ensures Distinct(c) ==> c[p] !in c[..p] && c[p] !in c[p + 1..]
  {
    assert c[..p + 1] == c[..p] + [c[p]];
  }

  /** What has been drained of `c` after `p` handles, and what that means for the next one and for
      the rest. */
  lemma DrainStep(c: seq<Handle>, p: nat, rest: seq<Handle>, done: set<Handle>)
    requires p < |c| && Distinct(c) && (forall i :: 0 <= i < |c| ==> c[i] !in done) && rest == c[p + 1..]
    ensures done + Elements(c[..p + 1]) == done + Elements(c[..p]) + {c[p]}
    ensures c[p] !in done + Elements(c[..p])
    ensures forall h :: h in Elements(c[..p]) ==> h in c
    ensures c[p..][1..] == rest && c[p..][0] == c[p]
    ensures forall i :: 0 <= i < |rest| ==> rest[i] != c[p] && rest[i] !in done + Elements(c[..p])
  {
    ElementsStep(c, p);
    forall i | 0 <= i < |rest| ensures rest[i] !in c[..p] && rest[i] != c[p] {
      assert rest[i] == c[p + 1 + i];
    }
  }

  lemma NothingDrained(c: seq<Handle>, done: set<Handle>)
    ensures c[0..] == c && done + Elements(c[..0]) == done
  {
  }

  /** Moves a whole old chain into the new buckets, first handle first. */
  method DrainChain(first: Handle?, newBuckets: array<Bucket>, ideal: nat, nonideal: nat, ghost k: nat,
                    ghost c: seq<Handle>, ghost chains: seq<seq<Handle>>, ghost done: set<Handle>,
                    ghost hash: Key -> nat)
    returns (nonideal': nat, ghost chains': seq<seq<Handle>>)
    requires Tabled(newBuckets[..], chains, done, hash) && Scored(newBuckets[..], ideal, nonideal)
    requires newBuckets.Length == Pow2(k) && 0 < ideal
    requires first == First(c) && Follows(c) && Distinct(c)
    requires forall i :: 0 <= i < |c| ==> c[i] !in done && c[i].hashv == hash(c[i].key)
    modifies newBuckets, c`hhNext, c`hhPrev, done`hhPrev
    ensures Tabled(newBuckets[..], chains', done + Elements(c), hash)
    ensures Scored(newBuckets[..], ideal, nonideal')
  {
    hide Tabled, Scored, Elements, Distinct;
    NothingDrained(c, done);
    var thh := first;
    nonideal', chains' := nonideal, chains;
    ghost var p := 0;
    while thh != null
      invariant p <= |c| && thh == First(c[p..]) && Follows(c[p..])
      invariant Tabled(newBuckets[..], chains', done + Elements(c[..p]), hash)
      invariant Scored(newBuckets[..], ideal, nonideal')
      decreases |c| - p
    {
      var nxt := thh.hhNext;
      DrainStep(c, p, c[p + 1..], done);
      FollowsTail(c[p..]);
      nonideal', chains' := MoveOne(thh, newBuckets, ideal, nonideal', k, chains', done + Elements(c[..p]), hash);
      thh := nxt;
      p := p + 1;
    }
    assert c[..p] == c;
  }

  /** The handles of the first `n` chains. */
  ghost function Front(chains: seq<seq<Handle>>, n: nat): set<Handle>
    requires n <= |chains|
  {
    if n == 0 then {} else Front(chains, n - 1) + Elements(chains[n - 1])
  }

  /** Handles on different chains are different, and the chains together hold everything. */
  lemma {:induction false} FrontHomes(all: set<Handle>, chains: seq<seq<Handle>>, hash: Key -> nat, n: nat)
    requires Placed(all, chains, hash) && n <= |chains|
    ensures forall h :: h in Front(chains, n) <==> h in all && Home(h, hash, |chains|) < n
    decreases n
  {
    if n > 0 {
      FrontHomes(all, chains, hash, n - 1);
      forall h ensures h in Front(chains, n) <==> h in all && Home(h, hash, |chains|) < n {
        if h in chains[n - 1] {
          var i :| 0 <= i < |chains[n - 1]| && chains[n - 1][i] == h;
        }
      }
    }
  }

  lemma FrontApart(all: set<Handle>, chains: seq<seq<Handle>>, hash: Key -> nat, n: nat)
    requires Placed(all, chains, hash) && n <= |chains|
    ensures forall b, i :: n <= b < |chains| && 0 <= i < |chains[b]| ==> chains[b][i] !in Front(chains, n)
    ensures n == |chains| ==> Front(chains, n) == all
    ensures Front(chains, n) <= all
  {
    FrontHomes(all, chains, hash, n);
  }

  /** The old buckets not yet redistributed are still chained. */
  ghost predicate StillFollow(chains: seq<seq<Handle>>, n: nat)
    reads Members(chains)`hhNext
  {
    forall b :: n <= b < |chains| ==> Follows(chains[b])
  }

  lemma EmptyTable(bs: seq<Bucket>, chains: seq<seq<Handle>>, ideal: nat, hash: Key -> nat)
    requires |bs| == |chains| > 0
    requires forall i :: 0 <= i < |bs| ==> bs[i] == EMPTY_BUCKET && chains[i] == []
    ensures Tabled(bs, chains, {}, hash) && Scored(bs, ideal, 0)
  {
    PlacedNone(chains, hash);
    TotalZero(Excess(ideal), bs);
  }

  /** Moves one old chain, leaving the ones still waiting untouched. */
  method MoveChain(i: nat, buckets: array<Bucket>, newBuckets: array<Bucket>, ideal: nat, nonideal: nat, ghost k: nat,
                   ghost old_: seq<seq<Handle>>, ghost chains: seq<seq<Handle>>, ghost all: set<Handle>,
                   ghost hash: Key -> nat)
    returns (nonideal': nat, ghost chains': seq<seq<Handle>>)
    requires Placed(all, old_, hash) && Describes(buckets[..], old_) && Hashed(all, hash)
    requires i < |old_| && StillFollow(old_, i) && buckets != newBuckets
    requires Tabled(newBuckets[..], chains, Front(old_, i), hash) && Scored(newBuckets[..], ideal, nonideal)
    requires newBuckets.Length == Pow2(k) && 0 < ideal
    modifies newBuckets, all`hhNext, all`hhPrev
    ensures Tabled(newBuckets[..], chains', Front(old_, i + 1), hash)
    ensures Scored(newBuckets[..], ideal, nonideal')
    ensures StillFollow(old_, i + 1)
  {
    hide Tabled, Scored;
    ghost var c := old_[i];
    FrontApart(all, old_, hash, i);
    assert forall j :: 0 <= j < |c| ==> c[j] in all;
    nonideal', chains' := DrainChain(buckets[i].hhHead, newBuckets, ideal, nonideal, k, c, chains, Front(old_, i), hash);
    forall b | i + 1 <= b < |old_| ensures Follows(old_[b]) {
      assert forall j :: 0 <= j < |old_[b]| ==> old_[b][j] !in c && old_[b][j] !in Front(old_, i);
    }
  }

  /** The double loop of HASH_EXPAND_BUCKETS. */
  method Redistribute(buckets: array<Bucket>, ideal: nat, ghost k: nat,
                      ghost chains: seq<seq<Handle>>, ghost all: set<Handle>, ghost hash: Key -> nat)
    returns (newBuckets: array<Bucket>, nonideal: nat, ghost chains': seq<seq<Handle>>)
    requires Tabled(buckets[..], chains, all, hash) && Hashed(all, hash)
    requires buckets.Length == Pow2(k) && 0 < ideal
    modifies all`hhNext, all`hhPrev
    ensures fresh(newBuckets) && newBuckets.Length == Pow2(k + 1)
    ensures Tabled(newBuckets[..], chains', all, hash) && Scored(newBuckets[..], ideal, nonideal)
  {
    hide Tabled, Scored, Placed, Describes, Pow2, Hashed;
    Pow2Double(k);
    var n := buckets.Length;
    TabledParts(buckets[..], chains, all, hash);
    newBuckets, chains' := NewBuckets(2 * n, ideal, hash);
    nonideal := 0;
    assert Front(chains, 0) == {};
    hide Front, Linked, Follows;
    var i := 0;
    while i < n
      invariant i <= n && StillFollow(chains, i)
      invariant Tabled(newBuckets[..], chains', Front(chains, i), hash) && Scored(newBuckets[..], ideal, nonideal)
      decreases n - i
    {
      hide StillFollow;
      nonideal, chains' := MoveChain(i, buckets, newBuckets, ideal, nonideal, k + 1, chains, chains', all, hash);
      i := i + 1;
    }
    FrontApart(all, chains, hash, n);
  }

  lemma TabledParts(bs: seq<Bucket>, chains: seq<seq<Handle>>, all: set<Handle>, hash: Key -> nat)
    requires Tabled(bs, chains, all, hash)
    ensures Placed(all, chains, hash) && Describes(bs, chains) && StillFollow(chains, 0)
  {
  }

  method NewBuckets(n: nat, ghost ideal: nat, ghost hash: Key -> nat)
    returns (bs: array<Bucket>, ghost chains: seq<seq<Handle>>)
    requires 0 < n
    ensures fresh(bs) && bs.Length == n
    ensures Tabled(bs[..], chains, {}, hash) && Scored(bs[..], ideal, 0)
  {
    bs := new Bucket[n](_ => EMPTY_BUCKET);
    chains := seq(n, _ => []);
    EmptyTable(bs[..], chains, ideal, hash);
  }

  // ---- Counting, as HASH_FSCK does ----

  lemma {:induction false} DistinctSize(c: seq<Handle>)
    requires Distinct(c)
    ensures |Elements(c)| == |c|
    decreases |c|
  {
    if c != [] {
      var n := |c| - 1;
      DistinctSize(c[..n]);
      assert c == c[..n] + [c[n]];
      assert Elements(c) == Elements(c[..n]) + {c[n]};
      assert c[n] !in c[..n];
    }
  }

  lemma ChainDistinct(all: set<Handle>, chains: seq<seq<Handle>>, hash: Key -> nat, b: nat)
    requires Placed(all, chains, hash) && b < |chains|
    ensures Distinct(chains[b])
  {
  }

  lemma DisjointSize(s: set<Handle>, c: seq<Handle>)
    requires forall i :: 0 <= i < |c| ==> c[i] !in s
    ensures |s + Elements(c)| == |s| + |Elements(c)|
  {
    assert s !! Elements(c);
  }

  lemma FrontGrows(all: set<Handle>, chains: seq<seq<Handle>>, hash: Key -> nat, n: nat)
    requires Placed(all, chains, hash) && n < |chains|
    ensures |Front(chains, n + 1)| == |Front(chains, n)| + |chains[n]|
  {
    hide Placed, Elements, Distinct;
    FrontApart(all, chains, hash, n);
    ChainDistinct(all, chains, hash, n);
    DistinctSize(chains[n]);
    DisjointSize(Front(chains, n), chains[n]);
  }

  lemma {:induction false} FrontSize(bs: seq<Bucket>, chains: seq<seq<Handle>>, all: set<Handle>, hash: Key -> nat, n: nat)
    requires Placed(all, chains, hash) && Describes(bs, chains) && n <= |chains| == |bs|
    ensures |Front(chains, n)| == Total(Count, bs[..n])
    decreases n
  {
    hide *;
    if n == 0 {
      NothingInFront(bs, chains);
    } else {
      FrontGrows(all, chains, hash, n - 1);
      CountUpto(bs, chains, n - 1);
      FrontSize(bs, chains, all, hash, n - 1);
    }
  }

  lemma NothingInFront(bs: seq<Bucket>, chains: seq<seq<Handle>>)
    ensures |Front(chains, 0)| == 0 == Total(Count, bs[..0])
  {
  }

  lemma CountUpto(bs: seq<Bucket>, chains: seq<seq<Handle>>, n: nat)
    requires Describes(bs, chains) && n < |chains|
    ensures |bs| == |chains| && Total(Count, bs[..n + 1]) == Total(Count, bs[..n]) + |chains[n]|
  {
    hide Total;
    TotalUpto(Count, bs, n);
  }

  /** The bucket counts add up to the number of elements. */
  lemma CountsAddUp(bs: seq<Bucket>, chains: seq<seq<Handle>>, all: set<Handle>, hash: Key -> nat)
    requires Placed(all, chains, hash) && Describes(bs, chains)
    ensures Total(Count, bs) == |all|
  {
    assert |bs| == |chains|;
    FrontSize(bs, chains, all, hash, |chains|);
    FrontApart(all, chains, hash, |chains|);
    assert bs[..|chains|] == bs;
  }

  /** Doubling n buckets sends every element of bucket i to bucket i or to bucket i + n. */
  lemma SplitHome(h: Handle, hash: Key -> nat, n: nat)
    requires 0 < n
    ensures Home(h, hash, 2 * n) == Home(h, hash, n) || Home(h, hash, 2 * n) == Home(h, hash, n) + n
  {
    SplitRemainder(hash(h.key), n);
  }

  lemma SplitRemainder(x: nat, n: nat)
    requires 0 < n
    ensures x % (2 * n) == x % n || x % (2 * n) == x % n + n
  {
    var q, r := QuotientAndRemainder(x, 2 * n);
    FoldRemainder(x, n, 2 * n, q, r);
  }

  /** The remainder modulo n, from quotient and remainder modulo d = 2n. */
  lemma FoldRemainder(x: nat, n: nat, d: nat, q: nat, r: nat)
    requires x == q * d + r && r < d == 2 * n
    ensures x % n == if r < n then r else r - n
  {
    Regroup(q, n, d, r);
    if r < n {
      DivModUnique(x, n, 2 * q, r);
    } else {
      DivModUnique(x, n, 2 * q + 1, r - n);
    }
  }

  lemma Regroup(q: nat, n: nat, d: nat, r: nat)
    requires d == 2 * n
    ensures q * d + r == (2 * q) * n + r == (2 * q + 1) * n + (r - n)
  {
  }
}
