/** The hash table as a whole: every element sits on the application-order list and on one bucket
    chain at once, and the table is a finite map from keys to elements. */
module HashTables {
  import opened Handles
  import opened Bits
  import opened HashLoad
  import opened HashChains
  import opened HashExpand
  import opened HashMapModel
  import HashSort
  import RunMerge

  // ---- Application order ----

  /** Links `h` behind the last element. */
  method AppendLast(last: Handle, h: Handle, ghost items: seq<Handle>)
    requires AppOrder(items) && items != [] && last == items[|items| - 1] && h !in items && h.next == null
    modifies last`next, h`prev
    ensures AppOrder(items + [h])
  {
    last.next := h;
    h.prev := last;
  }

  /** Patches the neighbours of `items[i]` past it. */
  method UnlinkApp(h: Handle, ghost items: seq<Handle>, ghost i: nat)
    requires AppOrder(items) && i < |items| && h == items[i]
    modifies items`next, items`prev
    ensures AppOrder(items[..i] + items[i + 1..])
  {
    ghost var rest := items[..i] + items[i + 1..];
    assert h.prev == (if i > 0 then items[i - 1] else null);
    assert h.next == (if i + 1 < |items| then items[i + 1] else null);
    assert h.prev != null ==> h.prev in items;
    assert h.next != null ==> h.next in items;
    assert forall k :: 0 <= k < |rest| ==> rest[k] == items[if k < i then k else k + 1];
    if h.prev != null {
      h.prev.next := h.next;
    }
    if h.next != null {
      h.next.prev := h.prev;
    }
  }

  twostate lemma AppOrderKept(s: seq<Handle>)
    requires old(AppOrder(s))
    requires forall i :: 0 <= i < |s| ==> s[i].next == old(s[i].next) && s[i].prev == old(s[i].prev)
    ensures AppOrder(s)
  {
  }

  lemma ItemCount(items: seq<Handle>)
    requires AppOrder(items)
    ensures |Elements(items)| == |items|
  {
    DistinctSize(items);
  }

  /** ceil(n / 2b) by shift and mask, for b = 2^lb buckets about to be doubled. */
  function IdealChainLength(n: nat, b: nat, lb: nat): (ideal: nat)
    requires b == Pow2(lb)
    ensures IsCeiling(ideal, n, 2 * b)
  {
    ShiftIsQuotient(n, lb + 1);
    MaskIsRemainder(n, lb + 1);
    CeilingByDivision(n, 2 * b);
    Shr(n, lb + 1) + if And(n, b * 2 - 1) != 0 then 1 else 0
  }

  lemma CeilingPositive(ideal: nat, n: nat, b: nat)
    requires IsCeiling(ideal, n, b) && 0 < n
    ensures 0 < ideal
  {
  }

  lemma ExpandedIsBalanced(bs: seq<Bucket>, chains: seq<seq<Handle>>, all: set<Handle>,
                           ideal: nat, nonideal: nat, hash: Key -> nat)
    requires Tabled(bs, chains, all, hash) && Scored(bs, ideal, nonideal)
    requires IsCeiling(ideal, |all|, |bs|) && 0 < |all| <= CAPACITY_THRESH * |bs|
    ensures Balanced(bs, ideal)
  {
    CountsAddUp(bs, chains, all, hash);
    BalancedAfterExpand(bs, ideal);
  }

  lemma InitialSize()
    ensures Pow2(INITIAL_NUM_BUCKETS_LOG2) == INITIAL_NUM_BUCKETS
  {
    assert Pow2(5) == 2 * Pow2(4) == 4 * Pow2(3) == 8 * Pow2(2) == 16 * Pow2(1) == 32 * Pow2(0);
  }

  lemma HalfByShift(n: nat)
    ensures Shr(n, 1) == n / 2
  {
    assert Shr(n, 1) == Shr(n / 2, 0);
  }

  /** How a table is sized: the number of buckets and the outcome of its expansions so far. */
  datatype Sizing = Sizing(numBuckets: nat, ideal: nat, nonideal: nat, ineffExpands: nat, noexpand: bool)

  const START := Sizing(32, 0, 0, 0, false)

  /** One expansion of a table with `n` items: twice the buckets for the ideal chain length that they
      allow, and inhibition once a second expansion in a row was ineffective. */
  ghost predicate Expanded(was: Sizing, now: Sizing, n: nat) {
    && now.numBuckets == 2 * was.numBuckets && IsCeiling(now.ideal, n, now.numBuckets)
    && now.ineffExpands == (if now.nonideal > n / 2 then was.ineffExpands + 1 else 0)
    && now.noexpand == (was.noexpand || now.ineffExpands > 1)
  }

  /** Nothing about the sizing changes but by an expansion. */
  ghost predicate Resized(was: Sizing, now: Sizing, expands: bool, n: nat) {
    if expands then Expanded(was, now, n) else now == was
  }

  /** UT_hash_table: the bucket array and its bookkeeping, shared by all the elements. */
  class Table {
    /** HASH_FCN: any function from key bytes to a hash value. */
    const hashFcn: Key -> nat

    var tail: Handle?
    var numItems: nat
    var buckets: array<Bucket>
    var numBuckets: nat
    var log2NumBuckets: nat
    var idealChainMaxlen: nat
    var nonidealItems: nat
    var ineffExpands: nat
    var noexpand: bool
    ghost var chains: seq<seq<Handle>>

    /** The bucket array and chains hold exactly `all`. */
    ghost predicate Filed(all: set<Handle>)
      reads this, buckets, all`hashv, Members(chains)`hhNext, Members(chains)`hhPrev
    {
      && numItems == |all|
      && numBuckets == buckets.Length == Pow2(log2NumBuckets)
      && Tabled(buckets[..], chains, all, hashFcn)
      && Hashed(all, hashFcn)
    }

    /** While expansion is not inhibited the load stays bounded. */
    ghost predicate LoadOk()
      reads this, buckets
    {
      !noexpand ==> Balanced(buckets[..], idealChainMaxlen)
    }

    /** Adding `h` makes the table double: its bucket reaches its own multiple of ten. */
    ghost predicate Expands(h: Handle)
      reads this, buckets
    {
      !noexpand && 0 < buckets.Length &&
      var b := buckets[Home(h, hashFcn, buckets.Length)];
      b.count + 1 >= (b.expandMult + 1) * 10
    }

    ghost function Size(): Sizing
      reads this
    {
      Sizing(numBuckets, idealChainMaxlen, nonidealItems, ineffExpands, noexpand)
    }

    /** Rewriting the application order leaves the buckets and chains as they were. */
    twostate lemma FiledKept(all: set<Handle>)
      requires old(Filed(all) && LoadOk())
      requires numItems == old(numItems) && numBuckets == old(numBuckets)
      requires log2NumBuckets == old(log2NumBuckets) && idealChainMaxlen == old(idealChainMaxlen)
      requires noexpand == old(noexpand) && chains == old(chains)
      requires buckets == old(buckets) && buckets[..] == old(buckets[..])
      requires forall g :: g in all ==> g.hashv == old(g.hashv)
      requires forall g :: g in Members(chains) ==> g.hhNext == old(g.hhNext) && g.hhPrev == old(g.hhPrev)
      ensures Filed(all) && LoadOk()
    {
      hide Balanced, Placed, Describes;
    }

    /** HASH_MAKE_TABLE. */
    constructor (hash: Key -> nat, first: Handle)
      ensures fresh(buckets) && Filed({}) && LoadOk() && hashFcn == hash && tail == first
      ensures Size() == START && forall b :: 0 <= b < 32 ==> buckets[b] == EMPTY_BUCKET
    {
      hashFcn, tail := hash, first;
      numBuckets, log2NumBuckets, numItems := INITIAL_NUM_BUCKETS, INITIAL_NUM_BUCKETS_LOG2, 0;
      idealChainMaxlen, nonidealItems, ineffExpands, noexpand := 0, 0, 0, false;
      buckets := new Bucket[INITIAL_NUM_BUCKETS](_ => EMPTY_BUCKET);
      chains := seq(INITIAL_NUM_BUCKETS, _ => []);
      new;
      hide Balanced;
      InitialSize();
      EmptyTable(buckets[..], chains, 0, hashFcn);
      BalancedInit(buckets[..]);
    }

    /** The bookkeeping at the end of HASH_EXPAND_BUCKETS: two ineffective expansions in a row
        inhibit any further one. */
    method KeepBooks(newBuckets: array<Bucket>, ideal: nat, nonideal: nat, ghost newChains: seq<seq<Handle>>)
      modifies this
      ensures buckets == newBuckets && chains == newChains
      ensures tail == old(tail) && numItems == old(numItems)
      ensures numBuckets == 2 * old(numBuckets) && log2NumBuckets == old(log2NumBuckets) + 1
      ensures idealChainMaxlen == ideal && nonidealItems == nonideal
      ensures ineffExpands == if nonideal > numItems / 2 then old(ineffExpands) + 1 else 0
      ensures noexpand == (old(noexpand) || ineffExpands > 1)
    {
      hide Shr;
      HalfByShift(numItems);
      idealChainMaxlen, nonidealItems := ideal, nonideal;
      buckets, chains := newBuckets, newChains;
      numBuckets, log2NumBuckets := numBuckets * 2, log2NumBuckets + 1;
      ineffExpands := if nonidealItems > Shr(numItems, 1) then ineffExpands + 1 else 0;
      if ineffExpands > 1 {
        noexpand := true;
      }
    }

    /** The end of HASH_EXPAND_BUCKETS: the new buckets replace the old ones. */
    method Install(newBuckets: array<Bucket>, ideal: nat, nonideal: nat,
                   ghost newChains: seq<seq<Handle>>, ghost all: set<Handle>)
      requires Tabled(newBuckets[..], newChains, all, hashFcn) && Hashed(all, hashFcn) && numItems == |all|
      requires newBuckets.Length == 2 * numBuckets == Pow2(log2NumBuckets + 1)
      modifies this
      ensures Filed(all) && buckets == newBuckets && chains == newChains
      ensures tail == old(tail) && numItems == old(numItems)
      ensures numBuckets == 2 * old(numBuckets) && log2NumBuckets == old(log2NumBuckets) + 1
      ensures idealChainMaxlen == ideal && nonidealItems == nonideal
      ensures ineffExpands == if nonideal > numItems / 2 then old(ineffExpands) + 1 else 0
      ensures noexpand == (old(noexpand) || ineffExpands > 1)
    {
      hide Placed, Describes, Linked, Pow2;
      KeepBooks(newBuckets, ideal, nonideal, newChains);
    }

    /** HASH_EXPAND_BUCKETS. */
    method ExpandBuckets(ghost all: set<Handle>)
      requires Filed(all) && 0 < numItems
      modifies this, all`hhNext, all`hhPrev
      ensures Filed(all) && fresh(buckets) && tail == old(tail) && numItems == old(numItems)
      ensures numBuckets == 2 * old(numBuckets) && log2NumBuckets == old(log2NumBuckets) + 1
      ensures IsCeiling(idealChainMaxlen, numItems, numBuckets)
      ensures Scored(buckets[..], idealChainMaxlen, nonidealItems)
      ensures ineffExpands == if nonidealItems > numItems / 2 then old(ineffExpands) + 1 else 0
      ensures noexpand == (old(noexpand) || ineffExpands > 1)
      ensures numItems <= CAPACITY_THRESH * numBuckets ==> Balanced(buckets[..], idealChainMaxlen)
    {
      hide Tabled, Scored, Balanced, IdealChainLength, IsCeiling;
      var ideal := IdealChainLength(numItems, numBuckets, log2NumBuckets);
      CeilingPositive(ideal, numItems, 2 * numBuckets);
      var newBuckets, nonideal;
      ghost var newChains;
      newBuckets, nonideal, newChains := Redistribute(buckets, ideal, log2NumBuckets, chains, all, hashFcn);
      if numItems <= CAPACITY_THRESH * (2 * numBuckets) {
        ExpandedIsBalanced(newBuckets[..], newChains, all, ideal, nonideal, hashFcn);
      }
      Install(newBuckets, ideal, nonideal, newChains, all);
    }

    /** The first half of HASH_ADD_TO_BKT: `h` goes in front of its chain; `b` is its bucket. */
    method FileHandle(h: Handle, ghost all: set<Handle>) returns (b: nat)
      requires Filed(all) && h !in all
      modifies `numItems, `chains, buckets, h`hashv, h`hhNext, h`hhPrev, all`hhNext, all`hhPrev
      ensures Filed(all + {h}) && numItems == old(numItems) + 1
      ensures b == Home(h, hashFcn, buckets.Length) < buckets.Length
      ensures buckets[..] ==
        old(buckets[..])[b := Bucket(h, old(buckets[..])[b].count + 1, old(buckets[..])[b].expandMult)]
      ensures chains == Pushed(old(chains), h, hashFcn)
    {
      hide Placed, Describes, Linked, Pushed;
      numItems := numItems + 1;
      h.hashv := hashFcn(h.key);
      b, chains := PushBucket(h, buckets, log2NumBuckets, chains, all, hashFcn);
    }

    /** The table's part of HASH_ADD_KEYPTR: counting the element, and HASH_ADD_TO_BKT with the
        automatic expansion it may set off. */
    method AddToBucket(h: Handle, ghost all: set<Handle>)
      requires Filed(all) && LoadOk() && h !in all
      modifies this, buckets, h`hashv, h`hhNext, h`hhPrev, all`hhNext, all`hhPrev
      ensures Filed(all + {h}) && LoadOk() && tail == old(tail)
      ensures buckets == old(buckets) || fresh(buckets)
      ensures Resized(old(Size()), Size(), old(Expands(h)), numItems)
      ensures old(Expands(h)) ==> Scored(buckets[..], idealChainMaxlen, nonidealItems)
      ensures !old(Expands(h)) ==> chains == Pushed(old(chains), h, hashFcn)
    {
      hide Balanced, Tabled, Hashed, Pushed, Scored, IsCeiling;
      ghost var bs := buckets[..];
      var b := FileHandle(h, all);
      var now := buckets[b];
      assert buckets[..] == bs[b := now];
      if now.count >= (now.expandMult + 1) * CAPACITY_THRESH && !noexpand {
        AddWithinBound(bs, b, now, chains, all + {h}, idealChainMaxlen, hashFcn);
        ExpandBuckets(all + {h});
      } else if !noexpand {
        BalancedAdd(bs, b, now, idealChainMaxlen);
      }
    }

    /** The table's part of HASH_DELETE: HASH_DEL_IN_BKT and the item count. */
    method DelInBucket(h: Handle, ghost all: set<Handle>)
      requires Filed(all) && LoadOk() && h in all
      modifies this, buckets, all`hhNext, all`hhPrev
      ensures Filed(all - {h}) && LoadOk() && tail == old(tail) && buckets == old(buckets)
      ensures Size() == old(Size()) && chains == Pulled(old(chains), h, hashFcn)
    {
      hide Balanced, Placed, Describes, Linked;
      ghost var bs := buckets[..];
      var b, first;
      b, first, chains := PullBucket(h, buckets, log2NumBuckets, chains, all, hashFcn);
      numItems := numItems - 1;
      if !noexpand {
        BalancedDelete(bs, b, Bucket(first, bs[b].count - 1, bs[b].expandMult), idealChainMaxlen);
      }
    }
  }

  /** The user's side: the head pointer, through which the table is reached. */
  class HashTable {
    const hashFcn: Key -> nat
    var head: Handle?
    var tbl: Table?
    ghost var items: seq<Handle>

    ghost function Storage(): set<object?>
      reads this, tbl
    {
      if tbl == null then {} else {tbl, tbl.buckets}
    }

    ghost function Chained(): set<Handle>
      reads this, tbl
    {
      if tbl == null then {} else Members(tbl.chains)
    }

    /** What HASH_FSCK checks, and more: both lists, the counts, the placement and the load. */
    ghost predicate Valid()
      reads this, Storage(), items, Chained()
    {
      && head == First(items) && AppOrder(items)
      && (tbl == null <==> head == null)
      && (tbl != null ==>
            && tbl.hashFcn == hashFcn && tbl.tail == Last(items)
            && tbl.Filed(Elements(items)) && tbl.LoadOk())
    }

    constructor (hash: Key -> nat)
      ensures Valid() && items == [] && hashFcn == hash
    {
      hashFcn := hash;
      head, tbl, items := null, null, [];
    }

    /** The first half of HASH_ADD_KEYPTR: `h` becomes the last element in application order. */
    method LinkLast(h: Handle)
      requires Valid() && h !in items
      modifies this, Storage(), h`next, h`prev, items`next
      ensures items == old(items) + [h] && AppOrder(items) && head == First(items)
      ensures tbl != null && tbl.hashFcn == hashFcn && tbl.tail == Last(items)
      ensures tbl.Filed(Elements(old(items))) && tbl.LoadOk()
      ensures fresh(Storage() - old(Storage()))
      ensures if old(tbl) == null then tbl.Size() == START && !tbl.Expands(h)
        else tbl == old(tbl) && tbl.Size() == old(tbl.Size()) && tbl.Expands(h) == old(tbl.Expands(h))
    {
      hide Balanced, Tabled, Hashed, AppOrder, Elements;
      h.next := null;
      if head == null {
        head := h;
        h.prev := null;
        tbl := new Table(hashFcn, h);
        OneElement(h);
        assert items + [h] == [h];
      } else {
        AppOrderKept(items);
        AppendLast(tbl.tail, h, items);
        label Appended:
        tbl.tail := h;
        AppOrderKept@Appended(items + [h]);
        tbl.FiledKept(old(Elements(items)));
      }
      label Linked:
      items := items + [h];
      AppOrderKept@Linked(items);
    }

    /** HASH_ADD_KEYPTR. */
    method Add(h: Handle)
      requires Valid() && h !in items
      modifies this, Storage(), h, items`next, items`hhNext, items`hhPrev
      ensures Valid() && items == old(items) + [h]
      ensures UniqueKeys(old(items)) && h.key !in MapOf(old(items)) ==>
        UniqueKeys(items) && MapOf(items) == MapOf(old(items))[h.key := h]
      ensures tbl != null && if old(tbl) == null then tbl.Size() == START
        else tbl == old(tbl) && Resized(old(tbl.Size()), tbl.Size(), old(tbl.Expands(h)), |items|)
      ensures old(tbl) != null && |items| < 10 ==> tbl.Size() == old(tbl.Size())
      ensures fresh(Storage() - old(Storage()))
    {
      hide UniqueKeys, MapOf;
      MapOfAdd(items, h);
      hide Balanced, Tabled, Hashed, AppOrder, Elements;
      ghost var all := Elements(items);
      if tbl != null {
        FewItems(tbl, items, h);
      }
      AppendedItem(items, h);
      LinkLast(h);
      label Linked:
      tbl.AddToBucket(h, all);
      AppOrderKept@Linked(items);
      ItemCount(items);
    }

    /** The application-order half of HASH_DELETE, for an element that has a neighbour. */
    method UnlinkItem(h: Handle, ghost i: nat)
      requires Valid() && i < |items| && items[i] == h && |items| > 1
      modifies this, Storage(), items`next, items`prev
      ensures items == old(items[..i] + items[i + 1..]) && AppOrder(items) && head == First(items)
      ensures tbl != null && tbl == old(tbl) && tbl.hashFcn == hashFcn && tbl.tail == Last(items)
      ensures tbl.Filed(Elements(old(items))) && tbl.LoadOk() && tbl.Size() == old(tbl.Size())
      ensures Storage() == old(Storage())
    {
      hide Balanced, Tabled, Hashed, AppOrder, Elements;
      ghost var rest := items[..i] + items[i + 1..];
      CutEnds(items, i);
      if h == tbl.tail {
        tbl.tail := h.prev;
      }
      if h.prev == null {
        head := h.next;
      }
      AppOrderKept(items);
      UnlinkApp(h, items, i);
      label Cut:
      tbl.FiledKept(old(Elements(items)));
      items := rest;
      AppOrderKept@Cut(items);
    }

    /** HASH_DELETE, for an element that is not alone in the table. */
    method Detach(h: Handle, ghost i: nat)
      requires Valid() && i < |items| && items[i] == h && |items| > 1
      modifies this, Storage(), items`next, items`prev, items`hhNext, items`hhPrev
      ensures Valid() && items == old(items[..i] + items[i + 1..])
      ensures Storage() == old(Storage()) && tbl != null && tbl == old(tbl) && tbl.Size() == old(tbl.Size())
    {
      hide Balanced, Tabled, Hashed, AppOrder, Elements;
      ghost var all := Elements(items);
      RemovedItem(items, i);
      UnlinkItem(h, i);
      label Linked:
      tbl.DelInBucket(h, all);
      AppOrderKept@Linked(items);
    }

    /** HASH_DELETE. */
    method Delete(h: Handle, ghost i: nat)
      requires Valid() && i < |items| && items[i] == h
      modifies this, Storage(), items`next, items`prev, items`hhNext, items`hhPrev
      ensures Valid() && items == old(items[..i] + items[i + 1..])
      ensures UniqueKeys(old(items)) ==>
        UniqueKeys(items) && MapOf(items) == MapOf(old(items)) - {h.key}
      ensures if |items| == 0 then tbl == null else tbl != null && tbl == old(tbl) && tbl.Size() == old(tbl.Size())
      ensures fresh(Storage() - old(Storage()))
    {
      hide UniqueKeys, MapOf, Balanced, Tabled, Hashed, AppOrder, Elements;
      MapOfCut(items, i);
      AloneIffNoNeighbours(items, i);
      if h.prev == null && h.next == null {
        head, tbl, items := null, null, [];
        EmptyOrder();
      } else {
        Detach(h, i);
      }
    }

    /** HASH_FIND. */
    method Find(key: Key) returns (out: Handle?)
      requires Valid()
      ensures out != null ==> out in items && out.key == key
      ensures out == null ==> forall h :: h in items ==> h.key != key
      ensures UniqueKeys(items) ==>
        (out == null <==> key !in MapOf(items)) && (out != null ==> MapOf(items)[key] == out)
    {
      out := null;
      if head != null {
        hide ToBucket, Pow2;
        var b := ToBucket(hashFcn(key), tbl.numBuckets, tbl.log2NumBuckets);
        ghost var c := tbl.chains[b];
        out := FindInBucket(tbl.buckets[b].hhHead, key, c);
        OnlyInBucket(items, tbl.chains, tbl.hashFcn, key, b);
      }
      if UniqueKeys(items) {
        FoundInMap(items, key, out);
      }
    }

    /** HASH_SRT: only the application order changes; the bucket chains are not written at all. */
    method Sort(cmp: (Handle, Handle) -> int)
      requires Valid() && |items| < 0x1_0000_0000
      modifies `head, `items, (if tbl == null then {} else {tbl})`tail, items`next, items`prev
      ensures Valid() && items == RunMerge.Passes(old(items), 1, cmp)
      ensures multiset(items) == multiset(old(items))
      ensures RunMerge.TotalPreorder(Elements(items), cmp) ==>
        RunMerge.Sorted(items, cmp) &&
        RunMerge.StableRearrangement(old(items), items, Elements(items), cmp)
    {
      hide Balanced, Tabled, Hashed, AppOrder, Elements,
        RunMerge.Passes, RunMerge.Sorted, RunMerge.StableRearrangement, RunMerge.TotalPreorder;
      SortedItems(items, cmp);
      if head != null {
        var newTail;
        ghost var sorted;
        head, newTail, sorted := HashSort.SortList(head, cmp, items, Elements(items));
        tbl.tail := newTail;
        items := sorted;
        tbl.FiledKept(old(Elements(items)));
      }
    }
  }

  /** What the passes do to the list, whatever `cmp` answers, and what they do when it is a
      total preorder on the elements. */
  lemma SortedItems(items: seq<Handle>, cmp: (Handle, Handle) -> int)
    ensures var r := RunMerge.Passes(items, 1, cmp);
      && multiset(r) == multiset(items) && Elements(r) == Elements(items) && |r| == |items|
      && (RunMerge.TotalPreorder(Elements(r), cmp) ==>
            RunMerge.Sorted(r, cmp) && RunMerge.StableRearrangement(items, r, Elements(r), cmp))
    ensures HashSort.Within(items, Elements(items)) && forall g :: g in items <==> g in Elements(items)
  {
    hide RunMerge.Passes, RunMerge.Sorted, RunMerge.StableRearrangement;
    var r := RunMerge.Passes(items, 1, cmp);
    RunMerge.PassesRearrange(items, 1, cmp);
    SameElements(r, items);
    if RunMerge.TotalPreorder(Elements(items), cmp) {
      RunMerge.RunsOfOne(items, cmp);
      RunMerge.PassesSort(items, 1, Elements(items), cmp);
    }
  }

  lemma SameElements(r: seq<Handle>, s: seq<Handle>)
    requires multiset(r) == multiset(s)
    ensures Elements(r) == Elements(s)
  {
    forall g ensures g in r <==> g in s {
      assert g in multiset(r) <==> g in multiset(s);
    }
  }

  /** The load bound: until expansion is inhibited there are at most 19 items per bucket, and no
      chain is longer than its bucket's own multiple of the threshold. */
  lemma LoadHolds(t: HashTable)
    requires t.Valid() && t.tbl != null && !t.tbl.noexpand
    ensures t.tbl.numItems == |t.items| <= 19 * t.tbl.numBuckets
    ensures t.tbl.idealChainMaxlen <= 10
    ensures forall b :: 0 <= b < t.tbl.numBuckets ==>
      |t.tbl.chains[b]| == t.tbl.buckets[b].count <= 10 * (t.tbl.buckets[b].expandMult + 1)
  {
    var bs := t.tbl.buckets[..];
    DistinctSize(t.items);
    LoadBound(bs, t.tbl.idealChainMaxlen);
    CountsAddUp(bs, t.tbl.chains, Elements(t.items), t.hashFcn);
    assert forall b :: 0 <= b < t.tbl.numBuckets ==> bs[b] == t.tbl.buckets[b];
  }

  /** A table with fewer than ten elements, counting `h`, never expands, however they hash. */
  lemma FewItems(t: Table, items: seq<Handle>, h: Handle)
    requires t.Filed(Elements(items)) && AppOrder(items)
    ensures |items| + 1 < 10 ==> !t.Expands(h)
  {
    hide AppOrder;
    var n := t.buckets.Length;
    var b := Home(h, t.hashFcn, n);
    TabledSizes(t.buckets[..], t.chains, Elements(items), t.hashFcn);
    ChainSize(Elements(items), t.chains, t.hashFcn, b);
    ItemCount(items);
    assert t.buckets[b] == t.buckets[..][b];
  }

  lemma ChainSize(all: set<Handle>, chains: seq<seq<Handle>>, hash: Key -> nat, b: nat)
    requires Placed(all, chains, hash) && b < |chains|
    ensures |chains[b]| <= |all|
  {
    DistinctSize(chains[b]);
    SubsetSize(Elements(chains[b]), all);
  }

  lemma {:induction false} SubsetSize(s: set<Handle>, t: set<Handle>)
    requires s <= t
    ensures |s| <= |t|
  {
    var u := t - s;
    assert t == s + u && s !! u;
  }

  lemma EmptyOrder()
    ensures AppOrder([])
  {
  }

  lemma OneElement(h: Handle)
    requires h.next == null && h.prev == null
    ensures AppOrder([h]) && Elements([]) == {}
  {
  }

  lemma AloneIffNoNeighbours(items: seq<Handle>, i: nat)
    requires AppOrder(items) && i < |items|
    ensures items[i].prev == null && items[i].next == null <==> |items| == 1
  {
    assert items[i].prev == (if i > 0 then items[i - 1] else null);
    assert items[i].next == (if i + 1 < |items| then items[i + 1] else null);
  }

  /** The ends of the list after `items[i]` goes. */
  lemma CutEnds(items: seq<Handle>, i: nat)
    requires AppOrder(items) && i < |items| && |items| > 1
    ensures var rest := items[..i] + items[i + 1..];
      && First(rest) == (if items[i].prev == null then items[i].next else items[0])
      && Last(rest) == (if items[i] == Last(items) then items[i].prev else Last(items))
  {
    assert items[i].prev == (if i > 0 then items[i - 1] else null);
    assert items[i].next == (if i + 1 < |items| then items[i + 1] else null);
  }

  lemma RemovedItem(items: seq<Handle>, i: nat)
    requires AppOrder(items) && i < |items|
    ensures Elements(items[..i] + items[i + 1..]) == Elements(items) - {items[i]}
    ensures forall g :: g in items <==> g in Elements(items)
  {
    var rest := items[..i] + items[i + 1..];
    assert forall k :: 0 <= k < |rest| ==> rest[k] == items[if k < i then k else k + 1];
    forall g | g in items && g != items[i] ensures g in rest {
      var k :| 0 <= k < |items| && items[k] == g;
      assert g == rest[if k < i then k else k - 1];
    }
  }

  /** A key that is in the table at all is on the chain its hash value selects. */
  lemma OnlyInBucket(items: seq<Handle>, chains: seq<seq<Handle>>, hash: Key -> nat, key: Key, b: nat)
    requires Placed(Elements(items), chains, hash) && b == hash(key) % |chains|
    ensures b < |chains|
    ensures forall h :: h in items && h.key == key ==> h in chains[b]
    ensures forall h :: h in chains[b] ==> h in items
  {
    forall h | h in items && h.key == key ensures h in chains[b] {
      assert h in Elements(items);
    }
  }

  lemma AppendedItem(items: seq<Handle>, h: Handle)
    ensures Elements(items + [h]) == Elements(items) + {h}
    ensures forall g :: g in items <==> g in Elements(items)
  {
  }

  /** When an addition sets off an expansion, the doubled table has room at 10 items a bucket. */
  lemma AddWithinBound(bs: seq<Bucket>, i: nat, b: Bucket, chains: seq<seq<Handle>>, all: set<Handle>,
                       ideal: nat, hash: Key -> nat)
    requires Balanced(bs, ideal) && i < |bs| && b.count == bs[i].count + 1
    requires Tabled(bs[i := b], chains, all, hash)
    ensures |all| <= CAPACITY_THRESH * (2 * |bs|)
  {
    LoadBound(bs, ideal);
    TotalUpdate(Count, bs, i, b);
    CountsAddUp(bs[i := b], chains, all, hash);
  }
}
