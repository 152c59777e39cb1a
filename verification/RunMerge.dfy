/** The list that each merge pass of HASH_SRT produces, as a function of the list it starts from:
    what a stable sort is, and why repeated passes over runs of doubling length reach one. */
module RunMerge {

  // ---- What is promised: order, and order among equals ----

  /** On the elements of `dom`, `cmpfcn` answers consistently: any two elements compare one way
      or the other, and "not after" is transitive. */
  ghost predicate TotalPreorder<T>(dom: set<T>, cmp: (T, T) -> int) {
    && (forall x, y :: x in dom && y in dom ==> cmp(x, y) <= 0 || cmp(y, x) <= 0)
    && (forall x, y, z :: x in dom && y in dom && z in dom && cmp(x, y) <= 0 && cmp(y, z) <= 0
          ==> cmp(x, z) <= 0)
  }

  ghost predicate Over<T>(s: seq<T>, dom: set<T>) {
    forall y :: y in s ==> y in dom
  }

  ghost predicate Sorted<T>(s: seq<T>, cmp: (T, T) -> int) {
    forall i, j :: 0 <= i < j < |s| ==> cmp(s[i], s[j]) <= 0
  }

  ghost predicate Alike<T>(x: T, y: T, cmp: (T, T) -> int) {
    cmp(x, y) <= 0 && cmp(y, x) <= 0
  }

  /** The elements of `s` that compare equal to `x`, in their order in `s`. */
  ghost function ClassOf<T>(s: seq<T>, x: T, cmp: (T, T) -> int): seq<T> {
    if s == [] then []
    else if Alike(s[0], x, cmp) then [s[0]] + ClassOf(s[1..], x, cmp)
    else ClassOf(s[1..], x, cmp)
  }

  /** `r` rearranges `s` without reordering any two elements that compare equal. */
  ghost predicate StableRearrangement<T>(s: seq<T>, r: seq<T>, dom: set<T>, cmp: (T, T) -> int) {
    && multiset(r) == multiset(s)
    && forall x :: x in dom ==> ClassOf(r, x, cmp) == ClassOf(s, x, cmp)
  }

  // ---- What a pass computes ----

  /** Two runs merged, the first one winning ties. */
  ghost function Merge<T>(p: seq<T>, q: seq<T>, cmp: (T, T) -> int): seq<T>
    decreases |p| + |q|
  {
    if p == [] then q
    else if q == [] then p
    else if cmp(p[0], q[0]) <= 0 then [p[0]] + Merge(p[1..], q, cmp)
    else [q[0]] + Merge(p, q[1..], cmp)
  }

  function Min(a: nat, b: nat): (m: nat) {
    if a < b then a else b
  }

  /** One pass: consecutive pairs of runs of `k` elements are merged; the last pair may be short. */
  ghost function Pass<T>(s: seq<T>, k: nat, cmp: (T, T) -> int): seq<T>
    requires 0 < k
    decreases |s|
  {
    if s == [] then []
    else
      var n := Min(k, |s|);
      var m := Min(2 * k, |s|);
      Merge(s[..n], s[n..m], cmp) + Pass(s[m..], k, cmp)
  }

  /** The number of pairs of runs a pass merges. */
  ghost function Merges(n: nat, k: nat): nat
    requires 0 < k
  {
    if n == 0 then 0 else 1 + Merges(n - Min(2 * k, n), k)
  }

  /** Passes over runs of length k, 2k, 4k, ... until one pass made at most one merge. */
  ghost function Passes<T>(s: seq<T>, k: nat, cmp: (T, T) -> int): seq<T>
    requires 0 < k
    decreases if k < |s| then |s| - k else 0
  {
    var r := Pass(s, k, cmp);
    if |s| <= 2 * k then r else PassLength(s, k, cmp); Passes(r, 2 * k, cmp)
  }

  lemma {:induction false} MergeLength<T>(p: seq<T>, q: seq<T>, cmp: (T, T) -> int)
    ensures |Merge(p, q, cmp)| == |p| + |q|
    decreases |p| + |q|
  {
    if p == [] || q == [] {
    } else if cmp(p[0], q[0]) <= 0 {
      MergeLength(p[1..], q, cmp);
    } else {
      MergeLength(p, q[1..], cmp);
    }
  }

  lemma {:induction false} PassLength<T>(s: seq<T>, k: nat, cmp: (T, T) -> int)
    requires 0 < k
    ensures |Pass(s, k, cmp)| == |s|
    decreases |s|
  {
    if s != [] {
      var n := Min(k, |s|);
      var m := Min(2 * k, |s|);
      MergeLength(s[..n], s[n..m], cmp);
      PassLength(s[m..], k, cmp);
    }
  }

  lemma PassNothing<T>(k: nat, cmp: (T, T) -> int)
    requires 0 < k
    ensures Pass([], k, cmp) == [] && Merges(0, k) == 0
  {
  }

  /** One step of a pass, with the second run cut from what is left after the first. */
  lemma PassUnfold<T>(s: seq<T>, k: nat, n: nat, m: nat, cmp: (T, T) -> int)
    requires 0 < k && s != [] && n == Min(k, |s|) && m == Min(k, |s| - n)
    ensures Pass(s, k, cmp) == Merge(s[..n], s[n..][..m], cmp) + Pass(s[n..][m..], k, cmp)
    ensures Merges(|s|, k) == 1 + Merges(|s[n..][m..]|, k)
  {
    hide Pass, Merges, Merge;
    MinTwice(k, |s|, n, m);
    hide Min;
    SliceAgain(s, n, m, n + m);
    PassStep(s, k, n, n + m, cmp);
  }

  lemma MinTwice(k: nat, len: nat, n: nat, m: nat)
    requires n == Min(k, len) && m == Min(k, len - n)
    ensures n + m == Min(2 * k, len) && n <= n + m <= len
  {
  }

  lemma PassStep<T>(s: seq<T>, k: nat, n: nat, e: nat, cmp: (T, T) -> int)
    requires 0 < k && s != [] && n == Min(k, |s|) && e == Min(2 * k, |s|) && n <= e <= |s|
    ensures Pass(s, k, cmp) == Merge(s[..n], s[n..e], cmp) + Pass(s[e..], k, cmp)
    ensures Merges(|s|, k) == 1 + Merges(|s[e..]|, k)
  {
    hide Merge, Min;
  }

  lemma SliceAgain<T>(s: seq<T>, n: nat, m: nat, e: nat)
    requires n + m == e <= |s|
    ensures s[n..][..m] == s[n..e] && s[n..][m..] == s[e..]
  {
  }

  lemma PassesUnfold<T>(s: seq<T>, k: nat, cmp: (T, T) -> int)
    requires 0 < k
    ensures |Pass(s, k, cmp)| == |s|
    ensures Passes(s, k, cmp) ==
            if |s| <= 2 * k then Pass(s, k, cmp) else Passes(Pass(s, k, cmp), 2 * k, cmp)
  {
    PassLength(s, k, cmp);
  }

  /** The loop's own test, "at most one merge", says that the runs now span the whole list. */
  lemma {:induction false} OneMergeMeansDone(n: nat, k: nat)
    requires 0 < k
    ensures Merges(n, k) <= 1 <==> n <= 2 * k
    ensures Merges(n, k) <= n
    decreases n
  {
    if n > 0 {
      OneMergeMeansDone(n - Min(2 * k, n), k);
    }
  }

  // ---- Merging sorted runs ----

  lemma FirstAndRest<T>(s: seq<T>)
    requires s != []
    ensures multiset(s) == multiset([s[0]]) + multiset(s[1..])
  {
    assert s == [s[0]] + s[1..];
  }

  lemma {:induction false} MergeElements<T>(p: seq<T>, q: seq<T>, cmp: (T, T) -> int)
    ensures multiset(Merge(p, q, cmp)) == multiset(p) + multiset(q)
    decreases |p| + |q|
  {
    if p == [] {
    } else if q == [] {
    } else if cmp(p[0], q[0]) <= 0 {
      MergeElements(p[1..], q, cmp);
      FirstAndRest(p);
    } else {
      MergeElements(p, q[1..], cmp);
      FirstAndRest(q);
    }
  }

  lemma SortedCons<T>(x: T, s: seq<T>, cmp: (T, T) -> int)
    requires Sorted(s, cmp)
    requires forall y :: y in s ==> cmp(x, y) <= 0
    ensures Sorted([x] + s, cmp)
  {
    var r := [x] + s;
    forall i, j | 0 <= i < j < |r| ensures cmp(r[i], r[j]) <= 0 {
      assert r[j] == s[j - 1];
    }
  }

  /** Nothing sorted after `x` by its own run can come before it in the merged run. */
  lemma LeastOfMerged<T>(x: T, p: seq<T>, q: seq<T>, cmp: (T, T) -> int)
    requires forall y :: y in p ==> cmp(x, y) <= 0
    requires forall y :: y in q ==> cmp(x, y) <= 0
    ensures forall y :: y in Merge(p, q, cmp) ==> cmp(x, y) <= 0
  {
    MergeElements(p, q, cmp);
    forall y | y in Merge(p, q, cmp) ensures cmp(x, y) <= 0 {
      assert y in multiset(Merge(p, q, cmp));
    }
  }

  lemma SortedBelow<T>(x: T, s: seq<T>, dom: set<T>, cmp: (T, T) -> int)
    requires TotalPreorder(dom, cmp) && Over([x] + s, dom) && Sorted(s, cmp)
    requires s != [] ==> cmp(x, s[0]) <= 0
    ensures forall y :: y in s ==> cmp(x, y) <= 0
  {
  }

  lemma {:induction false} MergeSorted<T>(p: seq<T>, q: seq<T>, dom: set<T>, cmp: (T, T) -> int)
    requires TotalPreorder(dom, cmp) && Over(p, dom) && Over(q, dom) && Sorted(p, cmp) && Sorted(q, cmp)
    ensures Sorted(Merge(p, q, cmp), cmp)
    decreases |p| + |q|
  {
    if p == [] {
    } else if q == [] {
    } else if cmp(p[0], q[0]) <= 0 {
      MergeSorted(p[1..], q, dom, cmp);
      SortedBelow(p[0], p[1..], dom, cmp);
      SortedBelow(p[0], q, dom, cmp);
      LeastOfMerged(p[0], p[1..], q, cmp);
      SortedCons(p[0], Merge(p[1..], q, cmp), cmp);
    } else {
      MergeSorted(p, q[1..], dom, cmp);
      SortedBelow(q[0], p, dom, cmp);
      SortedBelow(q[0], q[1..], dom, cmp);
      LeastOfMerged(q[0], p, q[1..], cmp);
      SortedCons(q[0], Merge(p, q[1..], cmp), cmp);
    }
  }

  lemma {:induction false} ClassOfConcat<T>(s: seq<T>, t: seq<T>, x: T, cmp: (T, T) -> int)
    ensures ClassOf(s + t, x, cmp) == ClassOf(s, x, cmp) + ClassOf(t, x, cmp)
    decreases |s|
  {
    if s == [] {
      assert s + t == t;
    } else {
      ClassOfConcat(s[1..], t, x, cmp);
      assert (s + t)[1..] == s[1..] + t;
    }
  }

  lemma {:induction false} ClassOfNone<T>(s: seq<T>, x: T, cmp: (T, T) -> int)
    requires forall y :: y in s ==> !Alike(y, x, cmp)
    ensures ClassOf(s, x, cmp) == []
    decreases |s|
  {
    if s != [] {
      ClassOfNone(s[1..], x, cmp);
    }
  }

  lemma ClassOfFirst<T>(s: seq<T>, x: T, cmp: (T, T) -> int)
    requires s != []
    ensures ClassOf(s, x, cmp) == (if Alike(s[0], x, cmp) then [s[0]] else []) + ClassOf(s[1..], x, cmp)
  {
  }

  lemma ClassOfCons<T>(y: T, s: seq<T>, x: T, cmp: (T, T) -> int)
    ensures ClassOf([y] + s, x, cmp) == (if Alike(y, x, cmp) then [y] else []) + ClassOf(s, x, cmp)
  {
    assert ([y] + s)[1..] == s;
  }

  lemma {:induction false} MergeStable<T>(p: seq<T>, q: seq<T>, x: T, dom: set<T>, cmp: (T, T) -> int)
    requires TotalPreorder(dom, cmp) && x in dom && Over(p, dom) && Over(q, dom) && Sorted(p, cmp) && Sorted(q, cmp)
    ensures ClassOf(Merge(p, q, cmp), x, cmp) == ClassOf(p, x, cmp) + ClassOf(q, x, cmp)
    decreases |p| + |q|
  {
    if p == [] || q == [] {
    } else if cmp(p[0], q[0]) <= 0 {
      MergeStable(p[1..], q, x, dom, cmp);
      hide ClassOf;
      ClassOfFirst(p, x, cmp);
      ClassOfCons(p[0], Merge(p[1..], q, cmp), x, cmp);
    } else {
      MergeStable(p, q[1..], x, dom, cmp);
      if Alike(q[0], x, cmp) {
        forall y | y in p ensures !Alike(y, x, cmp) {
          assert cmp(p[0], y) <= 0;
        }
        ClassOfNone(p, x, cmp);
      }
      hide ClassOf;
      ClassOfFirst(q, x, cmp);
      ClassOfCons(q[0], Merge(p, q[1..], cmp), x, cmp);
    }
  }

  // ---- Passes ----

  /** `s` is cut into sorted runs of `k` elements, the last one possibly shorter. */
  ghost predicate SortedRuns<T>(s: seq<T>, k: nat, cmp: (T, T) -> int)
    requires 0 < k
    decreases |s|
  {
    s == [] || (Sorted(s[..Min(k, |s|)], cmp) && SortedRuns(s[Min(k, |s|)..], k, cmp))
  }

  lemma {:induction false} RunsOfOne<T>(s: seq<T>, cmp: (T, T) -> int)
    ensures SortedRuns(s, 1, cmp)
    decreases |s|
  {
    if s != [] {
      RunsOfOne(s[1..], cmp);
    }
  }

  lemma CutElements<T>(s: seq<T>, n: nat)
    requires n <= |s|
    ensures multiset(s) == multiset(s[..n]) + multiset(s[n..])
  {
    assert s == s[..n] + s[n..];
  }

  lemma CutTwice<T>(s: seq<T>, n: nat, m: nat)
    requires n <= m <= |s|
    ensures multiset(s) == multiset(s[..n]) + multiset(s[n..m]) + multiset(s[m..])
  {
    CutElements(s, m);
    CutElements(s[..m], n);
    assert s[..m][..n] == s[..n] && s[..m][n..] == s[n..m];
  }

  lemma PairElements<T>(p: seq<T>, q: seq<T>, rest: seq<T>, done: seq<T>, cmp: (T, T) -> int)
    requires multiset(done) == multiset(rest)
    ensures multiset(Merge(p, q, cmp) + done) == multiset(p) + multiset(q) + multiset(rest)
  {
    MergeElements(p, q, cmp);
  }

  lemma PairClasses<T>(s: seq<T>, n: nat, m: nat, done: seq<T>, x: T, dom: set<T>, cmp: (T, T) -> int)
    requires TotalPreorder(dom, cmp) && Over(s, dom) && x in dom && n <= m <= |s| && Sorted(s[..n], cmp) && Sorted(s[n..m], cmp)
    requires ClassOf(done, x, cmp) == ClassOf(s[m..], x, cmp)
    ensures ClassOf(Merge(s[..n], s[n..m], cmp) + done, x, cmp) == ClassOf(s, x, cmp)
  {
    hide TotalPreorder, Over, Sorted, ClassOf, Merge;
    OverSlice(s, 0, n, dom);
    OverSlice(s, n, m, dom);
    assert s[0..n] == s[..n];
    MergeStable(s[..n], s[n..m], x, dom, cmp);
    ThreeClasses(s[..n], s[n..m], s[m..], x, cmp);
    ClassOfConcat(Merge(s[..n], s[n..m], cmp), done, x, cmp);
    assert s == s[..n] + s[n..m] + s[m..];
  }

  lemma ThreeClasses<T>(p: seq<T>, q: seq<T>, r: seq<T>, x: T, cmp: (T, T) -> int)
    ensures ClassOf(p + q + r, x, cmp) == ClassOf(p, x, cmp) + ClassOf(q, x, cmp) + ClassOf(r, x, cmp)
  {
    hide ClassOf;
    ClassOfConcat(p, q, x, cmp);
    ClassOfConcat(p + q, r, x, cmp);
  }

  lemma OverSlice<T>(s: seq<T>, n: nat, m: nat, dom: set<T>)
    requires Over(s, dom) && n <= m <= |s|
    ensures Over(s[n..m], dom)
  {
  }

  /** A pass turns sorted runs of length k into sorted runs of length 2k. */
  lemma {:induction false} PassDoublesRuns<T>(s: seq<T>, k: nat, dom: set<T>, cmp: (T, T) -> int)
    requires 0 < k && TotalPreorder(dom, cmp) && Over(s, dom) && SortedRuns(s, k, cmp)
    ensures SortedRuns(Pass(s, k, cmp), 2 * k, cmp)
    decreases |s|
  {
    if s != [] {
      var n, m := Min(k, |s|), Min(2 * k, |s|);
      SecondRun(s, k, cmp);
      MergeSorted(s[..n], s[n..m], dom, cmp);
      MergeLength(s[..n], s[n..m], cmp);
      PassDoublesRuns(s[m..], k, dom, cmp);
      FirstRun(Merge(s[..n], s[n..m], cmp), Pass(s[m..], k, cmp), 2 * k, cmp);
    }
  }

  /** A pass over sorted runs never reorders elements that compare equal. */
  lemma {:induction false} PassStable<T>(s: seq<T>, k: nat, dom: set<T>, cmp: (T, T) -> int)
    requires 0 < k && TotalPreorder(dom, cmp) && Over(s, dom) && SortedRuns(s, k, cmp)
    ensures StableRearrangement(s, Pass(s, k, cmp), dom, cmp)
    decreases |s|
  {
    if s != [] {
      var n, m := Min(k, |s|), Min(2 * k, |s|);
      SecondRun(s, k, cmp);
      PassStable(s[m..], k, dom, cmp);
      PassRearranges(s, k, cmp);
      forall x | x in dom ensures ClassOf(Pass(s, k, cmp), x, cmp) == ClassOf(s, x, cmp) {
        PairClasses(s, n, m, Pass(s[m..], k, cmp), x, dom, cmp);
      }
    }
  }

  lemma FirstRun<T>(head: seq<T>, tail: seq<T>, k: nat, cmp: (T, T) -> int)
    requires 0 < k && Sorted(head, cmp) && SortedRuns(tail, k, cmp)
    requires |head| == k || (0 < |head| < k && tail == [])
    ensures SortedRuns(head + tail, k, cmp)
  {
    var s := head + tail;
    assert s[..|head|] == head && s[|head|..] == tail;
  }

  lemma SecondRun<T>(s: seq<T>, k: nat, cmp: (T, T) -> int)
    requires 0 < k && s != [] && SortedRuns(s, k, cmp)
    ensures Sorted(s[Min(k, |s|)..Min(2 * k, |s|)], cmp)
    ensures SortedRuns(s[Min(2 * k, |s|)..], k, cmp)
  {
    var n, m := Min(k, |s|), Min(2 * k, |s|);
    var t := s[n..];
    if t != [] {
      assert t[..Min(k, |t|)] == s[n..m];
      assert t[Min(k, |t|)..] == s[m..];
    }
  }

  lemma OverRearranged<T>(s: seq<T>, r: seq<T>, dom: set<T>)
    requires Over(s, dom) && multiset(r) == multiset(s)
    ensures Over(r, dom)
  {
    forall y | y in r ensures y in dom {
      assert y in multiset(r);
    }
  }

  /** Whatever `cmp` answers, a pass only rearranges. */
  lemma {:induction false} PassRearranges<T>(s: seq<T>, k: nat, cmp: (T, T) -> int)
    requires 0 < k
    ensures multiset(Pass(s, k, cmp)) == multiset(s)
    decreases |s|
  {
    if s != [] {
      var n, m := Min(k, |s|), Min(2 * k, |s|);
      PassRearranges(s[m..], k, cmp);
      PairElements(s[..n], s[n..m], s[m..], Pass(s[m..], k, cmp), cmp);
      CutTwice(s, n, m);
    }
  }

  lemma {:induction false} PassesRearrange<T>(s: seq<T>, k: nat, cmp: (T, T) -> int)
    requires 0 < k
    ensures multiset(Passes(s, k, cmp)) == multiset(s) && |Passes(s, k, cmp)| == |s|
    decreases if k < |s| then |s| - k else 0
  {
    PassRearranges(s, k, cmp);
    PassesUnfold(s, k, cmp);
    if |s| > 2 * k {
      PassesRearrange(Pass(s, k, cmp), 2 * k, cmp);
    }
  }

  /** All the passes together sort, keeping elements that compare equal in order. */
  lemma {:induction false} PassesSort<T>(s: seq<T>, k: nat, dom: set<T>, cmp: (T, T) -> int)
    requires 0 < k && TotalPreorder(dom, cmp) && Over(s, dom) && SortedRuns(s, k, cmp)
    ensures Sorted(Passes(s, k, cmp), cmp)
    ensures StableRearrangement(s, Passes(s, k, cmp), dom, cmp)
    decreases if k < |s| then |s| - k else 0
  {
    var r := Pass(s, k, cmp);
    PassDoublesRuns(s, k, dom, cmp);
    PassStable(s, k, dom, cmp);
    PassLength(s, k, cmp);
    if |s| <= 2 * k {
      assert r == [] || r[..Min(2 * k, |r|)] == r;
    } else {
      OverRearranged(s, r, dom);
      PassesSort(r, 2 * k, dom, cmp);
    }
  }

  // ---- The promise determines the result ----

  lemma {:induction false} ClassMembers<T>(s: seq<T>, x: T, cmp: (T, T) -> int)
    ensures forall y :: y in ClassOf(s, x, cmp) ==> y in s
    ensures (forall i :: 0 <= i < |s| && Alike(s[i], x, cmp) ==> s[i] in ClassOf(s, x, cmp))
    decreases |s|
  {
    if s != [] {
      ClassMembers(s[1..], x, cmp);
      forall i | 0 <= i < |s| && Alike(s[i], x, cmp) ensures s[i] in ClassOf(s, x, cmp) {
        if i > 0 {
          assert s[i] == s[1..][i - 1];
        }
      }
    }
  }

  lemma SameFirst<T>(r: seq<T>, t: seq<T>, dom: set<T>, cmp: (T, T) -> int)
    requires TotalPreorder(dom, cmp) && Over(r, dom) && Over(t, dom) && Sorted(r, cmp) && Sorted(t, cmp)
    requires forall x :: x in dom ==> ClassOf(r, x, cmp) == ClassOf(t, x, cmp)
    requires r != []
    ensures t != [] && r[0] == t[0]
  {
    ClassMembers(r, r[0], cmp);
    ClassMembers(t, r[0], cmp);
    assert r[0] in t;
    ClassMembers(r, t[0], cmp);
    ClassMembers(t, t[0], cmp);
    assert t[0] in r;
    assert cmp(r[0], t[0]) <= 0 && cmp(t[0], r[0]) <= 0;
    assert ClassOf(r, r[0], cmp)[0] == r[0];
    assert ClassOf(t, r[0], cmp)[0] == t[0];
  }

  lemma TailOf<T>(s: seq<T>, dom: set<T>, cmp: (T, T) -> int)
    requires s != [] && Over(s, dom) && Sorted(s, cmp)
    ensures Over(s[1..], dom) && Sorted(s[1..], cmp)
  {
  }

  lemma DropSame<T>(a: seq<T>, b: seq<T>, c: seq<T>)
    requires a + b == a + c
    ensures b == c
  {
    assert b == (a + b)[|a|..] && c == (a + c)[|a|..];
  }

  /** There is only one sorted stable rearrangement, so any two stable sorts agree. */
  lemma {:induction false} StableSortUnique<T>(r: seq<T>, t: seq<T>, dom: set<T>, cmp: (T, T) -> int)
    requires TotalPreorder(dom, cmp) && Over(r, dom) && Over(t, dom) && Sorted(r, cmp) && Sorted(t, cmp)
    requires forall x :: x in dom ==> ClassOf(r, x, cmp) == ClassOf(t, x, cmp)
    ensures r == t
    decreases |r|
  {
    if r == [] {
      if t != [] {
        SameFirst(t, r, dom, cmp);
      }
    } else {
      SameFirst(r, t, dom, cmp);
      TailOf(r, dom, cmp);
      TailOf(t, dom, cmp);
      hide TotalPreorder, Over, Sorted, ClassOf, Alike;
      forall x | x in dom ensures ClassOf(r[1..], x, cmp) == ClassOf(t[1..], x, cmp) {
        ClassOfFirst(r, x, cmp);
        ClassOfFirst(t, x, cmp);
        DropSame(if Alike(r[0], x, cmp) then [r[0]] else [], ClassOf(r[1..], x, cmp), ClassOf(t[1..], x, cmp));
      }
      StableSortUnique(r[1..], t[1..], dom, cmp);
      assert r == [r[0]] + r[1..] && t == [t[0]] + t[1..];
    }
  }
}
