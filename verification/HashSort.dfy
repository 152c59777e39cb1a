/** HASH_SRT: an in-place, bottom-up merge sort that relinks the application-order list. */
module HashSort {
  import opened Handles
  import RunMerge

  /** The list built so far: fully linked except for the last `next`. */
  ghost predicate Built(outs: seq<Handle>, list: Handle?, tail: Handle?)
    reads outs`next, outs`prev
  {
    && Distinct(outs) && NextInside(outs) && PrevInside(outs)
    && list == First(outs) && tail == Last(outs)
  }

  /** What is left of the list being consumed. */
  ghost predicate Remaining(qs: seq<Handle>, q: Handle?)
    reads qs`next
  {
    && Distinct(qs) && NextInside(qs) && q == First(qs)
    && (qs != [] ==> qs[|qs| - 1].next == null)
  }

  /** Links `e` after the last handle built. */
  method Emit(list: Handle?, tail: Handle?, e: Handle, ghost outs: seq<Handle>)
    returns (list': Handle?, tail': Handle?)
    requires Built(outs, list, tail) && e !in outs
    modifies outs`next, e`prev
    ensures Built(outs + [e], list', tail')
  {
    list' := list;
    if tail != null {
      tail.next := e;
    } else {
      list' := e;
    }
    e.prev := tail;
    tail' := e;
  }

  /** The state inside one merge: `ps` is what is left of the first run, `qs` everything from the
      head of the second run on. */
  ghost predicate Merging(outs: seq<Handle>, ps: seq<Handle>, qs: seq<Handle>,
                          list: Handle?, tail: Handle?, p: Handle?, q: Handle?)
    reads outs`next, outs`prev, ps`next, qs`next
  {
    && Built(outs, list, tail)
    && Distinct(ps) && NextInside(ps) && (ps != [] ==> p == ps[0])
    && Remaining(qs, q)
    && Apart(outs, ps) && Apart(outs, qs) && Apart(ps, qs)
  }

  /** The next handle to emit, and the pointers that move past it. */
  method Choose(p: Handle?, psize: nat, q: Handle?, qsize: nat, cmp: (Handle, Handle) -> int,
                ghost ps: seq<Handle>, ghost qs: seq<Handle>)
    returns (e: Handle, p': Handle?, psize': nat, q': Handle?, qsize': nat)
    requires psize > 0 || (qsize > 0 && q != null)
    requires |ps| == psize && NextInside(ps) && (ps != [] ==> p == ps[0])
    requires Remaining(qs, q)
    ensures if qsize == 0 || qs == [] || (ps != [] && cmp(ps[0], qs[0]) <= 0)
      then ps != [] && e == ps[0] && psize' == psize - 1 && qsize' == qsize && q' == q &&
           (1 < |ps| ==> p' == ps[1])
      else e == qs[0] && psize' == psize && qsize' == qsize - 1 && p' == p &&
           q' == First(qs[1..])
  {
    p', psize', q', qsize' := p, psize, q, qsize;
    if psize == 0 {
      e := q;
      q' := q.next;
      qsize' := qsize - 1;
    } else if qsize == 0 || q == null {
      e := p;
      p' := p.next;
      psize' := psize - 1;
    } else if cmp(p, q) <= 0 {
      e := p;
      p' := p.next;
      psize' := psize - 1;
    } else {
      e := q;
      q' := q.next;
      qsize' := qsize - 1;
    }
  }

  /** The handles of `s` all belong to `all`. */
  ghost predicate Within(s: seq<Handle>, all: set<Handle>) {
    forall i :: 0 <= i < |s| ==> s[i] in all
  }

  /** The C test for taking the next handle from the first run. */
  ghost predicate TakesFirst(ps: seq<Handle>, qs: seq<Handle>, qsize: nat, cmp: (Handle, Handle) -> int) {
    qsize == 0 || qs == [] || (ps != [] && cmp(ps[0], qs[0]) <= 0)
  }

  /** One turn of the merge loop. */
  method MergeOne(p: Handle?, psize: nat, q: Handle?, qsize: nat,
                  list: Handle?, tail: Handle?, cmp: (Handle, Handle) -> int,
                  ghost outs: seq<Handle>, ghost ps: seq<Handle>, ghost qs: seq<Handle>,
                  ghost all: set<Handle>)
    returns (p': Handle?, psize': nat, q': Handle?, qsize': nat, list': Handle?, tail': Handle?,
             ghost outs': seq<Handle>, ghost ps': seq<Handle>, ghost qs': seq<Handle>)
    requires psize > 0 || (qsize > 0 && q != null)
    requires Merging(outs, ps, qs, list, tail, p, q) && psize == |ps|
    requires Within(outs, all) && Within(ps, all) && Within(qs, all)
    modifies all`next, all`prev
    ensures Merging(outs', ps', qs', list', tail', p', q') && psize' == |ps'|
    ensures Within(outs', all) && Within(ps', all) && Within(qs', all)
    ensures if TakesFirst(ps, qs, qsize, cmp)
      then ps != [] && outs' == outs + [ps[0]] && ps' == ps[1..] && qs' == qs && qsize' == qsize
      else qs != [] && outs' == outs + [qs[0]] && ps' == ps && qs' == qs[1..] && qsize' == qsize - 1
  {
    var e;
    e, p', psize', q', qsize' := Choose(p, psize, q, qsize, cmp, ps, qs);
    outs' := outs + [e];
    if TakesFirst(ps, qs, qsize, cmp) {
      ps', qs' := ps[1..], qs;
    } else {
      ps', qs' := ps, qs[1..];
    }
    list', tail' := Emit(list, tail, e, outs);
  }

  /** Taking one handle leaves what the merge will produce unchanged. */
  lemma MergeTurn(outs: seq<Handle>, ps: seq<Handle>, qs: seq<Handle>, cmp: (Handle, Handle) -> int)
    requires ps != [] || qs != []
    ensures if qs == [] || (ps != [] && cmp(ps[0], qs[0]) <= 0)
      then outs + [ps[0]] + RunMerge.Merge(ps[1..], qs, cmp) == outs + RunMerge.Merge(ps, qs, cmp)
      else outs + [qs[0]] + RunMerge.Merge(ps, qs[1..], cmp) == outs + RunMerge.Merge(ps, qs, cmp)
  {
    if qs == [] || (ps != [] && cmp(ps[0], qs[0]) <= 0) {
      assert RunMerge.Merge(ps, qs, cmp) == [ps[0]] + RunMerge.Merge(ps[1..], qs, cmp);
    } else {
      assert RunMerge.Merge(ps, qs, cmp) == [qs[0]] + RunMerge.Merge(ps, qs[1..], cmp);
    }
  }

  lemma MergingParts(outs: seq<Handle>, ps: seq<Handle>, qs: seq<Handle>,
                     list: Handle?, tail: Handle?, p: Handle?, q: Handle?)
    requires Merging(outs, ps, qs, list, tail, p, q)
    ensures Built(outs, list, tail) && Remaining(qs, q) && Apart(outs, qs)
    ensures q == null <==> qs == []
  {
  }

  lemma DropFirst<T>(run: seq<T>, rest: seq<T>)
    requires run != []
    ensures (run + rest)[1..] == run[1..] + rest
  {
  }

  /** Merges the run `ps` with the first `qsize` handles of `qs` onto the end of the built list. */
  method MergeRuns(p0: Handle?, psize0: nat, q0: Handle?, qsize0: nat,
                   list0: Handle?, tail0: Handle?, cmp: (Handle, Handle) -> int,
                   ghost outs0: seq<Handle>, ghost ps0: seq<Handle>, ghost qs0: seq<Handle>,
                   ghost all: set<Handle>)
    returns (q: Handle?, list: Handle?, tail: Handle?, ghost outs: seq<Handle>, ghost qs: seq<Handle>)
    requires Merging(outs0, ps0, qs0, list0, tail0, p0, q0) && psize0 == |ps0|
    requires Within(outs0, all) && Within(ps0, all) && Within(qs0, all)
    modifies all`next, all`prev
    ensures Built(outs, list, tail) && Remaining(qs, q) && Apart(outs, qs)
    ensures Within(outs, all) && Within(qs, all)
    ensures var m := RunMerge.Min(qsize0, |qs0|);
      && outs == outs0 + RunMerge.Merge(ps0, qs0[..m], cmp)
      && qs == qs0[m..]
  {
    hide Merging, Within, Built, Remaining, Apart;
    var p, psize, qsize := p0, psize0, qsize0;
    q, list, tail := q0, list0, tail0;
    outs, qs := outs0, qs0;
    ghost var ps := ps0;
    ghost var run, rest := qs0[..RunMerge.Min(qsize0, |qs0|)], qs0[RunMerge.Min(qsize0, |qs0|)..];
    MergingParts(outs, ps, qs, list, tail, p, q);
    while psize > 0 || (qsize > 0 && q != null)
      invariant psize == |ps| && qs == run + rest
      invariant |run| <= qsize && (|run| == qsize || rest == [])
      invariant Merging(outs, ps, qs, list, tail, p, q) && (q == null <==> qs == [])
      invariant Within(outs, all) && Within(ps, all) && Within(qs, all)
      invariant outs + RunMerge.Merge(ps, run, cmp) ==
                outs0 + RunMerge.Merge(ps0, qs0[..RunMerge.Min(qsize0, |qs0|)], cmp)
      decreases psize + qsize
    {
      MergeTurn(outs, ps, run, cmp);
      ghost var left := |qs|;
      p, psize, q, qsize, list, tail, outs, ps, qs :=
        MergeOne(p, psize, q, qsize, list, tail, cmp, outs, ps, qs, all);
      if |qs| < left {
        DropFirst(run, rest);
        run := run[1..];
      }
      MergingParts(outs, ps, qs, list, tail, p, q);
    }
    MergingParts(outs, ps, qs, list, tail, p, q);
    assert outs + [] == outs;
  }

  /** Steps `q` from `p` over the first run, counting its length. */
  method MeasureRun(p: Handle, insize: nat, ghost s: seq<Handle>) returns (q: Handle?, psize: nat)
    requires Remaining(s, p) && 0 < insize
    ensures psize == RunMerge.Min(insize, |s|) && q == First(s[psize..])
  {
    q, psize := p, 0;
    var i := 0;
    while i < insize
      invariant i == psize <= RunMerge.Min(insize, |s|) && q == First(s[psize..])
      invariant i < insize ==> psize < |s|
      decreases insize - i
    {
      assert q == s[psize];
      psize := psize + 1;
      q := q.next;
      assert psize < |s| ==> q == s[psize];
      if q == null {
        break;
      }
      i := i + 1;
    }
  }

  lemma SplitRun(s: seq<Handle>, p: Handle, n: nat, outs: seq<Handle>, list: Handle?, tail: Handle?)
    requires Remaining(s, p) && Built(outs, list, tail) && Apart(outs, s) && 0 < n <= |s|
    ensures Merging(outs, s[..n], s[n..], list, tail, p, First(s[n..]))
    ensures forall all :: Within(s, all) ==> Within(s[..n], all) && Within(s[n..], all)
  {
  }

  /** One merge pass over the whole list. */
  method SortPass(p0: Handle, insize: nat, cmp: (Handle, Handle) -> int, ghost items: seq<Handle>, ghost all: set<Handle>)
    returns (list: Handle?, tail: Handle?, nmerges: nat)
    requires 0 < insize && Remaining(items, p0) && Within(items, all)
    modifies all`next, all`prev
    ensures AppOrder(RunMerge.Pass(items, insize, cmp)) && Within(RunMerge.Pass(items, insize, cmp), all)
    ensures list == First(RunMerge.Pass(items, insize, cmp)) && tail == Last(RunMerge.Pass(items, insize, cmp))
    ensures nmerges == RunMerge.Merges(|items|, insize)
  {
    hide Built, Remaining, Apart, Within, RunMerge.Pass, RunMerge.Merges, RunMerge.Merge, AppOrder;
    RunMerge.PassNothing(insize, cmp);
    var p: Handle? := p0;
    list, tail, nmerges := null, null, 0;
    NothingBuilt(items, p0, all);
    ghost var outs, left := [], items;
    while p != null
      invariant Built(outs, list, tail) && Remaining(left, p) && Apart(outs, left)
      invariant p == null <==> left == []
      invariant Within(outs, all) && Within(left, all)
      invariant outs + RunMerge.Pass(left, insize, cmp) == RunMerge.Pass(items, insize, cmp)
      invariant nmerges + RunMerge.Merges(|left|, insize) == RunMerge.Merges(|items|, insize)
      decreases |left|
    {
      nmerges := nmerges + 1;
      var q, psize := MeasureRun(p, insize, left);
      SplitRun(left, p, psize, outs, list, tail);
      PassTurn(outs, left, insize, cmp);
      p, list, tail, outs, left :=
        MergeRuns(p, psize, q, insize, list, tail, cmp, outs, left[..psize], left[psize..], all);
      RemainingEnd(left, p);
    }
    assert outs == RunMerge.Pass(items, insize, cmp);
    list, tail := Close(list, tail, outs, all);
  }

  lemma NothingBuilt(items: seq<Handle>, p: Handle?, all: set<Handle>)
    requires Remaining(items, p)
    ensures Built([], null, null) && Apart([], items) && Within([], all)
    ensures p == null <==> items == []
  {
  }

  lemma RemainingEnd(s: seq<Handle>, p: Handle?)
    requires Remaining(s, p)
    ensures p == null <==> s == []
  {
  }

  /** Ends the list that a pass has built. */
  method Close(list: Handle?, tail: Handle?, ghost outs: seq<Handle>, ghost all: set<Handle>)
    returns (list': Handle?, tail': Handle?)
    requires Built(outs, list, tail) && Within(outs, all)
    modifies all`next
    ensures AppOrder(outs) && list' == First(outs) && tail' == Last(outs)
  {
    list', tail' := list, tail;
    if tail != null {
      tail.next := null;
    }
  }

  /** Merging the next pair of runs leaves what the pass will produce, and how often it will
      merge, unchanged. */
  lemma PassTurn(outs: seq<Handle>, s: seq<Handle>, k: nat, cmp: (Handle, Handle) -> int)
    requires 0 < k && s != []
    ensures var n := RunMerge.Min(k, |s|); var m := RunMerge.Min(k, |s[n..]|);
      && outs + RunMerge.Merge(s[..n], s[n..][..m], cmp) + RunMerge.Pass(s[n..][m..], k, cmp)
         == outs + RunMerge.Pass(s, k, cmp)
      && RunMerge.Merges(|s|, k) == 1 + RunMerge.Merges(|s[n..][m..]|, k)
  {
    var n := RunMerge.Min(k, |s|);
    var m := RunMerge.Min(k, |s[n..]|);
    RunMerge.PassUnfold(s, k, n, m, cmp);
    RegroupLists(outs, RunMerge.Merge(s[..n], s[n..][..m], cmp), RunMerge.Pass(s[n..][m..], k, cmp));
  }

  lemma RegroupLists(a: seq<Handle>, b: seq<Handle>, c: seq<Handle>)
    ensures a + b + c == a + (b + c)
  {
  }

  lemma AppOrderParts(s: seq<Handle>)
    requires AppOrder(s)
    ensures Remaining(s, First(s))
  {
  }

  /** HASH_SRT on a non-empty list. `insize` is a 32-bit unsigned counter; the loop always ends
      before its doubling could wrap round to a value that is used again. */
  method SortList(head: Handle, cmp: (Handle, Handle) -> int, ghost items: seq<Handle>, ghost all: set<Handle>)
    returns (head': Handle, tail': Handle, ghost sorted: seq<Handle>)
    requires AppOrder(items) && items != [] && head == items[0] && Within(items, all)
    requires |items| < 0x1_0000_0000
    modifies all`next, all`prev
    ensures sorted == RunMerge.Passes(items, 1, cmp)
    ensures AppOrder(sorted) && sorted != [] && head' == sorted[0] && tail' == sorted[|sorted| - 1]
  {
    hide Within, AppOrder, Remaining, RunMerge.Passes, RunMerge.Pass, RunMerge.Merges;
    var insize, looping := 1, true;
    AppOrderParts(items);
    var list: Handle? := head;
    sorted := items;
    head', tail' := head, head;
    while looping
      invariant looping ==> 0 < insize < 0x1_0000_0000 && Remaining(sorted, list) && sorted != []
      invariant Within(sorted, all) && |sorted| == |items|
      invariant list != null
      invariant looping ==> RunMerge.Passes(sorted, insize, cmp) == RunMerge.Passes(items, 1, cmp)
      invariant !looping ==> sorted == RunMerge.Passes(items, 1, cmp) && AppOrder(sorted) && sorted != []
      invariant !looping ==> head' == sorted[0] && tail' == sorted[|sorted| - 1]
      decreases looping, if insize < |items| then |items| - insize else 0
    {
      var tail, nmerges;
      RunMerge.OneMergeMeansDone(|sorted|, insize);
      RunMerge.PassesUnfold(sorted, insize, cmp);
      ghost var before := sorted;
      list, tail, nmerges := SortPass(list, insize, cmp, sorted, all);
      sorted := RunMerge.Pass(before, insize, cmp);
      assert list == sorted[0] && tail == sorted[|sorted| - 1];
      if nmerges <= 1 {
        looping := false;
        tail' := tail;
        head' := list;
      } else {
        AppOrderParts(sorted);
      }
      insize := (insize * 2) % 0x1_0000_0000;
    }
  }
}
