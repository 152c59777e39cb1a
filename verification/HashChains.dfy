/** The bucket chains of the hash table: which handle belongs on which chain, and the pointer
    surgery of HASH_ADD_TO_BKT, HASH_DEL_IN_BKT and HASH_FIND_IN_BKT on a single chain. */
module HashChains {
  import opened Handles
  import opened HashLoad

  // ---- Which chain ----

  ghost function Home(h: Handle, hash: Key -> nat, n: nat): nat
    requires 0 < n
  {
    hash(h.key) % n
  }

  /** The handles of `all`, and no others, are on the chains, each once, on the chain its hash
      value selects. */
  ghost predicate Placed(all: set<Handle>, chains: seq<seq<Handle>>, hash: Key -> nat) {
    && 0 < |chains|
    && (forall b, i :: 0 <= b < |chains| && 0 <= i < |chains[b]| ==>
          chains[b][i] in all && Home(chains[b][i], hash, |chains|) == b)
    && (forall h :: h in all ==> h in chains[Home(h, hash, |chains|)])
    && (forall b :: 0 <= b < |chains| ==> Distinct(chains[b]))
  }

  lemma PlacedNone(chains: seq<seq<Handle>>, hash: Key -> nat)
    requires 0 < |chains| && forall b :: 0 <= b < |chains| ==> chains[b] == []
    ensures Placed({}, chains, hash)
  {
  }

  lemma PlacedAdd(all: set<Handle>, chains: seq<seq<Handle>>, h: Handle, hash: Key -> nat)
    requires Placed(all, chains, hash) && h !in all
    ensures var j := Home(h, hash, |chains|);
            Placed(all + {h}, chains[j := [h] + chains[j]], hash)
  {
    var j := Home(h, hash, |chains|);
    var c := [h] + chains[j];
    var chains' := chains[j := c];
    forall g | g in all + {h} ensures g in chains'[Home(g, hash, |chains'|)] {
      if g == h {
        assert c[0] == h;
      } else if Home(g, hash, |chains|) == j {
        var i :| 0 <= i < |chains[j]| && chains[j][i] == g;
        assert c[i + 1] == g;
      }
    }
  }

  /** Cutting one handle out of its chain. */
  lemma PlacedDelete(all: set<Handle>, chains: seq<seq<Handle>>, j: nat, i: nat, hash: Key -> nat)
    requires Placed(all, chains, hash) && j < |chains| && i < |chains[j]|
    ensures Placed(all - {chains[j][i]}, chains[j := chains[j][..i] + chains[j][i + 1..]], hash)
  {
    var c, h := chains[j], chains[j][i];
    var c' := c[..i] + c[i + 1..];
    var chains' := chains[j := c'];
    assert forall k :: 0 <= k < |c'| ==> c'[k] == c[if k < i then k else k + 1];
    forall g | g in all - {h} ensures g in chains'[Home(g, hash, |chains'|)] {
      if Home(g, hash, |chains|) == j {
        var k :| 0 <= k < |c| && c[k] == g;
        assert g == c'[if k < i then k else k - 1];
      }
    }
  }

  // ---- Links ----

  /** Following `hh_next` from the first handle of `c` visits exactly `c`. */
  ghost predicate Follows(c: seq<Handle>)
    reads c`hhNext
  {
    && (forall i :: 0 <= i < |c| - 1 ==> c[i].hhNext == c[i + 1])
    && (c != [] ==> c[|c| - 1].hhNext == null)
  }

  ghost predicate Precedes(c: seq<Handle>)
    reads c`hhPrev
  {
    && (c != [] ==> c[0].hhPrev == null)
    && (forall i :: 0 < i < |c| ==> c[i].hhPrev == c[i - 1])
  }

  ghost predicate Linked(c: seq<Handle>)
    reads c`hhNext, c`hhPrev
  {
    Follows(c) && Precedes(c)
  }

  ghost function Members(chains: seq<seq<Handle>>): (s: set<Handle>)
    ensures forall b, i :: 0 <= b < |chains| && 0 <= i < |chains[b]| ==> chains[b][i] in s
  {
    set b, i | 0 <= b < |chains| && 0 <= i < |chains[b]| :: chains[b][i]
  }

  ghost predicate AllLinked(chains: seq<seq<Handle>>)
    reads Members(chains)`hhNext, Members(chains)`hhPrev
  {
    forall b :: 0 <= b < |chains| ==> Linked(chains[b])
  }

  /** The bucket array describes the chains. */
  ghost predicate Describes(bs: seq<Bucket>, chains: seq<seq<Handle>>) {
    && |bs| == |chains|
    && forall b :: 0 <= b < |bs| ==> bs[b].hhHead == First(chains[b]) && bs[b].count == |chains[b]|
  }

  /** Puts `h` in front of the chain that starts at `first`. */
  method LinkFirst(first: Handle?, h: Handle, ghost c: seq<Handle>)
    requires Linked(c) && Distinct(c) && first == First(c) && h !in c
    modifies h`hhNext, h`hhPrev, c`hhPrev
    ensures Linked([h] + c)
  {
    h.hhNext := first;
    h.hhPrev := null;
    if first != null {
      first.hhPrev := h;
    }
    ghost var d := [h] + c;
    assert forall i :: 0 < i < |d| ==> d[i] == c[i - 1] && c[i - 1] != h;
  }

  /** Puts `h` in front of chain `j`, leaving every other chain as it was. */
  method PushChain(first: Handle?, h: Handle, ghost j: nat, ghost chains: seq<seq<Handle>>,
                   ghost all: set<Handle>, ghost hash: Key -> nat)
    requires Placed(all, chains, hash) && AllLinked(chains) && h !in all
    requires j < |chains| && first == First(chains[j])
    modifies h`hhNext, h`hhPrev, all`hhPrev
    ensures AllLinked(chains[j := [h] + chains[j]])
  {
    assert forall i :: 0 <= i < |chains[j]| ==> chains[j][i] in all;
    LinkFirst(first, h, chains[j]);
    forall b | 0 <= b < |chains| && b != j ensures Linked(chains[b]) {
      assert forall i :: 0 <= i < |chains[b]| ==> chains[b][i] != h && chains[b][i] !in chains[j];
    }
  }

  /** Cuts `h` out of the chain `c`; the bucket's own head is the caller's to update. */
  method UnlinkOne(h: Handle, ghost c: seq<Handle>, ghost i: nat)
    requires Linked(c) && Distinct(c) && i < |c| && h == c[i]
    modifies c`hhNext, c`hhPrev
    ensures Linked(c[..i] + c[i + 1..])
  {
    ghost var d := c[..i] + c[i + 1..];
    assert h.hhPrev == (if i > 0 then c[i - 1] else null);
    assert h.hhNext == (if i + 1 < |c| then c[i + 1] else null);
    assert h.hhPrev != null ==> h.hhPrev in c;
    assert h.hhNext != null ==> h.hhNext in c;
    assert forall k :: 0 <= k < |d| ==> d[k] == c[if k < i then k else k + 1];
    if h.hhPrev != null {
      h.hhPrev.hhNext := h.hhNext;
    }
    if h.hhNext != null {
      h.hhNext.hhPrev := h.hhPrev;
    }
  }

  method PullChain(h: Handle, ghost j: nat, ghost i: nat, ghost chains: seq<seq<Handle>>,
                   ghost all: set<Handle>, ghost hash: Key -> nat)
    requires Placed(all, chains, hash) && AllLinked(chains)
    requires j < |chains| && i < |chains[j]| && h == chains[j][i]
    modifies all`hhNext, all`hhPrev
    ensures AllLinked(chains[j := chains[j][..i] + chains[j][i + 1..]])
  {
    assert forall i :: 0 <= i < |chains[j]| ==> chains[j][i] in all;
    UnlinkOne(h, chains[j], i);
    forall b | 0 <= b < |chains| && b != j ensures Linked(chains[b]) {
      assert forall i :: 0 <= i < |chains[b]| ==> chains[b][i] !in chains[j];
    }
  }

  /** HASH_FIND_IN_BKT: walks a chain for the first handle with the key. */
  method FindInBucket(first: Handle?, key: Key, ghost c: seq<Handle>) returns (out: Handle?)
    requires Follows(c) && first == First(c)
    ensures out != null ==> out in c && out.key == key
    ensures out == null ==> forall h :: h in c ==> h.key != key
  {
    out := first;
    ghost var i := 0;
    while out != null
      invariant i <= |c| && out == First(c[i..])
      invariant forall k :: 0 <= k < i ==> c[k].key != key
      decreases |c| - i
    {
      assert out == c[i];
      if |out.key| == |key| && out.key == key {
        break;
      }
      assert c[i].hhNext == (if i + 1 < |c| then c[i + 1] else null);
      assert c[i].hhNext == First(c[i + 1..]);
      out := out.hhNext;
      i := i + 1;
    }
  }
}
