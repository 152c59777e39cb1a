/** What BULKMOV's register-by-register loop amounts to. */
module BulkMoves {
  import opened Wrappers
  import opened Bits
  import opened SlotWords
  import opened Machine

  /** Register `i` of the current window, reading nil beyond the end of the slots. */
  ghost function Reg(s: State, i: nat): Word {
    Slot(s, s.base + i)
  }

  /** The register that the i-th move effectively copies. When the target lies above the source,
      registers already overwritten are copied again, with period a - b. */
  ghost function Source(a: nat, b: nat, i: nat): nat {
    if a <= b then b + i else b + i % (a - b)
  }

  /** Whether every read falls inside the slots. Moving up, only the first read can fail: each
      write extends the slots past the next read. */
  ghost predicate Readable(s: State, a: nat, b: nat, n: nat) {
    n == 0 || (if a <= b then s.base + b + n <= |s.slots| else s.base + b < |s.slots|)
  }

  lemma PutReg(s: State, a: nat, w: Word)
    ensures Put(s, a, w) == s.(slots := Put(s, a, w).slots)
    ensures |Put(s, a, w).slots| == if s.base + a < |s.slots| then |s.slots| else s.base + a + 1
    ensures forall k :: Slot(Put(s, a, w), k) == if k == s.base + a then w else Slot(s, k)
  {
  }

  lemma NextSource(a: nat, b: nat, i: nat)
    requires b < a
    ensures Source(a, b, i + 1) == if Source(a + 1, b + 1, i) == a then b else Source(a + 1, b + 1, i)
    ensures Source(a, b, 0) == b
  {
    var d := a - b;
    var q, r := QuotientAndRemainder(i, d);
    DivModUnique(i, d, q, r);
    if r + 1 == d {
      assert q * d + d == (q + 1) * d;
      DivModUnique(i + 1, d, q + 1, 0);
    } else {
      DivModUnique(i + 1, d, q, r + 1);
    }
    DivModUnique(0, d, 0, 0);
  }

  /** Slot `k` of `t` holds what the move to it copied. */
  ghost predicate Copied(s: State, t: State, a: nat, b: nat, k: nat) {
    k >= s.base + a ==> Slot(t, k) == Reg(s, Source(a, b, k - s.base - a))
  }

  /** BULKMOV runs out of bounds exactly when a read falls outside the slots. Otherwise the i-th
      target register gets the old value of its source, and no other slot changes. */
  lemma {:induction false} BulkMoveResult(s: State, a: nat, b: nat, n: nat)
    ensures BulkMove(s, a, b, n).Some? <==> Readable(s, a, b, n)
    ensures Readable(s, a, b, n) ==>
      var t := BulkMove(s, a, b, n).value;
      && t == s.(slots := t.slots)
      && forall k: nat :: if s.base + a <= k < s.base + a + n then Copied(s, t, a, b, k) else Slot(t, k) == Slot(s, k)
    decreases n
  {
    if n > 0 && Get(s, b).Some? {
      hide Source, SetAt, Copied;
      var w := Get(s, b).value;
      var s1 := Put(s, a, w);
      PutReg(s, a, w);
      hide Put;
      BulkMoveResult(s1, a + 1, b + 1, n - 1);
      if Readable(s, a, b, n) {
        var t := BulkMove(s, a, b, n).value;
        forall k: nat ensures if s.base + a <= k < s.base + a + n then Copied(s, t, a, b, k) else Slot(t, k) == Slot(s, k) {
          if k == s.base + a {
            FirstCopied(s, t, a, b);
          } else if s.base + a < k < s.base + a + n {
            LaterCopied(s, s1, t, a, b, k);
          }
        }
      }
    }
  }

  lemma FirstCopied(s: State, t: State, a: nat, b: nat)
    requires Slot(t, s.base + a) == Reg(s, b)
    ensures Copied(s, t, a, b, s.base + a)
  {
    if b < a {
      NextSource(a, b, 0);
    }
  }

  /** A later target, given what the rest of the loop does after the first move. */
  lemma LaterCopied(s: State, s1: State, t: State, a: nat, b: nat, k: nat)
    requires s1.base == s.base && k > s.base + a
    requires forall j :: Slot(s1, j) == if j == s.base + a then Reg(s, b) else Slot(s, j)
    requires Copied(s1, t, a + 1, b + 1, k)
    ensures Copied(s, t, a, b, k)
  {
    var i := k - s.base - a - 1;
    if b < a {
      NextSource(a, b, i);
      hide Source;
    }
  }

  lemma SourceBelow(a: nat, b: nat, i: nat)
    requires a <= b || i < a - b
    ensures Source(a, b, i) == b + i
  {
    if a > b {
      DivModUnique(i, a - b, 0, i);
    }
  }

  lemma CopiedAt(s: State, a: nat, b: nat, n: nat, k: nat)
    requires Readable(s, a, b, n) && s.base + a <= k < s.base + a + n
    ensures BulkMove(s, a, b, n).Some? && Copied(s, BulkMove(s, a, b, n).value, a, b, k)
  {
    hide Readable, Copied, BulkMove;
    BulkMoveResult(s, a, b, n);
  }

  /** Moving down, or between ranges that do not overlap, is a simultaneous block copy. */
  lemma BlockCopy(s: State, a: nat, b: nat, n: nat)
    requires Readable(s, a, b, n) && (a <= b || b + n <= a)
    ensures BulkMove(s, a, b, n).Some?
    ensures forall k: nat :: s.base + a <= k < s.base + a + n ==>
      Slot(BulkMove(s, a, b, n).value, k) == Slot(s, k - a + b)
  {
    assert BulkMove(s, a, b, n).Some? by { BulkMoveResult(s, a, b, n); }
    hide BulkMove, Source, Readable;
    forall k: nat | s.base + a <= k < s.base + a + n
      ensures Slot(BulkMove(s, a, b, n).value, k) == Slot(s, k - a + b)
    {
      CopiedAt(s, a, b, n, k);
      SourceBelow(a, b, k - s.base - a);
    }
  }
}
