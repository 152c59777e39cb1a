/** HASH_JEN, the default hash function: its mixing step HASH_JEN_MIX, its loop over blocks, its tail,
    and what the state of 96 bits keeps apart. */
module JenkinsMix {
  import opened Bits

  type UInt32 = n: nat | n < 0x1_0000_0000

  datatype Triple = Triple(a: UInt32, b: UInt32, c: UInt32)

  function Word(n: int): UInt32 { n % 0x1_0000_0000 }

  function XorWord(x: UInt32, k: UInt32): UInt32 {
    Pow2Constants();
    XorFits(x, k, 32);
    Xor(x, k)
  }

  function ShiftRight(x: UInt32, n: nat): UInt32 {
    ShiftIsQuotient(x, n);
    Shr(x, n)
  }

  function ShiftLeft(x: UInt32, n: nat): UInt32 { Word(x * Pow2(n)) }

  /** A right shift divides; a left shift moves the low bits up and drops the others. */
  lemma ShiftsMove(x: UInt32, n: nat)
    requires n <= 32
    ensures ShiftRight(x, n) == x / Pow2(n)
    ensures ShiftLeft(x, n) == (x % Pow2(32 - n)) * Pow2(n)
  {
    ShiftIsQuotient(x, n);
    Pow2Constants();
    Pow2Sum(32 - n, n);
    hide Pow2;
    var q, r := QuotientAndRemainder(x, Pow2(32 - n));
    SplitProduct(x, q, r, Pow2(32 - n), Pow2(n));
    DivModUnique(x * Pow2(n), 0x1_0000_0000, q, r * Pow2(n));
  }

  lemma SplitProduct(x: nat, q: nat, r: nat, high: nat, p: nat)
    requires x == q * high + r && r < high && high * p == 0x1_0000_0000 && 0 < p
    ensures x * p == q * 0x1_0000_0000 + r * p && 0 <= r * p < 0x1_0000_0000
  {
    assert (q * high + r) * p == q * (high * p) + r * p;
    assert (high - r) * p > 0;
    assert (high - r) * p == high * p - r * p;
  }

  /** Bit k of an exclusive or is set exactly where one of the two bits is. */
  lemma {:induction false} XorBit(x: nat, y: nat, k: nat)
    ensures Shr(Xor(x, y), k) % 2 == 1 <==> Shr(x, k) % 2 != Shr(y, k) % 2
    decreases k
  {
    XorStep(x, y);
    hide Xor;
    if k > 0 {
      XorBit(x / 2, y / 2, k - 1);
    }
  }

  /** `x -= y; x -= z; x ^= k` on unsigned words, and the way back. */
  function Fold(x: UInt32, y: UInt32, z: UInt32, k: UInt32): UInt32 { XorWord(Word(x - y - z), k) }
  function Unfold(x: UInt32, y: UInt32, z: UInt32, k: UInt32): UInt32 { Word(XorWord(x, k) + z + y) }

  lemma FoldBack(x: UInt32, y: UInt32, z: UInt32, k: UInt32)
    ensures Unfold(Fold(x, y, z, k), y, z, k) == x
    ensures Fold(Unfold(x, y, z, k), y, z, k) == x
  {
    hide Xor, Word;
    XorTwice(Word(x - y - z), k);
    XorTwice(x, k);
    SubThenAdd(x, y, z);
    AddThenSub(XorWord(x, k), y, z);
  }

  lemma SubThenAdd(x: UInt32, y: UInt32, z: UInt32)
    ensures Word(Word(x - y - z) + z + y) == x
  {
  }

  lemma AddThenSub(x: UInt32, y: UInt32, z: UInt32)
    ensures Word(Word(x + z + y) - y - z) == x
  {
  }

  lemma SumInjective(x: UInt32, y: UInt32, z: UInt32)
    ensures Word(z + x) == Word(z + y) ==> x == y
    ensures Word(x + z) == Word(y + z) ==> x == y
  {
  }

  function Mix(t: Triple): Triple {
    var a, b, c := t.a, t.b, t.c;
    var a1 := Fold(a, b, c, ShiftRight(c, 13));
    var b1 := Fold(b, c, a1, ShiftLeft(a1, 8));
    var c1 := Fold(c, a1, b1, ShiftRight(b1, 13));
    var a2 := Fold(a1, b1, c1, ShiftRight(c1, 12));
    var b2 := Fold(b1, c1, a2, ShiftLeft(a2, 16));
    var c2 := Fold(c1, a2, b2, ShiftRight(b2, 5));
    var a3 := Fold(a2, b2, c2, ShiftRight(c2, 3));
    var b3 := Fold(b2, c2, a3, ShiftLeft(a3, 10));
    var c3 := Fold(c2, a3, b3, ShiftRight(b3, 15));
    Triple(a3, b3, c3)
  }

  /** The nine steps undone, last one first. */
  function Unmix(t: Triple): Triple {
    var a3, b3, c3 := t.a, t.b, t.c;
    var c2 := Unfold(c3, a3, b3, ShiftRight(b3, 15));
    var b2 := Unfold(b3, c2, a3, ShiftLeft(a3, 10));
    var a2 := Unfold(a3, b2, c2, ShiftRight(c2, 3));
    var c1 := Unfold(c2, a2, b2, ShiftRight(b2, 5));
    var b1 := Unfold(b2, c1, a2, ShiftLeft(a2, 16));
    var a1 := Unfold(a2, b1, c1, ShiftRight(c1, 12));
    var c := Unfold(c1, a1, b1, ShiftRight(b1, 13));
    var b := Unfold(b1, c, a1, ShiftLeft(a1, 8));
    var a := Unfold(a1, b, c, ShiftRight(c, 13));
    Triple(a, b, c)
  }

  /** Mixing loses nothing: it is a bijection on triples of 32-bit words. */
  lemma MixBijective(t: Triple)
    ensures Unmix(Mix(t)) == t && Mix(Unmix(t)) == t
  {
    MixBack(t);
    UnmixBack(t);
  }

  lemma MixBack(t: Triple)
    ensures Unmix(Mix(t)) == t
  {
    hide Fold, Unfold, ShiftLeft, ShiftRight;
    var a, b, c := t.a, t.b, t.c;
    var a1 := Fold(a, b, c, ShiftRight(c, 13));
    FoldBack(a, b, c, ShiftRight(c, 13));
    var b1 := Fold(b, c, a1, ShiftLeft(a1, 8));
    FoldBack(b, c, a1, ShiftLeft(a1, 8));
    var c1 := Fold(c, a1, b1, ShiftRight(b1, 13));
    FoldBack(c, a1, b1, ShiftRight(b1, 13));
    var a2 := Fold(a1, b1, c1, ShiftRight(c1, 12));
    FoldBack(a1, b1, c1, ShiftRight(c1, 12));
    var b2 := Fold(b1, c1, a2, ShiftLeft(a2, 16));
    FoldBack(b1, c1, a2, ShiftLeft(a2, 16));
    var c2 := Fold(c1, a2, b2, ShiftRight(b2, 5));
    FoldBack(c1, a2, b2, ShiftRight(b2, 5));
    var a3 := Fold(a2, b2, c2, ShiftRight(c2, 3));
    FoldBack(a2, b2, c2, ShiftRight(c2, 3));
    var b3 := Fold(b2, c2, a3, ShiftLeft(a3, 10));
    FoldBack(b2, c2, a3, ShiftLeft(a3, 10));
    FoldBack(c2, a3, b3, ShiftRight(b3, 15));
  }

  lemma UnmixBack(t: Triple)
    ensures Mix(Unmix(t)) == t
  {
    hide Fold, Unfold, ShiftLeft, ShiftRight;
    var a3, b3, c3 := t.a, t.b, t.c;
    var c2 := Unfold(c3, a3, b3, ShiftRight(b3, 15));
    FoldBack(c3, a3, b3, ShiftRight(b3, 15));
    var b2 := Unfold(b3, c2, a3, ShiftLeft(a3, 10));
    FoldBack(b3, c2, a3, ShiftLeft(a3, 10));
    var a2 := Unfold(a3, b2, c2, ShiftRight(c2, 3));
    FoldBack(a3, b2, c2, ShiftRight(c2, 3));
    var c1 := Unfold(c2, a2, b2, ShiftRight(b2, 5));
    FoldBack(c2, a2, b2, ShiftRight(b2, 5));
    var b1 := Unfold(b2, c1, a2, ShiftLeft(a2, 16));
    FoldBack(b2, c1, a2, ShiftLeft(a2, 16));
    var a1 := Unfold(a2, b1, c1, ShiftRight(c1, 12));
    FoldBack(a2, b1, c1, ShiftRight(c1, 12));
    var c := Unfold(c1, a1, b1, ShiftRight(b1, 13));
    FoldBack(c1, a1, b1, ShiftRight(b1, 13));
    var b := Unfold(b1, c, a1, ShiftLeft(a1, 8));
    FoldBack(b1, c, a1, ShiftLeft(a1, 8));
    FoldBack(a1, b, c, ShiftRight(c, 13));
  }

  /** `x -= y; x -= z; x ^= k`. */
  method FoldIn(x: UInt32, y: UInt32, z: UInt32, k: UInt32) returns (r: UInt32)
    ensures r == Fold(x, y, z, k)
  {
    hide XorWord;
    WordTwice(x - y, 0 - z);
    r := Word(x - y);
    r := Word(r - z);
    r := XorWord(r, k);
  }

  lemma WordTwice(x: int, y: int)
    ensures Word(Word(x) + y) == Word(x + y) && Word(x + Word(y)) == Word(x + y)
  {
    var p, q := x / 0x1_0000_0000, y / 0x1_0000_0000;
    assert x == p * 0x1_0000_0000 + Word(x) && y == q * 0x1_0000_0000 + Word(y);
    WrapsRound(Word(x) + y, p, x + y);
    WrapsRound(x + Word(y), q, x + y);
  }

  lemma WrapsRound(n: int, q: int, m: int)
    requires m == q * 0x1_0000_0000 + n
    ensures Word(m) == Word(n)
  {
  }

  /** HASH_JEN_MIX on its three variables. */
  method JenMix(a0: UInt32, b0: UInt32, c0: UInt32) returns (a: UInt32, b: UInt32, c: UInt32)
    ensures Triple(a, b, c) == Mix(Triple(a0, b0, c0))
  {
    hide Fold, ShiftLeft, ShiftRight;
    a, b, c := a0, b0, c0;
    a := FoldIn(a, b, c, ShiftRight(c, 13));
    b := FoldIn(b, c, a, ShiftLeft(a, 8));
    c := FoldIn(c, a, b, ShiftRight(b, 13));
    a := FoldIn(a, b, c, ShiftRight(c, 12));
    b := FoldIn(b, c, a, ShiftLeft(a, 16));
    c := FoldIn(c, a, b, ShiftRight(b, 5));
    a := FoldIn(a, b, c, ShiftRight(c, 3));
    b := FoldIn(b, c, a, ShiftLeft(a, 10));
    c := FoldIn(c, a, b, ShiftRight(b, 15));
  }

  function Add(s: Triple, t: Triple): Triple {
    Triple(Word(s.a + t.a), Word(s.b + t.b), Word(s.c + t.c))
  }

  /** Twelve key bytes, as three words, go into the state, which is then mixed. */
  function Absorb(state: Triple, block: Triple): Triple {
    Mix(Add(state, block))
  }

  /** From the same state different blocks never meet, and different states stay different under
      the same block. */
  lemma AbsorbInjective(s: Triple, t: Triple, x: Triple, y: Triple)
    ensures Absorb(s, x) == Absorb(s, y) ==> x == y
    ensures Absorb(s, x) == Absorb(t, x) ==> s == t
  {
    hide Mix, Unmix, Word;
    MixBijective(Add(s, x));
    MixBijective(Add(s, y));
    MixBijective(Add(t, x));
    SumInjective(x.a, y.a, s.a);
    SumInjective(x.b, y.b, s.b);
    SumInjective(x.c, y.c, s.c);
    SumInjective(s.a, t.a, x.a);
    SumInjective(s.b, t.b, x.b);
    SumInjective(s.c, t.c, x.c);
  }

  // ---- The block loop ----

  type Byte = b: nat | b < 0x100

  const GOLDEN: UInt32 := 0x9E37_79B9
  const SEED := Triple(GOLDEN, GOLDEN, 0xFEED_BEEF)

  function WordFrom(key: seq<Byte>, off: nat): UInt32
    requires off + 4 <= |key|
  {
    var b0: nat, b1: nat, b2: nat, b3: nat := key[off], key[off + 1], key[off + 2], key[off + 3];
    b0 + b1 * 0x100 + b2 * 0x1_0000 + b3 * 0x100_0000
  }

  function BlockAt(key: seq<Byte>, off: nat): Triple
    requires off + 12 <= |key|
  {
    Triple(WordFrom(key, off), WordFrom(key, off + 4), WordFrom(key, off + 8))
  }

  /** The whole blocks of a key. */
  function Blocks(key: seq<Byte>): (bs: seq<Triple>)
    ensures |bs| == |key| / 12
  {
    seq(|key| / 12, j requires 0 <= j < |key| / 12 => BlockAt(key, 12 * j))
  }

  function AbsorbAll(state: Triple, blocks: seq<Triple>): Triple
    decreases |blocks|
  {
    if blocks == [] then state else Absorb(AbsorbAll(state, blocks[..|blocks| - 1]), blocks[|blocks| - 1])
  }

  /** The loop takes in every whole block and leaves a tail shorter than twelve bytes. */
  method AbsorbBlocks(key: seq<Byte>) returns (state: Triple, rest: seq<Byte>)
    ensures state == AbsorbAll(SEED, Blocks(key))
    ensures |key| < 12 ==> state == Triple(0x9E37_79B9, 0x9E37_79B9, 0xFEED_BEEF)
    ensures |rest| < 12 && rest == key[|key| - |key| % 12..]
  {
    hide Mix, WordFrom, Word;
    state, rest := SEED, key;
    ghost var n := 0;
    assert Blocks(key)[..0] == [];
    while |rest| >= 12
      invariant 12 * n <= |key| && rest == key[12 * n..]
      invariant state == AbsorbAll(SEED, Blocks(key)[..n])
      decreases |rest|
    {
      BlockStep(key, n, rest);
      var sum := Add(state, BlockAt(rest, 0));
      var i, j, hashv := JenMix(sum.a, sum.b, sum.c);
      state := Triple(i, j, hashv);
      rest := rest[12..];
      n := n + 1;
    }
    AllBlocks(key, n);
  }

  lemma BlockStep(key: seq<Byte>, n: nat, rest: seq<Byte>)
    requires 12 * n + 12 <= |key| && rest == key[12 * n..]
    ensures n + 1 <= |Blocks(key)|
    ensures AbsorbAll(SEED, Blocks(key)[..n + 1]) == Absorb(AbsorbAll(SEED, Blocks(key)[..n]), BlockAt(rest, 0))
    ensures rest[12..] == key[12 * (n + 1)..]
  {
    hide Absorb, WordFrom;
    ShiftedBlock(key, 12 * n, rest);
    var bs := Blocks(key);
    assert bs[n] == BlockAt(key, 12 * n);
    assert bs[..n + 1][..n] == bs[..n] && bs[..n + 1][n] == bs[n];
  }

  lemma ShiftedBlock(key: seq<Byte>, off: nat, rest: seq<Byte>)
    requires off + 12 <= |key| && rest == key[off..]
    ensures BlockAt(rest, 0) == BlockAt(key, off)
  {
  }

  lemma AllBlocks(key: seq<Byte>, n: nat)
    requires 12 * n <= |key| < 12 * n + 12
    ensures n == |key| / 12 && |key| - |key| % 12 == 12 * n && Blocks(key)[..n] == Blocks(key)
  {
  }

  // ---- The tail ----

  function ByteAt(key: seq<Byte>, i: nat): nat {
    if i < |key| then key[i] else 0
  }

  /** What the bytes after the last whole block add to the state. The lowest byte of the third word
      is left to the length. */
  function TailBlock(rest: seq<Byte>): Triple {
    Triple(TailWord(ByteAt(rest, 0), ByteAt(rest, 1), ByteAt(rest, 2), ByteAt(rest, 3)),
           TailWord(ByteAt(rest, 4), ByteAt(rest, 5), ByteAt(rest, 6), ByteAt(rest, 7)),
           TailWord(0, ByteAt(rest, 8), ByteAt(rest, 9), ByteAt(rest, 10)))
  }

  function TailWord(b0: nat, b1: nat, b2: nat, b3: nat): UInt32 {
    Word(b0 + b1 * 0x100 + b2 * 0x1_0000 + b3 * 0x100_0000)
  }

  /** The state with the length added, before the tail. */
  function WithLength(state: Triple, n: nat): Triple {
    Triple(state.a, state.b, Word(state.c + n))
  }

  function TailOf(key: seq<Byte>): (rest: seq<Byte>)
    ensures |rest| < 12
  {
    key[|key| - |key| % 12..]
  }

  /** The state at the end of HASH_JEN; the hash value is its last word. */
  function Final(key: seq<Byte>): Triple {
    Absorb(WithLength(AbsorbAll(SEED, Blocks(key)), |key|), TailBlock(TailOf(key)))
  }

  /** One case of HASH_JEN's switch: the byte is added if the tail is long enough, and control falls
      through into the next smaller case. */
  method AddByte(w: UInt32, rest: seq<Byte>, i: nat, place: nat) returns (r: UInt32)
    ensures r == Word(w + ByteAt(rest, i) * place)
  {
    r := w;
    if |rest| > i {
      r := Word(r + rest[i] * place);
    }
  }

  lemma ThreeSums(w: UInt32, x: nat, y: nat, z: nat)
    ensures Word(Word(Word(w + x) + y) + z) == Word(w + Word(z + y + x))
  {
    hide Word;
    WordTwice(w + x, y);
    WordTwice(w + x + y, z);
    WordTwice(w, z + y + x);
    assert w + (z + y + x) == w + x + y + z;
  }

  lemma FourSums(w: UInt32, x: nat, y: nat, z: nat, u: nat)
    ensures Word(Word(Word(Word(w + x) + y) + z) + u) == Word(w + Word(u + z + y + x))
  {
    hide Word;
    WordTwice(w + x, y);
    WordTwice(w + x + y, z);
    WordTwice(w + x + y + z, u);
    WordTwice(w, u + z + y + x);
    assert w + (u + z + y + x) == w + x + y + z + u;
  }

  /** The switch of HASH_JEN, from case 11 down. */
  method AddTail(rest: seq<Byte>, t: Triple) returns (i: UInt32, j: UInt32, hashv: UInt32)
    requires |rest| < 12
    ensures Triple(i, j, hashv) == Add(t, TailBlock(rest))
  {
    hide Word, ByteAt;
    hashv := AddByte(t.c, rest, 10, 0x100_0000);
    hashv := AddByte(hashv, rest, 9, 0x1_0000);
    hashv := AddByte(hashv, rest, 8, 0x100);
    ThreeSums(t.c, ByteAt(rest, 10) * 0x100_0000, ByteAt(rest, 9) * 0x1_0000, ByteAt(rest, 8) * 0x100);
    j := AddByte(t.b, rest, 7, 0x100_0000);
    j := AddByte(j, rest, 6, 0x1_0000);
    j := AddByte(j, rest, 5, 0x100);
    j := AddByte(j, rest, 4, 1);
    FourSums(t.b, ByteAt(rest, 7) * 0x100_0000, ByteAt(rest, 6) * 0x1_0000, ByteAt(rest, 5) * 0x100, ByteAt(rest, 4) * 1);
    i := AddByte(t.a, rest, 3, 0x100_0000);
    i := AddByte(i, rest, 2, 0x1_0000);
    i := AddByte(i, rest, 1, 0x100);
    i := AddByte(i, rest, 0, 1);
    FourSums(t.a, ByteAt(rest, 3) * 0x100_0000, ByteAt(rest, 2) * 0x1_0000, ByteAt(rest, 1) * 0x100, ByteAt(rest, 0) * 1);
  }

  /** HASH_JEN. */
  method HashJen(key: seq<Byte>) returns (hashv: UInt32)
    ensures hashv == Final(key).c
  {
    hide Mix, TailBlock, AbsorbAll, Word;
    var state, rest := AbsorbBlocks(key);
    var i, j;
    i, j, hashv := AddTail(rest, WithLength(state, |key|));
    i, j, hashv := JenMix(i, j, hashv);
  }

  // ---- What is kept apart ----

  /** Two keys that differ in exactly one whole block still have different states after all the
      blocks. */
  lemma {:induction false} OneBlockDiffers(s: Triple, xs: seq<Triple>, ys: seq<Triple>, i: nat)
    requires |xs| == |ys| && i < |xs| && xs[i] != ys[i]
    requires forall j :: 0 <= j < |xs| && j != i ==> xs[j] == ys[j]
    ensures AbsorbAll(s, xs) != AbsorbAll(s, ys)
    decreases |xs|
  {
    hide Absorb;
    var n := |xs| - 1;
    var s1, t1 := AbsorbAll(s, xs[..n]), AbsorbAll(s, ys[..n]);
    if i < n {
      OneBlockDiffers(s, xs[..n], ys[..n], i);
    } else {
      assert xs[..n] == ys[..n];
    }
    AbsorbInjective(s1, t1, xs[n], ys[n]);
  }

  /** So keys of one length that differ inside a single whole block are still told apart by the
      96-bit state when the loop ends. */
  lemma OneBlockKeys(x: seq<Byte>, y: seq<Byte>, i: nat)
    requires |x| == |y| && 12 * i + 12 <= |x| && x != y
    requires forall k :: 0 <= k < |x| && !(12 * i <= k < 12 * i + 12) ==> x[k] == y[k]
    ensures AbsorbAll(SEED, Blocks(x)) != AbsorbAll(SEED, Blocks(y))
  {
    hide AbsorbAll, WordFrom;
    BlockBytes(x, y, 12 * i);
    forall j | 0 <= j < |x| / 12 && j != i ensures BlockAt(x, 12 * j) == BlockAt(y, 12 * j) {
      SameBlock(x, y, 12 * j);
    }
    OneBlockDiffers(SEED, Blocks(x), Blocks(y), i);
  }

  lemma SameBlock(x: seq<Byte>, y: seq<Byte>, off: nat)
    requires |x| == |y| && off + 12 <= |x|
    requires forall k :: off <= k < off + 12 ==> x[k] == y[k]
    ensures BlockAt(x, off) == BlockAt(y, off)
  {
  }

  /** The three words of a block determine its twelve bytes. */
  lemma BlockBytes(x: seq<Byte>, y: seq<Byte>, off: nat)
    requires |x| == |y| && off + 12 <= |x|
    ensures BlockAt(x, off) == BlockAt(y, off) ==> forall k :: off <= k < off + 12 ==> x[k] == y[k]
  {
    hide WordFrom;
    WordBytes(x, y, off);
    WordBytes(x, y, off + 4);
    WordBytes(x, y, off + 8);
  }

  lemma WordBytes(x: seq<Byte>, y: seq<Byte>, off: nat)
    requires off + 4 <= |x| && off + 4 <= |y|
    ensures WordFrom(x, off) == WordFrom(y, off) ==>
      forall k :: off <= k < off + 4 ==> x[k] == y[k]
  {
    if WordFrom(x, off) == WordFrom(y, off) {
      var x1: nat, x2: nat, x3: nat := x[off + 1], x[off + 2], x[off + 3];
      var y1: nat, y2: nat, y3: nat := y[off + 1], y[off + 2], y[off + 3];
      LowDigit(x[off], x1 + (x2 + x3 * 0x100) * 0x100, y[off], y1 + (y2 + y3 * 0x100) * 0x100);
      LowDigit(x[off + 1], x2 + x3 * 0x100, y[off + 1], y2 + y3 * 0x100);
      LowDigit(x[off + 2], x[off + 3], y[off + 2], y[off + 3]);
    }
  }

  lemma LowDigit(a: Byte, u: nat, b: Byte, v: nat)
    requires a + u * 0x100 == b + v * 0x100
    ensures a == b && u == v
  {
  }

  // ---- The whole hash ----

  /** A whole block's words are put together from their bytes as the tail's are. */
  lemma BlockIsTail(key: seq<Byte>, off: nat)
    requires off + 4 <= |key|
    ensures WordFrom(key, off) == TailWord(key[off], key[off + 1], key[off + 2], key[off + 3])
  {
    TailWordFits(key[off], key[off + 1], key[off + 2], key[off + 3]);
    hide TailWord;
  }

  lemma TailWordFits(b0: nat, b1: nat, b2: nat, b3: nat)
    requires b0 < 0x100 && b1 < 0x100 && b2 < 0x100 && b3 < 0x100
    ensures TailWord(b0, b1, b2, b3) == b0 + (b1 + (b2 + b3 * 0x100) * 0x100) * 0x100
  {
  }

  lemma TailWordBytes(b0: Byte, b1: Byte, b2: Byte, b3: Byte, c0: Byte, c1: Byte, c2: Byte, c3: Byte)
    requires TailWord(b0, b1, b2, b3) == TailWord(c0, c1, c2, c3)
    ensures b0 == c0 && b1 == c1 && b2 == c2 && b3 == c3
  {
    var x1: nat, x2: nat, x3: nat := b1, b2, b3;
    var y1: nat, y2: nat, y3: nat := c1, c2, c3;
    TailWordFits(b0, x1, x2, x3);
    TailWordFits(c0, y1, y2, y3);
    hide TailWord;
    LowDigit(b0, x1 + (x2 + x3 * 0x100) * 0x100, c0, y1 + (y2 + y3 * 0x100) * 0x100);
    LowDigit(b1, x2 + x3 * 0x100, c1, y2 + y3 * 0x100);
    LowDigit(b2, b3, c2, c3);
  }

  /** The tail's bytes are determined by what they add. */
  lemma TailBytes(x: seq<Byte>, y: seq<Byte>)
    requires |x| == |y| < 12 && TailBlock(x) == TailBlock(y)
    ensures x == y
  {
    hide TailWord, ByteAt;
    TailWordBytes(ByteOf(x, 0), ByteOf(x, 1), ByteOf(x, 2), ByteOf(x, 3), ByteOf(y, 0), ByteOf(y, 1), ByteOf(y, 2), ByteOf(y, 3));
    TailWordBytes(ByteOf(x, 4), ByteOf(x, 5), ByteOf(x, 6), ByteOf(x, 7), ByteOf(y, 4), ByteOf(y, 5), ByteOf(y, 6), ByteOf(y, 7));
    TailWordBytes(0, ByteOf(x, 8), ByteOf(x, 9), ByteOf(x, 10), 0, ByteOf(y, 8), ByteOf(y, 9), ByteOf(y, 10));
    forall i | 0 <= i < |x| ensures x[i] == y[i] {
      assert i == 0 || i == 1 || i == 2 || i == 3 || i == 4 || i == 5 || i == 6 || i == 7 || i == 8 || i == 9 || i == 10;
      IsByte(x, i);
      IsByte(y, i);
    }
  }

  function ByteOf(key: seq<Byte>, i: nat): (b: Byte)
    ensures b == ByteAt(key, i)
  {
    if i < |key| then key[i] else 0
  }

  lemma IsByte(key: seq<Byte>, i: nat)
    requires i < |key|
    ensures ByteAt(key, i) == key[i]
  {
  }

  lemma LengthCancels(s: Triple, t: Triple, n: nat)
    ensures WithLength(s, n) == WithLength(t, n) ==> s == t
  {
    hide Word;
    SumInjective(s.c, t.c, LengthWord(n));
    LengthSum(s.c, n);
    LengthSum(t.c, n);
  }

  /** Keys of one length that differ only inside one block of twelve, the short tail included, end in
      different 96-bit states. */
  lemma FinalDiffers(x: seq<Byte>, y: seq<Byte>, i: nat)
    requires |x| == |y| && x != y
    requires forall k :: 0 <= k < |x| && !(12 * i <= k < 12 * i + 12) ==> x[k] == y[k]
    ensures Final(x) != Final(y)
  {
    hide AbsorbAll, Absorb, TailBlock, Blocks, WithLength, TailOf;
    var sx, sy := AbsorbAll(SEED, Blocks(x)), AbsorbAll(SEED, Blocks(y));
    LengthCancels(sx, sy, |x|);
    AbsorbInjective(WithLength(sx, |x|), WithLength(sy, |y|), TailBlock(TailOf(x)), TailBlock(TailOf(y)));
    if 12 * i + 12 <= |x| {
      OneBlockKeys(x, y, i);
      SameTails(x, y, i);
    } else {
      SameBlocks(x, y, i);
      DifferentTails(x, y, i);
      if TailBlock(TailOf(x)) == TailBlock(TailOf(y)) {
        TailBytes(TailOf(x), TailOf(y));
      }
    }
  }

  lemma SameTails(x: seq<Byte>, y: seq<Byte>, i: nat)
    requires |x| == |y| && 12 * i + 12 <= |x|
    requires forall k :: 0 <= k < |x| && !(12 * i <= k < 12 * i + 12) ==> x[k] == y[k]
    ensures TailOf(x) == TailOf(y)
  {
    BehindBlock(|x|, i, |x| - |x| % 12);
  }

  lemma DifferentTails(x: seq<Byte>, y: seq<Byte>, i: nat)
    requires |x| == |y| < 12 * i + 12 && x != y
    requires forall k :: 0 <= k < |x| && !(12 * i <= k < 12 * i + 12) ==> x[k] == y[k]
    ensures |TailOf(x)| == |TailOf(y)| && TailOf(x) != TailOf(y)
  {
    var m := |x| - |x| % 12;
    BeforeTail(x, y, i, m);
    assert x == x[..m] + TailOf(x) && y == y[..m] + TailOf(y);
  }

  function LengthWord(n: nat): UInt32 { n % 0x1_0000_0000 }

  lemma LengthSum(c: UInt32, n: nat)
    ensures Word(c + n) == Word(c + LengthWord(n))
  {
  }

  lemma BehindBlock(len: nat, i: nat, m: nat)
    requires 12 * i + 12 <= len && m == len - len % 12
    ensures 12 * i + 12 <= m <= len
  {
  }

  lemma BeforeTail(x: seq<Byte>, y: seq<Byte>, i: nat, m: nat)
    requires |x| == |y| < 12 * i + 12 && m == |x| - |x| % 12
    requires forall k :: 0 <= k < |x| && !(12 * i <= k < 12 * i + 12) ==> x[k] == y[k]
    ensures x[..m] == y[..m]
  {
  }

  lemma SameBlocks(x: seq<Byte>, y: seq<Byte>, i: nat)
    requires |x| == |y| < 12 * i + 12
    requires forall k :: 0 <= k < |x| && !(12 * i <= k < 12 * i + 12) ==> x[k] == y[k]
    ensures Blocks(x) == Blocks(y)
  {
    hide BlockAt;
    forall j | 0 <= j < |x| / 12 ensures BlockAt(x, 12 * j) == BlockAt(y, 12 * j) {
      SameBlock(x, y, 12 * j);
    }
  }
}
