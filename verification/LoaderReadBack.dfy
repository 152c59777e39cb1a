/** Reading printed words back out of a buffer. */
module LoaderReadBack {
  import opened Loader
  import opened LoaderPrint

  /** `x` lies in `buf` from `off` on. */
  ghost predicate At(buf: Bytes, off: nat, x: Bytes) {
    off + |x| <= |buf| && buf[off..off + |x|] == x
  }

  lemma AtFits(buf: Bytes, off: nat, x: Bytes)
    requires At(buf, off, x)
    ensures off + |x| <= |buf|
  {
  }

  lemma AtParts(buf: Bytes, off: nat, x: Bytes, y: Bytes)
    requires At(buf, off, x + y)
    ensures At(buf, off, x) && At(buf, off + |x|, y)
  {
    var z := buf[off..off + |x + y|];
    assert buf[off..off + |x|] == z[..|x|] == (x + y)[..|x|] == x;
    assert buf[off + |x|..off + |x| + |y|] == z[|x|..] == (x + y)[|x|..] == y;
  }

  lemma WordAt(buf: Bytes, off: nat, n: UInt32)
    requires At(buf, off, PrintWord(n))
    ensures off + 4 <= |buf| && Word32(buf, off) == n
  {
    var b := PrintWord(n);
    assert buf[off..off + 4] == b;
    assert buf[off] == b[0] && buf[off + 1] == b[1] && buf[off + 2] == b[2] && buf[off + 3] == b[3];
    BigEndian(n);
  }

  lemma BigEndian(n: UInt32)
    ensures n == n / 0x100_0000 * 0x100_0000 + n / 0x1_0000 % 0x100 * 0x1_0000 + n / 0x100 % 0x100 * 0x100 + n % 0x100
  {
    LowByte(n / 0x1_0000, n / 0x100_0000);
    LowByte(n / 0x100, n / 0x1_0000);
    LowByte(n, n / 0x100);
  }

  lemma LowByte(x: nat, q: nat)
    requires 0x100 * q <= x < 0x100 * q + 0x100
    ensures x % 0x100 == x - 0x100 * q
  {
  }

  lemma {:induction false} WordAtPosition(buf: Bytes, off: nat, ns: seq<UInt32>, j: nat, pos: nat)
    requires At(buf, off, PrintWords(ns)) && j < |ns| && pos == off + 4 * j
    ensures pos + 4 <= |buf| && Word32(buf, pos) == ns[j]
    ensures off + 4 * |ns| <= |buf|
    decreases j
  {
    AtFits(buf, off, PrintWords(ns));
    hide At, Word32, PrintWord;
    AtParts(buf, off, PrintWord(ns[0]), PrintWords(ns[1..]));
    if j == 0 {
      WordAt(buf, off, ns[0]);
    } else {
      WordAtPosition(buf, off + 4, ns[1..], j - 1, pos);
    }
  }

  lemma PairAt(buf: Bytes, data: nat, ws: seq<UInt32>, j: nat)
    requires At(buf, data, PrintWords(ws)) && 2 * j + 1 < |ws|
    ensures data + 8 * j + 8 <= |buf|
    ensures Word32(buf, data + 8 * j) == ws[2 * j]
    ensures Word32(buf, data + 8 * j + 4) == ws[2 * j + 1]
  {
    hide At, Word32, PrintWords;
    WordAtPosition(buf, data, ws, 2 * j, data + 8 * j);
    WordAtPosition(buf, data, ws, 2 * j + 1, data + 8 * j + 4);
  }

  lemma TripleAt(buf: Bytes, data: nat, ws: seq<UInt32>, j: nat)
    requires At(buf, data, PrintWords(ws)) && 3 * j + 2 < |ws|
    ensures data + 12 * j + 12 <= |buf|
    ensures Word32(buf, data + 12 * j) == ws[3 * j]
    ensures Word32(buf, data + 12 * j + 4) == ws[3 * j + 1]
    ensures Word32(buf, data + 12 * j + 8) == ws[3 * j + 2]
  {
    hide At, Word32, PrintWords;
    WordAtPosition(buf, data, ws, 3 * j, data + 12 * j);
    WordAtPosition(buf, data, ws, 3 * j + 1, data + 12 * j + 4);
    WordAtPosition(buf, data, ws, 3 * j + 2, data + 12 * j + 8);
  }
}
