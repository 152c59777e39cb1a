/** The two byte-order conversions of loader.c: `swap_int64` by masks and shifts, and `swap` byte
    by byte. */
module ByteOrder {

  /** swap_int64: neighbouring bytes, then pairs, then halves change places. */
  function SwapInt64(x: bv64): bv64 {
    var y := ((x << 8) & 0xFF00_FF00_FF00_FF00) | ((x >> 8) & 0x00FF_00FF_00FF_00FF);
    var z := ((y << 16) & 0xFFFF_0000_FFFF_0000) | ((y >> 16) & 0x0000_FFFF_0000_FFFF);
    (z << 32) | ((z >> 32) & 0xFFFF_FFFF)
  }

  /** The eight bytes of a value as they lie in memory, lowest first. */
  function InMemory(x: bv64): (b: seq<bv8>)
    ensures |b| == 8
  {
    [(x & 0xFF) as bv8, ((x >> 8) & 0xFF) as bv8, ((x >> 16) & 0xFF) as bv8, ((x >> 24) & 0xFF) as bv8,
     ((x >> 32) & 0xFF) as bv8, ((x >> 40) & 0xFF) as bv8, ((x >> 48) & 0xFF) as bv8, ((x >> 56) & 0xFF) as bv8]
  }

  /** The value that eight bytes in memory stand for. */
  function FromMemory(b: seq<bv8>): bv64
    requires |b| == 8
  {
    (b[0] as bv64) | ((b[1] as bv64) << 8) | ((b[2] as bv64) << 16) | ((b[3] as bv64) << 24) |
    ((b[4] as bv64) << 32) | ((b[5] as bv64) << 40) | ((b[6] as bv64) << 48) | ((b[7] as bv64) << 56)
  }

  /** swap: each byte goes to the opposite end, which is what `swap_int64` does. */
  method Swap(d: bv64) returns (a: bv64)
    ensures a == SwapInt64(d)
  {
    hide *;
    var src := InMemory(d);
    var dst := InMemory(0);
    dst := dst[0 := src[7]];
    dst := dst[1 := src[6]];
    dst := dst[2 := src[5]];
    dst := dst[3 := src[4]];
    dst := dst[4 := src[3]];
    dst := dst[5 := src[2]];
    dst := dst[6 := src[1]];
    dst := dst[7 := src[0]];
    a := FromMemory(dst);
    BytesReverse(src, dst);
    ValueBack(d);
  }

  lemma BytesReverse(b: seq<bv8>, r: seq<bv8>)
    requires |b| == |r| == 8 && forall i :: 0 <= i < 8 ==> r[i] == b[7 - i]
    ensures FromMemory(r) == SwapInt64(FromMemory(b))
  {
    assert r == [b[7], b[6], b[5], b[4], b[3], b[2], b[1], b[0]];
  }

  lemma BytesBack(b: seq<bv8>)
    requires |b| == 8
    ensures InMemory(FromMemory(b)) == b
  {
  }

  lemma ValueBack(x: bv64)
    ensures FromMemory(InMemory(x)) == x
  {
  }

  /** In memory, `swap_int64` reverses the eight bytes; doing it twice changes nothing. */
  lemma SwapReverses(x: bv64)
    ensures forall i :: 0 <= i < 8 ==> InMemory(SwapInt64(x))[i] == InMemory(x)[7 - i]
    ensures SwapInt64(SwapInt64(x)) == x
  {
    hide SwapInt64, FromMemory, InMemory;
    var b := InMemory(x);
    var r := [b[7], b[6], b[5], b[4], b[3], b[2], b[1], b[0]];
    BytesReverse(b, r);
    BytesReverse(r, b);
    ValueBack(x);
    BytesBack(b);
    BytesBack(r);
  }

  // ---- Numbers ----

  function ToByte(n: nat): (b: bv8)
    requires n < 0x100
    ensures b as nat == n
  {
    if n == 0 then 0 else ToByte(n - 1) + 1
  }

  /** One more byte at the low end. */
  function Join(x: bv64, b: bv8): bv64 {
    (x << 8) | (b as bv64)
  }

  lemma ShiftInByte(x: bv64, b: bv8)
    requires x <= 0x00FF_FFFF_FFFF_FFFF
    ensures ((x << 8) | (b as bv64)) as nat == (x as nat) * 0x100 + (b as nat)
  {
  }

  lemma JoinNumber(x: bv64, b: bv8)
    requires x <= 0x00FF_FFFF_FFFF_FFFF
    ensures Join(x, b) as nat == (x as nat) * 0x100 + (b as nat)
  {
    ShiftInByte(x, b);
    assert Join(x, b) == ((x << 8) | (b as bv64));
  }

  /** The top `n` bytes. */
  function Top(b: seq<bv8>, n: nat): (x: bv64)
    requires |b| == 8 && n <= 8
  {
    if n == 0 then 0 else Join(Top(b, n - 1), b[8 - n])
  }

  lemma TopFits(b: seq<bv8>)
    requires |b| == 8
    ensures Top(b, 8) == FromMemory(b)
    ensures forall n :: 0 <= n < 8 ==> Top(b, n) <= 0x00FF_FFFF_FFFF_FFFF
  {
    var x1: bv64 := Join(0, b[7]);
    var x2 := Join(x1, b[6]);
    var x3 := Join(x2, b[5]);
    var x4 := Join(x3, b[4]);
    var x5 := Join(x4, b[3]);
    var x6 := Join(x5, b[2]);
    var x7 := Join(x6, b[1]);
    assert x1 <= 0xFF && x2 <= 0xFFFF && x3 <= 0xFF_FFFF && x4 <= 0xFFFF_FFFF;
    assert x5 <= 0xFF_FFFF_FFFF && x6 <= 0xFFFF_FFFF_FFFF && x7 <= 0x00FF_FFFF_FFFF_FFFF;
    assert Join(x7, b[0]) == FromMemory(b);
    hide Join, FromMemory;
    assert Top(b, 0) == 0;
    assert Top(b, 1) == x1;
    assert Top(b, 2) == x2;
    assert Top(b, 3) == x3;
    assert Top(b, 4) == x4;
    assert Top(b, 5) == x5;
    assert Top(b, 6) == x6;
    assert Top(b, 7) == x7;
  }

  /** The number that the top `n` bytes stand for. */
  ghost function TopNumber(b: seq<nat>, n: nat): nat
    requires |b| == 8 && n <= 8
  {
    if n == 0 then 0 else TopNumber(b, n - 1) * 0x100 + b[8 - n]
  }

  lemma {:induction false} TopIsNumber(b: seq<bv8>, v: seq<nat>, n: nat)
    requires |b| == |v| == 8 && n <= 8 && forall i :: 0 <= i < 8 ==> b[i] as nat == v[i]
    ensures Top(b, n) as nat == TopNumber(v, n)
    decreases n
  {
    hide Join, FromMemory;
    if n > 0 {
      TopIsNumber(b, v, n - 1);
      TopFits(b);
      JoinNumber(Top(b, n - 1), b[8 - n]);
    } else {
      assert Top(b, 0) == 0;
    }
  }

  /** Eight bytes that a big-endian writer laid down, loaded by a little-endian machine and put
      through `swap_int64`, give the number that was written. */
  lemma SwapReadsBigEndian(b: seq<bv8>, v: seq<nat>)
    requires |b| == |v| == 8 && forall i :: 0 <= i < 8 ==> b[i] as nat == v[i]
    ensures SwapInt64(FromMemory(b)) as nat ==
      ((v[0] * 0x100_0000 + v[1] * 0x1_0000 + v[2] * 0x100 + v[3]) * 0x1_0000_0000
        + v[4] * 0x100_0000 + v[5] * 0x1_0000 + v[6] * 0x100 + v[7])
  {
    hide SwapInt64, FromMemory, Join, Top;
    var r := [b[7], b[6], b[5], b[4], b[3], b[2], b[1], b[0]];
    var w := [v[7], v[6], v[5], v[4], v[3], v[2], v[1], v[0]];
    BytesReverse(b, r);
    TopFits(r);
    TopIsNumber(r, w, 8);
    EightDigits(w);
  }

  lemma EightDigits(w: seq<nat>)
    requires |w| == 8
    ensures TopNumber(w, 8) ==
      (w[7] * 0x100_0000 + w[6] * 0x1_0000 + w[5] * 0x100 + w[4]) * 0x1_0000_0000
        + w[3] * 0x100_0000 + w[2] * 0x1_0000 + w[1] * 0x100 + w[0]
  {
    assert TopNumber(w, 0) == 0 && TopNumber(w, 1) == w[7];
    assert TopNumber(w, 2) == w[7] * 0x100 + w[6];
    assert TopNumber(w, 4) == TopNumber(w, 2) * 0x1_0000 + w[5] * 0x100 + w[4];
    assert TopNumber(w, 6) == TopNumber(w, 4) * 0x1_0000 + w[3] * 0x100 + w[2];
  }
}
