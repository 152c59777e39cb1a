/** The 64-bit words held in slots: a 16-bit tag above a 48-bit payload. */
module SlotWords {
  import opened Bits

  type Word = w: nat | w < 0x1_0000_0000_0000_0000
  type Int32 = n: int | -0x8000_0000 <= n < 0x8000_0000
  type Int16 = n: int | -0x8000 <= n < 0x8000

  const PAYLOAD := 0x1_0000_0000_0000

  const TAG_DOUBLE_MAX := 0xFFF8
  const TAG_DOUBLE_MIN := 0x0007
  const TAG_POINTER_LO := 0x0000
  const TAG_POINTER_HI := 0xFFFF
  const TAG_SMALL_INTEGER := 0xFFFE
  const TAG_BOOL := 0xFFFD
  const TAG_TYPE := 0xFFFC
  const TAG_FNEW := 0xFFFB
  const TAG_BUILTIN := 0xFFFA

  const NIL: Word := 0

  // ---- Conversions between signed and unsigned widths ----

  /** A signed value widened to 64 bits, seen as unsigned: the sign is extended. */
  function SignExtend(n: Int32): (w: Word) {
    if n < 0 then n + 0x1_0000_0000_0000_0000 else n
  }

  /** The low 32 bits of a value read as a signed integer. */
  function AsInt32(x: nat): (n: Int32)
    ensures n % 0x1_0000_0000 == x % 0x1_0000_0000
  {
    var y := x % 0x1_0000_0000;
    if y >= 0x8000_0000 then y - 0x1_0000_0000 else y
  }

  function AsInt16(x: nat): (n: Int16)
    ensures n % 0x1_0000 == x % 0x1_0000
  {
    var y := x % 0x1_0000;
    if y >= 0x8000 then y - 0x1_0000 else y
  }

  // ---- Tags ----

  /** The word made by or-ing a sign-extended payload under a tag, for a tag whose own bits a
      negative payload covers. */
  function Tagged(t: nat, n: Int32): (w: Word)
    requires 0x8000 <= t <= 0xFFFF
    ensures w == if n >= 0 then t * PAYLOAD + n else n + 0x1_0000_0000_0000_0000
  {
    TaggedValue(t, n);
    Or(t * PAYLOAD, SignExtend(n))
  }

  lemma TaggedValue(t: nat, n: Int32)
    requires t <= 0xFFFF
    ensures Or(t * PAYLOAD, SignExtend(n)) == if n >= 0 then t * PAYLOAD + n else n + 0x1_0000_0000_0000_0000
  {
    Pow2Constants();
    hide Pow2;
    if n >= 0 {
      OrByParts(t, 0, 0, n, 48);
      hide Or;
      OrZero(t);
      OrZero(n);
    } else {
      OrByParts(t, 0, 0xFFFF, n + PAYLOAD, 48);
      OrOnes(t, 16);
      hide Or;
      OrZero(n + PAYLOAD);
    }
  }

  function Tag(w: Word): (t: nat)
    ensures t == w / PAYLOAD && t <= 0xFFFF
  {
    ShiftIsQuotient(w, 48);
    MaskIsRemainder(w / PAYLOAD, 16);
    Pow2Constants();
    And(Shr(w, 48), 0xFFFF)
  }

  function Low32(w: Word): (x: nat)
    ensures x == w % 0x1_0000_0000
  {
    MaskIsRemainder(w, 32);
    Pow2Constants();
    And(w, 0xFFFF_FFFF)
  }

  // ---- Encoders, decoders and classifiers ----

  function ToType(t: nat): Word requires t < 0x1_0000 { Tagged(TAG_TYPE, t) }
  predicate IsType(w: Word) { Tag(w) == TAG_TYPE }

  function ToFnew(n: Int16): Word { Tagged(TAG_FNEW, n) }
  predicate IsFnew(w: Word) { Tag(w) == TAG_FNEW }
  function GetFnew(w: Word): Int16 { AsInt16(Low32(w)) }

  function ToSmallInt(n: Int32): Word { Tagged(TAG_SMALL_INTEGER, n) }
  predicate IsSmallInt(w: Word) { Tag(w) == TAG_SMALL_INTEGER }
  function GetSmallInt(w: Word): Int32 { AsInt32(Low32(w)) }

  function ToBool(b: bool): Word { Tagged(TAG_BOOL, if b then 1 else 0) }
  predicate IsBool(w: Word) { Tag(w) == TAG_BOOL }
  function GetBool(w: Word): bool { And(w, 1) != 0 }

  predicate IsBuiltin(w: Word) { Tag(w) == TAG_BUILTIN }
  predicate IsNil(w: Word) { w == 0 }
  predicate IsDouble(w: Word) { TAG_DOUBLE_MIN <= Tag(w) <= TAG_DOUBLE_MAX }
  predicate IsPointer(w: Word) { !IsNil(w) && (Tag(w) == TAG_POINTER_LO || Tag(w) == TAG_POINTER_HI) }

  predicate IsFalsy(w: Word) {
    if IsBool(w) then !GetBool(w) else IsNil(w)
  }

  /** The tag and the low half of an encoded number. */
  lemma EncodedParts(t: nat, n: Int32)
    requires 0x8000 <= t <= 0xFFFF
    ensures Tag(Tagged(t, n)) == if n >= 0 then t else TAG_POINTER_HI
    ensures Low32(Tagged(t, n)) == if n >= 0 then n else n + 0x1_0000_0000
  {
    var w := Tagged(t, n);
    hide Tag, Low32, Tagged;
    if n >= 0 {
      DivModUnique(w, PAYLOAD, t, n);
      DivModUnique(w, 0x1_0000_0000, t * 0x1_0000, n);
    } else {
      DivModUnique(w, PAYLOAD, 0xFFFF, n + PAYLOAD);
      DivModUnique(w, 0x1_0000_0000, 0xFFFF_FFFF, n + 0x1_0000_0000);
    }
  }

  lemma LowInt32(n: Int32)
    ensures AsInt32(if n >= 0 then n else n + 0x1_0000_0000) == n
  {
    if n < 0 {
      DivModUnique(n + 0x1_0000_0000, 0x1_0000_0000, 0, n + 0x1_0000_0000);
    }
  }

  lemma LowInt16(n: Int16)
    ensures AsInt16(if n >= 0 then n else n + 0x1_0000_0000) == n
  {
    if n < 0 {
      DivModUnique(n + 0x1_0000_0000, 0x1_0000, 0xFFFF, n + 0x1_0000);
    }
  }

  /** Decoding undoes encoding for every 32-bit integer, although the classifier recognises only
      the encodings of the non-negative ones: a negative payload runs over its tag. */
  lemma SmallIntRoundTrip(n: Int32)
    ensures GetSmallInt(ToSmallInt(n)) == n
    ensures IsSmallInt(ToSmallInt(n)) <==> n >= 0
    ensures n < 0 ==> IsPointer(ToSmallInt(n))
  {
    EncodedParts(TAG_SMALL_INTEGER, n);
    LowInt32(n);
    hide Tag, Low32, Tagged, AsInt32;
  }

  lemma FnewRoundTrip(n: Int16)
    ensures GetFnew(ToFnew(n)) == n
    ensures IsFnew(ToFnew(n)) <==> n >= 0
    ensures n < 0 ==> IsPointer(ToFnew(n))
  {
    EncodedParts(TAG_FNEW, n);
    LowInt16(n);
    hide Tag, Low32, Tagged, AsInt16;
  }

  lemma BoolRoundTrip(b: bool)
    ensures IsBool(ToBool(b)) && (IsFalsy(ToBool(b)) <==> !b)
  {
    hide Tag, Tagged;
    MaskIsRemainder(ToBool(b), 1);
  }

  /** The kinds a word can have; tags 1 to 6 and 0xFFF9 are assigned to none of them. */
  datatype Kind = Nil | Pointer | Double | SmallInt | Bool | Type | Fnew | Builtin | Unassigned

  ghost predicate HasKind(w: Word, k: Kind) {
    match k
    case Nil => IsNil(w)
    case Pointer => IsPointer(w)
    case Double => IsDouble(w)
    case SmallInt => IsSmallInt(w)
    case Bool => IsBool(w)
    case Type => IsType(w)
    case Fnew => IsFnew(w)
    case Builtin => IsBuiltin(w)
    case Unassigned => 1 <= Tag(w) <= 6 || Tag(w) == 0xFFF9
  }

  /** Every word has exactly one kind, so at most one case of an arithmetic instruction applies. */
  lemma OneKind(w: Word)
    ensures exists k :: HasKind(w, k) && forall j :: HasKind(w, j) ==> j == k
  {
    var t := Tag(w);
    hide Tag;
    var k := if w == 0 then Nil else if t == 0 || t == 0xFFFF then Pointer
      else if 7 <= t <= 0xFFF8 then Double else if t == 0xFFFE then SmallInt
      else if t == 0xFFFD then Bool else if t == 0xFFFC then Type else if t == 0xFFFB then Fnew
      else if t == 0xFFFA then Builtin else Unassigned;
    assert HasKind(w, k);
  }

  /** Which words have which kind, as ranges of 64-bit values. */
  lemma KindRanges(w: Word)
    ensures HasKind(w, Nil) <==> w == 0
    ensures HasKind(w, Pointer) <==> 0 < w < 0x1_0000_0000_0000 || w >= 0xFFFF_0000_0000_0000
    ensures HasKind(w, Double) <==> 0x7_0000_0000_0000 <= w < 0xFFF9_0000_0000_0000
    ensures HasKind(w, Builtin) <==> 0xFFFA_0000_0000_0000 <= w < 0xFFFB_0000_0000_0000
    ensures HasKind(w, Fnew) <==> 0xFFFB_0000_0000_0000 <= w < 0xFFFC_0000_0000_0000
    ensures HasKind(w, Type) <==> 0xFFFC_0000_0000_0000 <= w < 0xFFFD_0000_0000_0000
    ensures HasKind(w, Bool) <==> 0xFFFD_0000_0000_0000 <= w < 0xFFFE_0000_0000_0000
    ensures HasKind(w, SmallInt) <==> 0xFFFE_0000_0000_0000 <= w < 0xFFFF_0000_0000_0000
  {
    var t := Tag(w);
    TagBounds(w, t);
    hide Tag;
  }

  lemma TagBounds(w: Word, t: nat)
    requires t == Tag(w)
    ensures t * 0x1_0000_0000_0000 <= w < (t + 1) * 0x1_0000_0000_0000
  {
    hide Tag;
  }

  /** Where the encoders put their numbers: above the tag's own value, or, for a negative number,
      where its sign extension puts it. */
  lemma Encodings(n: Int32, m: Int16, t: nat)
    requires t < 0x1_0000
    ensures ToSmallInt(n) == if n >= 0 then 0xFFFE_0000_0000_0000 + n else 0x1_0000_0000_0000_0000 + n
    ensures ToFnew(m) == if m >= 0 then 0xFFFB_0000_0000_0000 + m else 0x1_0000_0000_0000_0000 + m
    ensures ToType(t) == 0xFFFC_0000_0000_0000 + t
    ensures ToBool(false) == 0xFFFD_0000_0000_0000 && ToBool(true) == 0xFFFD_0000_0000_0001
  {
    hide Tagged;
  }

  /** Nil, and the words of kind Bool with an even payload. */
  predicate Falsy(w: Word) {
    w == 0 || (0xFFFD_0000_0000_0000 <= w < 0xFFFE_0000_0000_0000 && w % 2 == 0)
  }

  /** Falsy are nil and the words of kind Bool with an even payload, and no others: in particular
      the integer zero is true. */
  lemma FalsyMeans(w: Word)
    ensures HasKind(w, Nil) ==> IsFalsy(w)
    ensures HasKind(w, Bool) ==> (IsFalsy(w) <==> w % 2 == 0)
    ensures forall k :: k != Nil && k != Bool && HasKind(w, k) ==> !IsFalsy(w)
    ensures IsFalsy(w) <==> Falsy(w)
  {
    KindRanges(w);
    MaskIsRemainder(w, 1);
    OneKind(w);
    hide Tag, And;
    assert Pow2(1) == 2;
  }

  // ---- Sequences of words ----

  /** What a write leaves: indices skipped over are filled with zeros. */
  ghost function SetAt(s: seq<Word>, i: nat, v: Word): (r: seq<Word>)
    ensures |r| == if i < |s| then |s| else i + 1
  {
    if i < |s| then s[i := v] else s + seq(i - |s|, _ => NIL) + [v]
  }
}
