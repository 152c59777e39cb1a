/** A printer for bytecode containers. */
module LoaderPrint {
  import opened Wrappers
  import opened Loader

  type Bytes = seq<Byte>

  datatype VtableEntry = VtableEntry(jumpOffset: UInt32, protocolNr: UInt32, typeNr: UInt32)
  datatype TypeEntry = TypeEntry(fields: UInt32, typeId: UInt32)

  /** The contents of one section. 64-bit constants are pairs of 32-bit words, high word first. */
  datatype Section =
    | Instructions(code: seq<UInt32>)
    | CInt(ints: seq<(UInt32, UInt32)>)
    | CFloat(floats: seq<(UInt32, UInt32)>)
    | CStr(strings: seq<Bytes>)
    | CKey(keys: seq<Bytes>)
    | Vtable(entries: seq<VtableEntry>)
    | Type(records: seq<TypeEntry>)

  // ---- Printing ----

  function PrintWord(n: UInt32): (b: Bytes)
    ensures |b| == 4
  {
    [n / 0x100_0000, n / 0x1_0000 % 0x100, n / 0x100 % 0x100, n % 0x100]
  }

  function PrintWords(ns: seq<UInt32>): (b: Bytes)
    ensures |b| == 4 * |ns|
  {
    if ns == [] then [] else PrintWord(ns[0]) + PrintWords(ns[1..])
  }

  function Pairs(ps: seq<(UInt32, UInt32)>): (ns: seq<UInt32>)
    ensures |ns| == 2 * |ps|
  {
    if ps == [] then [] else [ps[0].0, ps[0].1] + Pairs(ps[1..])
  }

  function VtableWords(es: seq<VtableEntry>): (ns: seq<UInt32>)
    ensures |ns| == 3 * |es|
  {
    if es == [] then []
    else [es[0].jumpOffset, es[0].protocolNr, es[0].typeNr] + VtableWords(es[1..])
  }

  function TypeWords(ts: seq<TypeEntry>): (ns: seq<UInt32>)
    ensures |ns| == 2 * |ts|
  {
    if ts == [] then [] else [ts[0].fields, ts[0].typeId] + TypeWords(ts[1..])
  }

  /** Strings one after the other, each with its terminator. */
  function Chars(ss: seq<Bytes>): Bytes {
    if ss == [] then [] else Chars(ss[..|ss| - 1]) + ss[|ss| - 1] + [0]
  }

  /** Where the j-th string starts among the characters. */
  function StartOf(ss: seq<Bytes>, j: nat): nat
    requires j <= |ss|
  {
    |Chars(ss[..j])|
  }

  /** The index: where each string ends. */
  function Ends(ss: seq<Bytes>): (ns: seq<UInt32>)
    requires |Chars(ss)| < 0x1_0000_0000
    ensures |ns| == |ss|
  {
    seq(|ss|, j requires 0 <= j < |ss| => EndOf(ss, j))
  }

  function EndOf(ss: seq<Bytes>, j: nat): UInt32
    requires |Chars(ss)| < 0x1_0000_0000 && j < |ss|
  {
    StartFits(ss, j + 1);
    StartOf(ss, j + 1)
  }

  lemma {:induction false} StartFits(ss: seq<Bytes>, j: nat)
    requires j <= |ss|
    ensures StartOf(ss, j) <= |Chars(ss)|
    decreases |ss|
  {
    if j < |ss| {
      var init := ss[..|ss| - 1];
      assert init[..j] == ss[..j];
      StartFits(init, j);
    } else {
      assert ss[..j] == ss;
    }
  }

  function Count(s: Section): nat {
    match s
    case Instructions(code) => |code|
    case CInt(ints) => |ints|
    case CFloat(floats) => |floats|
    case CStr(strings) => |strings|
    case CKey(keys) => |keys|
    case Vtable(entries) => |entries|
    case Type(records) => |records|
  }

  function Id(s: Section): UInt32 {
    match s
    case Instructions(_) => SECTION_INSTRUCTIONS
    case CInt(_) => SECTION_CINT
    case CFloat(_) => SECTION_CFLOAT
    case CStr(_) => SECTION_CSTR
    case CKey(_) => SECTION_CKEY
    case Vtable(_) => SECTION_VTABLES
    case Type(_) => SECTION_TYPES
  }

  /** Strings come after their index and one more count. */
  function StringTable(ss: seq<Bytes>): (b: Bytes)
    requires |Chars(ss)| < 0x1_0000_0000 && |ss| < 0x1_0000_0000
    ensures |b| == 4 * |ss| + 4 + |Chars(ss)|
  {
    PrintWords(Ends(ss)) + PrintWord(|ss|) + Chars(ss)
  }

  /** The size of the payload, except for the strings' characters. */
  function FixedSize(s: Section): nat {
    match s
    case Instructions(code) => 4 * |code|
    case CInt(ints) => 8 * |ints|
    case CFloat(floats) => 8 * |floats|
    case CStr(strings) => 4 * |strings|
    case CKey(keys) => 4 * |keys|
    case Vtable(entries) => 12 * |entries|
    case Type(records) => 8 * |records|
  }

  /** Everything in a section's header and body fits its 32-bit field. */
  ghost predicate Printable(s: Section) {
    && FixedSize(s) < 0x1_0000_0000
    && (s.CStr? ==> |Chars(s.strings)| < 0x1_0000_0000)
    && (s.CKey? ==> |Chars(s.keys)| < 0x1_0000_0000)
  }

  ghost function Payload(s: Section): Bytes
    requires Printable(s)
  {
    match s
    case Instructions(code) => PrintWords(code)
    case CInt(ints) => PrintWords(Pairs(ints))
    case CFloat(floats) => PrintWords(Pairs(floats))
    case CStr(strings) => StringTable(strings)
    case CKey(keys) => StringTable(keys)
    case Vtable(entries) => PrintWords(VtableWords(entries))
    case Type(records) => PrintWords(TypeWords(records))
  }

  /** The header's length: the payload, or only the characters of a string table. */
  ghost function Length(s: Section): UInt32
    requires Printable(s)
  {
    match s
    case CStr(strings) => |Chars(strings)|
    case CKey(keys) => |Chars(keys)|
    case _ => |Payload(s)|
  }

  ghost function Body(s: Section): Bytes
    requires Printable(s)
  {
    PrintWord(Count(s)) + Payload(s)
  }

  ghost predicate AllPrintable(secs: seq<Section>) {
    |secs| < 0x1_0000_0000 && forall k :: 0 <= k < |secs| ==> Printable(secs[k])
  }

  ghost function Headers(secs: seq<Section>): (ns: seq<UInt32>)
    requires forall k :: 0 <= k < |secs| ==> Printable(secs[k])
    ensures |ns| == 2 * |secs|
  {
    if secs == [] then [] else [Id(secs[0]), Length(secs[0])] + Headers(secs[1..])
  }

  ghost function Bodies(secs: seq<Section>): Bytes
    requires forall k :: 0 <= k < |secs| ==> Printable(secs[k])
  {
    if secs == [] then [] else Body(secs[0]) + Bodies(secs[1..])
  }

  ghost function Print(secs: seq<Section>): Bytes
    requires AllPrintable(secs)
  {
    PrintWord(|secs|) + PrintWords(Headers(secs)) + Bodies(secs)
  }
}
