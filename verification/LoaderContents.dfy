/** What lies at the positions that the parser records, decoded as its users decode it. */
module LoaderContents {
  import opened Wrappers
  import opened Loader
  import opened LoaderPrint
  import opened LoaderReadBack
  import opened LoaderRoundTrip
  import opened LoaderDrift
  import ByteOrder
  import Machine

  // ---- 64-bit constants ----

  lemma {:induction false} PairWordAt(ps: seq<(UInt32, UInt32)>, j: nat)
    requires j < |ps|
    ensures Pairs(ps)[2 * j] == ps[j].0 && Pairs(ps)[2 * j + 1] == ps[j].1
    decreases |ps|
  {
    if j > 0 {
      PairWordAt(ps[1..], j - 1);
    }
  }

  /** The eight bytes at `pos`. */
  function Memory(buf: Bytes, pos: nat): (b: seq<bv8>)
    requires pos + 8 <= |buf|
    ensures |b| == 8
  {
    seq(8, i requires 0 <= i < 8 => ByteOrder.ToByte(buf[pos + i]))
  }

  /** A constant as the little-endian machine loads and then swaps it. */
  function Constant64(buf: Bytes, pos: nat): nat
    requires pos + 8 <= |buf|
  {
    ByteOrder.SwapInt64(ByteOrder.FromMemory(Memory(buf, pos))) as nat
  }

  /** The printed constant: two words, high word first. */
  function PairValue(p: (UInt32, UInt32)): nat {
    var high: nat, low: nat := p.0, p.1;
    high * 0x1_0000_0000 + low
  }

  lemma ConstantIsPair(buf: Bytes, pos: nat)
    requires pos + 8 <= |buf|
    ensures Constant64(buf, pos) == PairValue((Word32(buf, pos), Word32(buf, pos + 4)))
  {
    hide ByteOrder.SwapInt64, ByteOrder.FromMemory;
    var b := Memory(buf, pos);
    var v: seq<nat> := [buf[pos], buf[pos + 1], buf[pos + 2], buf[pos + 3],
                        buf[pos + 4], buf[pos + 5], buf[pos + 6], buf[pos + 7]];
    forall i | 0 <= i < 8 ensures b[i] as nat == v[i] {
      assert v[i] == buf[pos + i];
    }
    ByteOrder.SwapReadsBigEndian(b, v);
  }

  /** Constants printed as pairs of words, high word first. */
  lemma PairsBack(buf: Bytes, data: nat, ps: seq<(UInt32, UInt32)>, ws: seq<UInt32>, j: nat)
    requires At(buf, data, PrintWords(ws)) && ws == Pairs(ps) && j < |ps|
    ensures data + 8 * j + 8 <= |buf|
    ensures Constant64(buf, data + 8 * j) == PairValue(ps[j])
  {
    hide At, Word32, PrintWords, Pairs, Constant64, PairValue;
    PairWordAt(ps, j);
    PairAt(buf, data, ws, j);
    ConstantIsPair(buf, data + 8 * j);
  }

  /** Integer and floating-point constants, put through the byte swap, are the printed 64-bit
      patterns. */
  lemma ConstantReadsBack(secs: seq<Section>, k: nat, j: nat)
    requires AllPrintable(secs) && k < |secs| && (secs[k].CInt? || secs[k].CFloat?) && j < Count(secs[k])
    ensures var ps := if secs[k].CInt? then secs[k].ints else secs[k].floats;
      var pos := StartAt(secs, k) + 4 + 8 * j;
      pos + 8 <= |Print(secs)| && Constant64(Print(secs), pos) == PairValue(ps[j])
  {
    hide At, PrintWords, PrintWord, Print, Pairs, Constant64, StartAt, PairValue;
    BodyAt(secs, k);
    var off := StartAt(secs, k);
    var ps := if secs[k].CInt? then secs[k].ints else secs[k].floats;
    AtParts(Print(secs), off, PrintWord(Count(secs[k])), PrintWords(Pairs(ps)));
    PairsBack(Print(secs), off + 4, ps, Pairs(ps), j);
  }

  // ---- Keys ----

  /** The key section's starts are where the keys are, terminators included. */
  lemma KeyReadsBack(secs: seq<Section>, k: nat, j: nat)
    requires AllPrintable(secs) && k < |secs| && secs[k].CKey? && j < |secs[k].keys|
    ensures At(Print(secs), Starts(secs[k].keys, StartAt(secs, k))[j], secs[k].keys[j] + [0])
  {
    hide At, StringTable, PrintWord, Print, Chars;
    BodyAt(secs, k);
    var off, ss := StartAt(secs, k), secs[k].keys;
    AtParts(Print(secs), off, PrintWord(|ss|), StringTable(ss));
    TableParts(Print(secs), off + 4, ss);
    CharsAt(Print(secs), off + 4 + 4 * (|ss| + 1), ss, j);
  }

  // ---- Code ----

  /** An instruction as a 32-bit word of the container. */
  function EncodeInstr(i: Machine.Instr): UInt32 {
    var op: nat, a: nat, b: nat, c: nat := i.op, i.a, i.b, i.c;
    op * 0x100_0000 + a * 0x1_0000 + b * 0x100 + c
  }

  function EncodeCode(code: seq<Machine.Instr>): (ns: seq<UInt32>)
    ensures |ns| == |code|
  {
    seq(|code|, j requires 0 <= j < |code| => EncodeInstr(code[j]))
  }

  /** What the dispatch loop takes an instruction to be: its four bytes in memory. */
  function InstrAt(buf: Bytes, pos: nat): Machine.Instr
    requires pos + 4 <= |buf|
  {
    Machine.Instr(buf[pos], buf[pos + 1], buf[pos + 2], buf[pos + 3])
  }

  lemma InstrReadsBack(buf: Bytes, pos: nat, i: Machine.Instr)
    requires pos + 4 <= |buf| && Word32(buf, pos) == EncodeInstr(i)
    ensures InstrAt(buf, pos) == i
  {
    var b0: nat, b1: nat, b2: nat, b3: nat := buf[pos], buf[pos + 1], buf[pos + 2], buf[pos + 3];
    var op: nat, a: nat, b: nat, c: nat := i.op, i.a, i.b, i.c;
    SameDigit(b0 * 0x1_0000 + b1 * 0x100 + b2, b3, op * 0x1_0000 + a * 0x100 + b, c);
    SameDigit(b0 * 0x100 + b1, b2, op * 0x100 + a, b);
    SameDigit(b0, b1, op, a);
  }

  lemma SameDigit(u: nat, x: nat, v: nat, y: nat)
    requires u * 0x100 + x == v * 0x100 + y && x < 0x100 && y < 0x100
    ensures u == v && x == y
  {
  }

  /** From container to machine: when no section follows a TYPES section, the loaded position holds
      exactly the program that was printed, instruction by instruction. */
  lemma LoadedProgram(secs: seq<Section>, debug: bool, k: nat, code: seq<Machine.Instr>, j: nat)
    requires AllPrintable(secs) && TypesLast(secs) && k < |secs| && j < |code|
    requires secs[k] == Instructions(EncodeCode(code)) && NotSet(secs, InstrField, debug, k + 1, |secs|)
    ensures var o := ParseAll(Print(secs), debug, NO_SECTIONS);
      && o.Next? && o.sec.instr.Some?
      && o.sec.instr.value + 4 * j + 4 <= |Print(secs)|
      && InstrAt(Print(secs), o.sec.instr.value + 4 * j) == code[j]
  {
    hide ParseAll, Print, Printable, StartAt, NotSet, Word32, EncodeInstr, InstrAt, ExpectUpto;
    RoundTrip(secs, debug);
    ExpectedAt(secs, debug, InstrField, k);
    CodeReadsBack(secs, k, j);
    InstrReadsBack(Print(secs), StartAt(secs, k) + 4 + 4 * j, code[j]);
  }

  // ---- Section numbers ----

  /** The last byte of a printed section id: the numbers of the container format. */
  function SectionNumber(s: Section): Loader.Byte {
    match s
    case Instructions(_) => 0
    case CInt(_) => 1
    case CFloat(_) => 2
    case CStr(_) => 3
    case CKey(_) => 4
    case Vtable(_) => 5
    case Type(_) => 6
  }

  /** In a printed container the k-th header names its section by that number, so the round trip is
      about the format's own numbering. */
  lemma HeaderNumber(secs: seq<Section>, k: nat)
    requires AllPrintable(secs) && k < |secs|
    ensures 12 + 8 * k <= |Print(secs)|
    ensures Word32(Print(secs), 4 + 8 * k) == SectionNumber(secs[k])
  {
    hide Print, Word32, Length, Printable;
    HeaderAt(secs, k);
  }
}
