/** The bytecode container parser of loader.c: one cursor over a buffer of sections. */
module Loader {
  import opened Wrappers
  import opened Bits

  type Byte = b: nat | b < 0x100
  type UInt32 = n: nat | n < 0x1_0000_0000

  const HEADER_OFFSET := 4
  const SECTION_INSTRUCTIONS := 0
  const SECTION_CINT := 1
  const SECTION_CFLOAT := 2
  const SECTION_CSTR := 3
  const SECTION_CKEY := 4
  const SECTION_VTABLES := 5
  const SECTION_TYPES := 6

  datatype VtableRecord = VtableRecord(lookUpPair: nat, jumpOffset: UInt32)
  datatype TypeRecord = TypeRecord(typeId: UInt32, typeSize: UInt32)

  /** struct sections. A pointer into the buffer is its position there; the two record tables are
      the records in the order in which they are added. */
  datatype Sections = Sections(
    instrCnt: nat, instr: Option<nat>,
    cintCnt: nat, cint: Option<nat>,
    cfloatCnt: nat, cfloat: Option<nat>,
    cstrCnt: nat, cstr: seq<nat>,
    ckeyCnt: nat, ckey: seq<nat>,
    vtableCnt: nat, vtable: seq<VtableRecord>,
    typesCnt: nat, types: seq<TypeRecord>)

  const NO_SECTIONS := Sections(0, None, 0, None, 0, None, 0, [], 0, [], 0, [], 0, [])

  /** ntohl of the four bytes at `off`. */
  function Word32(buf: seq<Byte>, off: nat): (w: UInt32)
    requires off + 4 <= |buf|
  {
    var b0: nat, b1: nat, b2: nat, b3: nat := buf[off], buf[off + 1], buf[off + 2], buf[off + 3];
    b0 * 0x100_0000 + b1 * 0x1_0000 + b2 * 0x100 + b3
  }

  // ---- What parsing one section does ----

  /** Fault stands for a read outside the buffer, which C leaves undefined; Invalid is EINVAL. */
  datatype Outcome = Fault | Invalid | Next(offset: nat, sec: Sections)

  /** The starts of `cnt` strings behind their index of cumulative lengths. */
  function StringStarts(buf: seq<Byte>, index: nat, cnt: nat): (starts: seq<nat>)
    requires index + 4 * cnt <= |buf|
    ensures |starts| == cnt
  {
    seq(cnt, j requires 0 <= j < cnt => StringStart(buf, index, cnt, j))
  }

  function StringStart(buf: seq<Byte>, index: nat, cnt: nat, j: nat): nat
    requires index + 4 * cnt <= |buf| && j < cnt
  {
    index + 4 * (cnt + 1) + if j == 0 then 0 else Word32(buf, index + 4 * (j - 1))
  }

  function StringBytes(buf: seq<Byte>, index: nat, cnt: nat): nat
    requires index + 4 * cnt <= |buf|
  {
    if cnt == 0 then 0 else Word32(buf, index + 4 * (cnt - 1))
  }

  function VtableAt(buf: seq<Byte>, off: nat): VtableRecord
    requires off + 12 <= |buf|
  {
    VtableRecord(Word32(buf, off + 4) * 0x1_0000_0000 + Word32(buf, off + 8), Word32(buf, off))
  }

  /** Type sizes are 32-bit: eight bytes a field and eight for the header. */
  function TypeAt(buf: seq<Byte>, off: nat): TypeRecord
    requires off + 8 <= |buf|
  {
    TypeRecord(Word32(buf, off + 4), (Word32(buf, off) * 8 + 8) % 0x1_0000_0000)
  }

  function Vtables(buf: seq<Byte>, off: nat, cnt: nat): (r: seq<VtableRecord>)
    requires off + 12 * cnt <= |buf|
    ensures |r| == cnt
  {
    seq(cnt, j requires 0 <= j < cnt => VtableAt(buf, off + 12 * j))
  }

  function TypesOf(buf: seq<Byte>, off: nat, cnt: nat): (r: seq<TypeRecord>)
    requires off + 8 * cnt <= |buf|
    ensures |r| == cnt
  {
    seq(cnt, j requires 0 <= j < cnt => TypeAt(buf, off + 8 * j))
  }

  /** One section. Without debugging the INSTRUCTIONS case has lost its `break` to an `if` and
      falls through into CINT; the TYPES case never moves the cursor. */
  function ParseSection(buf: seq<Byte>, debug: bool, id: UInt32, len: UInt32, offset: nat, sec: Sections): Outcome {
    if offset + 4 > |buf| then Fault
    else
      var cnt := Word32(buf, offset);
      var data := offset + 4;
      if id == SECTION_INSTRUCTIONS then
        var s := sec.(instrCnt := cnt, instr := Some(data));
        Next(offset + len + 4, if debug then s else s.(cintCnt := cnt, cint := Some(data)))
      else if id == SECTION_CINT then
        Next(offset + len + 4, sec.(cintCnt := cnt, cint := Some(data)))
      else if id == SECTION_CFLOAT then
        Next(offset + len + 4, sec.(cfloatCnt := cnt, cfloat := Some(data)))
      else if id == SECTION_CSTR then
        if data + 4 * cnt > |buf| then Fault
        else Next(offset + StringBytes(buf, data, cnt) + 4 + 4 + cnt * 4,
                  sec.(cstrCnt := cnt, cstr := StringStarts(buf, data, cnt)))
      else if id == SECTION_CKEY then
        if data + 4 * cnt > |buf| then Fault
        else Next(offset + StringBytes(buf, data, cnt) + 4 + 4 + cnt * 4,
                  sec.(ckeyCnt := cnt, ckey := StringStarts(buf, data, cnt)))
      else if id == SECTION_VTABLES then
        if data + 12 * cnt > |buf| then Fault
        else Next(offset + len + 4, sec.(vtableCnt := cnt, vtable := Vtables(buf, data, cnt)))
      else if id == SECTION_TYPES then
        if data + 8 * cnt > |buf| then Fault
        else Next(offset, sec.(typesCnt := cnt, types := TypesOf(buf, data, cnt)))
      else Invalid
  }

  /** The sections from the i-th header on. */
  function ParseFrom(buf: seq<Byte>, debug: bool, i: nat, n: nat, offset: nat, sec: Sections): Outcome
    decreases n - i
  {
    if i >= n then Next(offset, sec)
    else if HEADER_OFFSET + 8 * i + 8 > |buf| then Fault
    else
      match ParseSection(buf, debug, Word32(buf, HEADER_OFFSET + 8 * i), Word32(buf, HEADER_OFFSET + 8 * i + 4), offset, sec)
      case Fault => Fault
      case Invalid => Invalid
      case Next(o, s) => ParseFrom(buf, debug, i + 1, n, o, s)
  }

  /** A section is rejected exactly when its id is none of the seven. */
  lemma UnknownSection(buf: seq<Byte>, debug: bool, id: UInt32, len: UInt32, offset: nat, sec: Sections)
    ensures ParseSection(buf, debug, id, len, offset, sec) == Invalid <==> offset + 4 <= |buf| && id > 6
    ensures offset + 4 > |buf| ==> ParseSection(buf, debug, id, len, offset, sec) == Fault
  {
    hide Word32, StringStarts, StringBytes, Vtables, TypesOf;
  }

  /** The whole parse. */
  function ParseAll(buf: seq<Byte>, debug: bool, sec: Sections): Outcome {
    if |buf| < 4 then Fault
    else
      var n := Word32(buf, 0);
      ParseFrom(buf, debug, 0, n, n * 8 + HEADER_OFFSET, sec)
  }

  // ---- The parser's loops ----

  method ReadStrings(buf: seq<Byte>, index: nat, cnt: nat) returns (starts: seq<nat>)
    requires index + 4 * cnt <= |buf|
    ensures starts == StringStarts(buf, index, cnt)
  {
    starts := [];
    var chars := index + 4 * (cnt + 1);
    var j := 0;
    while j < cnt
      invariant j <= cnt && |starts| == j
      invariant forall k :: 0 <= k < j ==> starts[k] == StringStart(buf, index, cnt, k)
    {
      var charskip := 0;
      if j != 0 {
        charskip := Word32(buf, index + 4 * (j - 1));
      }
      starts := starts + [chars + charskip];
      j := j + 1;
    }
  }

  method ReadVtables(buf: seq<Byte>, off: nat, cnt: nat) returns (r: seq<VtableRecord>)
    requires off + 12 * cnt <= |buf|
    ensures r == Vtables(buf, off, cnt)
  {
    r := [];
    var p := off;
    var j := 0;
    while j < cnt
      invariant j <= cnt && |r| == j && p == off + 12 * j
      invariant forall k :: 0 <= k < j ==> r[k] == VtableAt(buf, off + 12 * k)
    {
      var jumpOffset := Word32(buf, p);
      var protocolNr := Word32(buf, p + 4);
      var typeNr := Word32(buf, p + 8);
      r := r + [VtableRecord(LookUpPair(protocolNr, typeNr), jumpOffset)];
      p := p + 12;
      j := j + 1;
    }
  }

  /** The pair as the C code forms it, by shift and or. */
  function LookUpPair(protocolNr: UInt32, typeNr: UInt32): (pair: nat)
    ensures pair == protocolNr * 0x1_0000_0000 + typeNr
  {
    Pow2Constants();
    OrByParts(protocolNr, 0, 0, typeNr, 32);
    OrZero(protocolNr);
    OrZero(typeNr);
    Or(protocolNr * 0x1_0000_0000, typeNr)
  }

  method ReadTypes(buf: seq<Byte>, off: nat, cnt: nat) returns (r: seq<TypeRecord>)
    requires off + 8 * cnt <= |buf|
    ensures r == TypesOf(buf, off, cnt)
  {
    r := [];
    var p := off;
    var j := 0;
    while j < cnt
      invariant j <= cnt && |r| == j && p == off + 8 * j
      invariant forall k :: 0 <= k < j ==> r[k] == TypeAt(buf, off + 8 * k)
    {
      r := r + [TypeRecord(Word32(buf, p + 4), (Word32(buf, p) * 8 + 8) % 0x1_0000_0000)];
      p := p + 8;
      j := j + 1;
    }
  }

  /** The body of the switch. */
  method ReadSection(buf: seq<Byte>, debug: bool, id: UInt32, len: UInt32, offset: nat, sec: Sections)
    returns (o: Outcome)
    ensures o == ParseSection(buf, debug, id, len, offset, sec)
  {
    if offset + 4 > |buf| {
      return Fault;
    }
    var s := sec;
    var cnt := Word32(buf, offset);
    var data := offset + 4;
    if id == SECTION_INSTRUCTIONS {
      s := s.(instrCnt := cnt, instr := Some(data));
      if debug {
        return Next(offset + len + 4, s);
      }
    }
    if id == SECTION_INSTRUCTIONS || id == SECTION_CINT {
      return Next(offset + len + 4, s.(cintCnt := cnt, cint := Some(data)));
    } else if id == SECTION_CFLOAT {
      return Next(offset + len + 4, s.(cfloatCnt := cnt, cfloat := Some(data)));
    } else if id == SECTION_CSTR || id == SECTION_CKEY {
      if data + 4 * cnt > |buf| {
        return Fault;
      }
      var starts := ReadStrings(buf, data, cnt);
      var bytes := StringBytes(buf, data, cnt);
      s := if id == SECTION_CSTR then s.(cstrCnt := cnt, cstr := starts) else s.(ckeyCnt := cnt, ckey := starts);
      return Next(offset + bytes + 4 + 4 + cnt * 4, s);
    } else if id == SECTION_VTABLES {
      if data + 12 * cnt > |buf| {
        return Fault;
      }
      var records := ReadVtables(buf, data, cnt);
      return Next(offset + len + 4, s.(vtableCnt := cnt, vtable := records));
    } else if id == SECTION_TYPES {
      if data + 8 * cnt > |buf| {
        return Fault;
      }
      var records := ReadTypes(buf, data, cnt);
      return Next(offset, s.(typesCnt := cnt, types := records));
    }
    return Invalid;
  }

  /** parse. */
  method Parse(buf: seq<Byte>, debug: bool, sec: Sections) returns (o: Outcome)
    ensures o == ParseAll(buf, debug, sec)
  {
    hide ParseSection;
    if |buf| < 4 {
      return Fault;
    }
    var hdrSize := Word32(buf, 0);
    o := Next(hdrSize * 8 + HEADER_OFFSET, sec);
    var i := 0;
    while i < hdrSize
      invariant i <= hdrSize && o.Next?
      invariant ParseAll(buf, debug, sec) == ParseFrom(buf, debug, i, hdrSize, o.offset, o.sec)
    {
      if HEADER_OFFSET + 8 * i + 8 > |buf| {
        return Fault;
      }
      var len := Word32(buf, HEADER_OFFSET + 8 * i + 4);
      var id := Word32(buf, HEADER_OFFSET + 8 * i);
      o := ReadSection(buf, debug, id, len, o.offset, o.sec);
      if !o.Next? {
        return o;
      }
      i := i + 1;
    }
  }
}
