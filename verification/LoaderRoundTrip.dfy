/** The round trip of bytecode containers through printer and parser. */
module LoaderRoundTrip {
  import opened Wrappers
  import opened Loader
  import opened LoaderPrint
  import opened LoaderReadBack

  // ---- One section ----

  ghost function Starts(ss: seq<Bytes>, off: nat): seq<nat> {
    seq(|ss|, j requires 0 <= j < |ss| => off + 4 + 4 * (|ss| + 1) + StartOf(ss, j))
  }

  ghost function VtableRecords(es: seq<VtableEntry>): seq<VtableRecord> {
    seq(|es|, j requires 0 <= j < |es| =>
      VtableRecord(es[j].protocolNr * 0x1_0000_0000 + es[j].typeNr, es[j].jumpOffset))
  }

  ghost function TypeRecords(ts: seq<TypeEntry>): seq<TypeRecord> {
    seq(|ts|, j requires 0 <= j < |ts| =>
      TypeRecord(ts[j].typeId, (8 * ts[j].fields + 8) % 0x1_0000_0000))
  }

  /** What the parser should know after a section printed at `off`. */
  ghost function Expect(s: Section, off: nat, debug: bool, sec: Sections): Sections {
    match s
    case Instructions(code) =>
      var r := sec.(instrCnt := |code|, instr := Some(off + 4));
      if debug then r else r.(cintCnt := |code|, cint := Some(off + 4))
    case CInt(ints) => sec.(cintCnt := |ints|, cint := Some(off + 4))
    case CFloat(floats) => sec.(cfloatCnt := |floats|, cfloat := Some(off + 4))
    case CStr(strings) => sec.(cstrCnt := |strings|, cstr := Starts(strings, off))
    case CKey(keys) => sec.(ckeyCnt := |keys|, ckey := Starts(keys, off))
    case Vtable(entries) => sec.(vtableCnt := |entries|, vtable := VtableRecords(entries))
    case Type(records) => sec.(typesCnt := |records|, types := TypeRecords(records))
  }

  lemma {:induction false} VtableWordAt(es: seq<VtableEntry>, j: nat)
    requires j < |es|
    ensures VtableWords(es)[3 * j] == es[j].jumpOffset
    ensures VtableWords(es)[3 * j + 1] == es[j].protocolNr
    ensures VtableWords(es)[3 * j + 2] == es[j].typeNr
    decreases |es|
  {
    if j > 0 {
      VtableWordAt(es[1..], j - 1);
    }
  }

  lemma {:induction false} TypeWordAt(ts: seq<TypeEntry>, j: nat)
    requires j < |ts|
    ensures TypeWords(ts)[2 * j] == ts[j].fields && TypeWords(ts)[2 * j + 1] == ts[j].typeId
    decreases |ts|
  {
    if j > 0 {
      TypeWordAt(ts[1..], j - 1);
    }
  }

  lemma VtablesBack(buf: Bytes, data: nat, es: seq<VtableEntry>, ws: seq<UInt32>)
    requires At(buf, data, PrintWords(ws)) && ws == VtableWords(es)
    ensures data + 12 * |es| <= |buf| && Vtables(buf, data, |es|) == VtableRecords(es)
  {
    hide At, Word32, PrintWords, VtableWords, VtableAt;
    AtFits(buf, data, PrintWords(ws));
    forall j | 0 <= j < |es| ensures VtableAt(buf, data + 12 * j) == VtableRecords(es)[j] {
      VtableBack(buf, data, es, ws, j);
    }
  }

  lemma VtableBack(buf: Bytes, data: nat, es: seq<VtableEntry>, ws: seq<UInt32>, j: nat)
    requires At(buf, data, PrintWords(ws)) && ws == VtableWords(es) && j < |es|
    ensures data + 12 * |es| <= |buf|
    ensures VtableAt(buf, data + 12 * j) ==
      VtableRecord(es[j].protocolNr * 0x1_0000_0000 + es[j].typeNr, es[j].jumpOffset)
  {
    hide At, Word32, PrintWords, VtableWords;
    AtFits(buf, data, PrintWords(ws));
    VtableWordAt(es, j);
    TripleAt(buf, data, ws, j);
  }

  lemma TypesBack(buf: Bytes, data: nat, ts: seq<TypeEntry>, ws: seq<UInt32>)
    requires At(buf, data, PrintWords(ws)) && ws == TypeWords(ts)
    ensures data + 8 * |ts| <= |buf| && TypesOf(buf, data, |ts|) == TypeRecords(ts)
  {
    hide At, Word32, PrintWords, TypeWords, TypeAt;
    AtFits(buf, data, PrintWords(ws));
    forall j | 0 <= j < |ts| ensures TypeAt(buf, data + 8 * j) == TypeRecords(ts)[j] {
      TypeBack(buf, data, ts, ws, j);
    }
  }

  lemma TypeBack(buf: Bytes, data: nat, ts: seq<TypeEntry>, ws: seq<UInt32>, j: nat)
    requires At(buf, data, PrintWords(ws)) && ws == TypeWords(ts) && j < |ts|
    ensures data + 8 * |ts| <= |buf|
    ensures TypeAt(buf, data + 8 * j) == TypeRecord(ts[j].typeId, (8 * ts[j].fields + 8) % 0x1_0000_0000)
  {
    hide At, Word32, PrintWords, TypeWords;
    AtFits(buf, data, PrintWords(ws));
    TypeWordAt(ts, j);
    PairAt(buf, data, ws, j);
  }

  lemma StringsBack(buf: Bytes, off: nat, ss: seq<Bytes>, ns: seq<UInt32>)
    requires |Chars(ss)| < 0x1_0000_0000 && ns == Ends(ss) && At(buf, off + 4, PrintWords(ns))
    ensures off + 4 + 4 * |ss| <= |buf|
    ensures StringStarts(buf, off + 4, |ss|) == Starts(ss, off)
    ensures StringBytes(buf, off + 4, |ss|) == |Chars(ss)|
  {
    hide At, Word32, PrintWords, Ends, StringStart;
    AtFits(buf, off + 4, PrintWords(ns));
    forall j | 0 <= j < |ss| ensures StringStart(buf, off + 4, |ss|, j) == Starts(ss, off)[j] {
      StringBack(buf, off, ss, ns, j);
    }
    if |ss| > 0 {
      EndBack(buf, off, ss, ns, |ss| - 1);
      assert ss[..|ss|] == ss;
    } else {
      assert Chars(ss) == [];
    }
  }

  lemma EndBack(buf: Bytes, off: nat, ss: seq<Bytes>, ns: seq<UInt32>, j: nat)
    requires |Chars(ss)| < 0x1_0000_0000 && ns == Ends(ss) && At(buf, off + 4, PrintWords(ns)) && j < |ss|
    ensures off + 4 + 4 * |ss| <= |buf| && Word32(buf, off + 4 + 4 * j) == StartOf(ss, j + 1)
  {
    hide At, Word32, PrintWords, Ends, Chars, StartOf;
    WordAtPosition(buf, off + 4, ns, j, off + 4 + 4 * j);
    EndsAt(ss, j);
  }

  lemma EndsAt(ss: seq<Bytes>, j: nat)
    requires |Chars(ss)| < 0x1_0000_0000 && j < |ss|
    ensures Ends(ss)[j] == StartOf(ss, j + 1)
  {
  }

  lemma StringBack(buf: Bytes, off: nat, ss: seq<Bytes>, ns: seq<UInt32>, j: nat)
    requires |Chars(ss)| < 0x1_0000_0000 && ns == Ends(ss) && At(buf, off + 4, PrintWords(ns)) && j < |ss|
    ensures off + 4 + 4 * |ss| <= |buf|
    ensures StringStart(buf, off + 4, |ss|, j) == off + 4 + 4 * (|ss| + 1) + StartOf(ss, j)
  {
    hide At, Word32, PrintWords, Ends;
    AtFits(buf, off + 4, PrintWords(ns));
    if j > 0 {
      EndBack(buf, off, ss, ns, j - 1);
    } else {
      assert ss[..0] == [];
    }
  }

  /** The index of a string table lies right behind its count. */
  lemma TableParts(buf: Bytes, off: nat, ss: seq<Bytes>)
    requires |Chars(ss)| < 0x1_0000_0000 && |ss| < 0x1_0000_0000 && At(buf, off, StringTable(ss))
    ensures At(buf, off, PrintWords(Ends(ss))) && At(buf, off + 4 * (|ss| + 1), Chars(ss))
  {
    hide At, PrintWords, PrintWord, Ends, Chars;
    AtParts(buf, off, PrintWords(Ends(ss)) + PrintWord(|ss|), Chars(ss));
    AtParts(buf, off, PrintWords(Ends(ss)), PrintWord(|ss|));
  }

  /** A printed section reads back as what was printed, and moves the cursor to its end unless it
      is a TYPES section. */
  lemma SectionBack(buf: Bytes, off: nat, s: Section, debug: bool, sec: Sections)
    requires Printable(s) && At(buf, off, Body(s))
    ensures ParseSection(buf, debug, Id(s), Length(s), off, sec)
         == Next(if s.Type? then off else off + |Body(s)|, Expect(s, off, debug, sec))
  {
    hide At, Word32, PrintWords, PrintWord, VtableWords, TypeWords, Pairs, Ends, StringTable, Chars,
      StringStarts, StringBytes, Starts, Vtables, VtableRecords, TypesOf, TypeRecords;
    AtParts(buf, off, PrintWord(Count(s)), Payload(s));
    WordAt(buf, off, Count(s));
    match s
    case Instructions(_) =>
    case CInt(_) =>
    case CFloat(_) =>
    case CStr(strings) =>
      TableParts(buf, off + 4, strings);
      StringsBack(buf, off, strings, Ends(strings));
    case CKey(keys) =>
      TableParts(buf, off + 4, keys);
      StringsBack(buf, off, keys, Ends(keys));
    case Vtable(entries) => VtablesBack(buf, off + 4, entries, VtableWords(entries));
    case Type(records) => TypesBack(buf, off + 4, records, TypeWords(records));
  }

  // ---- The whole container ----

  ghost function Offset0(secs: seq<Section>): nat {
    |secs| * 8 + HEADER_OFFSET
  }

  /** Where the k-th section's body is printed. */
  ghost function StartAt(secs: seq<Section>, k: nat): nat
    requires AllPrintable(secs) && k <= |secs|
  {
    if k == 0 then Offset0(secs) else StartAt(secs, k - 1) + |Body(secs[k - 1])|
  }

  /** What the parser should know after the first `k` sections. */
  ghost function ExpectUpto(secs: seq<Section>, k: nat, debug: bool): Sections
    requires AllPrintable(secs) && k <= |secs|
  {
    if k == 0 then NO_SECTIONS
    else Expect(secs[k - 1], StartAt(secs, k - 1), debug, ExpectUpto(secs, k - 1, debug))
  }

  lemma {:induction false} HeaderWordAt(secs: seq<Section>, k: nat)
    requires (forall j :: 0 <= j < |secs| ==> Printable(secs[j])) && k < |secs|
    ensures Headers(secs)[2 * k] == Id(secs[k]) && Headers(secs)[2 * k + 1] == Length(secs[k])
    decreases k
  {
    hide Printable, Length;
    if k > 0 {
      HeaderWordAt(secs[1..], k - 1);
    }
  }

  /** The k-th header of a printed container. */
  lemma HeaderAt(secs: seq<Section>, k: nat)
    requires AllPrintable(secs) && k < |secs|
    ensures var buf := Print(secs); var h := HEADER_OFFSET + 8 * k;
      h + 8 <= |buf| && Word32(buf, h) == Id(secs[k]) && Word32(buf, h + 4) == Length(secs[k])
    ensures Word32(Print(secs), 0) == |secs|
  {
    hide At, Word32, PrintWords, PrintWord, Bodies, Headers, Printable, Length;
    var ns := Headers(secs);
    PrintedParts(secs, ns);
    HeaderWordAt(secs, k);
    PairAt(Print(secs), 4, ns, k);
  }

  lemma PrintedParts(secs: seq<Section>, ns: seq<UInt32>)
    requires AllPrintable(secs) && ns == Headers(secs)
    ensures var buf := Print(secs);
      && 4 <= |buf| && Word32(buf, 0) == |secs|
      && At(buf, 4, PrintWords(ns)) && At(buf, Offset0(secs), Bodies(secs))
  {
    hide Word32, PrintWords, PrintWord, Bodies, Headers, Printable, At;
    var buf := Print(secs);
    Whole(buf);
    AtParts(buf, 0, PrintWord(|secs|) + PrintWords(ns), Bodies(secs));
    AtParts(buf, 0, PrintWord(|secs|), PrintWords(ns));
    WordAt(buf, 0, |secs|);
  }

  lemma Whole(buf: Bytes)
    ensures At(buf, 0, buf)
  {
  }

  /** The offset of the k-th body among the bodies. */
  ghost function Before(secs: seq<Section>, k: nat): nat
    requires (forall j :: 0 <= j < |secs| ==> Printable(secs[j])) && k <= |secs|
  {
    if k == 0 then 0 else |Body(secs[0])| + Before(secs[1..], k - 1)
  }

  lemma {:induction false} BodyAmong(buf: Bytes, off: nat, secs: seq<Section>, k: nat)
    requires (forall j :: 0 <= j < |secs| ==> Printable(secs[j])) && k < |secs|
    requires At(buf, off, Bodies(secs))
    ensures At(buf, off + Before(secs, k), Body(secs[k]))
    decreases k
  {
    hide At, Printable, Body;
    AtParts(buf, off, Body(secs[0]), Bodies(secs[1..]));
    if k > 0 {
      BodyAmong(buf, off + |Body(secs[0])|, secs[1..], k - 1);
    }
  }

  lemma {:induction false} BeforeStep(secs: seq<Section>, k: nat)
    requires (forall j :: 0 <= j < |secs| ==> Printable(secs[j])) && k < |secs|
    ensures Before(secs, k + 1) == Before(secs, k) + |Body(secs[k])|
    decreases k
  {
    hide Printable, Body;
    if k > 0 {
      BeforeStep(secs[1..], k - 1);
    }
  }

  lemma {:induction false} StartIsBefore(secs: seq<Section>, k: nat)
    requires AllPrintable(secs) && k <= |secs|
    ensures StartAt(secs, k) == Offset0(secs) + Before(secs, k)
    decreases k
  {
    hide Printable, Body;
    if k > 0 {
      StartIsBefore(secs, k - 1);
      BeforeStep(secs, k - 1);
    }
  }

  /** The k-th section lies where it should. */
  lemma BodyAt(secs: seq<Section>, k: nat)
    requires AllPrintable(secs) && k < |secs|
    ensures At(Print(secs), StartAt(secs, k), Body(secs[k]))
  {
    hide At, Printable, Body, Bodies, Print, Headers, Offset0, StartAt, Before;
    PrintedParts(secs, Headers(secs));
    BodyAmong(Print(secs), Offset0(secs), secs, k);
    StartIsBefore(secs, k);
  }

  // ---- The cursor ----

  /** The parse of the first `k` sections of a container with its headers. */
  ghost function ParseUpto(buf: Bytes, debug: bool, start: nat, k: nat): Outcome {
    ParseFrom(buf, debug, 0, k, start, NO_SECTIONS)
  }

  /** Parsing one section more. */
  lemma {:induction false} ParseSnoc(buf: Bytes, debug: bool, i: nat, n: nat, offset: nat, sec: Sections)
    requires i <= n && HEADER_OFFSET + 8 * n + 8 <= |buf|
    ensures ParseFrom(buf, debug, i, n + 1, offset, sec) ==
      match ParseFrom(buf, debug, i, n, offset, sec)
      case Fault => Fault
      case Invalid => Invalid
      case Next(o, s) =>
        ParseSection(buf, debug, Word32(buf, HEADER_OFFSET + 8 * n), Word32(buf, HEADER_OFFSET + 8 * n + 4), o, s)
    decreases n - i
  {
    hide ParseSection, Word32;
    if i < n {
      match ParseSection(buf, debug, Word32(buf, HEADER_OFFSET + 8 * i), Word32(buf, HEADER_OFFSET + 8 * i + 4), offset, sec)
      case Fault =>
      case Invalid =>
      case Next(o, s) => ParseSnoc(buf, debug, i + 1, n, o, s);
    }
  }

  /** The cursor is where the k-th section starts. */
  ghost predicate InStep(secs: seq<Section>, debug: bool, k: nat)
    requires AllPrintable(secs) && k <= |secs|
  {
    var o := ParseUpto(Print(secs), debug, Offset0(secs), k);
    o.Next? && o.offset == StartAt(secs, k)
  }

  /** From a cursor in step, the next section reads back, and the cursor stays in step unless the
      section is a TYPES section. */
  lemma OneSection(secs: seq<Section>, debug: bool, k: nat)
    requires AllPrintable(secs) && k < |secs| && InStep(secs, debug, k)
    ensures var o := ParseUpto(Print(secs), debug, Offset0(secs), k);
      ParseUpto(Print(secs), debug, Offset0(secs), k + 1)
        == Next(if secs[k].Type? then o.offset else o.offset + |Body(secs[k])|,
                Expect(secs[k], o.offset, debug, o.sec))
    ensures InStep(secs, debug, k + 1) <==> !secs[k].Type?
  {
    hide ParseSection, Word32, Body, Print, Printable, Expect;
    HeaderAt(secs, k);
    BodyAt(secs, k);
    ParseSnoc(Print(secs), debug, 0, k, Offset0(secs), NO_SECTIONS);
    var o := ParseUpto(Print(secs), debug, Offset0(secs), k);
    SectionBack(Print(secs), o.offset, secs[k], debug, o.sec);
    BodyNotEmpty(secs[k]);
  }

  lemma BodyNotEmpty(s: Section)
    requires Printable(s)
    ensures |Body(s)| >= 4
  {
  }

  lemma {:induction false} InStepUpto(secs: seq<Section>, debug: bool, k: nat)
    requires AllPrintable(secs) && k <= |secs|
    requires forall j :: 0 <= j < k ==> !secs[j].Type?
    ensures InStep(secs, debug, k)
    ensures ParseUpto(Print(secs), debug, Offset0(secs), k).sec == ExpectUpto(secs, k, debug)
    decreases k
  {
    hide Body, Print, Printable, Expect;
    if k > 0 {
      InStepUpto(secs, debug, k - 1);
      OneSection(secs, debug, k - 1);
    }
  }

  ghost predicate TypesLast(secs: seq<Section>) {
    forall j :: 0 <= j < |secs| - 1 ==> !secs[j].Type?
  }

  /** The cursor meets the start of every section exactly when no section follows a TYPES
      section. */
  lemma CursorInStepIff(secs: seq<Section>, debug: bool)
    requires AllPrintable(secs)
    ensures (forall k :: 0 <= k < |secs| ==> InStep(secs, debug, k)) <==> TypesLast(secs)
  {
    hide Body, Print, Printable, InStep;
    if TypesLast(secs) {
      forall k | 0 <= k < |secs| ensures InStep(secs, debug, k) {
        InStepUpto(secs, debug, k);
      }
    }
    if forall k :: 0 <= k < |secs| ==> InStep(secs, debug, k) {
      forall j | 0 <= j < |secs| - 1 ensures !secs[j].Type? {
        assert InStep(secs, debug, j) && InStep(secs, debug, j + 1);
        OneSection(secs, debug, j);
      }
    }
  }

  /** The round trip: any container whose TYPES section, if it has one, comes last parses back to
      the counts, positions, string starts and records it was printed from. */
  lemma RoundTrip(secs: seq<Section>, debug: bool)
    requires AllPrintable(secs) && TypesLast(secs)
    ensures ParseAll(Print(secs), debug, NO_SECTIONS).Next?
    ensures ParseAll(Print(secs), debug, NO_SECTIONS).sec == ExpectUpto(secs, |secs|, debug)
  {
    hide Body, Printable, Expect, Bodies, Headers, PrintWord, PrintWords, Word32, ParseFrom;
    var n := |secs|;
    PrintedParts(secs, Headers(secs));
    if n > 0 {
      InStepUpto(secs, debug, n - 1);
      OneSection(secs, debug, n - 1);
    } else {
      InStepUpto(secs, debug, 0);
    }
  }

  // ---- What lies at the positions ----

  /** The instruction section's position is where the instructions are. */
  lemma CodeReadsBack(secs: seq<Section>, k: nat, j: nat)
    requires AllPrintable(secs) && k < |secs| && secs[k].Instructions? && j < |secs[k].code|
    ensures var pos := StartAt(secs, k) + 4 + 4 * j;
      pos + 4 <= |Print(secs)| && Word32(Print(secs), pos) == secs[k].code[j]
  {
    hide At, Word32, PrintWords, PrintWord, Print;
    BodyAt(secs, k);
    var off := StartAt(secs, k);
    AtParts(Print(secs), off, PrintWord(Count(secs[k])), PrintWords(secs[k].code));
    WordAtPosition(Print(secs), off + 4, secs[k].code, j, off + 4 + 4 * j);
  }

  /** The j-th string among the characters, with its terminator. */
  lemma {:induction false} CharsAt(buf: Bytes, off: nat, ss: seq<Bytes>, j: nat)
    requires At(buf, off, Chars(ss)) && j < |ss|
    ensures At(buf, off + StartOf(ss, j), ss[j] + [0])
    decreases |ss|
  {
    hide At;
    var n := |ss| - 1;
    var init := ss[..n];
    assert Chars(ss) == Chars(init) + (ss[n] + [0]);
    AtParts(buf, off, Chars(init), ss[n] + [0]);
    if j < n {
      assert init[..j] == ss[..j];
      CharsAt(buf, off, init, j);
    }
  }

  /** The string section's starts are where the strings are, terminators included. */
  lemma StringReadsBack(secs: seq<Section>, k: nat, j: nat)
    requires AllPrintable(secs) && k < |secs| && secs[k].CStr? && j < |secs[k].strings|
    ensures At(Print(secs), Starts(secs[k].strings, StartAt(secs, k))[j], secs[k].strings[j] + [0])
  {
    hide At, StringTable, PrintWord, Print, Chars;
    BodyAt(secs, k);
    var off, ss := StartAt(secs, k), secs[k].strings;
    AtParts(Print(secs), off, PrintWord(|ss|), StringTable(ss));
    TableParts(Print(secs), off + 4, ss);
    CharsAt(Print(secs), off + 4 + 4 * (|ss| + 1), ss, j);
  }
}
