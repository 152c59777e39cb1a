/** Where the parser goes wrong: what a TYPES section that is not the last one costs, and what the
    lost `break` after INSTRUCTIONS shows. */
module LoaderDrift {
  import opened Wrappers
  import opened Loader
  import opened LoaderPrint
  import opened LoaderReadBack
  import opened LoaderRoundTrip

  // ---- How far the cursor lags behind ----

  /** The bytes of the TYPES sections among the first `k`: those the cursor does not move past. */
  ghost function Lost(secs: seq<Section>, k: nat): nat
    requires AllPrintable(secs) && k <= |secs|
  {
    if k == 0 then 0 else Lost(secs, k - 1) + if secs[k - 1].Type? then |Body(secs[k - 1])| else 0
  }

  lemma {:induction false} LostNone(secs: seq<Section>, k: nat)
    requires AllPrintable(secs) && k <= |secs|
    ensures Lost(secs, k) == 0 <==> forall j :: 0 <= j < k ==> !secs[j].Type?
    decreases k
  {
    hide Body, Printable;
    if k > 0 {
      LostNone(secs, k - 1);
      BodyNotEmpty(secs[k - 1]);
    }
  }

  predicate IsTable(s: Section) {
    s.CStr? || s.CKey?
  }

  /** Among the first `k` sections no string table comes after a TYPES section. A string table is
      skipped by what its index says, and read at the wrong place that can be anything. */
  ghost predicate Steady(secs: seq<Section>, k: nat)
    requires AllPrintable(secs) && k <= |secs|
  {
    forall j :: 0 <= j < k && IsTable(secs[j]) ==> Lost(secs, j) == 0
  }

  /** Other sections are skipped by their headers, whatever lies under the cursor. */
  lemma HeaderMoves(buf: Bytes, debug: bool, s: Section, off: nat, sec: Sections)
    requires Printable(s) && !IsTable(s) && ParseSection(buf, debug, Id(s), Length(s), off, sec).Next?
    ensures ParseSection(buf, debug, Id(s), Length(s), off, sec).offset ==
      if s.Type? then off else off + |Body(s)|
  {
    hide Word32, PrintWords, PrintWord, Pairs, VtableWords, TypeWords, StringTable, Vtables, TypesOf, StringStarts;
  }

  /** The k-th section of a printed container is parsed with its own id and length, at whatever
      offset the cursor has come to. */
  lemma NextSection(secs: seq<Section>, debug: bool, k: nat)
    requires AllPrintable(secs) && k < |secs|
    ensures ParseUpto(Print(secs), debug, Offset0(secs), k + 1) ==
      match ParseUpto(Print(secs), debug, Offset0(secs), k)
      case Fault => Fault
      case Invalid => Invalid
      case Next(o, s) => ParseSection(Print(secs), debug, Id(secs[k]), Length(secs[k]), o, s)
  {
    hide ParseSection, Word32, Print, Printable, Length, Id;
    HeaderAt(secs, k);
    ParseSnoc(Print(secs), debug, 0, k, Offset0(secs), NO_SECTIONS);
  }

  /** The cursor lags behind by exactly the TYPES sections before it. */
  lemma {:induction false} Drift(secs: seq<Section>, debug: bool, k: nat)
    requires AllPrintable(secs) && k <= |secs| && Steady(secs, k)
    requires ParseUpto(Print(secs), debug, Offset0(secs), k).Next?
    ensures ParseUpto(Print(secs), debug, Offset0(secs), k).offset + Lost(secs, k) == StartAt(secs, k)
    decreases k
  {
    hide ParseSection, Word32, Print, Printable, Length, Body, Expect;
    if k > 0 {
      NextSection(secs, debug, k - 1);
      Drift(secs, debug, k - 1);
      var o := ParseUpto(Print(secs), debug, Offset0(secs), k - 1);
      if IsTable(secs[k - 1]) {
        OneSection(secs, debug, k - 1);
      } else {
        HeaderMoves(Print(secs), debug, secs[k - 1], o.offset, o.sec);
      }
    }
  }

  // ---- The positions that are recorded ----

  datatype Field = InstrField | CintField | CfloatField

  ghost function Position(sec: Sections, f: Field): Option<nat> {
    match f
    case InstrField => sec.instr
    case CintField => sec.cint
    case CfloatField => sec.cfloat
  }

  /** Which sections set the field, the fall-through included. */
  predicate Sets(s: Section, f: Field, debug: bool) {
    match f
    case InstrField => s.Instructions?
    case CintField => s.CInt? || (s.Instructions? && !debug)
    case CfloatField => s.CFloat?
  }

  lemma SectionSets(buf: Bytes, debug: bool, s: Section, len: UInt32, off: nat, sec: Sections, f: Field)
    requires ParseSection(buf, debug, Id(s), len, off, sec).Next?
    ensures Position(ParseSection(buf, debug, Id(s), len, off, sec).sec, f) ==
      if Sets(s, f, debug) then Some(off + 4) else Position(sec, f)
    ensures Position(Expect(s, off, debug, sec), f) == if Sets(s, f, debug) then Some(off + 4) else Position(sec, f)
  {
    hide Word32, Vtables, TypesOf, StringStarts, Starts, VtableRecords, TypeRecords;
  }

  lemma ExpectSets(s: Section, off: nat, debug: bool, sec: Sections, f: Field)
    ensures Position(Expect(s, off, debug, sec), f) == if Sets(s, f, debug) then Some(off + 4) else Position(sec, f)
  {
    hide Starts, VtableRecords, TypeRecords;
  }

  /** A container that parses has parsed up to every section. */
  lemma {:induction false} ParsedBefore(secs: seq<Section>, debug: bool, k: nat, m: nat)
    requires AllPrintable(secs) && k <= m <= |secs| && ParseUpto(Print(secs), debug, Offset0(secs), m).Next?
    ensures ParseUpto(Print(secs), debug, Offset0(secs), k).Next?
    decreases m - k
  {
    hide ParseSection, Print, Printable, Length, ParseUpto;
    if k < m {
      ParsedBefore(secs, debug, k + 1, m);
      NextSection(secs, debug, k);
    }
  }

  ghost predicate NotSet(secs: seq<Section>, f: Field, debug: bool, k: nat, m: nat)
    requires m <= |secs|
  {
    forall j :: k <= j < m ==> !Sets(secs[j], f, debug)
  }

  lemma {:induction false} StaysSet(secs: seq<Section>, debug: bool, f: Field, k: nat, m: nat)
    requires AllPrintable(secs) && k <= m <= |secs| && ParseUpto(Print(secs), debug, Offset0(secs), m).Next?
    requires NotSet(secs, f, debug, k, m)
    ensures ParseUpto(Print(secs), debug, Offset0(secs), k).Next?
    ensures Position(ParseUpto(Print(secs), debug, Offset0(secs), m).sec, f) ==
      Position(ParseUpto(Print(secs), debug, Offset0(secs), k).sec, f)
    decreases m
  {
    hide ParseSection, Print, Printable, Length, ParseUpto, Id, Position, Sets;
    if k < m {
      NextSection(secs, debug, m - 1);
      var o := ParseUpto(Print(secs), debug, Offset0(secs), m - 1);
      SectionSets(Print(secs), debug, secs[m - 1], Length(secs[m - 1]), o.offset, o.sec, f);
      StaysSet(secs, debug, f, k, m - 1);
    }
  }

  lemma {:induction false} StaysExpected(secs: seq<Section>, debug: bool, f: Field, k: nat, m: nat)
    requires AllPrintable(secs) && k <= m <= |secs| && NotSet(secs, f, debug, k, m)
    ensures Position(ExpectUpto(secs, m, debug), f) == Position(ExpectUpto(secs, k, debug), f)
    decreases m
  {
    hide Printable, Expect, Position, Sets, StartAt;
    if k < m {
      ExpectSets(secs[m - 1], StartAt(secs, m - 1), debug, ExpectUpto(secs, m - 1, debug), f);
      StaysExpected(secs, debug, f, k, m - 1);
    }
  }

  /** Where the last section that sets a field should be found. */
  lemma ExpectedAt(secs: seq<Section>, debug: bool, f: Field, k: nat)
    requires AllPrintable(secs) && k < |secs| && Sets(secs[k], f, debug) && NotSet(secs, f, debug, k + 1, |secs|)
    ensures Position(ExpectUpto(secs, |secs|, debug), f) == Some(StartAt(secs, k) + 4)
  {
    hide Printable, Expect, Position, Sets, StartAt;
    StaysExpected(secs, debug, f, k + 1, |secs|);
    ExpectSets(secs[k], StartAt(secs, k), debug, ExpectUpto(secs, k, debug), f);
  }

  /** Where it is found: short of its place by the TYPES sections before it. */
  lemma RecordedAt(secs: seq<Section>, debug: bool, f: Field, k: nat)
    requires AllPrintable(secs) && k < |secs| && Sets(secs[k], f, debug) && NotSet(secs, f, debug, k + 1, |secs|)
    requires Steady(secs, k) && ParseUpto(Print(secs), debug, Offset0(secs), |secs|).Next?
    ensures Lost(secs, k) <= StartAt(secs, k)
    ensures Position(ParseUpto(Print(secs), debug, Offset0(secs), |secs|).sec, f) ==
      Some(StartAt(secs, k) - Lost(secs, k) + 4)
  {
    hide ParseSection, Print, Printable, Length, ParseUpto, Id, Position, Sets, Steady, StartAt, Lost;
    StaysSet(secs, debug, f, k + 1, |secs|);
    NextSection(secs, debug, k);
    Drift(secs, debug, k);
    var o := ParseUpto(Print(secs), debug, Offset0(secs), k);
    SectionSets(Print(secs), debug, secs[k], Length(secs[k]), o.offset, o.sec, f);
  }

  /** The whole parse is the parse of all the sections. */
  lemma WholeParse(secs: seq<Section>, debug: bool)
    requires AllPrintable(secs)
    ensures ParseAll(Print(secs), debug, NO_SECTIONS) == ParseUpto(Print(secs), debug, Offset0(secs), |secs|)
  {
    hide Printable, Print, Word32, Headers, PrintWords, Bodies, At;
    PrintedParts(secs, Headers(secs));
  }

  /** Code, integer and floating-point constants are recorded where they are if and only if no TYPES
      section comes before the last section that records them. This is for containers that parse
      at all, with no string table between a TYPES section and that section. */
  lemma PositionRightIff(secs: seq<Section>, debug: bool, f: Field, k: nat)
    requires AllPrintable(secs) && k < |secs| && Sets(secs[k], f, debug) && NotSet(secs, f, debug, k + 1, |secs|)
    requires Steady(secs, k) && ParseAll(Print(secs), debug, NO_SECTIONS).Next?
    ensures var o := ParseAll(Print(secs), debug, NO_SECTIONS);
      && Lost(secs, k) <= StartAt(secs, k)
      && Position(o.sec, f) == Some(StartAt(secs, k) - Lost(secs, k) + 4)
      && (Position(o.sec, f) == Position(ExpectUpto(secs, |secs|, debug), f) <==>
            forall j :: 0 <= j < k ==> !secs[j].Type?)
  {
    hide ParseAll, Print, Printable, ParseUpto, Position, Sets, Steady, StartAt, Lost, NotSet, ExpectUpto;
    WholeParse(secs, debug);
    RecordedAt(secs, debug, f, k);
    ExpectedAt(secs, debug, f, k);
    LostNone(secs, k);
  }

  // ---- Containers that show it ----

  /** An empty TYPES section before the code: the code is recorded four bytes too early. */
  lemma TypesBeforeCode(secs: seq<Section>, debug: bool)
    requires secs == [Type([]), Instructions([])]
    ensures AllPrintable(secs) && ParseAll(Print(secs), debug, NO_SECTIONS).Next?
    ensures ParseAll(Print(secs), debug, NO_SECTIONS).sec.instr == Some(24)
    ensures ExpectUpto(secs, 2, debug).instr == Some(28)
  {
    SmallSections();
    NothingAfterTypes(secs, debug);
  }

  /** That no section follows a TYPES section is not necessary for a right result: with an empty
      string table next, the parser reads the wrong count, but that is zero as well. */
  lemma TypesBeforeNoStrings(secs: seq<Section>, debug: bool)
    requires secs == [Type([]), CStr([])]
    ensures AllPrintable(secs) && !TypesLast(secs)
    ensures ParseAll(Print(secs), debug, NO_SECTIONS).Next?
    ensures ParseAll(Print(secs), debug, NO_SECTIONS).sec == ExpectUpto(secs, 2, debug)
  {
    SmallSections();
    assert secs[0].Type?;
    NothingAfterTypes(secs, debug);
  }

  lemma NothingAfterTypes(secs: seq<Section>, debug: bool)
    requires AllPrintable(secs) && |secs| == 2 && secs[0] == Type([])
    requires secs[1] == Instructions([]) || secs[1] == CStr([])
    ensures ParseAll(Print(secs), debug, NO_SECTIONS).Next?
    ensures ParseAll(Print(secs), debug, NO_SECTIONS).sec == Expect(secs[1], 20, debug, NO_SECTIONS)
    ensures ExpectUpto(secs, 2, debug) == Expect(secs[1], 24, debug, NO_SECTIONS)
  {
    FirstTypes(secs, debug);
    SecondExpected(secs, debug);
    hide Print, ParseUpto, ParseAll, Printable, ParseSection, Length, StartAt, ExpectUpto;
    WholeParse(secs, debug);
    NextSection(secs, debug, 1);
    ParseNothing(Print(secs), debug, secs[1], NO_SECTIONS);
  }

  lemma SecondExpected(secs: seq<Section>, debug: bool)
    requires AllPrintable(secs) && |secs| == 2 && secs[0] == Type([]) && StartAt(secs, 0) == 20
    ensures ExpectUpto(secs, 2, debug) == Expect(secs[1], 24, debug, NO_SECTIONS)
  {
    hide Printable;
    assert ExpectUpto(secs, 0, debug) == NO_SECTIONS;
    assert ExpectUpto(secs, 1, debug) == Expect(secs[0], 20, debug, NO_SECTIONS) == NO_SECTIONS;
    assert StartAt(secs, 1) == 20 + |Body(secs[0])|;
  }

  /** Parsing empty code or an empty string table at a count of zero. */
  lemma ParseNothing(buf: Bytes, debug: bool, s: Section, sec: Sections)
    requires |buf| >= 24 && Word32(buf, 20) == 0
    requires s == Instructions([]) || s == CStr([])
    ensures Printable(s) && ParseSection(buf, debug, Id(s), Length(s), 20, sec).Next?
    ensures ParseSection(buf, debug, Id(s), Length(s), 20, sec).sec == Expect(s, 20, debug, sec)
  {
    hide Word32;
  }

  lemma SmallSections()
    ensures Printable(Type([])) && Printable(Instructions([])) && Printable(CStr([]))
  {
  }

  /** After an empty TYPES section the cursor is still at its count, which is zero. */
  lemma FirstTypes(secs: seq<Section>, debug: bool)
    requires AllPrintable(secs) && |secs| == 2 && secs[0] == Type([])
    ensures |Print(secs)| >= 24 && Word32(Print(secs), 20) == 0
    ensures ParseUpto(Print(secs), debug, 20, 1) == Next(20, NO_SECTIONS.(typesCnt := 0, types := []))
    ensures StartAt(secs, 0) == 20
  {
    hide Print, ParseSection, Word32, PrintWord, Printable, At;
    BodyAt(secs, 0);
    AtParts(Print(secs), 20, PrintWord(0), []);
    WordAt(Print(secs), 20, 0);
    assert ParseUpto(Print(secs), debug, 20, 0) == Next(20, NO_SECTIONS);
    assert InStep(secs, debug, 0);
    OneSection(secs, debug, 0);
    assert Expect(secs[0], 20, debug, NO_SECTIONS) == NO_SECTIONS.(typesCnt := 0, types := []);
  }

  /** The fall-through shows: a container that is nothing but code parses in both builds, and they
      differ. */
  lemma FallThroughShows()
    ensures AllPrintable([Instructions([])])
    ensures var buf := Print([Instructions([])]);
      && ParseAll(buf, true, NO_SECTIONS).Next? && ParseAll(buf, false, NO_SECTIONS).Next?
      && ParseAll(buf, false, NO_SECTIONS) != ParseAll(buf, true, NO_SECTIONS)
  {
    SmallSections();
    var secs := [Instructions([])];
    hide ParseAll, Print, Printable;
    RoundTrip(secs, false);
    RoundTrip(secs, true);
    assert ExpectUpto(secs, 0, true) == ExpectUpto(secs, 0, false) == NO_SECTIONS;
    assert ExpectUpto(secs, 1, true).cint == None && ExpectUpto(secs, 1, false).cint != None;
  }
}
