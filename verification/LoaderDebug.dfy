/** Parsing with and without debug output: the lost `break` after INSTRUCTIONS never moves the
    cursor differently, but it does overwrite the integer constants. */
module LoaderDebug {
  import opened Wrappers
  import opened Loader

  /** The same sections, except perhaps for where the integer constants are. */
  ghost predicate SameButCint(s: Sections, t: Sections) {
    s.(cintCnt := 0, cint := None) == t.(cintCnt := 0, cint := None)
  }

  /** The same kind of outcome, the same cursor, and the same sections but for `cint`. */
  ghost predicate Alike(o: Outcome, q: Outcome) {
    match (o, q)
    case (Next(x, s), Next(y, t)) => x == y && SameButCint(s, t)
    case _ => o == q
  }

  lemma SectionAlike(buf: seq<Byte>, id: UInt32, len: UInt32, offset: nat, s: Sections, t: Sections)
    requires SameButCint(s, t)
    ensures Alike(ParseSection(buf, false, id, len, offset, s), ParseSection(buf, true, id, len, offset, t))
  {
  }

  /** Over every buffer and every header list, the cursor and everything but `cint` agree. */
  lemma {:induction false} CursorAlike(buf: seq<Byte>, i: nat, n: nat, offset: nat, s: Sections, t: Sections)
    requires SameButCint(s, t)
    ensures Alike(ParseFrom(buf, false, i, n, offset, s), ParseFrom(buf, true, i, n, offset, t))
    decreases n - i
  {
    hide ParseSection, SameButCint;
    if i < n && HEADER_OFFSET + 8 * i + 8 <= |buf| {
      var id, len := Word32(buf, HEADER_OFFSET + 8 * i), Word32(buf, HEADER_OFFSET + 8 * i + 4);
      SectionAlike(buf, id, len, offset, s, t);
      var o, q := ParseSection(buf, false, id, len, offset, s), ParseSection(buf, true, id, len, offset, t);
      if o.Next? {
        CursorAlike(buf, i + 1, n, o.offset, o.sec, q.sec);
      }
    }
  }

  function SectionId(buf: seq<Byte>, i: nat): Option<UInt32> {
    if HEADER_OFFSET + 8 * i + 8 > |buf| then None else Some(Word32(buf, HEADER_OFFSET + 8 * i))
  }

  /** From header `i` on, every INSTRUCTIONS section is followed later by a CINT section: whether
      integer constants that are right after header `i` if `fixed` holds are right at the end. */
  predicate Repaired(buf: seq<Byte>, i: nat, n: nat, fixed: bool)
    decreases n - i
  {
    if i >= n then fixed
    else if SectionId(buf, i) == Some(SECTION_INSTRUCTIONS) then Repaired(buf, i + 1, n, false)
    else if SectionId(buf, i) == Some(SECTION_CINT) then Repaired(buf, i + 1, n, true)
    else Repaired(buf, i + 1, n, fixed)
  }

  /** Every INSTRUCTIONS header from `i` on is followed later by a CINT header. */
  ghost predicate EachFollowed(buf: seq<Byte>, i: nat, n: nat) {
    forall j :: i <= j < n && SectionId(buf, j) == Some(SECTION_INSTRUCTIONS) ==> CintIn(buf, j + 1, n)
  }

  ghost predicate CintIn(buf: seq<Byte>, i: nat, n: nat) {
    exists j :: i <= j < n && SectionId(buf, j) == Some(SECTION_CINT)
  }

  lemma CintFirst(buf: seq<Byte>, i: nat, n: nat)
    requires i < n
    ensures CintIn(buf, i, n) <==> SectionId(buf, i) == Some(SECTION_CINT) || CintIn(buf, i + 1, n)
  {
    hide SectionId;
    if CintIn(buf, i, n) {
      var j :| i <= j < n && SectionId(buf, j) == Some(SECTION_CINT);
      assert j == i || CintIn(buf, i + 1, n);
    }
  }

  lemma FollowedFirst(buf: seq<Byte>, i: nat, n: nat)
    requires i < n
    ensures EachFollowed(buf, i, n) <==>
      EachFollowed(buf, i + 1, n) && (SectionId(buf, i) == Some(SECTION_INSTRUCTIONS) ==> CintIn(buf, i + 1, n))
  {
    hide SectionId, CintIn;
  }

  /** What `Repaired` computes header by header. */
  lemma {:induction false} RepairedMeans(buf: seq<Byte>, i: nat, n: nat, fixed: bool)
    ensures Repaired(buf, i, n, fixed) <==> EachFollowed(buf, i, n) && (fixed || CintIn(buf, i, n))
    decreases n - i
  {
    hide SectionId, EachFollowed, CintIn;
    if i < n {
      CintFirst(buf, i, n);
      FollowedFirst(buf, i, n);
      var id := SectionId(buf, i);
      RepairedMeans(buf, i + 1, n,
        if id == Some(SECTION_INSTRUCTIONS) then false else if id == Some(SECTION_CINT) then true else fixed);
    } else {
      NoneLeft(buf, i, n);
    }
  }

  lemma NoneLeft(buf: seq<Byte>, i: nat, n: nat)
    requires i >= n
    ensures EachFollowed(buf, i, n) && !CintIn(buf, i, n)
  {
  }

  /** Every recorded position of integer constants lies behind the cursor, so two sections that
      advance the cursor never record the same one. */
  ghost predicate Behind(s: Sections, offset: nat) {
    s.cint.Some? ==> s.cint.value <= offset
  }

  /** Where the two parses stand: equal if `fixed`, and otherwise at different positions. */
  ghost predicate Tracked(s: Sections, t: Sections, offset: nat, fixed: bool) {
    && SameButCint(s, t) && Behind(s, offset) && Behind(t, offset)
    && (if fixed then s == t else s.cint != t.cint)
  }

  lemma TrackSection(buf: seq<Byte>, id: UInt32, len: UInt32, offset: nat, s: Sections, t: Sections, fixed: bool)
    requires Tracked(s, t, offset, fixed)
    requires ParseSection(buf, true, id, len, offset, t).Next?
    ensures ParseSection(buf, false, id, len, offset, s).Next?
    ensures var o, q := ParseSection(buf, false, id, len, offset, s), ParseSection(buf, true, id, len, offset, t);
      o.offset == q.offset &&
      Tracked(o.sec, q.sec, o.offset,
              if id == SECTION_INSTRUCTIONS then false else if id == SECTION_CINT then true else fixed)
  {
  }

  lemma {:induction false} TrackAll(buf: seq<Byte>, i: nat, n: nat, offset: nat, s: Sections, t: Sections, fixed: bool)
    requires Tracked(s, t, offset, fixed) && ParseFrom(buf, true, i, n, offset, t).Next?
    ensures ParseFrom(buf, false, i, n, offset, s) == ParseFrom(buf, true, i, n, offset, t)
      <==> Repaired(buf, i, n, fixed)
    decreases n - i
  {
    hide ParseSection;
    if i < n {
      var id, len := Word32(buf, HEADER_OFFSET + 8 * i), Word32(buf, HEADER_OFFSET + 8 * i + 4);
      TrackSection(buf, id, len, offset, s, t, fixed);
      var o, q := ParseSection(buf, false, id, len, offset, s), ParseSection(buf, true, id, len, offset, t);
      TrackAll(buf, i + 1, n, o.offset, o.sec, q.sec,
               if id == SECTION_INSTRUCTIONS then false else if id == SECTION_CINT then true else fixed);
    }
  }

  /** On every buffer that parses, parsing without debugging gives what parsing with it gives if
      and only if each INSTRUCTIONS header is followed later by a CINT header. */
  lemma DebugAgreesIff(buf: seq<Byte>)
    requires ParseAll(buf, true, NO_SECTIONS).Next?
    ensures ParseAll(buf, false, NO_SECTIONS) == ParseAll(buf, true, NO_SECTIONS)
      <==> EachFollowed(buf, 0, Word32(buf, 0))
  {
    RepairedMeans(buf, 0, Word32(buf, 0), true);
    TrackAll(buf, 0, Word32(buf, 0), Word32(buf, 0) * 8 + HEADER_OFFSET, NO_SECTIONS, NO_SECTIONS, true);
  }

  /** Faults and unknown sections do not depend on debugging. */
  lemma DebugSameErrors(buf: seq<Byte>)
    ensures Alike(ParseAll(buf, false, NO_SECTIONS), ParseAll(buf, true, NO_SECTIONS))
  {
    if |buf| >= 4 {
      CursorAlike(buf, 0, Word32(buf, 0), Word32(buf, 0) * 8 + HEADER_OFFSET, NO_SECTIONS, NO_SECTIONS);
    }
  }

  // ---- Unknown sections ----

  ghost predicate Unknown(buf: seq<Byte>, i: nat) {
    SectionId(buf, i).Some? && SectionId(buf, i).value > 6
  }

  lemma {:induction false} KnownFrom(buf: seq<Byte>, debug: bool, i: nat, n: nat, offset: nat, sec: Sections)
    ensures ParseFrom(buf, debug, i, n, offset, sec).Next? ==> forall j :: i <= j < n ==> !Unknown(buf, j)
    ensures ParseFrom(buf, debug, i, n, offset, sec).Invalid? ==> exists j :: i <= j < n && Unknown(buf, j)
    decreases n - i
  {
    hide ParseSection, Word32;
    if i < n && HEADER_OFFSET + 8 * i + 8 <= |buf| {
      var id, len := Word32(buf, HEADER_OFFSET + 8 * i), Word32(buf, HEADER_OFFSET + 8 * i + 4);
      UnknownSection(buf, debug, id, len, offset, sec);
      assert Unknown(buf, i) <==> id > 6;
      var o := ParseSection(buf, debug, id, len, offset, sec);
      if o.Next? {
        KnownFrom(buf, debug, i + 1, n, o.offset, o.sec);
      }
    }
  }

  /** EINVAL means an unknown section, and a buffer with one never parses. */
  lemma InvalidMeansUnknown(buf: seq<Byte>, debug: bool)
    requires |buf| >= 4
    ensures ParseAll(buf, debug, NO_SECTIONS).Invalid? ==> exists j :: 0 <= j < Word32(buf, 0) && Unknown(buf, j)
    ensures ParseAll(buf, debug, NO_SECTIONS).Next? ==> forall j :: 0 <= j < Word32(buf, 0) ==> !Unknown(buf, j)
  {
    hide Word32, Unknown, ParseFrom;
    KnownFrom(buf, debug, 0, Word32(buf, 0), Word32(buf, 0) * 8 + HEADER_OFFSET, NO_SECTIONS);
  }
}
