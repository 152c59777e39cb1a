/** A compiled sample: it is well-formed, and its inner call is a matched call. */
module SampleRun {
  import opened Wrappers
  import opened SlotWords
  import opened ContextStacks
  import opened Machine
  import opened CallDiscipline
  import Arithmetic

  /** The code section of function-ret-trunc.cvmb: two nested top-level calls, the outer one with
      localbase 0, of two functions that each add or subtract a constant. */
  function SampleProgram(): Program {
    Program([
      Instr(FNEW, 1, 0, 11), Instr(FNEW, 3, 0, 6), Instr(CSHORT, 4, 0, 10),
      Instr(CALL, 2, 0, 2), Instr(CALL, 0, 0, 2), Instr(EXIT, 0, 0, 0),
      Instr(41, 1, 0, 0), Instr(MOV, 3, 0, 2), Instr(CSHORT, 4, 0, 5), Instr(ADDVV, 3, 4, 3), Instr(RET, 3, 0, 0),
      Instr(41, 1, 0, 0), Instr(MOV, 3, 0, 2), Instr(CSHORT, 4, 0, 2), Instr(SUBVV, 3, 4, 3), Instr(RET, 3, 0, 0)],
      [], [])
  }

  /** Everything after EXIT. */
  function SampleBody(): set<nat> {
    {6, 7, 8, 9, 10, 11, 12, 13, 14, 15}
  }

  /** What the compiler emits is well-formed. */
  lemma SampleIsWellFormed()
    ensures WellFormed(SampleProgram(), SampleBody())
  {
    SampleFunctions();
    SampleBodies();
    hide SampleBody, BodyOk;
  }

  /** Only the first two instructions make functions, at 11 and 6. */
  lemma SampleFunctions()
    ensures forall pc :: 0 <= pc < |SampleProgram().code| && SampleProgram().code[pc].op == FNEW ==>
      SampleProgram().code[pc].D() != 0 && SampleProgram().code[pc].D() in SampleBody()
  {
    var code := SampleProgram().code;
    assert code[0].D() == 11 && code[1].D() == 6;
    hide Instr.D;
    forall pc | 0 <= pc < |code| && code[pc].op == FNEW ensures pc == 0 || pc == 1 {
    }
  }

  lemma SampleBodies()
    ensures forall pc :: pc in SampleBody() ==>
      pc < |SampleProgram().code| && BodyOk(SampleBody(), pc, SampleProgram().code[pc])
  {
    var code := SampleProgram().code;
    var body := SampleBody();
    PlainOk(body, 6, code[6]);
    PlainOk(body, 7, code[7]);
    PlainOk(body, 8, code[8]);
    PlainOk(body, 9, code[9]);
    PlainOk(body, 11, code[11]);
    PlainOk(body, 12, code[12]);
    PlainOk(body, 13, code[13]);
    PlainOk(body, 14, code[14]);
    ReturnOk(body, 10, code[10]);
    ReturnOk(body, 15, code[15]);
    hide BodyOk;
  }

  lemma PlainOk(body: set<nat>, pc: nat, i: Instr)
    requires pc + 1 in body && pc < 100 && i.a >= 1
    requires i.op !in {CALL, RET, EXIT, LOOP, JUMP, JUMPF, JUMPT}
    ensures BodyOk(body, pc, i)
  {
  }

  lemma ReturnOk(body: set<nat>, pc: nat, i: Instr)
    requires i.op == RET && i.a >= 1
    ensures BodyOk(body, pc, i)
  {
  }

  // ---- The inner call ----

  ghost function At(pc: nat, ip: nat, base: nat, slots: seq<Word>, stack: seq<Context>): State {
    INITIAL.(pc := pc, ip := ip, base := base, slots := slots, stack := stack)
  }

  /** A register write moves on to the next instruction. */
  lemma Writes(p: Program, s: State, t: State, w: Word)
    requires s.pc < |p.code| < 0x1_0000_0000
    requires RegisterEffect(p, s, p.code[s.pc]) == Some(Write(w))
    requires t == s.(pc := s.pc + 1, slots := SetAt(s.slots, s.base + p.code[s.pc].a, w))
    ensures Steps(p, s, t)
  {
    hide RegisterEffect, SetAt;
  }

  /** The instructions up to the inner call, and those of the function it calls. */
  ghost predicate HasCode(p: Program) {
    && |p.code| == 16
    && p.code[0] == Instr(FNEW, 1, 0, 11) && p.code[1] == Instr(FNEW, 3, 0, 6) && p.code[2] == Instr(CSHORT, 4, 0, 10)
    && p.code[3] == Instr(CALL, 2, 0, 2)
    && p.code[6] == Instr(41, 1, 0, 0) && p.code[7] == Instr(MOV, 3, 0, 2) && p.code[8] == Instr(CSHORT, 4, 0, 5)
    && p.code[9] == Instr(ADDVV, 3, 4, 3) && p.code[10] == Instr(RET, 3, 0, 0)
  }

  /** The first three instructions load two functions and the number ten. */
  lemma Prelude(p: Program, f: Word, g: Word, ten: Word)
    requires HasCode(p) && f == ToFnew(11) && g == ToFnew(6) && ten == ToSmallInt(10)
    ensures Run(p, INITIAL, 3) == Running(At(3, 0, 0, [NIL, f, NIL, g, ten], []))
  {
    hide ToFnew, ToSmallInt, Step, Run;
    var s1, s2, s3 := At(1, 0, 0, [NIL, f], []), At(2, 0, 0, [NIL, f, NIL, g], []), At(3, 0, 0, [NIL, f, NIL, g, ten], []);
    assert SetAt([], 1, f) == s1.slots;
    assert SetAt(s1.slots, 3, g) == s2.slots;
    assert SetAt(s2.slots, 4, ten) == s3.slots;
    Writes(p, INITIAL, s1, f);
    Writes(p, s1, s2, g);
    Writes(p, s2, s3, ten);
    ThreeSteps(p, INITIAL, s1, s2, s3);
  }

  lemma ThreeSteps(p: Program, s: State, s1: State, s2: State, s3: State)
    requires Steps(p, s, s1) && Steps(p, s1, s2) && Steps(p, s2, s3)
    ensures Run(p, s, 3) == Running(s3)
  {
    hide Step;
    assert Run(p, s2, 1) == Running(s3);
    assert Run(p, s1, 2) == Running(s3);
  }

  lemma Calls(p: Program, f: Word, g: Word, ten: Word, back: Word)
    requires HasCode(p) && back == ToSmallInt(3) && IsFnew(g) && FuncOf(g) == 6
    ensures Steps(p, At(3, 0, 0, [NIL, f, NIL, g, ten], []), At(6, 6, 2, [NIL, f, back, g, ten], [Context(0, 0)]))
  {
    hide ToSmallInt, IsFnew, IsBuiltin, FuncOf;
    var s := At(3, 0, 0, [NIL, f, NIL, g, ten], []);
    assert AsInt32(3) == 3;
    assert SetAt(s.slots, 2, back) == [NIL, f, back, g, ten];
  }

  /** FUNCV is skipped. */
  lemma Skips(p: Program, slots: seq<Word>, caller: seq<Context>)
    requires HasCode(p)
    ensures Steps(p, At(6, 6, 2, slots, caller), At(7, 6, 2, slots, caller))
  {
  }

  lemma CopiesArgument(p: Program, slots: seq<Word>, caller: seq<Context>, ten: Word)
    requires HasCode(p) && |slots| == 5 && slots[4] == ten
    ensures Steps(p, At(7, 6, 2, slots, caller), At(8, 6, 2, slots + [ten], caller))
  {
    hide Steps;
    assert SetAt(slots, 5, ten) == slots + [ten];
    Writes(p, At(7, 6, 2, slots, caller), At(8, 6, 2, slots + [ten], caller), ten);
  }

  lemma LoadsFive(p: Program, slots: seq<Word>, caller: seq<Context>, five: Word)
    requires HasCode(p) && five == ToSmallInt(5) && |slots| == 6
    ensures Steps(p, At(8, 6, 2, slots, caller), At(9, 6, 2, slots + [five], caller))
  {
    hide ToSmallInt, Steps;
    assert SetAt(slots, 6, five) == slots + [five];
    Writes(p, At(8, 6, 2, slots, caller), At(9, 6, 2, slots + [five], caller), five);
  }

  lemma Adds(p: Program, slots: seq<Word>, caller: seq<Context>, ten: Word, five: Word, fifteen: Word)
    requires HasCode(p) && |slots| == 5
    requires BinaryEffect(ADDVV, five, ten) == Write(fifteen)
    ensures Steps(p, At(9, 6, 2, slots + [ten, five], caller), At(10, 6, 2, slots + [fifteen, five], caller))
  {
    hide BinaryEffect;
    var s := At(9, 6, 2, slots + [ten, five], caller);
    assert SetAt(s.slots, 5, fifteen) == slots + [fifteen, five];
    Writes(p, s, At(10, 6, 2, slots + [fifteen, five], caller), fifteen);
  }

  lemma Returns(p: Program, slots: seq<Word>, five: Word, fifteen: Word)
    requires HasCode(p) && |slots| == 5 && GetSmallInt(slots[2]) == 3
    ensures Steps(p, At(10, 6, 2, slots + [fifteen, five], [Context(0, 0)]), At(4, 0, 0, slots[2 := fifteen], []))
  {
    hide GetSmallInt, Steps;
    var s := At(10, 6, 2, slots + [fifteen, five], [Context(0, 0)]);
    ReturnResult(s, slots, five, fifteen);
    ReturnRuns(p, s, At(4, 0, 0, slots[2 := fifteen], []));
  }

  lemma ReturnRuns(p: Program, s: State, t: State)
    requires s.pc < |p.code| && p.code[s.pc].op == RET && StepRet(s, p.code[s.pc]) == Running(t)
    ensures Steps(p, s, t)
  {
    hide StepRet, Get;
  }

  lemma ReturnResult(s: State, slots: seq<Word>, five: Word, fifteen: Word)
    requires |slots| == 5 && GetSmallInt(slots[2]) == 3
    requires s == At(10, 6, 2, slots + [fifteen, five], [Context(0, 0)])
    ensures StepRet(s, Instr(RET, 3, 0, 0)) == Running(At(4, 0, 0, slots[2 := fifteen], []))
  {
    hide GetSmallInt;
    assert s.slots[2] == slots[2] && s.slots[5] == fifteen;
    assert SetAt(s.slots, 2, fifteen)[..5] == slots[2 := fifteen];
    assert s.stack[..0] == [];
  }

  lemma Numbers(pc: Int32, x: Int32, y: Int32, sum: Int32, target: Int16)
    requires pc >= 0 && x >= 0 && y >= 0 && sum == x + y && target > 0
    ensures BinaryEffect(ADDVV, ToSmallInt(x), ToSmallInt(y)) == Write(ToSmallInt(sum))
    ensures GetSmallInt(ToSmallInt(pc)) == pc && GetSmallInt(ToSmallInt(sum)) == sum
    ensures IsFnew(ToFnew(target)) && FuncOf(ToFnew(target)) == target
  {
    hide ToSmallInt, GetSmallInt, BinaryEffect, ToFnew, IsFnew, GetFnew, IsPointer;
    Arithmetic.Adding(x, y);
    SmallIntRoundTrip(pc);
    SmallIntRoundTrip(sum);
    FnewRoundTrip(target);
  }

  /** Six steps from a call, all but the last one above its height, are a matched call. */
  lemma SixSteps(p: Program, tr: seq<State>)
    requires |tr| == 7 && tr[0].pc < |p.code| && p.code[tr[0].pc].op == CALL
    requires Steps(p, tr[0], tr[1]) && Steps(p, tr[1], tr[2]) && Steps(p, tr[2], tr[3])
    requires Steps(p, tr[3], tr[4]) && Steps(p, tr[4], tr[5]) && Steps(p, tr[5], tr[6])
    requires tr[0].stack == tr[6].stack == []
    requires tr[1].stack != [] && tr[2].stack != [] && tr[3].stack != [] && tr[4].stack != [] && tr[5].stack != []
    ensures Matched(p, tr)
  {
    hide Steps;
    forall k | 0 <= k < 6 ensures Steps(p, tr[k], tr[k + 1]) {
      assert k == 0 || k == 1 || k == 2 || k == 3 || k == 4 || k == 5;
    }
    forall k | 0 < k < 6 ensures |tr[k].stack| > 0 {
      assert k == 1 || k == 2 || k == 3 || k == 4 || k == 5;
    }
  }

  /** From the inner call to its return, with the words that are moved around. */
  ghost function InnerCall(f: Word, g: Word, back: Word, five: Word, ten: Word, fifteen: Word): seq<State> {
    var caller := [Context(0, 0)];
    var slots := [NIL, f, back, g, ten];
    [At(3, 0, 0, [NIL, f, NIL, g, ten], []), At(6, 6, 2, slots, caller), At(7, 6, 2, slots, caller),
     At(8, 6, 2, slots + [ten], caller), At(9, 6, 2, slots + [ten, five], caller),
     At(10, 6, 2, slots + [fifteen, five], caller), At(4, 0, 0, slots[2 := fifteen], [])]
  }

  lemma InnerCallMatches(p: Program, f: Word, g: Word, back: Word, five: Word, ten: Word, fifteen: Word)
    requires HasCode(p) && IsFnew(g) && FuncOf(g) == 6
    requires back == ToSmallInt(3) && GetSmallInt(back) == 3 && five == ToSmallInt(5)
    requires BinaryEffect(ADDVV, five, ten) == Write(fifteen)
    ensures Matched(p, InnerCall(f, g, back, five, ten, fifteen))
  {
    hide Steps, Matched, BinaryEffect, ToSmallInt, GetSmallInt, IsFnew, FuncOf;
    var slots := [NIL, f, back, g, ten];
    var caller := [Context(0, 0)];
    Calls(p, f, g, ten, back);
    Skips(p, slots, caller);
    CopiesArgument(p, slots, caller, ten);
    LoadsFive(p, slots + [ten], caller, five);
    assert slots + [ten] + [five] == slots + [ten, five];
    Adds(p, slots, caller, ten, five, fifteen);
    Returns(p, slots, five, fifteen);
    SixSteps(p, InnerCall(f, g, back, five, ten, fifteen));
  }

  lemma SampleHasCode()
    ensures HasCode(SampleProgram())
  {
  }

  /** The inner call is reached from the initial state and meets everything that the matched-call
      theorem asks for; its result slot ends up holding fifteen. */
  lemma InnerCallIsMatched() returns (tr: seq<State>)
    ensures var p := SampleProgram();
      && |tr| == 7 && Run(p, INITIAL, 3) == Running(tr[0])
      && WellFormed(p, SampleBody()) && Inv(p, SampleBody(), tr[0]) && Matched(p, tr)
      && |tr[6].slots| == 5 && GetSmallInt(tr[6].slots[2]) == 15
  {
    hide SampleProgram, SampleBody, HasCode, WellFormed, Inv, Steps, Run, Matched, BinaryEffect, ToSmallInt, GetSmallInt,
      ToFnew, IsFnew, FuncOf;
    SampleIsWellFormed();
    SampleHasCode();
    var n3: Int32, n5: Int32, n10: Int32, n15: Int32 :| n3 == 3 && n5 == 5 && n10 == 10 && n15 == 15;
    var n6: Int16, n11: Int16 :| n6 == 6 && n11 == 11;
    var f, g, back := ToFnew(n11), ToFnew(n6), ToSmallInt(n3);
    var five, ten, fifteen := ToSmallInt(n5), ToSmallInt(n10), ToSmallInt(n15);
    Numbers(n3, n5, n10, n15, n6);
    tr := InnerCall(f, g, back, five, ten, fifteen);
    InnerCallMatches(SampleProgram(), f, g, back, five, ten, fifteen);
    Prelude(SampleProgram(), f, g, ten);
    InitialInv(SampleProgram(), SampleBody());
    ReachableInv(SampleProgram(), SampleBody(), INITIAL, 3);
  }
}
