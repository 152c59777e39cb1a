/** What short programs do, and what the global table remembers over whole runs. */
module ProgramLaws {
  import opened Wrappers
  import opened SlotWords
  import opened ContextStacks
  import opened Machine
  import opened BulkMoves
  import opened InstructionSet
  import opened CallInstructions
  import CallDiscipline
  import Arithmetic

  // ---- The global table ----

  /** A global as NSGET reads it. */
  ghost function Global(s: State, name: string): Word {
    if name in s.symbols then s.symbols[name] else 0
  }

  /** The step out of `s` stores a global of this name. */
  ghost predicate Stores(p: Program, s: State, name: string) {
    s.pc < |p.code| && p.code[s.pc].op == 9 && p.code[s.pc].D() < |p.cstr| && p.cstr[p.code[s.pc].D()] == name
  }

  lemma EffectSymbols(s: State, a: nat, e: Effect)
    requires ApplyEffect(s, a, e).Running?
    ensures ApplyEffect(s, a, e).state.symbols == s.symbols
  {
  }

  lemma BuiltinSymbols(s: State, a: nat)
    requires s.stack != [] && StepBuiltin(s, a).Running?
    ensures StepBuiltin(s, a).state.symbols == s.symbols
  {
    hide Put, Clear, Unsigned32;
    PutAt(s.(printed := s.printed + [s.slots[s.base + 2]]), 0, NIL, 0);
  }

  lemma CallSymbols(s: State, i: Instr)
    requires StepCall(s, i).Running?
    ensures StepCall(s, i).state.symbols == s.symbols
  {
    hide Put, StepBuiltin, FuncOf, IsFnew, IsBuiltin, ToSmallInt;
    var s1 := Put(s, i.a, ToSmallInt(AsInt32(s.pc)));
    PutAt(s, i.a, ToSmallInt(AsInt32(s.pc)), 0);
    var f := FuncOf(Get(s1, i.a + 1).value);
    if f == 0 {
      BuiltinSymbols(Enter(s1, i.a, f), i.a);
    }
  }

  lemma RetSymbols(s: State, i: Instr)
    requires StepRet(s, i).Running?
    ensures StepRet(s, i).state.symbols == s.symbols
  {
    hide SetAt, GetSmallInt, Unsigned32;
  }

  lemma NssetSymbols(p: Program, s: State, i: Instr)
    requires StepNsset(p, s, i).Running?
    ensures i.D() < |p.cstr| && s.base + i.a < |s.slots|
    ensures StepNsset(p, s, i).state.symbols == s.symbols[p.cstr[i.D()] := s.slots[s.base + i.a]]
  {
    hide Unsigned32;
  }

  lemma BranchSymbols(s: State, i: Instr)
    requires StepBranch(s, i).Running?
    ensures StepBranch(s, i).state.symbols == s.symbols
  {
    hide Unsigned32, IsFalsy;
  }

  /** A step that does not store a global of this name leaves it as it was. */
  lemma StepKeepsGlobal(p: Program, s: State, t: State, name: string)
    requires CallDiscipline.Steps(p, s, t) && !Stores(p, s, name)
    ensures Global(t, name) == Global(s, name)
  {
    hide RegisterEffect, ApplyEffect, StepCall, StepRet, StepBranch, StepNsset, BulkMove, Unsigned32;
    var i := p.code[s.pc];
    if RegisterEffect(p, s, i).Some? {
      EffectSymbols(s, i.a, RegisterEffect(p, s, i).value);
    } else if i.op == CALL {
      CallSymbols(s, i);
    } else if i.op == RET {
      RetSymbols(s, i);
    } else if i.op == BULKMOV {
      BulkShape(s, i.a, i.b, i.c);
    } else if i.op == JUMPF || i.op == JUMPT {
      BranchSymbols(s, i);
    } else if i.op == NSSET {
      NssetSymbols(p, s, i);
    }
  }

  /** The global table remembers: over any run of any program, through calls and returns, a global
      keeps its value until a step stores one of the same name. */
  lemma {:induction false} GlobalsRemember(p: Program, tr: seq<State>, m: nat, name: string)
    requires CallDiscipline.Trace(p, tr) && m < |tr|
    requires forall j :: 0 <= j < m ==> !Stores(p, tr[j], name)
    ensures Global(tr[m], name) == Global(tr[0], name)
    decreases m
  {
    hide CallDiscipline.Steps, Stores, Global;
    if m > 0 {
      GlobalsRemember(p, tr, m - 1, name);
      assert CallDiscipline.Steps(p, tr[m - 1], tr[m - 1 + 1]);
      StepKeepsGlobal(p, tr[m - 1], tr[m], name);
    }
  }

  /** What a global is at the start: println is the one builtin there is, and every other name
      reads as nil. */
  lemma InitialGlobals(name: string)
    ensures HasKind(Global(INITIAL, "println"), Builtin)
    ensures name != "println" ==> Global(INITIAL, name) == 0
  {
    KindRanges(BUILTIN_PRINTLN);
    hide HasKind;
  }

  /** NSSET and then NSGET: of the same name, register r gets the old value of register a; of
      another name, what it would have got without the NSSET. */
  lemma StoreThenRead(p: Program, s: State, a: Byte, d: nat, r: Byte, e: nat)
    requires d < 0x1_0000 && e < 0x1_0000 && d < |p.cstr| && e < |p.cstr| && s.pc + 1 < 0xFFFF_FFFF
    requires Fetches(p, s, Encode(9, a, d)) && s.base + a < |s.slots|
    requires s.pc + 1 < |p.code| && p.code[s.pc + 1] == Encode(10, r, e)
    ensures Run(p, s, 2).Running?
    ensures var v := if p.cstr[d] == p.cstr[e] then s.slots[s.base + a] else Global(s, p.cstr[e]);
      Run(p, s, 2).state.slots == SetAt(s.slots, s.base + r, v)
  {
    hide Step, Encode, SetAt;
    StoresGlobal(p, s, a, d);
    var t := Step(p, s).state;
    ReadsGlobal(p, t, r, e);
    Arithmetic.TwoSteps(p, s, t, Step(p, t).state);
  }

  // ---- Loading and jumping ----

  lemma WroteRegister(s: State, a: nat, w: Word)
    ensures var t := Wrote(s, a, w);
      s.base + a < |t.slots| && t.slots[s.base + a] == w && t.base == s.base
  {
  }

  /** CNIL and then JUMPF on the same register jumps. */
  lemma NilThenJump(p: Program, s: State, a: Byte, d: nat, n: Int16)
    requires d < 0x1_0000 && Fetches(p, s, Encode(6, a, d)) && 0 <= s.pc + 1 + n < 0x1_0000_0000
    requires s.pc + 1 < |p.code| < 0xFFFF_FFFF && p.code[s.pc + 1] == EncodeOffset(27, a, n)
    ensures Run(p, s, 2).Running? && Run(p, s, 2).state.pc == s.pc + 1 + n
  {
    hide Step, Encode, EncodeOffset, SetAt;
    LoadsNil(p, s, a, d);
    WroteRegister(s, a, 0);
    var t := Wrote(s, a, 0);
    Branches(p, t, 27, a, n);
    Arithmetic.TwoSteps(p, s, t, Step(p, t).state);
  }

  /** CSHORT and then JUMPF on the same register never jumps: zero is true. */
  lemma NumberThenNoJump(p: Program, s: State, a: Byte, d: nat, n: Int16)
    requires d < 0x1_0000 && Fetches(p, s, Encode(7, a, d)) && 0 <= s.pc + 1 + n < 0x1_0000_0000
    requires s.pc + 1 < |p.code| < 0xFFFF_FFFF && p.code[s.pc + 1] == EncodeOffset(27, a, n)
    ensures Run(p, s, 2).Running? && Run(p, s, 2).state.pc == s.pc + 2
  {
    hide Step, Encode, EncodeOffset, SetAt;
    LoadsNumber(p, s, a, d);
    WroteRegister(s, a, Int(d));
    var t := Wrote(s, a, Int(d));
    Branches(p, t, 27, a, n);
    Arithmetic.TwoSteps(p, s, t, Step(p, t).state);
  }

  /** CBOOL and then JUMPF jumps exactly on false. */
  lemma BoolThenJump(p: Program, s: State, a: Byte, d: nat, n: Int16)
    requires d < 0x1_0000 && Fetches(p, s, Encode(5, a, d)) && 0 <= s.pc + 1 + n < 0x1_0000_0000
    requires s.pc + 1 < |p.code| < 0xFFFF_FFFF && p.code[s.pc + 1] == EncodeOffset(27, a, n)
    ensures Run(p, s, 2).Running? && Run(p, s, 2).state.pc == if d == 0 then s.pc + 1 + n else s.pc + 2
  {
    hide Step, Encode, EncodeOffset, SetAt;
    LoadsBool(p, s, a, d);
    var w := 0xFFFD_0000_0000_0000 + if d == 0 then 0 else 1;
    WroteRegister(s, a, w);
    var t := Wrote(s, a, w);
    Branches(p, t, 27, a, n);
    Arithmetic.TwoSteps(p, s, t, Step(p, t).state);
  }

  // ---- A whole program ----

  lemma FourSteps(p: Program, s: State, t: State, u: State, v: State)
    requires Step(p, s) == Running(t) && Step(p, t) == Running(u) && Step(p, u) == Running(v)
    ensures Run(p, s, 3) == Running(v)
    ensures Step(p, v).Stopped? ==> Run(p, s, 4) == Stopped(Step(p, v).why)
  {
    hide Step;
    assert Run(p, u, 1) == Running(v) && Run(p, t, 2) == Running(v);
    if Step(p, v).Stopped? {
      assert Run(p, v, 1) == Stopped(Step(p, v).why);
      assert Run(p, u, 2) == Stopped(Step(p, v).why) && Run(p, t, 3) == Stopped(Step(p, v).why);
    }
  }

  /** The bytes `NSGET 1 println`, `CSHORT 2 d`, `CALL 0`, `EXIT` print d and end. */
  lemma PrintsNumber(p: Program, d: nat)
    requires d < 0x1_0000 && |p.cstr| == 1 && p.cstr[0] == "println"
    requires p.code == [Instr(10, 1, 0, 0), Instr(7, 2, d / 0x100, d % 0x100), Instr(29, 0, 0, 0), Instr(47, 0, 0, 0)]
    ensures Run(p, INITIAL, 3).Running? && Run(p, INITIAL, 3).state.printed == [Int(d)]
    ensures Run(p, INITIAL, 4) == Stopped(EndReached)
  {
    hide Step, SetAt, HasKind, Slot, Global;
    var s := INITIAL;
    var f := BUILTIN_PRINTLN;
    KindRanges(f);
    ReadsGlobal(p, s, 1, 0);
    WroteAt(s, 1, f);
    var t := Wrote(s, 1, f);
    LoadsNumber(p, t, 2, d);
    WroteAt(t, 2, Int(d));
    var u := Wrote(t, 2, Int(d));
    CallsBuiltin(p, u, 0, 0);
    var v := Step(p, u).state;
    Skips(p, v, Instr(47, 0, 0, 0));
    FourSteps(p, s, t, u, v);
  }

  lemma WroteAt(s: State, a: nat, w: Word)
    ensures var t := Wrote(s, a, w);
      && s.base + a < |t.slots| && t.slots[s.base + a] == w && |s.slots| <= |t.slots|
      && forall k :: 0 <= k < |s.slots| && k != s.base + a ==> t.slots[k] == s.slots[k]
  {
  }
}
