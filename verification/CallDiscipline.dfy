/** Calls and returns over one shared slot array: which bytecode keeps them in step, what holds in
    every reachable state, and what a call leaves of its caller. */
module CallDiscipline {
  import opened Wrappers
  import opened SlotWords
  import opened ContextStacks
  import opened Machine

  // ---- Well-formed bytecode ----

  predicate WritesRegister(i: Instr) {
    i.op in {CSTR, CKEY, CTYPE, CBOOL, CNIL, CSHORT, NSGET, ADDVV, SUBVV, MULVV, DIVVV, MODVV, ISEQ, MOV, FNEW}
    || (i.op == BULKMOV && i.c > 0)
  }

  /** Where control can go inside the same frame; for a call, where it comes back to. */
  function Successors(pc: nat, i: Instr): set<nat> {
    var next, target := Unsigned32(pc + 1), Unsigned32(pc + i.Offset());
    if i.op == RET || i.op == EXIT then {}
    else if i.op == LOOP then {pc}
    else if i.op == JUMP then {target}
    else if i.op == JUMPF || i.op == JUMPT then {next, target}
    else {next}
  }

  /** An instruction of a function: control stays in functions, and register 0, which holds the
      return address, is neither written nor overlaid by a callee's window. */
  ghost predicate BodyOk(body: set<nat>, pc: nat, i: Instr) {
    && Successors(pc, i) <= body
    && (WritesRegister(i) || i.op in {CALL, RET} ==> i.a >= 1)
  }

  /** `body` marks the code of functions, as opposed to the top level. It is closed under control
      flow, and everything that can be called starts in it. */
  ghost predicate WellFormed(p: Program, body: set<nat>) {
    && |p.code| < 0x1_0000_0000
    && (forall pc :: pc in body ==>
          pc < |p.code| && BodyOk(body, pc, p.code[pc]))
    && (forall pc :: 0 <= pc < |p.code| && p.code[pc].op == FNEW ==>
          p.code[pc].D() != 0 && (p.code[pc].D() < 0x8000 ==> p.code[pc].D() in body))
    && (forall k :: 0 <= k < |p.cstrAddress| ==> !IsFnew(p.cstrAddress[k]))
  }

  // ---- The invariant of reachable states ----

  /** A callable word names a function body. */
  ghost predicate FnOk(w: Word, body: set<nat>) {
    IsFnew(w) ==> FuncOf(w) != 0 && FuncOf(w) in body
  }

  ghost predicate WordsOk(s: State, body: set<nat>) {
    && (forall k :: 0 <= k < |s.slots| ==> FnOk(s.slots[k], body))
    && (forall key :: key in s.symbols ==> FnOk(s.symbols[key], body))
  }

  /** The base of the k-th frame, counting the top level as 0. */
  ghost function BaseOf(s: State, k: nat): nat
    requires k <= |s.stack|
  {
    if k < |s.stack| then s.stack[k].baseSlot else s.base
  }

  /** The pc of the call that a return address stands for. */
  ghost function CallPc(w: Word): nat {
    Unsigned32(GetSmallInt(w))
  }

  /** Slot 0 of the k-th frame holds the pc of the CALL whose localbase is the frame's distance
      from its caller's, and control comes back into function code unless the caller is the top
      level. */
  ghost predicate FrameOk(p: Program, body: set<nat>, s: State, k: nat)
    requires 1 <= k <= |s.stack| && BaseOf(s, k) < |s.slots|
  {
    var q := CallPc(s.slots[BaseOf(s, k)]);
    && q < |p.code| && p.code[q].op == CALL
    && p.code[q].a == BaseOf(s, k) - BaseOf(s, k - 1)
    && s.slots[BaseOf(s, k)] == ToSmallInt(AsInt32(q))
    && (k > 1 ==> q in body)
  }

  /** Each frame starts above its caller's; only the top level may call with its own base. */
  ghost predicate Ascending(s: State) {
    && BaseOf(s, 0) == 0
    && (forall j, k :: 0 <= j < k <= |s.stack| ==> BaseOf(s, j) <= BaseOf(s, k))
    && (forall j, k :: 1 <= j < k <= |s.stack| ==> BaseOf(s, j) < BaseOf(s, k))
  }

  ghost predicate Inv(p: Program, body: set<nat>, s: State) {
    && WordsOk(s, body) && Ascending(s)
    && (s.stack != [] ==> s.base < |s.slots| && s.pc in body)
    && (forall k :: 1 <= k <= |s.stack| ==> BaseOf(s, k) < |s.slots| && FrameOk(p, body, s, k))
  }

  // ---- What a single step can be ----

  /** Slots below `n` are as they were. */
  ghost predicate KeepsBelow(s: State, t: State, n: nat) {
    forall k :: 0 <= k < n ==> Slot(t, k) == Slot(s, k)
  }

  /** Inside one frame: a called frame's register 0 survives. */
  ghost predicate Quiet(s: State, t: State, body: set<nat>) {
    && t.stack == s.stack && t.base == s.base && t.ip == s.ip
    && |s.slots| <= |t.slots|
    && KeepsBelow(s, t, if s.pc in body then s.base + 1 else s.base)
    && (s.pc in body ==> t.pc in body)
    && (WordsOk(s, body) ==> WordsOk(t, body))
  }

  ghost predicate Called(s: State, t: State, i: Instr, body: set<nat>) {
    && t.stack == s.stack + [Context(s.base, s.ip)] && t.base == s.base + i.a
    && t.base < |t.slots| && KeepsBelow(s, t, t.base)
    && t.slots[t.base] == ToSmallInt(AsInt32(s.pc))
    && (WordsOk(s, body) ==> WordsOk(t, body) && t.pc in body)
  }

  ghost predicate Returned(s: State, t: State, i: Instr, body: set<nat>) {
    && s.stack != []
    && t.stack == s.stack[..|s.stack| - 1]
    && t.base == s.stack[|s.stack| - 1].baseSlot && t.ip == s.stack[|s.stack| - 1].ip
    && s.base < |s.slots| && t.pc == Unsigned32(GetSmallInt(s.slots[s.base]) + 1)
    && |t.slots| == s.base + i.a <= |s.slots| && KeepsBelow(s, t, if i.a > 0 then s.base else 0)
    && (i.a > 0 ==> t.slots[s.base] == Slot(s, s.base + i.a))
    && (WordsOk(s, body) ==> WordsOk(t, body))
  }

  // ---- Frames of the individual operations ----

  lemma PutFrame(s: State, i: nat, v: Word, body: set<nat>)
    ensures KeepsBelow(s, Put(s, i, v), s.base + i) && Put(s, i, v) == s.(slots := Put(s, i, v).slots)
    ensures |s.slots| <= |Put(s, i, v).slots| && s.base + i < |Put(s, i, v).slots|
    ensures Slot(Put(s, i, v), s.base + i) == v
    ensures WordsOk(s, body) && FnOk(v, body) ==> WordsOk(Put(s, i, v), body)
  {
    if WordsOk(s, body) && FnOk(v, body) {
      PutWords(s, i, v, body);
    }
  }

  lemma PutWords(s: State, i: nat, v: Word, body: set<nat>)
    requires WordsOk(s, body) && FnOk(v, body)
    ensures WordsOk(Put(s, i, v), body)
  {
    NilOk(body);
    hide FnOk;
    var t := Put(s, i, v);
    forall k | 0 <= k < |t.slots| ensures FnOk(t.slots[k], body) {
      assert t.slots[k] == v || t.slots[k] == NIL || (k < |s.slots| && t.slots[k] == s.slots[k]);
    }
  }

  lemma KeepsOn(s: State, t: State, u: State, n: nat, m: nat)
    requires KeepsBelow(s, t, n) && KeepsBelow(t, u, n) && m <= n
    ensures KeepsBelow(s, u, m) && KeepsBelow(s, s, n)
  {
  }

  lemma NilOk(body: set<nat>)
    ensures FnOk(NIL, body)
  {
  }

  lemma {:induction false} ClearFrame(s: State, i: nat, n: nat, body: set<nat>)
    ensures KeepsBelow(s, Clear(s, i, n), s.base + i) && |s.slots| <= |Clear(s, i, n).slots|
    ensures Clear(s, i, n) == s.(slots := Clear(s, i, n).slots)
    ensures WordsOk(s, body) ==> WordsOk(Clear(s, i, n), body)
    decreases n
  {
    hide Put, KeepsBelow, WordsOk, FnOk, Slot;
    if n > 0 {
      NilOk(body);
      PutFrame(s, i, NIL, body);
      var s1 := Put(s, i, NIL);
      var t := Clear(s1, i + 1, n - 1);
      ClearFrame(s1, i + 1, n - 1, body);
      KeepsLess(s1, t, s.base + i + 1, s.base + i);
      KeepsOn(s, s1, t, s.base + i, s.base + i);
    } else {
      KeepsAll(s, s, s.base + i);
    }
  }

  lemma {:induction false} ClearNil(s: State, i: nat, n: nat, k: nat)
    requires s.base + i <= k < s.base + i + n
    ensures Slot(Clear(s, i, n), k) == NIL
    decreases n
  {
    hide Put, KeepsBelow, WordsOk, Slot;
    var s1 := Put(s, i, NIL);
    PutFrame(s, i, NIL, {});
    if k == s.base + i {
      ClearFrame(s1, i + 1, n - 1, {});
      KeepsAt(s1, Clear(s1, i + 1, n - 1), s.base + i + 1, k);
    } else {
      ClearNil(s1, i + 1, n - 1, k);
    }
  }

  lemma KeepsLess(s: State, t: State, n: nat, m: nat)
    requires KeepsBelow(s, t, n) && m <= n
    ensures KeepsBelow(s, t, m)
  {
  }

  lemma {:induction false} BulkFrame(s: State, a: nat, b: nat, n: nat, body: set<nat>)
    requires BulkMove(s, a, b, n).Some?
    ensures var t := BulkMove(s, a, b, n).value;
      && KeepsBelow(s, t, s.base + a) && |s.slots| <= |t.slots| && t == s.(slots := t.slots)
      && (n == 0 ==> t == s) && (WordsOk(s, body) ==> WordsOk(t, body))
    decreases n
  {
    hide Put, KeepsBelow, WordsOk, FnOk;
    if n > 0 {
      var w := Get(s, b).value;
      if WordsOk(s, body) {
        WordAt(s, s.base + b, body);
      }
      PutFrame(s, a, w, body);
      var s1 := Put(s, a, w);
      var t := BulkMove(s, a, b, n).value;
      BulkFrame(s1, a + 1, b + 1, n - 1, body);
      KeepsLess(s1, t, s.base + a + 1, s.base + a);
      KeepsOn(s, s1, t, s.base + a, s.base + a);
    } else {
      KeepsAll(s, s, s.base + a);
    }
  }

  /** Of the words that instructions make, only FNEW's are callable. */
  lemma MadeWords(n: Int32)
    ensures !IsFnew(ToSmallInt(n))
    ensures 0 <= n < 0x1_0000 ==> !IsFnew(ToType(n))
    ensures forall b :: !IsFnew(ToBool(b))
  {
    hide Tag, Tagged;
  }

  lemma MadeFnew(d: nat, body: set<nat>)
    requires 0 < d < 0x1_0000 && (d < 0x8000 ==> d in body)
    ensures FnOk(ToFnew(AsInt16(d)), body)
  {
    FnewRoundTrip(AsInt16(d));
  }

  // ---- Every step is quiet, a call, or a return ----

  /** The instruction that step `s -> t` executes. */
  ghost predicate Steps(p: Program, s: State, t: State) {
    Step(p, s) == Running(t)
  }

  /** Words that a register instruction can write are callable only if they name a body. */
  lemma EffectOk(p: Program, body: set<nat>, s: State)
    requires WellFormed(p, body) && WordsOk(s, body) && s.pc < |p.code|
    requires RegisterEffect(p, s, p.code[s.pc]).Some? && RegisterEffect(p, s, p.code[s.pc]).value.Write?
    ensures FnOk(RegisterEffect(p, s, p.code[s.pc]).value.w, body)
  {
    hide FnOk, ConstEffect, BinaryEffect, GetSmallInt;
    var i := p.code[s.pc];
    NilOk(body);
    if ConstEffect(p, i).Some? {
      ConstOk(p, body, s.pc);
    } else if IsBinary(i.op) {
      BinaryOk(i.op, Get(s, i.b).value, Get(s, i.c).value, body);
    } else if i.op == MOV {
      WordAt(s, s.base + i.D(), body);
    }
  }

  lemma ConstOk(p: Program, body: set<nat>, pc: nat)
    requires WellFormed(p, body) && pc < |p.code|
    requires ConstEffect(p, p.code[pc]).Some? && ConstEffect(p, p.code[pc]).value.Write?
    ensures FnOk(ConstEffect(p, p.code[pc]).value.w, body)
  {
    hide Tag, Tagged;
    var i := p.code[pc];
    NilOk(body);
    if i.op == FNEW {
      MadeFnew(i.D(), body);
    } else {
      MadeWords(i.D());
    }
  }

  lemma BinaryOk(op: Byte, b: Word, c: Word, body: set<nat>)
    requires IsBinary(op) && BinaryEffect(op, b, c).Write?
    ensures FnOk(BinaryEffect(op, b, c).w, body)
  {
    hide Tag, Tagged, ToSmallInt, ToBool;
    MadeWords(0);
    if op != ISEQ {
      MadeWords(ArithResult(op, GetSmallInt(b), GetSmallInt(c)).value);
    }
  }

  lemma RegisterStep(p: Program, body: set<nat>, s: State, t: State)
    requires WellFormed(p, body) && Steps(p, s, t) && RegisterEffect(p, s, p.code[s.pc]).Some?
    ensures Quiet(s, t, body)
  {
    hide *;
    RegisterOutcome(p, s, t);
    RegisterFits(p, body, s);
    var i := p.code[s.pc];
    var e := RegisterEffect(p, s, i).value;
    if WordsOk(s, body) && e.Write? {
      EffectOk(p, body, s);
    }
    EffectQuiet(s, t, i.a, e, body);
  }

  lemma RegisterFits(p: Program, body: set<nat>, s: State)
    requires WellFormed(p, body) && s.pc < |p.code| && RegisterEffect(p, s, p.code[s.pc]).Some?
    ensures s.pc in body ==> p.code[s.pc].a >= 1 && Unsigned32(s.pc + 1) in body
  {
    hide WellFormed, RegisterEffect, Unsigned32, Successors, WritesRegister;
    RegisterOps(p, s, p.code[s.pc]);
    InBody(p, body, s.pc);
  }

  lemma EffectQuiet(s: State, t: State, a: nat, e: Effect, body: set<nat>)
    requires ApplyEffect(s, a, e) == Running(t)
    requires s.pc in body ==> a >= 1 && Unsigned32(s.pc + 1) in body
    requires WordsOk(s, body) && e.Write? ==> FnOk(e.w, body)
    ensures Quiet(s, t, body)
  {
    hide WordsOk, FnOk, Put, Unsigned32, KeepsBelow;
    var lo := if s.pc in body then s.base + 1 else s.base;
    match e
    case Halt(_) =>
    case Keep =>
      KeepsAll(s, t, lo);
      WordsMoved(s, t, body);
    case Write(w) =>
      WriteFrame(s, a, w, lo, body);
  }

  lemma WriteFrame(s: State, a: nat, w: Word, lo: nat, body: set<nat>)
    requires lo <= s.base + a && (WordsOk(s, body) ==> FnOk(w, body))
    ensures var t := Advance(Put(s, a, w));
      && t == s.(slots := t.slots, pc := Unsigned32(s.pc + 1))
      && KeepsBelow(s, t, lo) && |s.slots| <= |t.slots|
      && (WordsOk(s, body) ==> WordsOk(t, body))
  {
    hide WordsOk, FnOk, Put, Unsigned32, KeepsBelow;
    var s1 := Put(s, a, w);
    PutFrame(s, a, w, body);
    KeepsAll(s1, Advance(s1), s.base + a);
    KeepsOn(s, s1, Advance(s1), s.base + a, lo);
    WordsMoved(s1, Advance(s1), body);
  }

  lemma KeepsAt(s: State, t: State, n: nat, k: nat)
    requires KeepsBelow(s, t, n) && k < n
    ensures Slot(t, k) == Slot(s, k)
  {
  }

  lemma KeepsAll(s: State, t: State, n: nat)
    requires s.slots == t.slots
    ensures KeepsBelow(s, t, n)
  {
  }

  lemma InBody(p: Program, body: set<nat>, pc: nat)
    requires WellFormed(p, body) && pc < |p.code|
    ensures pc in body ==> Successors(pc, p.code[pc]) <= body
    ensures pc in body && (WritesRegister(p.code[pc]) || p.code[pc].op in {CALL, RET}) ==> p.code[pc].a >= 1
  {
  }

  lemma RegisterOutcome(p: Program, s: State, t: State)
    requires Steps(p, s, t) && RegisterEffect(p, s, p.code[s.pc]).Some?
    ensures s.pc < |p.code|
    ensures ApplyEffect(s, p.code[s.pc].a, RegisterEffect(p, s, p.code[s.pc]).value) == Running(t)
  {
    hide RegisterEffect, ApplyEffect, StepCall, StepRet, StepBranch, StepNsset, BulkMove;
  }

  lemma RegisterOps(p: Program, s: State, i: Instr)
    requires RegisterEffect(p, s, i).Some?
    ensures WritesRegister(i) && Successors(s.pc, i) == {Unsigned32(s.pc + 1)}
  {
  }

  /** Only slots and symbols matter to WordsOk. */
  lemma WordsMoved(s: State, t: State, body: set<nat>)
    requires s.slots == t.slots && s.symbols == t.symbols
    ensures WordsOk(s, body) ==> WordsOk(t, body)
  {
  }

  lemma CallOutcome(p: Program, s: State, t: State)
    requires Steps(p, s, t) && s.pc < |p.code| && p.code[s.pc].op == CALL
    ensures StepCall(s, p.code[s.pc]) == Running(t)
  {
    hide StepCall, BinaryEffect, Lookup, Get;
  }

  /** `s1` is `s` with the return address written; a function is entered from there. */
  lemma EntersFunction(s: State, s1: State, t: State, i: Instr, body: set<nat>)
    requires s1 == s.(slots := s1.slots) && KeepsBelow(s, s1, s.base + i.a)
    requires s.base + i.a + 1 < |s1.slots| && s1.slots[s.base + i.a] == ToSmallInt(AsInt32(s.pc))
    requires var fn := FuncOf(s1.slots[s.base + i.a + 1]); fn != 0 && t == Enter(s1, i.a, fn).(pc := fn)
    requires WordsOk(s, body) ==> WordsOk(s1, body)
    ensures Called(s, t, i, body)
  {
    hide WordsOk, ToSmallInt, FuncOf;
    WordsMoved(s1, t, body);
    if WordsOk(s, body) {
      WordAt(s1, s.base + i.a + 1, body);
    }
  }

  /** The same for a builtin, which comes straight back. */
  lemma EntersBuiltin(s: State, s1: State, t: State, i: Instr, body: set<nat>)
    requires s1 == s.(slots := s1.slots) && KeepsBelow(s, s1, s.base + i.a) && |s.slots| <= |s1.slots|
    requires StepBuiltin(Enter(s1, i.a, 0), i.a) == Running(t)
    requires WordsOk(s, body) ==> WordsOk(s1, body)
    requires s.pc in body ==> i.a >= 1 && Unsigned32(s.pc + 1) in body
    ensures Quiet(s, t, body)
  {
    hide WordsOk, StepBuiltin, Unsigned32;
    var s2 := Enter(s1, i.a, 0);
    WordsMoved(s1, s2, body);
    BuiltinStep(s2, i.a, t, body);
    KeepsAll(s1, s2, s.base + i.a);
    KeepsOn(s, s1, s2, s.base + i.a, s.base + i.a);
    KeepsOn(s, s2, t, s.base + i.a, if s.pc in body then s.base + 1 else s.base);
  }

  /** The parts of a call that goes through: the return address is written, a callable word read,
      and the window entered. */
  lemma CallParts(s: State, i: Instr, t: State)
    requires StepCall(s, i) == Running(t)
    ensures var s1 := Put(s, i.a, ToSmallInt(AsInt32(s.pc)));
      && s1 == s.(slots := s1.slots) && s.base + i.a + 1 < |s1.slots|
      && var fn := FuncOf(s1.slots[s.base + i.a + 1]);
         if fn != 0 then t == Enter(s1, i.a, fn).(pc := fn)
         else StepBuiltin(Enter(s1, i.a, 0), i.a) == Running(t)
  {
    hide SetAt, ToSmallInt, AsInt32, StepBuiltin, FuncOf, IsFnew, IsBuiltin;
  }

  lemma CallStep(p: Program, body: set<nat>, s: State, t: State)
    requires WellFormed(p, body) && Steps(p, s, t) && s.pc < |p.code| && p.code[s.pc].op == CALL
    ensures Called(s, t, p.code[s.pc], body) || Quiet(s, t, body)
  {
    hide *;
    CallOutcome(p, s, t);
    CallParts(s, p.code[s.pc], t);
    CallSuccessor(p, body, s.pc);
    var i := p.code[s.pc];
    var ra := ToSmallInt(AsInt32(s.pc));
    MadeWords(AsInt32(s.pc));
    NotFnOk(ra, body);
    PutFrame(s, i.a, ra, body);
    WrittenSlot(s, i.a, ra);
    var s1 := Put(s, i.a, ra);
    if FuncOf(s1.slots[s.base + i.a + 1]) != 0 {
      EntersFunction(s, s1, t, i, body);
    } else {
      EntersBuiltin(s, s1, t, i, body);
    }
  }

  lemma WrittenSlot(s: State, i: nat, v: Word)
    ensures s.base + i < |Put(s, i, v).slots| && Put(s, i, v).slots[s.base + i] == v
  {
  }

  lemma CallSuccessor(p: Program, body: set<nat>, pc: nat)
    requires WellFormed(p, body) && pc < |p.code| && p.code[pc].op == CALL
    ensures pc in body ==> p.code[pc].a >= 1 && Unsigned32(pc + 1) in body
  {
    hide WellFormed, Unsigned32;
    InBody(p, body, pc);
  }

  lemma NotFnOk(w: Word, body: set<nat>)
    requires !IsFnew(w)
    ensures FnOk(w, body)
  {
  }

  lemma WordAt(s: State, k: nat, body: set<nat>)
    requires WordsOk(s, body) && k < |s.slots|
    ensures FnOk(s.slots[k], body)
    ensures FuncOf(s.slots[k]) != 0 ==> FuncOf(s.slots[k]) in body
  {
  }

  /** What a builtin leaves of the state it was entered in. */
  lemma BuiltinStep(s: State, localbase: nat, t: State, body: set<nat>)
    requires s.stack != [] && StepBuiltin(s, localbase) == Running(t)
    ensures var caller := s.stack[|s.stack| - 1];
      && t.stack == s.stack[..|s.stack| - 1] && t.base == caller.baseSlot && t.ip == caller.ip
      && t.pc == Unsigned32(s.pc + 1)
    ensures t.printed == s.printed + [Slot(s, s.base + 2)]
    ensures forall k :: s.base + 2 <= k < s.base + localbase + 10 ==> Slot(t, k) == NIL
    ensures KeepsBelow(s, t, s.base) && |s.slots| <= |t.slots| && t.symbols == s.symbols
    ensures s.base < |t.slots| && t.slots[s.base] == NIL
    ensures WordsOk(s, body) ==> WordsOk(t, body)
  {
    hide WordsOk, FnOk, Put, SetAt, Clear, KeepsBelow;
    var w := Get(s, 2).value;
    var s1 := s.(printed := s.printed + [w]);
    WordsMoved(s, s1, body);
    NilOk(body);
    PutFrame(s1, 0, NIL, body);
    var s2 := Put(s1, 0, NIL);
    ClearFrame(s2, 2, localbase + 8, body);
    var s3 := Cleared(s2, localbase);
    assert s3 == Clear(s2, 2, localbase + 8) && s3.slots == t.slots;
    forall k | s.base + 2 <= k < s.base + localbase + 10 ensures Slot(t, k) == NIL {
      ClearNil(s2, 2, localbase + 8, k);
    }
    KeepsAt(s2, s3, s.base + 2, s.base);
    KeepsAll(s, s1, s.base);
    KeepsOn(s, s1, s2, s.base, s.base);
    KeepsAll(s3, t, s.base + 2);
    KeepsOn(s2, s3, t, s.base + 2, s.base);
    KeepsOn(s, s2, t, s.base, s.base);
    WordsMoved(s3, t, body);
  }

  lemma RetOutcome(p: Program, s: State, t: State)
    requires Steps(p, s, t) && s.pc < |p.code| && p.code[s.pc].op == RET
    ensures StepRet(s, p.code[s.pc]) == Running(t)
  {
    hide StepRet, BinaryEffect, Lookup, Get;
  }

  lemma RetStep(p: Program, body: set<nat>, s: State, t: State)
    requires Steps(p, s, t) && p.code[s.pc].op == RET
    ensures Returned(s, t, p.code[s.pc], body)
  {
    hide WordsOk, FnOk, Put, SetAt, GetSmallInt;
    var i := p.code[s.pc];
    var v := Get(s, i.a).value;
    PutFrame(s, 0, v, body);
    var s1 := Put(s, 0, v);
    PutKeepsSize(s, 0, v);
    if WordsOk(s, body) {
      WordAt(s, s.base + i.a, body);
      WordsCut(s1, s.base + i.a, t, body);
    }
  }

  lemma PutKeepsSize(s: State, i: nat, v: Word)
    requires s.base + i < |s.slots|
    ensures |Put(s, i, v).slots| == |s.slots|
  {
  }

  lemma WordsCut(s: State, n: nat, t: State, body: set<nat>)
    requires WordsOk(s, body) && n <= |s.slots| && t.slots == s.slots[..n] && t.symbols == s.symbols
    ensures WordsOk(t, body)
  {
  }

  lemma ExecutesBulk(p: Program, s: State, i: Instr)
    requires i.op == BULKMOV
    ensures Execute(p, s, i) ==
      match BulkMove(s, i.a, i.b, i.c)
      case None => Stopped(OutOfBounds)
      case Some(t) => Running(Advance(t))
  {
    hide BulkMove, BinaryEffect, Lookup, Get, Advance;
  }

  lemma BulkOutcome(p: Program, s: State, t: State)
    requires Steps(p, s, t) && s.pc < |p.code| && p.code[s.pc].op == BULKMOV
    ensures var i := p.code[s.pc];
      BulkMove(s, i.a, i.b, i.c).Some? && t == Advance(BulkMove(s, i.a, i.b, i.c).value)
  {
    hide Execute, BulkMove, Advance;
    ExecutesBulk(p, s, p.code[s.pc]);
  }

  lemma BulkStep(p: Program, body: set<nat>, s: State, t: State)
    requires WellFormed(p, body) && Steps(p, s, t) && s.pc < |p.code| && p.code[s.pc].op == BULKMOV
    ensures Quiet(s, t, body)
  {
    BulkOutcome(p, s, t);
    hide WordsOk, FnOk, BulkMove, Unsigned32, Steps, WellFormed, KeepsBelow;
    InBody(p, body, s.pc);
    var i := p.code[s.pc];
    var u := BulkMove(s, i.a, i.b, i.c).value;
    var lo := if s.pc in body then s.base + 1 else s.base;
    BulkFrame(s, i.a, i.b, i.c, body);
    KeepsAll(u, t, s.base + i.a);
    if i.c > 0 {
      KeepsOn(s, u, t, s.base + i.a, lo);
    } else {
      KeepsAll(s, t, lo);
    }
    WordsMoved(u, t, body);
  }

  lemma NssetStep(p: Program, body: set<nat>, s: State, t: State)
    requires WellFormed(p, body) && Steps(p, s, t) && p.code[s.pc].op == NSSET
    ensures Quiet(s, t, body)
  {
    hide FnOk, Unsigned32;
    if WordsOk(s, body) {
      WordAt(s, s.base + p.code[s.pc].a, body);
    }
  }

  /** The instructions that only move the program counter. */
  lemma JumpStep(p: Program, body: set<nat>, s: State, t: State)
    requires WellFormed(p, body) && Steps(p, s, t) && RegisterEffect(p, s, p.code[s.pc]) == None
    requires p.code[s.pc].op !in {CALL, RET, BULKMOV, NSSET}
    ensures Quiet(s, t, body)
  {
    hide WordsOk, RegisterEffect, Unsigned32, WellFormed, Steps, Successors, KeepsBelow;
    JumpOutcome(p, s, t);
    InBody(p, body, s.pc);
    KeepsAll(s, t, if s.pc in body then s.base + 1 else s.base);
    WordsMoved(s, t, body);
  }

  lemma JumpOutcome(p: Program, s: State, t: State)
    requires Steps(p, s, t) && RegisterEffect(p, s, p.code[s.pc]) == None
    requires p.code[s.pc].op !in {CALL, RET, BULKMOV, NSSET}
    ensures s.pc < |p.code| && t == s.(pc := t.pc) && t.pc in Successors(s.pc, p.code[s.pc])
  {
    hide RegisterEffect, Unsigned32, BulkMove, StepCall, StepRet, StepNsset, IsFalsy, Get;
  }

  /** Every step stays inside its frame, slides the window up by one call, or undoes the last
      call. */
  lemma StepCases(p: Program, body: set<nat>, s: State, t: State)
    requires WellFormed(p, body) && Steps(p, s, t)
    ensures s.pc < |p.code|
    ensures Quiet(s, t, body)
      || (p.code[s.pc].op == CALL && Called(s, t, p.code[s.pc], body))
      || (p.code[s.pc].op == RET && Returned(s, t, p.code[s.pc], body))
  {
    hide Execute, Quiet, Called, Returned, WellFormed;
    var i := p.code[s.pc];
    if RegisterEffect(p, s, i).Some? {
      RegisterStep(p, body, s, t);
    } else if i.op == CALL {
      CallStep(p, body, s, t);
    } else if i.op == RET {
      RetStep(p, body, s, t);
    } else if i.op == BULKMOV {
      BulkStep(p, body, s, t);
    } else if i.op == NSSET {
      NssetStep(p, body, s, t);
    } else {
      JumpStep(p, body, s, t);
    }
  }

  // ---- The invariant holds in every reachable state ----

  /** A frame whose slot 0, base and caller's base are unchanged is still in order. */
  lemma FrameKept(p: Program, body: set<nat>, s: State, t: State, k: nat)
    requires 1 <= k <= |s.stack| && k <= |t.stack|
    requires BaseOf(s, k) < |s.slots| && FrameOk(p, body, s, k)
    requires BaseOf(t, k) == BaseOf(s, k) && BaseOf(t, k - 1) == BaseOf(s, k - 1)
    requires BaseOf(t, k) < |t.slots| && t.slots[BaseOf(t, k)] == s.slots[BaseOf(s, k)]
    ensures FrameOk(p, body, t, k)
  {
  }

  lemma BelowBase(s: State, k: nat)
    requires Ascending(s) && k <= |s.stack|
    ensures BaseOf(s, k) <= s.base
  {
    assert BaseOf(s, |s.stack|) == s.base;
  }

  lemma QuietInv(p: Program, body: set<nat>, s: State, t: State)
    requires Inv(p, body, s) && Quiet(s, t, body)
    ensures Inv(p, body, t)
  {
    hide WordsOk, FrameOk;
    assert forall k :: 0 <= k <= |s.stack| ==> BaseOf(t, k) == BaseOf(s, k);
    forall k | 1 <= k <= |t.stack| ensures BaseOf(t, k) < |t.slots| && FrameOk(p, body, t, k) {
      BelowBase(s, k);
      assert Slot(t, BaseOf(s, k)) == Slot(s, BaseOf(s, k));
      FrameKept(p, body, s, t, k);
    }
  }

  /** The new frame's return address is the pc of this very call. */
  lemma ReturnAddress(pc: nat)
    requires pc < 0x1_0000_0000
    ensures CallPc(ToSmallInt(AsInt32(pc))) == pc
  {
    hide ToSmallInt, GetSmallInt;
    SmallIntRoundTrip(AsInt32(pc));
  }

  lemma CalledInv(p: Program, body: set<nat>, s: State, t: State)
    requires WellFormed(p, body) && Inv(p, body, s)
    requires s.pc < |p.code| && p.code[s.pc].op == CALL && Called(s, t, p.code[s.pc], body)
    ensures Inv(p, body, t)
  {
    hide WordsOk, FrameOk, ToSmallInt, WellFormed;
    InBody(p, body, s.pc);
    var d := |s.stack|;
    assert forall k :: 0 <= k <= d ==> BaseOf(t, k) == BaseOf(s, k);
    assert BaseOf(s, d) == s.base;
    CodeSize(p, body);
    forall k | 1 <= k <= |t.stack| ensures BaseOf(t, k) < |t.slots| && FrameOk(p, body, t, k) {
      if k <= d {
        assert BaseOf(s, k) <= s.base < t.base;
        assert Slot(t, BaseOf(s, k)) == Slot(s, BaseOf(s, k));
        FrameKept(p, body, s, t, k);
      } else {
        ReturnAddress(s.pc);
        NewFrame(p, body, t, k, s.pc);
      }
    }
  }

  lemma CodeSize(p: Program, body: set<nat>)
    requires WellFormed(p, body)
    ensures |p.code| < 0x1_0000_0000
  {
  }

  lemma NewFrame(p: Program, body: set<nat>, t: State, k: nat, q: nat)
    requires 1 <= k == |t.stack| && t.base < |t.slots|
    requires q < |p.code| && p.code[q].op == CALL && p.code[q].a == t.base - BaseOf(t, k - 1)
    requires t.slots[t.base] == ToSmallInt(AsInt32(q)) && CallPc(t.slots[t.base]) == q
    requires k > 1 ==> q in body
    ensures FrameOk(p, body, t, k)
  {
  }

  /** The frame's return address leads back to just after its call. */
  lemma BackFrom(p: Program, body: set<nat>, s: State)
    requires WellFormed(p, body) && Inv(p, body, s) && s.stack != []
    ensures var q := CallPc(s.slots[s.base]);
      && q < |p.code| && p.code[q].op == CALL
      && Unsigned32(GetSmallInt(s.slots[s.base]) + 1) == q + 1
      && (|s.stack| > 1 ==> q + 1 in body)
  {
    hide GetSmallInt, ToSmallInt, WordsOk, Ascending, WellFormed, Unsigned32;
    assert FrameOk(p, body, s, |s.stack|);
    var w := s.slots[s.base];
    var q := CallPc(w);
    CodeSize(p, body);
    NextAddress(GetSmallInt(w), q);
    if |s.stack| > 1 {
      InBody(p, body, q);
      NextAddress(q, q);
      assert Unsigned32(q + 1) in Successors(q, p.code[q]);
    }
  }

  lemma NextAddress(n: int, q: nat)
    requires q < 0xFFFF_FFFF && (Unsigned32(n) == q || n == q)
    ensures Unsigned32(n + 1) == q + 1
  {
  }

  lemma ReturnedInv(p: Program, body: set<nat>, s: State, t: State)
    requires WellFormed(p, body) && Inv(p, body, s)
    requires s.pc < |p.code| && p.code[s.pc].op == RET && Returned(s, t, p.code[s.pc], body)
    ensures Inv(p, body, t)
  {
    hide WordsOk, FrameOk, GetSmallInt, WellFormed;
    InBody(p, body, s.pc);
    BackFrom(p, body, s);
    var d := |t.stack|;
    assert forall k :: 0 <= k <= d ==> BaseOf(t, k) == BaseOf(s, k);
    assert BaseOf(s, d + 1) == s.base;
    assert d >= 1 ==> BaseOf(s, d) < BaseOf(s, d + 1);
    forall k | 1 <= k <= d ensures BaseOf(t, k) < |t.slots| && FrameOk(p, body, t, k) {
      assert BaseOf(s, k) < BaseOf(s, d + 1);
      assert Slot(t, BaseOf(s, k)) == Slot(s, BaseOf(s, k));
      FrameKept(p, body, s, t, k);
    }
  }

  /** Every step keeps the call stack that can be rebuilt from slots and contexts in order. */
  lemma StepInv(p: Program, body: set<nat>, s: State, t: State)
    requires WellFormed(p, body) && Inv(p, body, s) && Steps(p, s, t)
    ensures Inv(p, body, t)
  {
    hide Execute, Step, Quiet, Called, Returned, Inv, WellFormed;
    StepCases(p, body, s, t);
    if Quiet(s, t, body) {
      QuietInv(p, body, s, t);
    } else if p.code[s.pc].op == CALL {
      CalledInv(p, body, s, t);
    } else {
      ReturnedInv(p, body, s, t);
    }
  }

  lemma InitialInv(p: Program, body: set<nat>)
    ensures Inv(p, body, INITIAL)
  {
    hide Tag;
    NilOk(body);
    assert Tag(BUILTIN_PRINTLN) == TAG_BUILTIN;
  }

  /** Whatever well-formed bytecode does, the invariant holds after any number of steps. */
  lemma {:induction false} ReachableInv(p: Program, body: set<nat>, s: State, n: nat)
    requires WellFormed(p, body) && Inv(p, body, s)
    ensures Run(p, s, n).Running? ==> Inv(p, body, Run(p, s, n).state)
    decreases n
  {
    hide Step, Inv, WellFormed;
    if n > 0 && Step(p, s).Running? {
      StepInv(p, body, s, Step(p, s).state);
      ReachableInv(p, body, Step(p, s).state, n - 1);
    }
  }

  // ---- Matched calls ----

  /** A run recorded state by state. */
  ghost predicate Trace(p: Program, tr: seq<State>) {
    forall k :: 0 <= k < |tr| - 1 ==> Steps(p, tr[k], tr[k + 1])
  }

  /** From a call to the return that matches it: the context stack stays above its old height
      until the last state. */
  ghost predicate Matched(p: Program, tr: seq<State>) {
    && |tr| >= 2 && Trace(p, tr)
    && tr[0].pc < |p.code| && p.code[tr[0].pc].op == CALL
    && |tr[|tr| - 1].stack| == |tr[0].stack|
    && forall k :: 0 < k < |tr| - 1 ==> |tr[k].stack| > |tr[0].stack|
  }

  /** What the run inside the call leaves of the state it started in. */
  ghost predicate Inside(s: State, t: State) {
    && |s.stack| <= |t.stack| && t.stack[..|s.stack|] == s.stack
    && BaseOf(t, |s.stack|) == s.base
    && s.base < |s.slots| && s.base < |t.slots| && KeepsBelow(s, t, s.base + 1)
  }

  lemma InsideStep(p: Program, body: set<nat>, s: State, t: State, u: State)
    requires WellFormed(p, body) && Inv(p, body, t) && s.stack != []
    requires Inside(s, t) && Steps(p, t, u) && |u.stack| >= |s.stack|
    ensures Inside(s, u)
  {
    hide WordsOk, FrameOk, Execute, Steps, WellFormed, GetSmallInt, ToSmallInt;
    StepCases(p, body, t, u);
    InBody(p, body, t.pc);
    BelowBase(t, |s.stack|);
    forall k | 0 <= k < s.base + 1 ensures Slot(u, k) == Slot(s, k) {
      assert Slot(t, k) == Slot(s, k);
      if p.code[t.pc].op == RET && Returned(t, u, p.code[t.pc], body) {
        assert BaseOf(t, |s.stack|) < BaseOf(t, |t.stack|);
        assert Slot(u, k) == Slot(t, k);
      } else {
        assert Slot(u, k) == Slot(t, k);
      }
    }
  }

  /** A builtin call is one balanced step: it prints, clears the callee's registers, leaves nil as
      its result, and changes nothing of the caller's. */
  lemma BuiltinCall(p: Program, body: set<nat>, s: State, t: State)
    requires WellFormed(p, body) && Steps(p, s, t) && p.code[s.pc].op == CALL && |t.stack| == |s.stack|
    ensures var lb := p.code[s.pc].a;
      && t.pc == s.pc + 1 && t.base == s.base && t.ip == s.ip && t.stack == s.stack
      && KeepsBelow(s, t, s.base + lb)
      && s.base + lb < |t.slots| && t.slots[s.base + lb] == NIL
      && (forall k :: s.base + lb + 2 <= k < s.base + 2 * lb + 10 ==> Slot(t, k) == NIL)
      && t.printed == s.printed + [Slot(s, s.base + lb + 2)]
  {
    hide WordsOk, FnOk, Put, SetAt, Clear, Tagged, Tag, StepBuiltin, KeepsBelow, WellFormed;
    CodeSize(p, body);
    var lb := p.code[s.pc].a;
    var ra := ToSmallInt(AsInt32(s.pc));
    PutFrame(s, lb, ra, body);
    PutBeyond(s, lb, ra, s.base + lb + 2);
    var s1 := Put(s, lb, ra);
    var s2 := Enter(s1, lb, 0);
    BuiltinStep(s2, lb, t, body);
    KeepsAll(s1, s2, s.base + lb);
    KeepsOn(s, s1, s2, s.base + lb, s.base + lb);
    KeepsOn(s, s2, t, s.base + lb, s.base + lb);
  }

  lemma PutBeyond(s: State, i: nat, v: Word, k: nat)
    requires k > s.base + i
    ensures Slot(Put(s, i, v), k) == Slot(s, k)
  {
  }

  /** Only a return makes the context stack shorter, and only a function call makes it longer. */
  lemma LastStep(p: Program, body: set<nat>, s: State, t: State, u: State)
    requires WellFormed(p, body) && Inv(p, body, t) && s.stack != []
    requires Inside(s, t) && Steps(p, t, u) && |u.stack| == |s.stack| - 1
    ensures |t.stack| == |s.stack| && t.base == s.base
    ensures t.pc < |p.code| && p.code[t.pc].op == RET && Returned(t, u, p.code[t.pc], body)
    ensures p.code[t.pc].a >= 1
  {
    hide WordsOk, FrameOk, Execute, Steps, WellFormed, GetSmallInt, ToSmallInt, KeepsBelow;
    StepCases(p, body, t, u);
    InBody(p, body, t.pc);
  }

  lemma {:induction false} InsideAll(p: Program, body: set<nat>, tr: seq<State>, k: nat)
    requires |tr| > 0 && WellFormed(p, body) && Inv(p, body, tr[0]) && Matched(p, tr)
    requires 1 <= k < |tr| - 1
    ensures Inv(p, body, tr[k]) && Inside(tr[1], tr[k])
    ensures Called(tr[0], tr[1], p.code[tr[0].pc], body)
    decreases k
  {
    hide Inv, WellFormed, Called, Inside, Steps;
    assert Steps(p, tr[k - 1], tr[k - 1 + 1]);
    if k == 1 {
      StepInv(p, body, tr[0], tr[1]);
      FirstStep(p, body, tr[0], tr[1]);
    } else {
      InsideAll(p, body, tr, k - 1);
      StepInv(p, body, tr[k - 1], tr[k]);
      assert |tr[1].stack| == |tr[0].stack| + 1 by { CalledHeight(p, body, tr[0], tr[1]); }
      InsideStep(p, body, tr[1], tr[k - 1], tr[k]);
    }
  }

  lemma FirstStep(p: Program, body: set<nat>, s: State, t: State)
    requires WellFormed(p, body) && Steps(p, s, t) && p.code[s.pc].op == CALL && |t.stack| > |s.stack|
    ensures Called(s, t, p.code[s.pc], body) && Inside(t, t)
  {
    hide WordsOk, Execute, WellFormed, ToSmallInt;
    StepCases(p, body, s, t);
  }

  lemma CalledHeight(p: Program, body: set<nat>, s: State, t: State)
    requires s.pc < |p.code| && Called(s, t, p.code[s.pc], body)
    ensures |t.stack| == |s.stack| + 1 && t.base == s.base + p.code[s.pc].a
  {
  }

  /** The matched-call theorem. Run a call of well-formed bytecode to the return that matches it,
      through any nesting and recursion: control is back at the next instruction with base, ip and
      context stack restored, every slot below the callee's window as it was, and the callee's
      result in the slot that held the return address. */
  lemma MatchedCall(p: Program, body: set<nat>, tr: seq<State>)
    requires WellFormed(p, body) && |tr| > 0 && Inv(p, body, tr[0]) && Matched(p, tr)
    ensures var s, t := tr[0], tr[|tr| - 1];
      var r := s.base + p.code[s.pc].a;
      && t.pc == s.pc + 1 && t.base == s.base && t.ip == s.ip && t.stack == s.stack
      && KeepsBelow(s, t, r) && r < |t.slots|
      && if |tr| == 2 then t.slots[r] == NIL
         else var u := tr[|tr| - 2];
           && u.base == r && u.pc < |p.code| && p.code[u.pc].op == RET
           && t.slots[r] == Slot(u, r + p.code[u.pc].a) && |t.slots| == r + p.code[u.pc].a
  {
    hide Inv, WellFormed, Steps, KeepsBelow, Called, Returned, Inside, Slot;
    var n := |tr| - 1;
    CodeSize(p, body);
    assert Steps(p, tr[n - 1], tr[n - 1 + 1]);
    if n == 1 {
      BuiltinCall(p, body, tr[0], tr[1]);
    } else {
      InsideAll(p, body, tr, n - 1);
      CalledHeight(p, body, tr[0], tr[1]);
      LastStep(p, body, tr[1], tr[n - 1], tr[n]);
      BackToCaller(p, body, tr[0], tr[1], tr[n - 1], tr[n]);
    }
  }

  /** Putting together the call, what the run inside left alone, and the return. */
  lemma BackToCaller(p: Program, body: set<nat>, s: State, s1: State, u: State, t: State)
    requires s.pc < |p.code| < 0x1_0000_0000 && Called(s, s1, p.code[s.pc], body) && Inside(s1, u)
    requires u.pc < |p.code| && Returned(u, t, p.code[u.pc], body) && p.code[u.pc].a >= 1
    requires |u.stack| == |s1.stack| && u.base == s1.base
    ensures t.pc == s.pc + 1 && t.base == s.base && t.ip == s.ip && t.stack == s.stack
    ensures KeepsBelow(s, t, s1.base) && s1.base < |t.slots|
    ensures t.slots[s1.base] == Slot(u, s1.base + p.code[u.pc].a) && |t.slots| == s1.base + p.code[u.pc].a
  {
    hide WordsOk, GetSmallInt, ToSmallInt, Unsigned32;
    var w := u.slots[u.base];
    assert w == Slot(u, s1.base) == Slot(s1, s1.base) == ToSmallInt(AsInt32(s.pc));
    ReturnAddress(s.pc);
    NextAddress(GetSmallInt(w), s.pc);
    assert u.stack == s1.stack;
    forall k | 0 <= k < s1.base ensures Slot(t, k) == Slot(s, k) {
      assert Slot(t, k) == Slot(u, k) && Slot(u, k) == Slot(s1, k) && Slot(s1, k) == Slot(s, k);
    }
  }
}
