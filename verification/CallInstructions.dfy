/** CALL, RET and BULKMOV, by their opcode numbers: what one turn of the dispatch loop does, for every
    word that can be called and every way in which they fail. */
module CallInstructions {
  import opened Wrappers
  import opened Bits
  import opened SlotWords
  import opened ContextStacks
  import opened Machine
  import opened BulkMoves
  import opened InstructionSet

  // ---- CALL ----

  /** A call's own address as a word; from 2^31 on the sign extension covers the tag. */
  function ReturnWord(pc: nat): Word
    requires pc < 0x1_0000_0000
  {
    if pc < 0x8000_0000 then Int(pc) else 0xFFFF_FFFF_0000_0000 + pc
  }

  lemma ReturnWordIs(pc: nat)
    requires pc < 0x1_0000_0000
    ensures ToSmallInt(AsInt32(pc)) == ReturnWord(pc)
  {
    Encodings(AsInt32(pc), 0, 0);
    hide ToSmallInt;
  }

  /** The state in which the callee is looked up. */
  ghost function WithReturn(s: State, a: nat): State
    requires s.pc < 0x1_0000_0000
  {
    s.(slots := SetAt(s.slots, s.base + a, ReturnWord(s.pc)))
  }

  lemma CallExecutes(p: Program, s: State, i: Instr)
    requires i.op == 29
    ensures Execute(p, s, i) == StepCall(s, i)
  {
    hide StepCall, BinaryEffect, Lookup, Get;
  }

  lemma CallLooksUp(s: State, i: Instr)
    requires s.pc < 0x1_0000_0000
    ensures StepCall(s, i) ==
      if s.base + i.a + 1 < |s.slots| then StepEnter(WithReturn(s, i.a), i.a, s.slots[s.base + i.a + 1])
      else Stopped(OutOfBounds)
  {
    hide StepEnter, ToSmallInt, AsInt32, ReturnWord;
    ReturnWordIs(s.pc);
    assert WithReturn(s, i.a) == Put(s, i.a, ToSmallInt(AsInt32(s.pc)));
  }

  lemma FunctionNumber(w: Word)
    requires HasKind(w, Fnew)
    ensures FuncOf(w) == w % 0x1_0000
  {
    hide Tag, Low32;
    LowBits(w, w / 0x1_0000_0000, w % 0x1_0000_0000);
  }

  lemma LowBits(w: nat, q: nat, x: nat)
    requires w == q * 0x1_0000_0000 + x
    ensures w % 0x1_0000 == x % 0x1_0000
  {
    var p, r := QuotientAndRemainder(x, 0x1_0000);
    DivModUnique(x, 0x1_0000, p, r);
    DivModUnique(w, 0x1_0000, q * 0x1_0000 + p, r);
  }

  lemma OneOfTwo(w: Word)
    ensures !(IsFnew(w) && IsBuiltin(w))
  {
    hide Tag;
  }

  /** What entering does for each kind of word: a function by the number in its low 16 bits, which
      must not be zero, a builtin, or nothing that can be called. */
  lemma EnterByKind(s: State, a: nat, w: Word, k: Kind)
    requires HasKind(w, k)
    ensures k == Fnew && w % 0x1_0000 != 0 ==>
      var n := w % 0x1_0000;
      StepEnter(s, a, w) ==
        Running(s.(pc := n, ip := n, base := s.base + a, stack := s.stack + [Context(s.base, s.ip)]))
    ensures k == Fnew && w % 0x1_0000 == 0 ==> StepEnter(s, a, w) == Stopped(Undefined)
    ensures k == Builtin ==> StepEnter(s, a, w) == StepBuiltin(Enter(s, a, 0), a)
    ensures k != Fnew && k != Builtin ==> StepEnter(s, a, w) == Stopped(NoFunction)
  {
    OneKind(w);
    OneOfTwo(w);
    assert IsFnew(w) <==> k == Fnew by { assert HasKind(w, Fnew) <==> IsFnew(w); }
    assert IsBuiltin(w) <==> k == Builtin by { assert HasKind(w, Builtin) <==> IsBuiltin(w); }
    if k == Fnew {
      FunctionNumber(w);
    }
    hide IsFnew, IsBuiltin, HasKind, StepBuiltin, GetFnew;
  }

  lemma CallOutcome(p: Program, s: State, a: Byte, d: nat)
    requires d < 0x1_0000 && Fetches(p, s, Encode(29, a, d))
    ensures Step(p, s) ==
      if s.base + a + 1 < |s.slots| then StepEnter(WithReturn(s, a), a, s.slots[s.base + a + 1])
      else Stopped(OutOfBounds)
  {
    hide Step, Execute, StepEnter, StepCall, WithReturn, Encode;
    Fields(29, a, d);
    Dispatch(p, s, Encode(29, a, d));
    CallExecutes(p, s, Encode(29, a, d));
    CallLooksUp(s, Encode(29, a, d));
  }

  /** CALL on a function: the call's address goes to register a, the caller's base and ip on the
      stack, and control to the function, whose window starts at register a. */
  lemma CallsFunction(p: Program, s: State, a: Byte, d: nat)
    requires d < 0x1_0000 && Fetches(p, s, Encode(29, a, d)) && s.base + a + 1 < |s.slots|
    requires HasKind(s.slots[s.base + a + 1], Fnew)
    ensures var n := s.slots[s.base + a + 1] % 0x1_0000;
      Step(p, s) ==
        if n == 0 then Stopped(Undefined)
        else Running(s.(pc := n, ip := n, base := s.base + a, stack := s.stack + [Context(s.base, s.ip)],
                        slots := SetAt(s.slots, s.base + a, ReturnWord(s.pc))))
  {
    hide Step, StepEnter, HasKind, ReturnWord, Encode;
    CallOutcome(p, s, a, d);
    EnterByKind(WithReturn(s, a), a, s.slots[s.base + a + 1], Fnew);
  }

  /** CALL on anything else: out of bounds, or no function. */
  lemma CallsNothing(p: Program, s: State, a: Byte, d: nat, k: Kind)
    requires d < 0x1_0000 && Fetches(p, s, Encode(29, a, d))
    requires s.base + a + 1 < |s.slots| ==> HasKind(s.slots[s.base + a + 1], k) && k != Fnew && k != Builtin
    ensures Step(p, s) == Stopped(if s.base + a + 1 < |s.slots| then NoFunction else OutOfBounds)
  {
    hide Step, StepEnter, HasKind, ReturnWord, Encode;
    CallOutcome(p, s, a, d);
    if s.base + a + 1 < |s.slots| {
      EnterByKind(WithReturn(s, a), a, s.slots[s.base + a + 1], k);
    }
  }

  // ---- The builtin ----

  lemma PutAt(s: State, i: nat, v: Word, k: nat)
    ensures Slot(Put(s, i, v), k) == if k == s.base + i then v else Slot(s, k)
    ensures Put(s, i, v) == s.(slots := Put(s, i, v).slots)
  {
  }

  lemma {:induction false} ClearAt(s: State, i: nat, n: nat, k: nat)
    ensures Slot(Clear(s, i, n), k) == if s.base + i <= k < s.base + i + n then NIL else Slot(s, k)
    decreases n
  {
    hide Put, Slot;
    if n > 0 {
      PutAt(s, i, NIL, k);
      ClearAt(Put(s, i, NIL), i + 1, n - 1, k);
    }
  }

  lemma SameAt(s: State, t: State, k: nat)
    requires s.slots == t.slots
    ensures Slot(s, k) == Slot(t, k)
  {
  }

  lemma BuiltinMissing(s: State, a: nat)
    requires s.stack != [] && s.base + 2 >= |s.slots|
    ensures StepBuiltin(s, a) == Stopped(OutOfBounds)
  {
  }

  lemma BuiltinSlots(s: State, a: nat)
    requires s.stack != [] && s.base + 2 < |s.slots|
    ensures StepBuiltin(s, a).Running?
    ensures var s1 := s.(printed := s.printed + [s.slots[s.base + 2]]);
      StepBuiltin(s, a).state.slots == Clear(Put(s1, 0, NIL), 2, a + 8).slots
  {
    hide Put, Clear, Unsigned32;
    PutAt(s.(printed := s.printed + [s.slots[s.base + 2]]), 0, NIL, 0);
  }

  /** What a builtin leaves in slot k. */
  lemma BuiltinAt(s: State, a: nat, k: nat)
    requires s.stack != [] && s.base + 2 < |s.slots|
    ensures StepBuiltin(s, a).Running?
    ensures Slot(StepBuiltin(s, a).state, k) ==
      if k == s.base || s.base + 2 <= k < s.base + a + 10 then NIL else Slot(s, k)
  {
    hide Put, Clear, Slot, StepBuiltin;
    BuiltinSlots(s, a);
    var s1 := s.(printed := s.printed + [s.slots[s.base + 2]]);
    var s2 := Put(s1, 0, NIL);
    SameAt(s, s1, k);
    PutAt(s1, 0, NIL, k);
    ClearAt(s2, 2, a + 8, k);
    SameAt(Clear(s2, 2, a + 8), StepBuiltin(s, a).state, k);
  }

  /** Everything else a builtin leaves. */
  lemma BuiltinRest(s: State, a: nat)
    requires s.stack != [] && s.base + 2 < |s.slots| && s.pc < 0xFFFF_FFFF
    ensures StepBuiltin(s, a).Running?
    ensures var t := StepBuiltin(s, a).state;
      var caller := s.stack[|s.stack| - 1];
      t == State(s.pc + 1, caller.ip, caller.baseSlot, t.slots, s.stack[..|s.stack| - 1], s.symbols,
                 s.printed + [s.slots[s.base + 2]])
  {
    hide Put, Clear, Slot, Unsigned32;
    InRange(s.pc + 1);
    var s1 := s.(printed := s.printed + [s.slots[s.base + 2]]);
    PutAt(s1, 0, NIL, 0);
    ClearKeeps(Put(s1, 0, NIL), 2, a + 8);
  }

  /** CALL on a builtin is one balanced step. It prints the argument, two registers above register
      a; it leaves nil in register a and in the callee's registers 2 to a + 9; the word that was
      called, and every other slot, stays. */
  lemma CallsBuiltin(p: Program, s: State, a: Byte, d: nat)
    requires d < 0x1_0000 && Fetches(p, s, Encode(29, a, d)) && s.base + a + 1 < |s.slots|
    requires HasKind(s.slots[s.base + a + 1], Builtin)
    ensures s.base + a + 2 >= |s.slots| ==> Step(p, s) == Stopped(OutOfBounds)
    ensures s.base + a + 2 < |s.slots| ==>
      && Step(p, s).Running?
      && var t := Step(p, s).state;
         && t == s.(pc := s.pc + 1, slots := t.slots, printed := s.printed + [s.slots[s.base + a + 2]])
         && forall k: nat :: Slot(t, k) ==
              if k == s.base + a || s.base + a + 2 <= k < s.base + 2 * a + 10 then 0 else Slot(s, k)
  {
    hide Step, StepEnter, StepBuiltin, HasKind, ReturnWord, SetAt, Slot, Encode;
    CallOutcome(p, s, a, d);
    var s1 := WithReturn(s, a);
    ReturnWritten(s, a);
    EnterByKind(s1, a, s.slots[s.base + a + 1], Builtin);
    var s2 := Enter(s1, a, 0);
    if s.base + a + 2 < |s.slots| {
      BuiltinRest(s2, a);
      assert s2.stack[..|s2.stack| - 1] == s.stack;
      forall k: nat
        ensures Slot(Step(p, s).state, k) ==
          if k == s.base + a || s.base + a + 2 <= k < s.base + 2 * a + 10 then 0 else Slot(s, k)
      {
        BuiltinAt(s2, a, k);
        SameAt(s1, s2, k);
        ReturnAt(s, a, k);
      }
    } else {
      BuiltinMissing(s2, a);
    }
  }

  lemma ReturnWritten(s: State, a: nat)
    requires s.pc < 0x1_0000_0000 && s.base + a + 1 < |s.slots|
    ensures |WithReturn(s, a).slots| == |s.slots|
    ensures s.base + a + 2 < |s.slots| ==> WithReturn(s, a).slots[s.base + a + 2] == s.slots[s.base + a + 2]
  {
  }

  lemma ReturnAt(s: State, a: nat, k: nat)
    requires s.pc < 0x1_0000_0000
    ensures k != s.base + a ==> Slot(WithReturn(s, a), k) == Slot(s, k)
  {
  }

  // ---- RET ----

  lemma RetExecutes(p: Program, s: State, i: Instr)
    requires i.op == 30
    ensures Execute(p, s, i) == StepRet(s, i)
  {
    hide StepRet, BinaryEffect, Lookup, Get;
  }

  lemma SignWraps(x: nat, n: Int32)
    requires x < 0x1_0000_0000 && n == AsInt32(x)
    ensures n == x || n == x - 0x1_0000_0000
  {
  }

  lemma Wraps(n: int, x: nat)
    requires n == x || n == x - 0x1_0000_0000
    ensures Unsigned32(n) == x % 0x1_0000_0000
  {
  }

  /** Control goes behind the call whose address lies in the low 32 bits. */
  lemma ReturnPc(r: Word)
    ensures Unsigned32(GetSmallInt(r) + 1) == (r % 0x1_0000_0000 + 1) % 0x1_0000_0000
  {
    var x := r % 0x1_0000_0000;
    SignWraps(x, AsInt32(x));
    hide Low32, AsInt32, Unsigned32;
    Wraps(GetSmallInt(r) + 1, x + 1);
  }

  /** RET: the result moves to register 0, the slots from register a on go, and base, ip and
      control are the caller's again. */
  lemma Returns(p: Program, s: State, a: Byte, d: nat)
    requires d < 0x1_0000 && Fetches(p, s, Encode(30, a, d))
    ensures Step(p, s) ==
      if s.base >= |s.slots| || s.base + a >= |s.slots| then Stopped(OutOfBounds)
      else if s.stack == [] then Stopped(StackUnderflow)
      else
        var caller := s.stack[|s.stack| - 1];
        Running(s.(pc := (s.slots[s.base] % 0x1_0000_0000 + 1) % 0x1_0000_0000,
                   base := caller.baseSlot, ip := caller.ip, stack := s.stack[..|s.stack| - 1],
                   slots := s.slots[s.base := s.slots[s.base + a]][..s.base + a]))
  {
    hide Step, Execute, Encode, GetSmallInt, Unsigned32;
    Fields(30, a, d);
    Dispatch(p, s, Encode(30, a, d));
    RetExecutes(p, s, Encode(30, a, d));
    if s.base < |s.slots| {
      ReturnPc(s.slots[s.base]);
    }
  }

  // ---- BULKMOV ----

  lemma BulkExecutes(p: Program, s: State, i: Instr)
    requires i.op == 37
    ensures Execute(p, s, i) ==
      match BulkMove(s, i.a, i.b, i.c)
      case None => Stopped(OutOfBounds)
      case Some(t) => Running(Advance(t))
  {
    hide BulkMove, BinaryEffect, Lookup, Get, Advance;
  }

  /** BULKMOV runs out of bounds exactly when a read falls outside the slots; otherwise each target
      register gets the old value of its source, and nothing else changes. */
  lemma MovesBlock(p: Program, s: State, a: Byte, b: Byte, c: Byte)
    requires Fetches(p, s, Instr(37, a, b, c))
    ensures !Readable(s, a, b, c) ==> Step(p, s) == Stopped(OutOfBounds)
    ensures Readable(s, a, b, c) ==>
      && Step(p, s).Running?
      && var t := Step(p, s).state;
         && t == s.(pc := s.pc + 1, slots := t.slots)
         && forall k: nat ::
              if s.base + a <= k < s.base + a + c then Copied(s, t, a, b, k) else Slot(t, k) == Slot(s, k)
  {
    hide Step, Execute, BulkMove, Readable, Copied, Slot, Unsigned32;
    Dispatch(p, s, Instr(37, a, b, c));
    BulkExecutes(p, s, Instr(37, a, b, c));
    BulkShape(s, a, b, c);
    InRange(s.pc + 1);
    if Readable(s, a, b, c) {
      var u, t := BulkMove(s, a, b, c).value, Step(p, s).state;
      forall k: nat
        ensures if s.base + a <= k < s.base + a + c then Copied(s, t, a, b, k) else Slot(t, k) == Slot(s, k)
      {
        BulkPoint(s, a, b, c, k);
        SameAt(u, t, k);
        CopiedSame(s, u, t, a, b, k);
      }
    }
  }

  lemma CopiedSame(s: State, u: State, t: State, a: nat, b: nat, k: nat)
    requires u.slots == t.slots
    ensures Copied(s, u, a, b, k) ==> Copied(s, t, a, b, k)
  {
    hide Source;
  }

  lemma BulkShape(s: State, a: nat, b: nat, n: nat)
    ensures BulkMove(s, a, b, n).Some? <==> Readable(s, a, b, n)
    ensures Readable(s, a, b, n) ==> BulkMove(s, a, b, n).value == s.(slots := BulkMove(s, a, b, n).value.slots)
  {
    hide BulkMove, Readable, Copied, Slot;
    BulkMoveResult(s, a, b, n);
  }

  lemma BulkPoint(s: State, a: nat, b: nat, n: nat, k: nat)
    requires Readable(s, a, b, n)
    ensures BulkMove(s, a, b, n).Some?
    ensures var t := BulkMove(s, a, b, n).value;
      if s.base + a <= k < s.base + a + n then Copied(s, t, a, b, k) else Slot(t, k) == Slot(s, k)
  {
    hide BulkMove, Readable, Copied, Slot;
    BulkMoveResult(s, a, b, n);
  }
}
