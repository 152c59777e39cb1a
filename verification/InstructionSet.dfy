/** The instruction set as a table of facts: for every opcode, by its number and its four bytes, what
    one turn of the dispatch loop does to the machine. */
module InstructionSet {
  import opened Wrappers
  import opened SlotWords
  import opened ContextStacks
  import opened Machine
  import opened BulkMoves
  import Arithmetic

  // ---- Instructions as bytes ----

  /** An instruction with a 16-bit operand, high byte first. */
  function Encode(op: Byte, a: Byte, d: nat): Instr
    requires d < 0x1_0000
  {
    Instr(op, a, d / 0x100, d % 0x100)
  }

  /** An instruction with a signed operand, in two's complement. */
  function EncodeOffset(op: Byte, a: Byte, n: Int16): Instr {
    Encode(op, a, if n >= 0 then n else n + 0x1_0000)
  }

  lemma OperandBytes(op: Byte, a: Byte, d: nat)
    requires d < 0x1_0000
    ensures Encode(op, a, d).D() == d
  {
  }

  lemma OffsetBytes(op: Byte, a: Byte, n: Int16)
    ensures EncodeOffset(op, a, n).Offset() == n
  {
    OperandBytes(op, a, if n >= 0 then n else n + 0x1_0000);
    hide Encode;
  }

  ghost predicate Fetches(p: Program, s: State, i: Instr) {
    s.pc < |p.code| && p.code[s.pc] == i && s.pc < 0xFFFF_FFFF
  }

  /** The state after a write to register `a`. */
  ghost function Wrote(s: State, a: nat, w: Word): State {
    s.(pc := s.pc + 1, slots := SetAt(s.slots, s.base + a, w))
  }

  /** The word of a non-negative integer. */
  function Int(n: nat): Word
    requires n < 0x8000_0000
  {
    0xFFFE_0000_0000_0000 + n
  }

  lemma Dispatch(p: Program, s: State, i: Instr)
    requires Fetches(p, s, i)
    ensures Step(p, s) == Execute(p, s, i)
  {
    hide Execute;
  }

  lemma RegisterOutcome(p: Program, s: State, i: Instr, e: Effect)
    requires Fetches(p, s, i) && RegisterEffect(p, s, i) == Some(e)
    ensures Step(p, s) ==
      match e
      case Halt(why) => Stopped(why)
      case Keep => Running(s.(pc := s.pc + 1))
      case Write(w) => Running(Wrote(s, i.a, w))
  {
    hide RegisterEffect, SetAt, Unsigned32, StepCall, StepRet, StepBranch, StepNsset, BulkMove;
    Arithmetic.Unwrapped(s.pc + 1);
  }

  // ---- Constants ----

  lemma ConstantOutcome(p: Program, s: State, i: Instr, e: Effect)
    requires Fetches(p, s, i) && ConstEffect(p, i) == Some(e)
    ensures Step(p, s) ==
      match e
      case Halt(why) => Stopped(why)
      case Keep => Running(s.(pc := s.pc + 1))
      case Write(w) => Running(Wrote(s, i.a, w))
  {
    hide ConstEffect, Wrote, Fetches, Step;
    RegisterOutcome(p, s, i, e);
  }

  /** CSTR and CSHORT load their operand as an integer. */
  lemma LoadsNumber(p: Program, s: State, a: Byte, d: nat)
    requires d < 0x1_0000 && (Fetches(p, s, Encode(0, a, d)) || Fetches(p, s, Encode(7, a, d)))
    ensures Step(p, s) == Running(Wrote(s, a, Int(d)))
  {
    hide Fetches, Wrote, Step, ToSmallInt, Encode, Instr.D;
    Encodings(d, 0, 0);
    var op := if Fetches(p, s, Encode(0, a, d)) then 0 else 7;
    OperandBytes(op, a, d);
    Fields(op, a, d);
    ConstantOutcome(p, s, Encode(op, a, d), Write(ToSmallInt(d)));
  }

  lemma Fields(op: Byte, a: Byte, d: nat)
    requires d < 0x1_0000
    ensures Encode(op, a, d).op == op && Encode(op, a, d).a == a
  {
  }

  /** CKEY loads the address of a constant string. */
  lemma LoadsKey(p: Program, s: State, a: Byte, d: nat)
    requires d < 0x1_0000 && Fetches(p, s, Encode(1, a, d))
    ensures Step(p, s) == if d < |p.cstrAddress| then Running(Wrote(s, a, p.cstrAddress[d])) else Stopped(Undefined)
  {
    hide Fetches, Wrote, Step, Encode, Instr.D;
    OperandBytes(1, a, d);
    Fields(1, a, d);
    ConstantOutcome(p, s, Encode(1, a, d), if d < |p.cstrAddress| then Write(p.cstrAddress[d]) else Halt(Undefined));
  }

  /** CTYPE loads a type number. */
  lemma LoadsType(p: Program, s: State, a: Byte, d: nat)
    requires d < 0x1_0000 && Fetches(p, s, Encode(4, a, d))
    ensures Step(p, s) == Running(Wrote(s, a, 0xFFFC_0000_0000_0000 + d))
  {
    hide Fetches, Wrote, Step, ToType, Encode, Instr.D;
    Encodings(0, 0, d);
    OperandBytes(4, a, d);
    Fields(4, a, d);
    ConstantOutcome(p, s, Encode(4, a, d), Write(ToType(d)));
  }

  /** CBOOL loads false for zero and true for any other operand. */
  lemma LoadsBool(p: Program, s: State, a: Byte, d: nat)
    requires d < 0x1_0000 && Fetches(p, s, Encode(5, a, d))
    ensures Step(p, s) == Running(Wrote(s, a, 0xFFFD_0000_0000_0000 + if d == 0 then 0 else 1))
  {
    hide Fetches, Wrote, Step, ToBool, Encode, Instr.D;
    Encodings(0, 0, 0);
    OperandBytes(5, a, d);
    Fields(5, a, d);
    ConstantOutcome(p, s, Encode(5, a, d), Write(ToBool(d != 0)));
  }

  /** CNIL loads nil, whatever its operand. */
  lemma LoadsNil(p: Program, s: State, a: Byte, d: nat)
    requires d < 0x1_0000 && Fetches(p, s, Encode(6, a, d))
    ensures Step(p, s) == Running(Wrote(s, a, 0))
  {
    hide Fetches, Wrote, Step, Encode;
    Fields(6, a, d);
    ConstantOutcome(p, s, Encode(6, a, d), Write(NIL));
  }

  /** FNEW loads the address of a function, sign-extended when it is negative. */
  lemma LoadsFunction(p: Program, s: State, a: Byte, n: Int16)
    requires Fetches(p, s, EncodeOffset(32, a, n))
    ensures Step(p, s) ==
      Running(Wrote(s, a, if n >= 0 then 0xFFFB_0000_0000_0000 + n else 0x1_0000_0000_0000_0000 + n))
  {
    hide Fetches, Wrote, Step, ToFnew, Encode, Instr.Offset;
    Encodings(0, n, 0);
    OffsetBytes(32, a, n);
    Fields(32, a, if n >= 0 then n else n + 0x1_0000);
    ConstantOutcome(p, s, EncodeOffset(32, a, n), Write(ToFnew(n)));
  }

  // ---- Moves and globals ----

  lemma MoveEffect(p: Program, s: State, i: Instr)
    requires i.op == 23
    ensures RegisterEffect(p, s, i) ==
      Some(if s.base + i.D() < |s.slots| then Write(s.slots[s.base + i.D()]) else Halt(OutOfBounds))
  {
    hide BinaryEffect, Lookup, Instr.D;
  }

  /** MOV copies register d of the window, a 16-bit index, to register a. */
  lemma Moves(p: Program, s: State, a: Byte, d: nat)
    requires d < 0x1_0000 && Fetches(p, s, Encode(23, a, d))
    ensures Step(p, s) ==
      if s.base + d < |s.slots| then Running(Wrote(s, a, s.slots[s.base + d])) else Stopped(OutOfBounds)
  {
    hide Fetches, Wrote, Step, Encode, Instr.D, RegisterEffect;
    OperandBytes(23, a, d);
    Fields(23, a, d);
    MoveEffect(p, s, Encode(23, a, d));
    RegisterOutcome(p, s, Encode(23, a, d),
                    if s.base + d < |s.slots| then Write(s.slots[s.base + d]) else Halt(OutOfBounds));
  }

  lemma GlobalEffect(p: Program, s: State, i: Instr)
    requires i.op == 10
    ensures RegisterEffect(p, s, i) ==
      Some(if i.D() < |p.cstr| then Write(Lookup(s.symbols, p.cstr[i.D()])) else Halt(Undefined))
  {
    hide BinaryEffect, Lookup, Instr.D, Get;
  }

  /** NSGET reads the global that its operand names: what was stored under the name, or nil. */
  lemma ReadsGlobal(p: Program, s: State, a: Byte, d: nat)
    requires d < 0x1_0000 && d < |p.cstr| && Fetches(p, s, Encode(10, a, d))
    ensures Step(p, s) ==
      Running(Wrote(s, a, if p.cstr[d] in s.symbols then s.symbols[p.cstr[d]] else 0))
  {
    hide Fetches, Wrote, Step, Encode, Instr.D, RegisterEffect;
    OperandBytes(10, a, d);
    Fields(10, a, d);
    GlobalEffect(p, s, Encode(10, a, d));
    RegisterOutcome(p, s, Encode(10, a, d), Write(Lookup(s.symbols, p.cstr[d])));
  }

  lemma NssetExecutes(p: Program, s: State, i: Instr)
    requires i.op == 9
    ensures Execute(p, s, i) == StepNsset(p, s, i)
  {
    hide StepNsset, BinaryEffect, Lookup, Get;
  }

  /** NSSET stores register a under the name, and changes no other name and no slot. */
  lemma StoresGlobal(p: Program, s: State, a: Byte, d: nat)
    requires d < 0x1_0000 && d < |p.cstr| && Fetches(p, s, Encode(9, a, d))
    ensures Step(p, s) ==
      if s.base + a < |s.slots|
      then Running(s.(pc := s.pc + 1, symbols := s.symbols[p.cstr[d] := s.slots[s.base + a]]))
      else Stopped(OutOfBounds)
  {
    var i := Encode(9, a, d);
    OperandBytes(9, a, d);
    Fields(9, a, d);
    Dispatch(p, s, i);
    NssetExecutes(p, s, i);
    hide Step, Execute, Encode, Instr.D, Unsigned32;
    Arithmetic.Unwrapped(s.pc + 1);
  }

  // ---- Jumps ----

  lemma JumpExecutes(p: Program, s: State, i: Instr)
    requires i.op == 26
    ensures Execute(p, s, i) == Running(s.(pc := Unsigned32(s.pc + i.Offset())))
  {
    hide BinaryEffect, Lookup, Get, Unsigned32, Instr.Offset;
  }

  lemma InRange(n: int)
    requires 0 <= n < 0x1_0000_0000
    ensures Unsigned32(n) == n
  {
  }

  /** JUMP goes forward or backward by its signed offset. */
  lemma Jumps(p: Program, s: State, a: Byte, n: Int16)
    requires Fetches(p, s, EncodeOffset(26, a, n)) && 0 <= s.pc + n < 0x1_0000_0000
    ensures Step(p, s) == Running(s.(pc := s.pc + n))
  {
    var i := EncodeOffset(26, a, n);
    OffsetBytes(26, a, n);
    Dispatch(p, s, i);
    JumpExecutes(p, s, i);
    hide Step, Execute, Encode, Instr.Offset, Unsigned32;
    InRange(s.pc + n);
  }

  lemma BranchExecutes(p: Program, s: State, i: Instr)
    requires i.op == 27 || i.op == 28
    ensures Execute(p, s, i) == StepBranch(s, i)
  {
    hide StepBranch, BinaryEffect, Lookup, Get;
  }

  lemma BranchMissing(s: State, i: Instr)
    requires s.base + i.a >= |s.slots|
    ensures StepBranch(s, i) == Stopped(OutOfBounds)
  {
    hide Instr.Offset, IsFalsy, Unsigned32;
  }

  lemma BranchGoes(s: State, i: Instr, n: Int16)
    requires (i.op == 27 || i.op == 28) && i.Offset() == n
    requires 0 <= s.pc + n < 0x1_0000_0000 && s.pc < 0xFFFF_FFFF
    ensures StepBranch(s, i) ==
      if s.base + i.a < |s.slots|
      then Running(s.(pc := if Falsy(s.slots[s.base + i.a]) == (i.op == 27) then s.pc + n else s.pc + 1))
      else Stopped(OutOfBounds)
  {
    hide StepBranch, Unsigned32, IsFalsy, Falsy, Instr.Offset;
    if s.base + i.a < |s.slots| {
      FalsyMeans(s.slots[s.base + i.a]);
      Arithmetic.BranchOutcome(s, i);
      InRange(s.pc + n);
      InRange(s.pc + 1);
    } else {
      BranchMissing(s, i);
    }
  }

  /** JUMPF (27) jumps on a falsy word, JUMPT (28) on any other. */
  lemma Branches(p: Program, s: State, op: Byte, a: Byte, n: Int16)
    requires (op == 27 || op == 28) && Fetches(p, s, EncodeOffset(op, a, n)) && 0 <= s.pc + n < 0x1_0000_0000
    ensures Step(p, s) ==
      if s.base + a < |s.slots|
      then Running(s.(pc := if Falsy(s.slots[s.base + a]) == (op == 27) then s.pc + n else s.pc + 1))
      else Stopped(OutOfBounds)
  {
    hide Step, Execute, StepBranch, Encode, Instr.Offset, Falsy;
    var i := EncodeOffset(op, a, n);
    OffsetBytes(op, a, n);
    Fields(op, a, if n >= 0 then n else n + 0x1_0000);
    Dispatch(p, s, i);
    BranchExecutes(p, s, i);
    BranchGoes(s, i, n);
  }

  // ---- Opcodes that do nothing, and the end ----

  /** The opcodes that are not implemented or only advance: CINT, CFLOAT, SETF, POWVV, the
      comparisons other than ISEQ, NOT, NEG, APPLY, closures, arrays, FUNCF and FUNCV, BREAK, DROP,
      TRANC, and every unknown one. */
  predicate Skipped(op: Byte) {
    op in {2, 3, 8, 15, 17, 18, 19, 20, 22, 24, 25, 31, 33, 34, 35, 38, 39, 40, 41, 42, 46, 48, 49} || op >= 50
  }

  lemma PlainExecutes(p: Program, s: State, i: Instr)
    requires Skipped(i.op) || i.op == 36 || i.op == 47
    ensures Execute(p, s, i) ==
      if i.op == 36 then Running(s) else if i.op == 47 then Stopped(EndReached) else Running(Advance(s))
  {
    hide Advance, Get, BulkMove;
  }

  lemma ObjectsExecute(p: Program, s: State, i: Instr)
    ensures i.op in {43, 44, 45} ==> Execute(p, s, i) == Stopped(Unmodelled)
  {
    hide Advance, Get, BulkMove, StepCall, StepRet, StepBranch, StepNsset, ApplyEffect, BinaryEffect;
  }

  /** They only move on; LOOP (36) does not even do that, and EXIT (47) ends the run. */
  lemma Skips(p: Program, s: State, i: Instr)
    requires Fetches(p, s, i)
    ensures Skipped(i.op) ==> Step(p, s) == Running(s.(pc := s.pc + 1))
    ensures i.op == 36 ==> Step(p, s) == Running(s)
    ensures i.op == 47 ==> Step(p, s) == Stopped(EndReached)
    ensures i.op in {43, 44, 45} ==> Step(p, s) == Stopped(Unmodelled)
  {
    hide Step, Execute, Skipped, Unsigned32;
    Dispatch(p, s, i);
    ObjectsExecute(p, s, i);
    InRange(s.pc + 1);
    if Skipped(i.op) || i.op == 36 || i.op == 47 {
      PlainExecutes(p, s, i);
      OnlyOne(i.op);
    }
  }

  lemma OnlyOne(op: Byte)
    ensures Skipped(op) ==> op != 36 && op != 47
  {
  }

  // ---- Arithmetic ----

  lemma BinaryRegister(p: Program, s: State, i: Instr, b: Word, c: Word)
    requires IsBinary(i.op)
    requires s.base + i.b < |s.slots| && s.slots[s.base + i.b] == b
    requires s.base + i.c < |s.slots| && s.slots[s.base + i.c] == c
    ensures RegisterEffect(p, s, i) == Some(BinaryEffect(i.op, b, c))
  {
    hide BinaryEffect, Lookup;
  }

  lemma BinaryMissing(p: Program, s: State, i: Instr)
    requires IsBinary(i.op) && (s.base + i.b >= |s.slots| || s.base + i.c >= |s.slots|)
    ensures RegisterEffect(p, s, i) == Some(Halt(OutOfBounds))
  {
    hide BinaryEffect, Lookup;
  }

  /** ADDVV (11), SUBVV (12), MULVV (13), DIVVV (14), MODVV (16) and ISEQ (21) on the words of two
      non-negative integers; None is undefined. */
  ghost function Computed(op: Byte, x: nat, y: nat): Option<Word>
    requires x < 0x8000_0000 && y < 0x8000_0000
  {
    if op == 11 then if x + y < 0x8000_0000 then Some(Int(x + y)) else None
    else if op == 12 then Some(if x >= y then Int(x - y) else 0x1_0000_0000_0000_0000 + x - y)
    else if op == 13 then if 0 <= x * y < 0x8000_0000 then Some(Int(x * y)) else None
    else if op == 14 then if y > 0 then Some(Int(Quotient(x, y))) else None
    else if op == 16 then if y > 0 then Some(Int(x - Quotient(x, y) * y)) else None
    else Some(0xFFFD_0000_0000_0000 + if x == y then 1 else 0)
  }

  /** The largest whole number whose product with y does not exceed x. */
  ghost function Quotient(x: nat, y: nat): (q: nat)
    requires y > 0
    ensures q * y <= x < q * y + y && q <= x
  {
    Arithmetic.QuotientFits(x, y);
    x / y
  }

  lemma ComputedEffect(op: Byte, x: nat, y: nat)
    requires x < 0x8000_0000 && y < 0x8000_0000 && op in {11, 12, 13, 14, 16, 21}
    ensures BinaryEffect(op, Int(x), Int(y)) ==
      match Computed(op, x, y) case None => Halt(Undefined) case Some(w) => Write(w)
  {
    IntIsWord(x);
    IntIsWord(y);
    hide ToSmallInt, BinaryEffect, Int, Computed, ArithResult;
    if op == 21 {
      Arithmetic.IseqResult(x, y);
      ComputedIseq(x, y);
    } else {
      Arithmetic.OnIntegers(op, x, y);
      ComputedArith(op, x, y);
    }
  }

  lemma IntIsWord(n: nat)
    requires n < 0x8000_0000
    ensures ToSmallInt(n) == Int(n)
  {
    Encodings(n, 0, 0);
  }

  lemma ComputedIseq(x: nat, y: nat)
    requires x < 0x8000_0000 && y < 0x8000_0000
    ensures Computed(21, x, y) == Some(ToBool(x == y))
  {
    Encodings(0, 0, 0);
    hide ToBool;
  }

  lemma ComputedArith(op: Byte, x: nat, y: nat)
    requires x < 0x8000_0000 && y < 0x8000_0000 && op in {11, 12, 13, 14, 16}
    ensures Computed(op, x, y) ==
      match ArithResult(op, x, y) case None => None case Some(n) => Some(ToSmallInt(n))
  {
    hide ToSmallInt, Quotient;
    if op == 11 || op == 12 {
      ComputedSum(op, x, y);
    } else if op == 13 {
      Arithmetic.ProductResult(x, y);
      if x * y < 0x8000_0000 {
        IntIsWord(x * y);
      }
    } else if y > 0 {
      var q := Quotient(x, y);
      Arithmetic.QuotientOfParts(x, y, q);
      IntIsWord(q);
      IntIsWord(x - q * y);
    }
  }

  lemma ComputedSum(op: Byte, x: nat, y: nat)
    requires x < 0x8000_0000 && y < 0x8000_0000 && op in {11, 12}
    ensures Computed(op, x, y) ==
      match ArithResult(op, x, y) case None => None case Some(n) => Some(ToSmallInt(n))
  {
    if -0x8000_0000 <= (if op == 11 then x + y else x - y) < 0x8000_0000 {
      Encodings(if op == 11 then x + y else x - y, 0, 0);
    }
    hide ToSmallInt;
  }

  /** Arithmetic on integers, by opcode number. */
  lemma Computes(p: Program, s: State, op: Byte, a: Byte, b: Byte, c: Byte, x: nat, y: nat)
    requires op in {11, 12, 13, 14, 16, 21} && Fetches(p, s, Instr(op, a, b, c))
    requires x < 0x8000_0000 && s.base + b < |s.slots| && s.slots[s.base + b] == Int(x)
    requires y < 0x8000_0000 && s.base + c < |s.slots| && s.slots[s.base + c] == Int(y)
    ensures Step(p, s) ==
      match Computed(op, x, y) case None => Stopped(Undefined) case Some(w) => Running(Wrote(s, a, w))
  {
    hide Step, Fetches, Wrote, BinaryEffect, RegisterEffect, Computed, Int;
    var i := Instr(op, a, b, c);
    BinaryRegister(p, s, i, Int(x), Int(y));
    ComputedEffect(op, x, y);
    RegisterOutcome(p, s, i, BinaryEffect(op, Int(x), Int(y)));
  }

  /** On other operands: a double among numbers is undefined; ADDVV, SUBVV, MULVV and DIVVV leave
      their target alone, and MODVV and ISEQ report a type error. */
  ghost function OnOthers(op: Byte, b: Kind, c: Kind): Effect {
    if op == 16 then Halt(TypeError)
    else if op == 21 then Halt(if b == Double && c == Double then Undefined else TypeError)
    else if b in {SmallInt, Double} && c in {SmallInt, Double} then Halt(Undefined)
    else Keep
  }

  lemma OthersEffect(op: Byte, b: Word, c: Word, kb: Kind, kc: Kind)
    requires op in {11, 12, 13, 14, 16, 21} && HasKind(b, kb) && HasKind(c, kc)
    requires kb != SmallInt || kc != SmallInt
    ensures BinaryEffect(op, b, c) == OnOthers(op, kb, kc)
  {
    OneKind(b);
    OneKind(c);
    assert IsSmallInt(b) <==> kb == SmallInt by { assert HasKind(b, SmallInt) <==> IsSmallInt(b); }
    assert IsSmallInt(c) <==> kc == SmallInt by { assert HasKind(c, SmallInt) <==> IsSmallInt(c); }
    assert IsDouble(b) <==> kb == Double by { assert HasKind(b, Double) <==> IsDouble(b); }
    assert IsDouble(c) <==> kc == Double by { assert HasKind(c, Double) <==> IsDouble(c); }
    hide IsSmallInt, IsDouble, HasKind, ArithResult;
  }

  lemma MixesKinds(p: Program, s: State, op: Byte, a: Byte, b: Byte, c: Byte, kb: Kind, kc: Kind)
    requires op in {11, 12, 13, 14, 16, 21} && Fetches(p, s, Instr(op, a, b, c))
    requires s.base + b < |s.slots| && HasKind(s.slots[s.base + b], kb)
    requires s.base + c < |s.slots| && HasKind(s.slots[s.base + c], kc)
    requires kb != SmallInt || kc != SmallInt
    ensures Step(p, s) ==
      match OnOthers(op, kb, kc)
      case Halt(why) => Stopped(why)
      case _ => Running(s.(pc := s.pc + 1))
  {
    hide Step, Fetches, BinaryEffect, RegisterEffect, HasKind;
    var i := Instr(op, a, b, c);
    BinaryRegister(p, s, i, s.slots[s.base + b], s.slots[s.base + c]);
    OthersEffect(op, s.slots[s.base + b], s.slots[s.base + c], kb, kc);
    RegisterOutcome(p, s, i, OnOthers(op, kb, kc));
  }

  lemma MissesOperand(p: Program, s: State, op: Byte, a: Byte, b: Byte, c: Byte)
    requires op in {11, 12, 13, 14, 16, 21} && Fetches(p, s, Instr(op, a, b, c))
    requires s.base + b >= |s.slots| || s.base + c >= |s.slots|
    ensures Step(p, s) == Stopped(OutOfBounds)
  {
    hide Step, Fetches, BinaryEffect, RegisterEffect;
    var i := Instr(op, a, b, c);
    BinaryMissing(p, s, i);
    RegisterOutcome(p, s, i, Halt(OutOfBounds));
  }
}
