/** What one instruction does, on a machine whose slots and context stack are plain unbounded
    sequences: the specification that the virtual machine with its resizing arrays refines. */
module Machine {
  import opened Wrappers
  import opened SlotWords
  import opened ContextStacks

  type Byte = b: nat | b < 0x100

  /** Four bytes in file order; operand `d` is the big-endian value of the last two. */
  datatype Instr = Instr(op: Byte, a: Byte, b: Byte, c: Byte) {
    function D(): (d: nat)
      ensures d < 0x1_0000
    {
      b * 0x100 + c
    }

    function Offset(): Int16 {
      AsInt16(D())
    }
  }

  /** The sections the interpreter reads: code, constant strings, and the addresses at which the
      constant strings lie. */
  datatype Program = Program(code: seq<Instr>, cstr: seq<string>, cstrAddress: seq<Word>)

  datatype State = State(
    pc: nat, ip: nat, base: nat,
    slots: seq<Word>, stack: seq<Context>,
    symbols: map<string, Word>, printed: seq<Word>)

  /** Why a run ends. `Undefined` covers what C leaves undefined, such as running off the code,
      dividing by zero, integer overflow, or decoding a double, which dereferences its bits. */
  datatype Stop = EndReached | OutOfBounds | StackUnderflow | NoFunction | TypeError | Undefined | Unmodelled

  datatype Outcome = Running(state: State) | Stopped(why: Stop)

  const CSTR := 0
  const CKEY := 1
  const CTYPE := 4
  const CBOOL := 5
  const CNIL := 6
  const CSHORT := 7
  const NSSET := 9
  const NSGET := 10
  const ADDVV := 11
  const SUBVV := 12
  const MULVV := 13
  const DIVVV := 14
  const MODVV := 16
  const ISEQ := 21
  const MOV := 23
  const JUMP := 26
  const JUMPF := 27
  const JUMPT := 28
  const CALL := 29
  const RET := 30
  const FNEW := 32
  const LOOP := 36
  const BULKMOV := 37
  const ALLOC := 43
  const SETFIELD := 44
  const GETFIELD := 45
  const EXIT := 47

  const BUILTIN_PRINTLN: Word := 0xFFFA_0000_0000_0000

  // ---- Registers ----

  ghost function Get(s: State, i: nat): Option<Word> {
    if s.base + i < |s.slots| then Some(s.slots[s.base + i]) else None
  }

  ghost function Put(s: State, i: nat, v: Word): State {
    s.(slots := SetAt(s.slots, s.base + i, v))
  }

  /** A slot of `s`, reading nil beyond the end. */
  ghost function Slot(s: State, k: nat): Word {
    if k < |s.slots| then s.slots[k] else NIL
  }

  /** Program counters are 32-bit unsigned. */
  function Unsigned32(n: int): (u: nat)
    ensures u < 0x1_0000_0000
  {
    n % 0x1_0000_0000
  }

  ghost function Advance(s: State): State {
    s.(pc := Unsigned32(s.pc + 1))
  }

  // ---- Instructions that compute one register ----

  datatype Effect = Halt(why: Stop) | Keep | Write(w: Word)

  /** C's division truncates toward zero. */
  function TruncDiv(x: int, y: int): int
    requires y != 0
  {
    if x >= 0 then x / y else -((-x) / y)
  }

  predicate IsArith(op: Byte) {
    op == ADDVV || op == SUBVV || op == MULVV || op == DIVVV || op == MODVV
  }

  /** Integer arithmetic on int32; None where C leaves the result undefined. */
  function ArithResult(op: Byte, x: Int32, y: Int32): Option<Int32>
    requires IsArith(op)
  {
    if (op == DIVVV || op == MODVV) && y == 0 then None
    else
      var r := if op == ADDVV then x + y else if op == SUBVV then x - y
        else if op == MULVV then x * y else TruncDiv(x, y);
      if !(-0x8000_0000 <= r < 0x8000_0000) then None
      else if op == MODVV then ModResult(x, y) else Some(r)
  }

  function ModResult(x: Int32, y: Int32): Option<Int32>
    requires y != 0
  {
    var r := x - TruncDiv(x, y) * y;
    if -0x8000_0000 <= r < 0x8000_0000 then Some(r) else None
  }

  /** Two operands: small integers are computed, doubles are undefined, and any other mixture
      leaves the target register as it was. */
  function ArithEffect(op: Byte, b: Word, c: Word): Effect
    requires IsArith(op)
  {
    if IsSmallInt(b) && IsSmallInt(c) then
      match ArithResult(op, GetSmallInt(b), GetSmallInt(c))
      case None => Halt(Undefined)
      case Some(n) => Write(ToSmallInt(n))
    else if op == MODVV then Halt(TypeError)
    else if (IsDouble(b) && (IsDouble(c) || IsSmallInt(c))) || (IsSmallInt(b) && IsDouble(c)) then Halt(Undefined)
    else Keep
  }

  function IseqEffect(b: Word, c: Word): Effect {
    if IsSmallInt(b) && IsSmallInt(c) then Write(ToBool(GetSmallInt(b) == GetSmallInt(c)))
    else if IsDouble(b) && IsDouble(c) then Halt(Undefined)
    else Halt(TypeError)
  }

  /** The instructions that load a constant into register `a`. */
  function ConstEffect(p: Program, i: Instr): Option<Effect> {
    if i.op == CSTR || i.op == CSHORT then Some(Write(ToSmallInt(i.D())))
    else if i.op == CKEY then
      Some(if i.D() < |p.cstrAddress| then Write(p.cstrAddress[i.D()]) else Halt(Undefined))
    else if i.op == CTYPE then Some(Write(ToType(i.D())))
    else if i.op == CBOOL then Some(Write(ToBool(i.D() != 0)))
    else if i.op == CNIL then Some(Write(NIL))
    else if i.op == FNEW then Some(Write(ToFnew(i.Offset())))
    else None
  }

  predicate IsBinary(op: Byte) {
    IsArith(op) || op == ISEQ
  }

  function BinaryEffect(op: Byte, b: Word, c: Word): Effect
    requires IsBinary(op)
  {
    if op == ISEQ then IseqEffect(b, c) else ArithEffect(op, b, c)
  }

  function Lookup(symbols: map<string, Word>, key: string): Word {
    if key in symbols then symbols[key] else NIL
  }

  /** What a register instruction wants to write; None for every other instruction. */
  ghost function RegisterEffect(p: Program, s: State, i: Instr): Option<Effect> {
    if ConstEffect(p, i).Some? then ConstEffect(p, i)
    else if IsBinary(i.op) then
      Some(match (Get(s, i.b), Get(s, i.c))
           case (Some(b), Some(c)) => BinaryEffect(i.op, b, c)
           case _ => Halt(OutOfBounds))
    else if i.op == MOV then
      Some(match Get(s, i.D()) case Some(w) => Write(w) case None => Halt(OutOfBounds))
    else if i.op == NSGET then
      Some(if i.D() < |p.cstr| then Write(Lookup(s.symbols, p.cstr[i.D()])) else Halt(Undefined))
    else None
  }

  ghost function ApplyEffect(s: State, a: nat, e: Effect): Outcome {
    match e
    case Halt(why) => Stopped(why)
    case Keep => Running(Advance(s))
    case Write(w) => Running(Advance(Put(s, a, w)))
  }

  // ---- Other instructions ----

  ghost function StepNsset(p: Program, s: State, i: Instr): Outcome {
    if i.D() >= |p.cstr| then Stopped(Undefined)
    else
      match Get(s, i.a)
      case None => Stopped(OutOfBounds)
      case Some(w) => Running(Advance(s.(symbols := s.symbols[p.cstr[i.D()] := w])))
  }

  ghost function StepBranch(s: State, i: Instr): Outcome {
    match Get(s, i.a)
    case None => Stopped(OutOfBounds)
    case Some(w) =>
      if IsFalsy(w) == (i.op == JUMPF) then Running(s.(pc := Unsigned32(s.pc + i.Offset())))
      else Running(Advance(s))
  }

  /** `n` moves, one register at a time, each one seeing the writes of those before it. */
  ghost function BulkMove(s: State, a: nat, b: nat, n: nat): Option<State>
    decreases n
  {
    if n == 0 then Some(s)
    else
      match Get(s, b)
      case None => None
      case Some(w) => BulkMove(Put(s, a, w), a + 1, b + 1, n - 1)
  }

  /** Registers `i` to `i + n - 1` set to nil. */
  ghost function Clear(s: State, i: nat, n: nat): State
    decreases n
  {
    if n == 0 then s else Clear(Put(s, i, NIL), i + 1, n - 1)
  }

  /** The window slides up by `localbase`; the caller's base and ip are saved. */
  ghost function Enter(s: State, localbase: nat, func: nat): State {
    s.(stack := s.stack + [Context(s.base, s.ip)], base := s.base + localbase, ip := func)
  }

  ghost function Leave(s: State): State
    requires s.stack != []
  {
    var caller := s.stack[|s.stack| - 1];
    s.(stack := s.stack[..|s.stack| - 1], base := caller.baseSlot, ip := caller.ip)
  }

  /** A builtin call runs println inside the new window, clears the callee's registers, and comes
      straight back. */
  ghost function StepBuiltin(s: State, localbase: nat): Outcome
    requires s.stack != []
  {
    match Get(s, 2)
    case None => Stopped(OutOfBounds)
    case Some(w) =>
      Running(Advance(Leave(Cleared(Put(s.(printed := s.printed + [w]), 0, NIL), localbase))))
  }

  ghost function Cleared(s: State, localbase: nat): (r: State)
    ensures r.stack == s.stack && r.base == s.base && r.ip == s.ip && r.pc == s.pc
    ensures r.symbols == s.symbols && r.printed == s.printed
  {
    ClearKeeps(s, 2, localbase + 8);
    Clear(s, 2, localbase + 8)
  }

  lemma ClearKeeps(s: State, i: nat, n: nat)
    ensures Clear(s, i, n) == s.(slots := Clear(s, i, n).slots)
    decreases n
  {
  }

  /** The function number that a callable word holds: 0 for a builtin. */
  function FuncOf(f: Word): nat {
    if IsFnew(f) then GetFnew(f) % 0x1_0000 else 0
  }

  ghost function StepCall(s: State, i: Instr): Outcome {
    var s1 := Put(s, i.a, ToSmallInt(AsInt32(s.pc)));
    match Get(s1, i.a + 1)
    case None => Stopped(OutOfBounds)
    case Some(f) => StepEnter(s1, i.a, f)
  }

  /** The rest of a call, once the callee is known. */
  ghost function StepEnter(s: State, localbase: nat, f: Word): Outcome {
    if !IsFnew(f) && !IsBuiltin(f) then Stopped(NoFunction)
    else
      var t := Enter(s, localbase, FuncOf(f));
      if FuncOf(f) != 0 then Running(t.(pc := FuncOf(f)))
      else if IsBuiltin(f) then StepBuiltin(t, localbase)
      else Stopped(Undefined)
  }

  ghost function StepRet(s: State, i: Instr): Outcome {
    match (Get(s, 0), Get(s, i.a))
    case (Some(r), Some(v)) => StepLeave(Put(s, 0, v), i.a, r)
    case _ => Stopped(OutOfBounds)
  }

  /** The rest of a return: the slots from register `a` on go, the caller's context comes back, and
      control goes behind the call at `r`. */
  ghost function StepLeave(s: State, a: nat, r: Word): Outcome
    requires s.base + a <= |s.slots|
  {
    if s.stack == [] then Stopped(StackUnderflow)
    else Running(Leave(s.(slots := s.slots[..s.base + a])).(pc := Unsigned32(GetSmallInt(r) + 1)))
  }

  /** One turn of the dispatch loop. */
  ghost function Step(p: Program, s: State): Outcome {
    if s.pc >= |p.code| then Stopped(Undefined) else Execute(p, s, p.code[s.pc])
  }

  ghost function Execute(p: Program, s: State, i: Instr): Outcome {
    if RegisterEffect(p, s, i).Some? then ApplyEffect(s, i.a, RegisterEffect(p, s, i).value)
    else if i.op == CALL then StepCall(s, i)
    else if i.op == RET then StepRet(s, i)
    else if i.op == JUMP then Running(s.(pc := Unsigned32(s.pc + i.Offset())))
    else if i.op == JUMPF || i.op == JUMPT then StepBranch(s, i)
    else if i.op == NSSET then StepNsset(p, s, i)
    else if i.op == BULKMOV then
      match BulkMove(s, i.a, i.b, i.c)
      case None => Stopped(OutOfBounds)
      case Some(t) => Running(Advance(t))
    else if i.op == EXIT then Stopped(EndReached)
    else if i.op == LOOP then Running(s)
    else if i.op == ALLOC || i.op == SETFIELD || i.op == GETFIELD then Stopped(Unmodelled)
    else Running(Advance(s))
  }

  /** vm_init: everything zero, and the one builtin in the symbol table. */
  ghost const INITIAL := State(0, 0, 0, [], [], map["println" := BUILTIN_PRINTLN], [])

  /** `n` turns of the loop. */
  ghost function Run(p: Program, s: State, n: nat): Outcome
    decreases n
  {
    if n == 0 then Running(s)
    else
      match Step(p, s)
      case Stopped(why) => Stopped(why)
      case Running(t) => Run(p, t, n - 1)
  }
}
