/** Slots that a return gives up are handed out again clean. */
module SlotReuse {
  import opened Wrappers
  import opened SlotWords
  import opened Machine
  import opened CallDiscipline

  datatype RegWrite = RegWrite(index: nat, value: Word)

  /** Register writes, first one first. */
  ghost function PutAll(s: State, ws: seq<RegWrite>): State
    decreases |ws|
  {
    if ws == [] then s
    else
      var w := ws[|ws| - 1];
      Put(PutAll(s, ws[..|ws| - 1]), w.index, w.value)
  }

  ghost function LastWrite(ws: seq<RegWrite>, index: nat): Option<Word>
    decreases |ws|
  {
    if ws == [] then None
    else if ws[|ws| - 1].index == index then Some(ws[|ws| - 1].value)
    else LastWrite(ws[..|ws| - 1], index)
  }

  /** Whatever is written in whatever order, a slot holds what was last written to it, or else what
      it held before, which beyond the old end is nil. */
  lemma {:induction false} WritesRead(s: State, ws: seq<RegWrite>, k: nat)
    ensures PutAll(s, ws) == s.(slots := PutAll(s, ws).slots)
    ensures Slot(PutAll(s, ws), k) ==
      if k < s.base then Slot(s, k)
      else match LastWrite(ws, k - s.base) case Some(v) => v case None => Slot(s, k)
    decreases |ws|
  {
    if ws != [] {
      WritesRead(s, ws[..|ws| - 1], k);
    }
  }

  // ---- No stale data, over whole runs ----

  /** The slots that an instruction writes on purpose: its target registers, a call's return
      address, and a return's result. */
  ghost predicate Targets(p: Program, s: State, k: nat)
    requires s.pc < |p.code|
  {
    var i := p.code[s.pc];
    if RegisterEffect(p, s, i).Some? || i.op == CALL then k == s.base + i.a
    else if i.op == RET then k == s.base
    else if i.op == BULKMOV then s.base + i.a <= k < s.base + i.a + i.c
    else false
  }

  /** The step out of `s` targets slot `k`. */
  ghost predicate Reaches(p: Program, s: State, k: nat) {
    s.pc < |p.code| && Targets(p, s, k)
  }

  lemma PutSpares(s: State, i: nat, v: Word, k: nat)
    requires Slot(s, k) == NIL && (k != s.base + i || v == NIL)
    ensures Slot(Put(s, i, v), k) == NIL && Put(s, i, v).base == s.base
  {
  }

  lemma {:induction false} ClearSpares(s: State, i: nat, n: nat, k: nat)
    requires Slot(s, k) == NIL
    ensures Slot(Clear(s, i, n), k) == NIL
    decreases n
  {
    hide Put, Slot;
    if n > 0 {
      PutSpares(s, i, NIL, k);
      ClearSpares(Put(s, i, NIL), i + 1, n - 1, k);
    }
  }

  lemma {:induction false} BulkSpares(s: State, a: nat, b: nat, n: nat, k: nat)
    requires BulkMove(s, a, b, n).Some? && Slot(s, k) == NIL && !(s.base + a <= k < s.base + a + n)
    ensures Slot(BulkMove(s, a, b, n).value, k) == NIL
    decreases n
  {
    hide Put, Slot;
    if n > 0 {
      var w := Get(s, b).value;
      PutSpares(s, a, w, k);
      BulkSpares(Put(s, a, w), a + 1, b + 1, n - 1, k);
    }
  }

  lemma SameSlots(s: State, t: State, k: nat)
    requires s.slots == t.slots
    ensures Slot(s, k) == Slot(t, k)
  {
  }

  lemma EffectSpares(s: State, a: nat, e: Effect, t: State, k: nat)
    requires ApplyEffect(s, a, e) == Running(t) && Slot(s, k) == NIL && k != s.base + a
    ensures Slot(t, k) == NIL
  {
    hide Put, Slot;
    match e
    case Halt(_) =>
    case Keep => SameSlots(s, t, k);
    case Write(w) =>
      PutSpares(s, a, w, k);
      SameSlots(Put(s, a, w), t, k);
  }

  lemma BuiltinSpares(s: State, localbase: nat, t: State, k: nat)
    requires s.stack != [] && StepBuiltin(s, localbase) == Running(t) && Slot(s, k) == NIL
    ensures Slot(t, k) == NIL
  {
    hide Put, Slot, Clear;
    var s1 := s.(printed := s.printed + [Get(s, 2).value]);
    SameSlots(s, s1, k);
    PutSpares(s1, 0, NIL, k);
    ClearSpares(Put(s1, 0, NIL), 2, localbase + 8, k);
    SameSlots(Clear(Put(s1, 0, NIL), 2, localbase + 8), t, k);
  }

  lemma CallSpares(s: State, i: Instr, t: State, k: nat)
    requires StepCall(s, i) == Running(t) && Slot(s, k) == NIL && k != s.base + i.a
    ensures Slot(t, k) == NIL
  {
    hide Put, Slot, StepBuiltin, ToSmallInt, FuncOf, IsFnew, IsBuiltin;
    var s1 := Put(s, i.a, ToSmallInt(AsInt32(s.pc)));
    PutSpares(s, i.a, ToSmallInt(AsInt32(s.pc)), k);
    var f := FuncOf(Get(s1, i.a + 1).value);
    var s2 := Enter(s1, i.a, f);
    SameSlots(s1, s2, k);
    if f == 0 {
      BuiltinSpares(s2, i.a, t, k);
    } else {
      SameSlots(s2, t, k);
    }
  }

  lemma CutSpares(s: State, t: State, n: nat, k: nat)
    requires n <= |s.slots| && t.slots == s.slots[..n]
    ensures Slot(t, k) == if k < n then Slot(s, k) else NIL
  {
  }

  lemma RetSpares(s: State, i: Instr, t: State, k: nat)
    requires StepRet(s, i) == Running(t)
    ensures k >= s.base + i.a ==> Slot(t, k) == NIL
    ensures k != s.base && Slot(s, k) == NIL ==> Slot(t, k) == NIL
  {
    hide Slot, SetAt, GetSmallInt;
    var s1 := Put(s, 0, Get(s, i.a).value);
    CutSpares(s1, t, s.base + i.a, k);
    if k != s.base && Slot(s, k) == NIL {
      PutSpares(s, 0, Get(s, i.a).value, k);
    }
  }

  /** One step of any program: a nil slot that it does not target stays nil. A builtin's clearing
      loop, and the gaps that a write leaves below itself, only write nil. */
  lemma StepSpares(p: Program, s: State, t: State, k: nat)
    requires Steps(p, s, t) && !Reaches(p, s, k) && Slot(s, k) == NIL
    ensures Slot(t, k) == NIL
  {
    hide Slot, RegisterEffect, ApplyEffect, StepCall, StepRet, BulkMove, Unsigned32, IsFalsy;
    var i := p.code[s.pc];
    if RegisterEffect(p, s, i).Some? {
      EffectSpares(s, i.a, RegisterEffect(p, s, i).value, t, k);
    } else if i.op == CALL {
      CallSpares(s, i, t, k);
    } else if i.op == RET {
      RetSpares(s, i, t, k);
    } else if i.op == BULKMOV {
      BulkSpares(s, i.a, i.b, i.c, k);
      SameSlots(BulkMove(s, i.a, i.b, i.c).value, t, k);
    } else {
      SameSlots(s, t, k);
    }
  }

  /** No stale data: from a return on, whatever the program does -- later calls that reuse the
      slots, further returns, block moves, builtins -- every slot that the return cut off reads as
      nil until a step targets that very slot. No assumption on the program. */
  lemma {:induction false} NoStaleData(p: Program, s: State, tr: seq<State>, m: nat, k: nat)
    requires s.pc < |p.code| && p.code[s.pc].op == RET && m < |tr|
    requires Steps(p, s, tr[0]) && Trace(p, tr)
    requires k >= s.base + p.code[s.pc].a && forall j :: 0 <= j < m ==> !Reaches(p, tr[j], k)
    ensures Slot(tr[m], k) == NIL
    decreases m
  {
    hide Slot, Steps, Reaches;
    if m == 0 {
      RetOutcome(p, s, tr[0]);
      RetSpares(s, p.code[s.pc], tr[0], k);
    } else {
      NoStaleData(p, s, tr, m - 1, k);
      assert Steps(p, tr[m - 1], tr[m - 1 + 1]);
      StepSpares(p, tr[m - 1], tr[m], k);
    }
  }
}
