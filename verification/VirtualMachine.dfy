/** The virtual machine of vm.c and execute.c, over the resizing slot array and context stack. */
module VirtualMachine {
  import opened Wrappers
  import opened SlotWords
  import opened ContextStacks
  import SlotArrays
  import opened Machine

  lemma PutKeeps(s: State, i: nat, v: Word)
    ensures Put(s, i, v) == s.(slots := Put(s, i, v).slots) && |Put(s, i, v).slots| >= |s.slots|
  {
  }

  class VM {
    const slots: SlotArrays.Slots
    const stack: Stack
    var pc: nat
    var ip: nat
    var base: nat
    var symbols: map<string, Word>
    var printed: seq<Word>

    ghost function Repr(): set<object>
      reads this, slots, stack
    {
      {this, slots, slots.data, stack, stack.data}
    }

    ghost predicate Valid()
      reads this, slots, stack
    {
      slots.Valid() && stack.Valid()
    }

    /** The state that the specification machine is in. */
    ghost function Abs(): State
      requires Valid()
      reads this, slots, slots.data, stack, stack.data
    {
      State(pc, ip, base, slots.Contents(), stack.Contents(), symbols, printed)
    }

    /** vm_init. */
    constructor ()
      ensures Valid() && Abs() == INITIAL && fresh(Repr())
    {
      slots := new SlotArrays.Slots();
      stack := new Stack();
      pc, ip, base, printed := 0, 0, 0, [];
      symbols := map["println" := BUILTIN_PRINTLN];
    }

    // ---- Window addressing ----

    method GetReg(index: nat) returns (r: Option<Word>)
      requires Valid()
      modifies slots
      ensures Valid() && fresh(Repr() - old(Repr()))
      ensures Abs() == old(Abs()) && r == Get(Abs(), index)
    {
      r := slots.Get(base + index);
    }

    method SetReg(index: nat, value: Word)
      requires Valid()
      modifies slots, slots.data
      ensures Valid() && fresh(Repr() - old(Repr()))
      ensures Abs() == Put(old(Abs()), index, value)
    {
      slots.Set(base + index, value);
    }

    method Move(to: nat, from: nat) returns (ok: bool)
      requires Valid()
      modifies slots, slots.data
      ensures Valid() && fresh(Repr() - old(Repr()))
      ensures match Get(old(Abs()), from)
              case None => !ok && Abs() == old(Abs())
              case Some(w) => ok && Abs() == Put(old(Abs()), to, w)
    {
      var r := GetReg(from);
      match r
      case None => ok := false;
      case Some(w) =>
        SetReg(to, w);
        ok := true;
    }

    method SetContext(ctx: Context)
      requires Valid()
      modifies `base, `ip
      ensures Abs() == old(Abs()).(base := ctx.baseSlot, ip := ctx.ip)
    {
      base := ctx.baseSlot;
      ip := ctx.ip;
    }

    method GetContext() returns (ctx: Context)
      requires Valid()
      ensures ctx == Context(Abs().base, Abs().ip)
    {
      ctx := Context(base, ip);
    }

    method NextInstruction()
      requires Valid()
      modifies `pc
      ensures Abs() == Advance(old(Abs()))
    {
      pc := Unsigned32(pc + 1);
    }

    // ---- Instructions ----

    /** `stop` and the new state agree with an outcome of the specification machine. */
    ghost predicate Agrees(stop: Option<Stop>, o: Outcome)
      reads this, slots, slots.data, stack, stack.data
    {
      match o
      case Stopped(why) => stop == Some(why)
      case Running(t) => stop == None && Valid() && Abs() == t
    }

    method Finish(a: nat, e: Effect) returns (stop: Option<Stop>)
      requires Valid()
      modifies `pc, slots, slots.data
      ensures fresh(Repr() - old(Repr()))
      ensures Agrees(stop, ApplyEffect(old(Abs()), a, e))
    {
      stop := None;
      match e
      case Halt(why) => stop := Some(why);
      case Keep => NextInstruction();
      case Write(w) =>
        SetReg(a, w);
        NextInstruction();
    }

    method ExecBinary(i: Instr) returns (stop: Option<Stop>)
      requires Valid() && IsBinary(i.op)
      modifies `pc, slots, slots.data
      ensures fresh(Repr() - old(Repr()))
      ensures Agrees(stop, ApplyEffect(old(Abs()), i.a,
        match (Get(old(Abs()), i.b), Get(old(Abs()), i.c))
        case (Some(b), Some(c)) => BinaryEffect(i.op, b, c)
        case _ => Halt(OutOfBounds)))
    {
      var b := GetReg(i.b);
      if b == None {
        return Some(OutOfBounds);
      }
      var c := GetReg(i.c);
      if c == None {
        return Some(OutOfBounds);
      }
      stop := Finish(i.a, BinaryEffect(i.op, b.value, c.value));
    }

    method ExecBranch(i: Instr) returns (stop: Option<Stop>)
      requires Valid()
      modifies `pc, slots
      ensures fresh(Repr() - old(Repr()))
      ensures Agrees(stop, StepBranch(old(Abs()), i))
    {
      var w := GetReg(i.a);
      if w == None {
        return Some(OutOfBounds);
      }
      if IsFalsy(w.value) == (i.op == JUMPF) {
        pc := Unsigned32(pc + i.Offset());
      } else {
        NextInstruction();
      }
      stop := None;
    }

    method ExecNsset(p: Program, i: Instr) returns (stop: Option<Stop>)
      requires Valid()
      modifies `pc, `symbols, slots
      ensures fresh(Repr() - old(Repr()))
      ensures Agrees(stop, StepNsset(p, old(Abs()), i))
    {
      if i.D() >= |p.cstr| {
        return Some(Undefined);
      }
      var w := GetReg(i.a);
      if w == None {
        return Some(OutOfBounds);
      }
      symbols := symbols[p.cstr[i.D()] := w.value];
      NextInstruction();
      stop := None;
    }

    /** The loop of BULKMOV. */
    method ExecBulkMove(a: nat, b: nat, c: nat) returns (stop: Option<Stop>)
      requires Valid()
      modifies `pc, slots, slots.data
      ensures fresh(Repr() - old(Repr()))
      ensures Agrees(stop, match BulkMove(old(Abs()), a, b, c)
                           case None => Stopped(OutOfBounds)
                           case Some(t) => Running(Advance(t)))
    {
      hide Put, Get;
      var i := 0;
      while i != c
        invariant i <= c && Valid() && fresh(Repr() - old(Repr()))
        invariant pc == old(pc)
        invariant BulkMove(old(Abs()), a, b, c) == BulkMove(Abs(), a + i, b + i, c - i)
        decreases c - i
        modifies slots, slots.data
      {
        var ok := Move(a + i, b + i);
        if !ok {
          return Some(OutOfBounds);
        }
        i := i + 1;
      }
      NextInstruction();
      stop := None;
    }

    /** The loop that clears the callee's registers after a builtin call. */
    method ClearRegs(lo: nat, hi: nat)
      requires Valid() && lo <= hi
      modifies slots, slots.data
      ensures Valid() && fresh(Repr() - old(Repr()))
      ensures Abs() == Clear(old(Abs()), lo, hi - lo)
    {
      hide Put, Get;
      var i := lo;
      while i != hi
        invariant lo <= i <= hi && Valid() && fresh(Repr() - old(Repr()))
        invariant Clear(old(Abs()), lo, hi - lo) == Clear(Abs(), i, hi - i)
        modifies slots, slots.data
        decreases hi - i
      {
        SetReg(i, NIL);
        i := i + 1;
      }
    }

    method Enter(localbase: nat, func: nat)
      requires Valid()
      modifies `base, `ip, stack, stack.data
      ensures Valid() && fresh(Repr() - old(Repr()))
      ensures Abs() == Machine.Enter(old(Abs()), localbase, func)
    {
      var old_ := GetContext();
      stack.Push(old_);
      SetContext(Context(base + localbase, func));
    }

    /** Pops the caller's context; false is the underflow exit. */
    method Leave() returns (ok: bool)
      requires Valid()
      modifies `base, `ip, stack
      ensures Repr() == old(Repr()) && ok == (old(Abs()).stack != [])
      ensures ok ==> Valid() && Abs() == Machine.Leave(old(Abs()))
    {
      var caller := stack.Pop();
      if caller == None {
        return false;
      }
      SetContext(caller.value);
      ok := true;
    }

    /** builtin_println; false is the out-of-bounds exit. */
    method Println() returns (ok: bool)
      requires Valid()
      modifies `printed, slots, slots.data
      ensures fresh(Repr() - old(Repr())) && ok == Get(old(Abs()), 2).Some?
      ensures ok ==>
        && Valid()
        && Abs() == Put(old(Abs()).(printed := old(Abs()).printed + [Get(old(Abs()), 2).value]), 0, NIL)
    {
      hide SetAt;
      var w := GetReg(2);
      if w == None {
        return false;
      }
      printed := printed + [w.value];
      SetReg(0, NIL);
      ok := true;
    }

    method ExecBuiltin(localbase: nat) returns (stop: Option<Stop>)
      requires Valid() && Abs().stack != []
      modifies this, slots, slots.data, stack
      ensures fresh(Repr() - old(Repr()))
      ensures Agrees(stop, StepBuiltin(old(Abs()), localbase))
    {
      hide Put, Get, Clear;
      ghost var s := Abs();
      var ok := Println();
      if !ok {
        return Some(OutOfBounds);
      }
      PutKeeps(s.(printed := printed), 0, NIL);
      ClearRegs(2, localbase + 10);
      ok := Leave();
      NextInstruction();
      stop := None;
    }

    method ExecCall(i: Instr) returns (stop: Option<Stop>)
      requires Valid()
      modifies this, slots, slots.data, stack, stack.data
      ensures fresh(Repr() - old(Repr()))
      ensures Agrees(stop, StepCall(old(Abs()), i))
    {
      hide Put, Get, StepEnter;
      SetReg(i.a, ToSmallInt(AsInt32(pc)));
      var f := GetReg(i.a + 1);
      if f == None {
        return Some(OutOfBounds);
      }
      stop := EnterCallee(i.a, f.value);
    }

    /** The rest of CALL, once the callee is known. */
    method EnterCallee(localbase: nat, f: Word) returns (stop: Option<Stop>)
      requires Valid()
      modifies this, slots, slots.data, stack, stack.data
      ensures fresh(Repr() - old(Repr()))
      ensures Agrees(stop, StepEnter(old(Abs()), localbase, f))
    {
      hide StepBuiltin;
      if !IsFnew(f) && !IsBuiltin(f) {
        return Some(NoFunction);
      }
      var func := FuncOf(f);
      Enter(localbase, func);
      if func != 0 {
        pc := func;
        stop := None;
      } else if IsBuiltin(f) {
        stop := ExecBuiltin(localbase);
      } else {
        stop := Some(Undefined);
      }
    }

    /** The end of RET: the slots above the result go, the caller's context comes back, and control
        goes behind the call. */
    method LeaveCallee(a: nat, r: Word) returns (stop: Option<Stop>)
      requires Valid() && base + a <= |Abs().slots|
      modifies this, slots, stack
      ensures Repr() == old(Repr()) && Agrees(stop, StepLeave(old(Abs()), a, r))
    {
      slots.Truncate(base + a);
      var ok := Leave();
      if !ok {
        return Some(StackUnderflow);
      }
      pc := Unsigned32(GetSmallInt(r) + 1);
      stop := None;
    }

    method ExecRet(i: Instr) returns (stop: Option<Stop>)
      requires Valid()
      modifies this, slots, slots.data, stack
      ensures fresh(Repr() - old(Repr()))
      ensures Agrees(stop, StepRet(old(Abs()), i))
    {
      hide Put, StepLeave;
      ghost var s := Abs();
      var r := GetReg(0);
      if r == None {
        return Some(OutOfBounds);
      }
      var ok := Move(0, i.a);
      if !ok {
        return Some(OutOfBounds);
      }
      PutKeeps(s, 0, Get(s, i.a).value);
      stop := LeaveCallee(i.a, r.value);
    }

    /** One turn of the dispatch loop. */
    method StepOnce(p: Program) returns (stop: Option<Stop>)
      requires Valid()
      modifies this, slots, slots.data, stack, stack.data
      ensures fresh(Repr() - old(Repr()))
      ensures Agrees(stop, Step(p, old(Abs())))
    {
      hide StepCall, StepRet, StepBranch, StepNsset, BulkMove, BinaryEffect;
      if pc >= |p.code| {
        return Some(Undefined);
      }
      var i := p.code[pc];
      stop := None;
      if ConstEffect(p, i).Some? {
        stop := Finish(i.a, ConstEffect(p, i).value);
      } else if IsBinary(i.op) {
        stop := ExecBinary(i);
      } else if i.op == MOV {
        var ok := Move(i.a, i.D());
        if ok {
          NextInstruction();
        } else {
          stop := Some(OutOfBounds);
        }
      } else if i.op == NSGET {
        stop := Finish(i.a, if i.D() < |p.cstr| then Write(Lookup(symbols, p.cstr[i.D()])) else Halt(Undefined));
      } else if i.op == CALL {
        stop := ExecCall(i);
      } else if i.op == RET {
        stop := ExecRet(i);
      } else if i.op == JUMP {
        pc := Unsigned32(pc + i.Offset());
      } else if i.op == JUMPF || i.op == JUMPT {
        stop := ExecBranch(i);
      } else if i.op == NSSET {
        stop := ExecNsset(p, i);
      } else if i.op == BULKMOV {
        stop := ExecBulkMove(i.a, i.b, i.c);
      } else if i.op == EXIT {
        stop := Some(EndReached);
      } else if i.op == LOOP {
        // pc is not advanced
      } else if i.op == ALLOC || i.op == SETFIELD || i.op == GETFIELD {
        stop := Some(Unmodelled);
      } else {
        NextInstruction();
      }
    }

    /** The first `n` turns of the dispatch loop: with the arrays resized as the C code resizes
        them, the machine reaches the state, or the exit, that the specification reaches. */
    method RunFor(p: Program, n: nat) returns (stop: Option<Stop>)
      requires Valid()
      modifies this, slots, slots.data, stack, stack.data
      ensures fresh(Repr() - old(Repr()))
      ensures Agrees(stop, Run(p, old(Abs()), n))
    {
      hide Step;
      stop := None;
      var i := 0;
      while i != n && stop == None
        invariant i <= n && fresh(Repr() - old(Repr()))
        invariant stop == None ==> Valid() && Run(p, old(Abs()), n) == Run(p, Abs(), n - i)
        invariant stop != None ==> Run(p, old(Abs()), n) == Stopped(stop.value)
        decreases n - i, stop == None
      {
        stop := StepOnce(p);
        i := i + 1;
      }
    }
  }
}
