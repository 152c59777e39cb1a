/** What programs can rely on when they compute with small integers, and where negative results are
    lost. */
module Arithmetic {
  import opened Wrappers
  import opened Bits
  import opened SlotWords
  import opened Machine

  lemma Operand(n: Int32)
    ensures GetSmallInt(ToSmallInt(n)) == n
    ensures if n >= 0 then IsSmallInt(ToSmallInt(n)) && !IsDouble(ToSmallInt(n))
      else !IsSmallInt(ToSmallInt(n)) && !IsDouble(ToSmallInt(n))
  {
    hide Tag, GetSmallInt, ToSmallInt;
    SmallIntRoundTrip(n);
  }

  lemma Adding(x: Int32, y: Int32)
    requires x >= 0 && y >= 0 && x + y < 0x8000_0000
    ensures BinaryEffect(ADDVV, ToSmallInt(x), ToSmallInt(y)) == Write(ToSmallInt(x + y))
  {
    hide GetSmallInt, ToSmallInt, IsSmallInt, IsDouble;
    Operand(x);
    Operand(y);
  }

  /** Subtraction undoes addition, in either operand, as long as the sum fits. */
  lemma SubtractUndoesAdd(x: Int32, y: Int32)
    requires x >= 0 && y >= 0
    ensures var sum := BinaryEffect(ADDVV, ToSmallInt(x), ToSmallInt(y));
      if x + y < 0x8000_0000 then
        && sum.Write?
        && BinaryEffect(SUBVV, sum.w, ToSmallInt(y)) == Write(ToSmallInt(x))
        && BinaryEffect(SUBVV, sum.w, ToSmallInt(x)) == Write(ToSmallInt(y))
      else sum == Halt(Undefined)
  {
    hide GetSmallInt, ToSmallInt, IsSmallInt, IsDouble;
    Operand(x);
    Operand(y);
    if x + y < 0x8000_0000 {
      Operand(x + y);
    }
  }

  /** Quotient and remainder belong together. */
  lemma DivideWithRemainder(x: Int32, y: Int32)
    requires x >= 0 && y > 0
    ensures var q, r := BinaryEffect(DIVVV, ToSmallInt(x), ToSmallInt(y)), BinaryEffect(MODVV, ToSmallInt(x), ToSmallInt(y));
      && q.Write? && r.Write?
      && 0 <= GetSmallInt(r.w) < y
      && x == GetSmallInt(q.w) * y + GetSmallInt(r.w)
      && IsSmallInt(q.w) && IsSmallInt(r.w)
  {
    hide GetSmallInt, ToSmallInt, IsSmallInt, IsDouble;
    Operand(x);
    Operand(y);
    QuotientFits(x, y);
    Operand(x / y);
    Operand(x % y);
    assert TruncDiv(x, y) == x / y;
    assert x - (x / y) * y == x % y;
  }

  lemma QuotientFits(x: nat, y: nat)
    requires 0 < y
    ensures x == (x / y) * y + x % y && 0 <= x / y <= x && x % y <= x
  {
    var q := x / y;
    assert q * y >= q * 1 by { Scale(q, 1, y); }
  }

  lemma Scale(q: nat, a: nat, b: nat)
    requires a <= b
    ensures q * a <= q * b
  {
  }

  /** The effect of an arithmetic instruction on two small integers. */
  lemma OnIntegers(op: Byte, x: Int32, y: Int32)
    requires x >= 0 && y >= 0 && IsArith(op)
    ensures BinaryEffect(op, ToSmallInt(x), ToSmallInt(y)) ==
      match ArithResult(op, x, y) case None => Halt(Undefined) case Some(n) => Write(ToSmallInt(n))
  {
    hide GetSmallInt, ToSmallInt, IsSmallInt, IsDouble, ArithResult;
    Operand(x);
    Operand(y);
  }

  /** Division and remainder undo multiplication; a product that does not fit is undefined. */
  lemma DivideUndoesMultiply(x: Int32, y: Int32)
    requires x >= 0 && y >= 0
    ensures var product := BinaryEffect(MULVV, ToSmallInt(x), ToSmallInt(y));
      && (product == Halt(Undefined) <==> x * y >= 0x8000_0000)
      && (x * y < 0x8000_0000 ==> product.Write?)
      && (y == 0 ==> product == Write(ToSmallInt(0)))
      && (x * y < 0x8000_0000 && y > 0 ==>
            && BinaryEffect(DIVVV, product.w, ToSmallInt(y)) == Write(ToSmallInt(x))
            && BinaryEffect(MODVV, product.w, ToSmallInt(y)) == Write(ToSmallInt(0)))
  {
    hide BinaryEffect, ToSmallInt, GetSmallInt, ArithResult;
    OnIntegers(MULVV, x, y);
    ProductResult(x, y);
    if x * y < 0x8000_0000 && y > 0 {
      OnIntegers(DIVVV, x * y, y);
      OnIntegers(MODVV, x * y, y);
      QuotientOfProduct(x, y, x * y);
    }
  }

  lemma ProductResult(x: Int32, y: Int32)
    requires x >= 0 && y >= 0
    ensures x * y >= 0 && (y == 0 ==> x * y == 0)
    ensures ArithResult(MULVV, x, y) == if x * y < 0x8000_0000 then Some(x * y) else None
  {
    assert x * y >= 0 by { Scale(x, 0, y); }
  }

  lemma QuotientOfProduct(x: Int32, y: Int32, z: Int32)
    requires x >= 0 && y > 0 && z == x * y
    ensures ArithResult(DIVVV, z, y) == Some(x) && ArithResult(MODVV, z, y) == Some(0)
  {
    assert z >= 0 by { Scale(x, 0, y); }
    DivModUnique(z, y, x, 0);
    assert TruncDiv(z, y) == x;
  }

  lemma QuotientOfParts(x: Int32, y: Int32, q: nat)
    requires x >= 0 && y > 0 && q * y <= x < q * y + y && q <= x
    ensures ArithResult(DIVVV, x, y) == Some(q) && ArithResult(MODVV, x, y) == Some(x - q * y)
  {
    DivModUnique(x, y, q, x - q * y);
    assert TruncDiv(x, y) == q;
  }

  /** Division and remainder on all integers, as C has them: they belong together, the remainder
      is smaller than the divisor and has the dividend's sign. Undefined are a divisor of zero and
      the one quotient that does not fit. */
  lemma DivideAnySign(x: Int32, y: Int32)
    ensures ArithResult(DIVVV, x, y) == None <==> ArithResult(MODVV, x, y) == None
    ensures ArithResult(DIVVV, x, y) == None <==> y == 0 || (x == -0x8000_0000 && y == -1)
    ensures ArithResult(DIVVV, x, y).Some? ==>
      var q, r := ArithResult(DIVVV, x, y).value, ArithResult(MODVV, x, y).value;
      && x == q * y + r && -Abs(y) < r < Abs(y) && (x >= 0 ==> r >= 0) && (x <= 0 ==> r <= 0)
  {
    if y != 0 {
      var q := TruncDiv(x, y);
      TruncatesTowardZero(x, y, q);
      hide TruncDiv;
    }
  }

  function Abs(n: int): (a: int)
    ensures a >= 0
  {
    if n >= 0 then n else -n
  }

  lemma TruncatesTowardZero(x: Int32, y: Int32, q: int)
    requires y != 0 && q == TruncDiv(x, y)
    ensures -Abs(y) < x - q * y < Abs(y)
    ensures (x >= 0 ==> x - q * y >= 0) && (x <= 0 ==> x - q * y <= 0)
    ensures -0x8000_0000 <= q <= 0x8000_0000
    ensures q == 0x8000_0000 <==> x == -0x8000_0000 && y == -1
  {
    var m, r := QuotientAndRemainder(Abs(x), Abs(y));
    DivModUnique(Abs(x), Abs(y), m, r);
    QuotientOfSigns(x, y, m);
    QuotientSize(Abs(x), Abs(y), m, r);
    hide TruncDiv;
    SignedProduct(y, q, m);
  }

  /** The quotient of the absolute values, with the sign it gets. */
  lemma QuotientOfSigns(x: int, y: int, m: int)
    requires y != 0 && m == Abs(x) / Abs(y)
    ensures TruncDiv(x, y) == if (x >= 0) == (y > 0) then m else -m
  {
    if y < 0 {
      NegativeDivisor(Abs(x), -y);
    }
  }

  lemma NegativeDivisor(x: int, d: int)
    requires x >= 0 && d > 0
    ensures x / (-d) == -(x / d)
  {
    var q, r := EuclideanParts(x, -d);
    var m, t := QuotientAndRemainder(x, d);
    DivModUnique(x, d, m, t);
    assert (m + q) * d == m * d - q * (-d);
    NoSmallMultiple(m + q, d);
  }

  lemma EuclideanParts(x: int, d: int) returns (q: int, r: int)
    requires d != 0
    ensures x == q * d + r && 0 <= r < (if d > 0 then d else -d) && q == x / d
  {
    q, r := x / d, x % d;
  }

  lemma QuotientSize(x: nat, d: nat, m: nat, r: nat)
    requires x == m * d + r && r < d && x <= 0x8000_0000
    ensures 0 <= m <= x && (m == 0x8000_0000 <==> x == 0x8000_0000 && d == 1)
  {
    Scale(m, 1, d);
    if d >= 2 {
      Scale(m, 2, d);
    }
  }

  lemma SignedProduct(y: int, q: int, m: int)
    requires m >= 0 && (q == m || q == -m)
    ensures q * y == if (q >= 0) == (y >= 0) || m == 0 || y == 0 then m * Abs(y) else -(m * Abs(y))
  {
    assert m == 0 ==> m * Abs(y) == 0;
    assert y == 0 ==> m * Abs(y) == 0;
  }

  /** A difference is usable as an operand again exactly when it is not negative: otherwise its
      sign runs over the tag, later arithmetic silently leaves its target alone, and MODVV and
      ISEQ report a type error. */
  lemma NegativeIsLost(x: Int32, y: Int32, z: Word)
    requires x >= 0 && y >= 0
    ensures BinaryEffect(SUBVV, ToSmallInt(x), ToSmallInt(y)).Write?
    ensures var w := BinaryEffect(SUBVV, ToSmallInt(x), ToSmallInt(y)).w;
      && (IsSmallInt(w) <==> x >= y)
      && (x < y ==>
            && IsPointer(w) && !IsFalsy(w)
            && (forall op :: op in {ADDVV, SUBVV, MULVV, DIVVV} ==>
                  BinaryEffect(op, w, z) == Keep && BinaryEffect(op, z, w) == Keep)
            && (forall op :: op in {MODVV, ISEQ} ==>
                  BinaryEffect(op, w, z) == Halt(TypeError) && BinaryEffect(op, z, w) == Halt(TypeError)))
  {
    hide GetSmallInt, ToSmallInt, IsSmallInt, IsDouble, IsPointer, IsFalsy;
    Operand(x);
    Operand(y);
    Operand(x - y);
    if x < y {
      SmallIntRoundTrip(x - y);
      PointerIsTrue(ToSmallInt(x - y));
    }
  }

  lemma PointerIsTrue(w: Word)
    requires IsPointer(w)
    ensures !IsFalsy(w)
  {
    hide Tag;
  }

  lemma IseqResult(x: Int32, y: Int32)
    requires x >= 0 && y >= 0
    ensures BinaryEffect(ISEQ, ToSmallInt(x), ToSmallInt(y)) == Write(ToBool(x == y))
    ensures IsFalsy(ToBool(x == y)) <==> x != y
  {
    hide GetSmallInt, ToSmallInt, IsSmallInt, IsDouble, IsFalsy, ToBool;
    Operand(x);
    Operand(y);
    BoolRoundTrip(x == y);
  }

  /** One binary instruction whose operands are there. */
  lemma BinaryStep(p: Program, s: State, w: Word)
    requires s.pc < |p.code| && IsBinary(p.code[s.pc].op)
    requires var i := p.code[s.pc];
      && s.base + i.b < |s.slots| && s.base + i.c < |s.slots|
      && BinaryEffect(i.op, s.slots[s.base + i.b], s.slots[s.base + i.c]) == Write(w)
    ensures Step(p, s) == Running(Advance(Put(s, p.code[s.pc].a, w)))
  {
    hide BinaryEffect, Put, Advance;
  }

  ghost function JumpTo(s: State, target: int): State {
    s.(pc := Unsigned32(target))
  }

  /** One conditional jump whose register is there. */
  lemma BranchStep(p: Program, s: State)
    requires s.pc < |p.code| && (p.code[s.pc].op == JUMPF || p.code[s.pc].op == JUMPT)
    requires s.base + p.code[s.pc].a < |s.slots|
    ensures var i := p.code[s.pc];
      Step(p, s) == if IsFalsy(s.slots[s.base + i.a]) == (i.op == JUMPF) then Running(JumpTo(s, s.pc + i.Offset()))
        else Running(Advance(s))
  {
    hide Step, StepBranch, IsFalsy, JumpTo, Advance;
    IsBranch(p, s);
    BranchOutcome(s, p.code[s.pc]);
  }

  lemma BranchOutcome(s: State, i: Instr)
    requires s.base + i.a < |s.slots| && (i.op == JUMPF || i.op == JUMPT)
    ensures StepBranch(s, i) ==
      if IsFalsy(s.slots[s.base + i.a]) == (i.op == JUMPF) then Running(JumpTo(s, s.pc + i.Offset()))
      else Running(Advance(s))
  {
    hide IsFalsy, Unsigned32, AsInt16, Instr.Offset;
  }

  lemma IsBranch(p: Program, s: State)
    requires s.pc < |p.code| && (p.code[s.pc].op == JUMPF || p.code[s.pc].op == JUMPT)
    ensures Step(p, s) == StepBranch(s, p.code[s.pc])
  {
    hide StepBranch, StepCall, StepRet, StepNsset, BulkMove, BinaryEffect, ApplyEffect, Unsigned32, AsInt16, Get;
  }

  lemma TwoSteps(p: Program, s: State, t: State, u: State)
    requires Step(p, s) == Running(t) && Step(p, t) == Running(u)
    ensures Run(p, s, 2) == Running(u)
  {
    hide Step;
    assert Run(p, t, 1) == Running(u);
  }

  /** Comparing and then branching: ISEQ followed by JUMPF on its result jumps exactly when the two
      numbers differ, and otherwise goes on behind the jump. */
  lemma IseqThenJump(p: Program, s: State, x: Int32, y: Int32)
    requires x >= 0 && y >= 0 && s.pc + 1 < |p.code| < 0x1_0000_0000
    requires var i, j := p.code[s.pc], p.code[s.pc + 1];
      && i.op == ISEQ && j.op == JUMPF && j.a == i.a
      && s.base + i.b < |s.slots| && s.slots[s.base + i.b] == ToSmallInt(x)
      && s.base + i.c < |s.slots| && s.slots[s.base + i.c] == ToSmallInt(y)
    ensures Run(p, s, 2).Running?
    ensures var t := Run(p, s, 2).state;
      t == JumpTo(s.(slots := t.slots), if x != y then s.pc + 1 + p.code[s.pc + 1].Offset() else s.pc + 2)
  {
    hide Unsigned32, BinaryEffect, ToSmallInt, ToBool, IsFalsy, SetAt, Step;
    var w := ToBool(x == y);
    IseqResult(x, y);
    BinaryStep(p, s, w);
    var t := Advance(Put(s, p.code[s.pc].a, w));
    Unwrapped(s.pc + 1);
    Written(s, p.code[s.pc].a, w);
    BranchStep(p, t);
    TwoSteps(p, s, t, Step(p, t).state);
  }

  lemma Unwrapped(pc: nat)
    requires pc < 0x1_0000_0000
    ensures Unsigned32(pc) == pc
  {
  }

  lemma Written(s: State, a: nat, w: Word)
    ensures s.base + a < |Put(s, a, w).slots| && Put(s, a, w).slots[s.base + a] == w
  {
  }

  /** JUMPF followed by JUMPT on the same register never falls through: nil and the words of kind
      Bool with an even payload take the first jump, and every other word the second. */
  lemma BranchesComplement(p: Program, s: State)
    requires s.pc + 1 < |p.code| < 0x1_0000_0000
    requires p.code[s.pc].op == JUMPF && p.code[s.pc + 1].op == JUMPT && p.code[s.pc].a == p.code[s.pc + 1].a
    requires s.base + p.code[s.pc].a < |s.slots|
    ensures if Falsy(s.slots[s.base + p.code[s.pc].a])
      then Run(p, s, 1) == Running(JumpTo(s, s.pc + p.code[s.pc].Offset()))
      else Run(p, s, 2) == Running(JumpTo(s, s.pc + 1 + p.code[s.pc + 1].Offset()))
  {
    hide HasKind, Falsy, IsFalsy, Step, Unsigned32, Instr.Offset;
    FalsyMeans(s.slots[s.base + p.code[s.pc].a]);
    Unwrapped(s.pc + 1);
    BranchStep(p, s);
    if !IsFalsy(s.slots[s.base + p.code[s.pc].a]) {
      var t := Advance(s);
      BranchStep(p, t);
      TwoSteps(p, s, t, Step(p, t).state);
    }
  }
}
