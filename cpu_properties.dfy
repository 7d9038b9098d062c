/** Properties of `Semantics.Step` that the CPU's source promises or relies
    on: register pairs wrap, F's low nibble stays clear, the stack gives back
    what it was given, CALL and RET pair up, and the handlers return the
    cycle counts their table entries document. */
module CpuProperties {
  import opened Bits
  import opened Flags
  import Alu
  import opened Isa
  import Mmu
  import opened Semantics

  // ---------------------------------------------------------------------
  // Register pairs (cpu.py:28-47).

  /** Splitting a value into `(v >> 8) & 0xFF` and `v & 0xFF` and joining
      the halves again gives the value modulo 0x10000. */
  lemma SplitJoin(v: int)
    ensures Join(HighByte(v), LowByte(v)) == v % 0x1_0000
  {
    var q, r := v / 256, v % 256;
    assert v == 256 * q + r;
    var qq, qr := q / 256, q % 256;
    assert q == 256 * qq + qr;
    assert v == 0x1_0000 * qq + (256 * qr + r);
    DivUnique(v, 0x1_0000, qq, 256 * qr + r);
  }

  /** `_set_xx(v)` then `_get_xx()` yields v modulo 0x10000, with the high
      byte in the first register of the pair; nothing else changes. */
  lemma PairRoundTrip(s: Machine, p: Pair, v: int)
    ensures GetPair(SetPair(s, p, v), p) == v % 0x1_0000
    ensures forall q :: q != p ==> GetPair(SetPair(s, p, v), q) == GetPair(s, q)
    ensures var t := SetPair(s, p, v);
            t.a == s.a && t.f == s.f && t.pc == s.pc && t.ime == s.ime && t.mem == s.mem
    ensures p == PairBC ==> SetPair(s, p, v).b == (v / 256) % 256 && SetPair(s, p, v).c == v % 256
  {
    SplitJoin(v);
  }

  /** INC rr wraps from 0xFFFF to 0, takes 8 cycles and leaves the other
      pairs alone (cpu.py:982-985, 1312-1314, 1388-1390). */
  lemma IncPairWraps(s: Machine, p: Pair)
    requires p != PairSP || 0 <= s.sp < 0x1_0000
    ensures Exec(IncPair(p), s).Ok? && Exec(IncPair(p), s).t == Cycles(8)
    ensures GetPair(Exec(IncPair(p), s).m, p) == if GetPair(s, p) == 0xFFFF then 0 else GetPair(s, p) + 1
    ensures forall q :: q != p ==> GetPair(Exec(IncPair(p), s).m, q) == GetPair(s, q)
  {
    ExecIncPair(p, s);
    PairStep(s, p, 1);
  }

  /** DEC rr wraps from 0 to 0xFFFF, takes 8 cycles and leaves the other
      pairs alone (cpu.py:758-761, 972-980, 1438-1441). */
  lemma DecPairWraps(s: Machine, p: Pair)
    requires p != PairSP || 0 <= s.sp < 0x1_0000
    ensures Exec(DecPair(p), s).Ok? && Exec(DecPair(p), s).t == Cycles(8)
    ensures GetPair(Exec(DecPair(p), s).m, p) == if GetPair(s, p) == 0 then 0xFFFF else GetPair(s, p) - 1
    ensures forall q :: q != p ==> GetPair(Exec(DecPair(p), s).m, q) == GetPair(s, q)
  {
    ExecDecPair(p, s);
    PairStep(s, p, -1);
  }

  /** Adding plus or minus one to a pair wraps at the
      ends of 0..0xFFFF and leaves the other pairs alone. */
  lemma PairStep(s: Machine, p: Pair, d: int)
    requires d == 1 || d == -1
    requires p != PairSP || 0 <= s.sp < 0x1_0000
    ensures var v := GetPair(s, p);
            GetPair(AddToPair(s, p, d), p)
            == if v + d == 0x1_0000 then 0 else if v + d == -1 then 0xFFFF else v + d
    ensures forall q :: q != p ==> GetPair(AddToPair(s, p, d), q) == GetPair(s, q)
  {
    var v := GetPair(s, p);
    PairRoundTrip(s, p, v + d);
    assert 0 <= v < 0x1_0000;
    WrapStep(v + d);
  }

  /** A value one step outside 0..0xFFFF wraps to the other end. */
  lemma WrapStep(v: int)
    requires -1 <= v <= 0x1_0000
    ensures v % 0x1_0000 == if v == 0x1_0000 then 0 else if v == -1 then 0xFFFF else v
  {
  }

  // ---------------------------------------------------------------------
  // F's low nibble (cpu.py:15, 53-72, 1371-1375).

  /** Clearing the low nibble keeps the four flags. */
  lemma HighNibbleFlags(x: byte)
    ensures Z(HighNibble(x)) == Z(x) && N(HighNibble(x)) == N(x)
    ensures H(HighNibble(x)) == H(x) && C(HighNibble(x)) == C(x)
  {
    Digits(x);
    var q := C(x) + 2 * H(x) + 4 * N(x) + 8 * Z(x);
    DivUnique(x, 16, q, x % 16);
    assert HighNibble(x) == Pack(0, Z(x), N(x), H(x), C(x));
  }

  /** One bit of POP AF's mask: bits 0-3 are cleared, bits 4-7 kept. */
  lemma HighNibbleBit(x: byte, k: nat)
    requires k < 8
    ensures Bit(HighNibble(x), k) == Bit(And8(x, 0xF0), k)
  {
    BitAnd(x, 0xF0, 8, k);
    if k < 4 {
      var hn := HighNibble(x);
      assert hn % 16 == 0 && 0xF0 % 16 == 0;
      LowBit(hn, k);
      LowBit(0xF0, k);
      ZeroBit(k);
    } else {
      FlagBitsKept(x, k);
    }
  }

  /** Bits 4-7 of the cleared byte are those of x, and 0xF0 has them set. */
  lemma FlagBitsKept(x: byte, k: nat)
    requires 4 <= k < 8
    ensures Bit(HighNibble(x), k) == Bit(x, k) && Bit(0xF0, k) == 1
  {
    HighNibbleFlags(x);
    FlagBit(HighNibble(x), k);
    FlagBit(x, k);
    FlagBit(0xF0, k);
  }

  /** POP AF's `val & 0xFF & 0xF0` is the low nibble cleared. */
  lemma HighNibbleIsMask(x: byte)
    ensures HighNibble(x) == And8(x, 0xF0)
  {
    forall k | 0 <= k < 8
      ensures Bit(HighNibble(x), k) == Bit(And8(x, 0xF0), k)
    {
      HighNibbleBit(x, k);
    }
    Pow2Table();
    BitsDetermine(HighNibble(x), And8(x, 0xF0), 8);
  }

  /** No CB handler sets a bit of F's low nibble. */
  lemma ExecCbKeepsLowNibble(i: CbInstr, s: Machine)
    requires s.f % 16 == 0
    ensures ExecCb(i, s).Ok? && ExecCb(i, s).m.f % 16 == 0
  {
    var v := LocValue(s, i.t);
    match i
    case Shift(op, t) =>
      ShiftKeepsLowNibble(op, v, s.f);
    case TestBit(n, t) =>
    case ResetBit(n, t) =>
    case SetBit(n, t) =>
  }

  /** No base handler sets a bit of F's low nibble: the flag setters leave
      it alone and POP AF clears it. */
  lemma ExecKeepsLowNibble(i: Instr, s: Machine)
    requires s.f % 16 == 0
    ensures Exec(i, s).Ok? ==> Exec(i, s).m.f % 16 == 0
  {
    if IsLoad(i) {
      LoadKeepsLowNibble(i, s);
    } else if IsArithmetic(i) {
      ArithmeticKeepsLowNibble(i, s);
    } else if i.Prefix? {
      if NextByte(s).Some? {
        var n := NextByte(s).value;
        ExecCbKeepsLowNibble(DecodeCb(n.v), n.s);
      }
    }
  }

  lemma LoadKeepsLowNibble(i: Instr, s: Machine)
    requires IsLoad(i) && s.f % 16 == 0
    ensures Exec(i, s).Ok? ==> Exec(i, s).m.f % 16 == 0
  {
  }

  lemma ArithmeticKeepsLowNibble(i: Instr, s: Machine)
    requires IsArithmetic(i) && s.f % 16 == 0
    ensures Exec(i, s).Ok? ==> Exec(i, s).m.f % 16 == 0
  {
    match i
    case AddSPOffset => ExecAddSPOffset(s);
    case Inc(r) => ExecInc(r, s);
    case Dec(r) => ExecDec(r, s);
    case IncPair(p) => ExecIncPair(p, s);
    case DecPair(p) => ExecDecPair(p, s);
    case DecHLUncounted => ExecDecHLUncounted(s);
    case AddHLPair(p) => ExecAddHLPair(p, s);
    case Alu(op, from) =>
      ExecAlu(op, from, s);
      forall a: byte, v: byte ensures SameLowNibble(AluApply(op, a, v, s.f).f, s.f) {
        AluKeepsLowNibble(op, a, v, s.f);
      }
    case RotateA(op) =>
      ExecRotateA(op, s);
      ShiftKeepsLowNibble(op, s.a, s.f);
    case Rla => ExecRla(s);
    case Daa => ExecDaa(s);
    case Cpl => ExecCpl(s);
    case Scf => ExecScf(s);
    case Ccf => ExecCcf(s);
  }

  /** The eight-bit ALU operations keep F's low nibble. */
  lemma AluKeepsLowNibble(op: AluOp, a: byte, v: byte, f: byte)
    ensures SameLowNibble(AluApply(op, a, v, f).f, f)
  {
    match op
    case AddOp => case AdcOp => case SubOp => case SbcOp =>
    case AndOp => case XorOp => case OrOp => case CpOp =>
  }

  /** The rotates and shifts keep F's low nibble. */
  lemma ShiftKeepsLowNibble(op: ShiftOp, v: byte, f: byte)
    ensures SameLowNibble(ShiftApply(op, v, f).f, f)
  {
    match op
    case RlcOp => case RrcOp => case RlOp => case RrOp =>
    case SlaOp => case SraOp => case SwapOp => case SrlOp =>
  }

  /** Hence F's low nibble stays 0 from the boot value 0xB0 on. */
  lemma StepKeepsLowNibble(s: Machine)
    requires s.f % 16 == 0
    ensures Step(s).Ok? ==> Step(s).m.f % 16 == 0
  {
    match NextByte(s)
    case None =>
    case Some(op) => ExecKeepsLowNibble(Decode(op.v), op.s);
  }

  // ---------------------------------------------------------------------
  // The stack (cpu.py:97-108).

  /** An address at which `read_byte` and `write_byte` do plain indexing. */
  predicate Plain(addr: int)
  {
    addr != Mmu.Joyp && addr != Mmu.Div && addr != Mmu.IntFlags
  }

  /** `_push_word` puts the high byte at SP-1 and the low byte at SP-2 and
      lowers SP by 2; `_pop_word` right after returns the word (modulo
      0x10000) and restores SP. */
  lemma PushThenPop(s: Machine, v: int)
    requires Mmu.InRange(s.sp - 1) && Mmu.InRange(s.sp - 2)
    requires Plain(s.sp - 1) && Plain(s.sp - 2)
    ensures PushWord(s, v).Some?
    ensures var t := PushWord(s, v).value;
            t.sp == s.sp - 2
            && t.mem[Mmu.Cell(s.sp - 1)] == HighByte(v) && t.mem[Mmu.Cell(s.sp - 2)] == LowByte(v)
            && PopWord(t) == Some(FetchedWord(t.(sp := s.sp), v % 0x1_0000))
  {
    var sp1, sp2 := s.sp - 1, s.sp - 2;
    var m1 := Mmu.Write(s.mem, sp1, HighByte(v));
    var m2 := Mmu.Write(m1, sp2, LowByte(v));
    Mmu.ReadAfterWrite(s.mem, sp1, HighByte(v));
    Mmu.ReadAfterWrite(m1, sp2, LowByte(v));
    Mmu.WriteOneCell(m1, sp2, LowByte(v), Mmu.Cell(sp1));
    assert Mmu.Read(m2, sp2) == LowByte(v);
    assert Mmu.Read(m2, sp2 + 1) == HighByte(v);
    SplitJoin(v);
  }

  /** CALL nn, PC at its operand: the operand is read, the address after it
      pushed high byte first, and PC set to the operand (cpu.py:1694-1698). */
  lemma CallPushesReturn(s: Machine)
    requires 0 <= s.pc < 0xFFFE
    requires Mmu.InRange(s.sp - 2) && s.sp - 1 < 0x1_0000
    requires Plain(s.sp - 1) && Plain(s.sp - 2)
    ensures var r := Exec(Call(Always), s);
            r.Ok? && r.t == Cycles(24)
            && r.m.pc == Join(Mmu.Read(s.mem, s.pc + 1), Mmu.Read(s.mem, s.pc))
            && r.m.sp == s.sp - 2
            && r.m.mem[Mmu.Cell(s.sp - 1)] == HighByte(s.pc + 2)
            && r.m.mem[Mmu.Cell(s.sp - 2)] == LowByte(s.pc + 2)
  {
    CallTaken(s);
    PushThenPop(s.(pc := s.pc + 2), s.pc + 2);
  }

  /** CALL nn with its condition met, as the push it makes. */
  lemma CallTaken(s: Machine)
    requires 0 <= s.pc < 0xFFFE
    ensures var after := s.(pc := s.pc + 2);
            Exec(Call(Always), s)
            == match PushWord(after, s.pc + 2)
               case None => Crash
               case Some(t) => Ok(t.(pc := Join(Mmu.Read(s.mem, s.pc + 1), Mmu.Read(s.mem, s.pc))), Cycles(24))
  {
    assert NextWord(s) == Some(FetchedWord(s.(pc := s.pc + 2), Join(Mmu.Read(s.mem, s.pc + 1), Mmu.Read(s.mem, s.pc))));
  }

  /** CALL nn followed by RET resumes just past CALL's operand with SP
      restored (cpu.py:1694-1704). */
  lemma CallThenRet(s: Machine)
    requires 0 <= s.pc < 0xFFFE
    requires Mmu.InRange(s.sp - 2) && s.sp - 1 < 0x1_0000
    requires Plain(s.sp - 1) && Plain(s.sp - 2)
    ensures Exec(Call(Always), s).Ok?
    ensures var r := Exec(Ret, Exec(Call(Always), s).m);
            r.Ok? && r.m.pc == s.pc + 2 && r.m.sp == s.sp && r.t == Cycles(16)
  {
    CallTaken(s);
    var target := Join(Mmu.Read(s.mem, s.pc + 1), Mmu.Read(s.mem, s.pc));
    PopAfterPush(s.(pc := s.pc + 2), s.pc + 2, target);
    var m := Exec(Call(Always), s).m;
    var w := PopWord(m).value;
    assert Exec(Ret, m) == Ok(w.s.(pc := w.v), Cycles(16));
  }

  /** Whatever PC is set to after a push, a pop gives back the pushed word
      and SP as it was before the push. */
  lemma PopAfterPush(s: Machine, v: int, target: int)
    requires 0 <= v < 0x1_0000
    requires Mmu.InRange(s.sp - 1) && Mmu.InRange(s.sp - 2)
    requires Plain(s.sp - 1) && Plain(s.sp - 2)
    ensures PushWord(s, v).Some?
    ensures var w := PopWord(PushWord(s, v).value.(pc := target));
            w.Some? && w.value.v == v && w.value.s.sp == s.sp
  {
    PushThenPop(s, v);
  }

  // ---------------------------------------------------------------------
  // Cycle counts (cpu.py:359-644, 1093-1130, 1616-1692).

  /** Every CB handler returns: 8 cycles on a register, 16 on (HL), and 12
      for BIT n,(HL). */
  lemma CbCycles(op: byte, s: Machine)
    ensures ExecCb(DecodeCb(op), s).Ok?
    ensures ExecCb(DecodeCb(op), s).t ==
            Cycles(if op % 8 != 6 then 8 else if 0x40 <= op < 0x80 then 12 else 16)
  {
  }

  /** JR cc,e costs 12 cycles when taken and 8 when not, and then leaves PC
      just past its operand. */
  lemma JrTiming(cond: Cond, s: Machine)
    requires Exec(Jr(cond), s).Ok?
    ensures Exec(Jr(cond), s).t == Cycles(if Holds(cond, s.f) then 12 else 8)
    ensures !Holds(cond, s.f) ==> Exec(Jr(cond), s).m == s.(pc := s.pc + 1)
  {
  }

  /** JP cc,nn costs 16 cycles when taken and 12 when not. */
  lemma JpTiming(cond: Cond, s: Machine)
    requires Exec(Jp(cond), s).Ok?
    ensures Exec(Jp(cond), s).t == Cycles(if Holds(cond, s.f) then 16 else 12)
    ensures !Holds(cond, s.f) ==> Exec(Jp(cond), s).m == s.(pc := s.pc + 2)
  {
  }

  /** CALL cc,nn costs 24 cycles when taken and 12 when not; a call not
      taken does not touch the stack. */
  lemma CallTiming(cond: Cond, s: Machine)
    requires Exec(Call(cond), s).Ok?
    ensures Exec(Call(cond), s).t == Cycles(if Holds(cond, s.f) then 24 else 12)
    ensures !Holds(cond, s.f) ==> Exec(Call(cond), s).m == s.(pc := s.pc + 2)
  {
  }

  /** RET cc costs 20 cycles when taken and 8 when not; a return not taken
      changes nothing. */
  lemma RetIfTiming(cond: Cond, s: Machine)
    requires Exec(RetIf(cond), s).Ok?
    ensures Exec(RetIf(cond), s).t == Cycles(if Holds(cond, s.f) then 20 else 8)
    ensures !Holds(cond, s.f) ==> Exec(RetIf(cond), s).m == s
  {
  }

  /** The only handler that returns no cycle count is 0x2B's. */
  lemma UncountedOnlyDecHL(s: Machine)
    requires Step(s).Ok?
    ensures Step(s).t.NoCount? <==> Mmu.Read(s.mem, s.pc) == 0x2B
  {
    var op := NextByte(s).value;
    var i := Decode(op.v);
    if i.Prefix? {
      var n := NextByte(op.s).value;
      CbCycles(n.v, n.s);
    } else if IsLoad(i) {
      assert Exec(i, op.s).t.Cycles?;
    } else if IsArithmetic(i) {
      ArithmeticTicks(i, op.s);
    } else {
      assert Exec(i, op.s).t.Cycles?;
    }
  }

  /** Of the arithmetic handlers only 0x2B's returns no cycle count. */
  lemma ArithmeticTicks(i: Instr, s: Machine)
    requires IsArithmetic(i)
    ensures Exec(i, s).Ok? ==> (Exec(i, s).t.NoCount? <==> i.DecHLUncounted?)
  {
    match i
    case AddSPOffset => ExecAddSPOffset(s);
    case Inc(r) => ExecInc(r, s);
    case Dec(r) => ExecDec(r, s);
    case IncPair(p) => ExecIncPair(p, s);
    case DecPair(p) => ExecDecPair(p, s);
    case DecHLUncounted => ExecDecHLUncounted(s);
    case AddHLPair(p) => ExecAddHLPair(p, s);
    case Alu(op, from) => ExecAlu(op, from, s);
    case RotateA(op) => ExecRotateA(op, s);
    case Rla => ExecRla(s);
    case Daa => ExecDaa(s);
    case Cpl => ExecCpl(s);
    case Scf => ExecScf(s);
    case Ccf => ExecCcf(s);
  }
}
