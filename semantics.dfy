/** What one call of `CPU.step` (cpu.py:74-85) does, as a function of the
    CPU's registers and the memory: fetch the opcode at PC, run its handler
    and return the cycle count the handler returns.  PC and SP are
    unbounded ints, as in the source, which never masks them while fetching,
    pushing or popping; an access outside the indexes the memory bytearray
    accepts raises IndexError there and is the `Crash` outcome here. */
module Semantics {
  import opened Bits
  import opened Flags
  import Alu
  import opened Isa
  import Mmu

  datatype Option<T> = None | Some(value: T)

  /** The CPU's fields (cpu.py:2-22) together with the memory it addresses. */
  datatype State = State(a: byte, b: byte, c: byte, d: byte, e: byte, h: byte, l: byte,
                         f: byte, pc: int, sp: int, ime: bit, mem: seq<byte>)

  type Machine = s: State | |s.mem| == Mmu.MemSize
    witness State(0, 0, 0, 0, 0, 0, 0, 0, 0, 0, 0, seq(0x1_0000, _ => 0))

  /** A handler's return value: a cycle count, or nothing (0x2B's handler
      has no `return`, so `step` returns None). */
  datatype Ticks = Cycles(n: nat) | NoCount

  datatype Outcome = Crash | Ok(m: Machine, t: Ticks)

  /** `CPU.__init__` (cpu.py:2-22): the register values after the boot ROM. */
  function Boot(mem: seq<byte>): (s: Machine)
    requires |mem| == Mmu.MemSize
    ensures s.f % 16 == 0 && s.mem == mem
  {
    State(0x01, 0x00, 0x13, 0x00, 0xD8, 0x01, 0x4D, 0xB0, 0x0100, 0xFFFE, 0, mem)
  }

  // ---------------------------------------------------------------------
  // Registers and pairs (cpu.py:28-47).

  function Get(s: Machine, r: Reg8): byte
  {
    match r
    case RegB => s.b
    case RegC => s.c
    case RegD => s.d
    case RegE => s.e
    case RegH => s.h
    case RegL => s.l
    case RegA => s.a
  }

  function SetReg(s: Machine, r: Reg8, v: byte): (t: Machine)
    ensures Get(t, r) == v
    ensures forall q :: q != r ==> Get(t, q) == Get(s, q)
    ensures t.f == s.f && t.pc == s.pc && t.sp == s.sp && t.ime == s.ime && t.mem == s.mem
  {
    match r
    case RegB => s.(b := v)
    case RegC => s.(c := v)
    case RegD => s.(d := v)
    case RegE => s.(e := v)
    case RegH => s.(h := v)
    case RegL => s.(l := v)
    case RegA => s.(a := v)
  }

  /** `(hi << 8) | lo` for two bytes. */
  function Join(hi: byte, lo: byte): (w: word)
    ensures w / 256 == hi && w % 256 == lo
  {
    256 * hi + lo
  }

  /** `(v >> 8) & 0xFF`; Python's `>>` floors, as `/` does here. */
  function HighByte(v: int): byte
  {
    (v / 256) % 256
  }

  /** `v & 0xFF`. */
  function LowByte(v: int): byte
  {
    v % 256
  }

  function HL(s: Machine): word
  {
    Join(s.h, s.l)
  }

  /** `_get_bc`, `_get_de`, `_get_hl`, and SP. */
  function GetPair(s: Machine, p: Pair): int
  {
    match p
    case PairBC => Join(s.b, s.c)
    case PairDE => Join(s.d, s.e)
    case PairHL => Join(s.h, s.l)
    case PairSP => s.sp
  }

  /** `_set_bc`, `_set_de`, `_set_hl`; SP is written `& 0xFFFF` by every
      handler that writes it from a pair computation (0x31, 0x33, 0x3B). */
  function SetPair(s: Machine, p: Pair, v: int): Machine
  {
    match p
    case PairBC => s.(b := HighByte(v), c := LowByte(v))
    case PairDE => s.(d := HighByte(v), e := LowByte(v))
    case PairHL => s.(h := HighByte(v), l := LowByte(v))
    case PairSP => s.(sp := v % 0x1_0000)
  }

  /** `INC rr` / `DEC rr`: the pair plus `d`, stored back through the
      pair's setter. */
  function AddToPair(s: Machine, p: Pair, d: int): Machine
  {
    SetPair(s, p, GetPair(s, p) + d)
  }

  // ---------------------------------------------------------------------
  // Fetching, the stack and memory accesses (cpu.py:87-108).

  datatype FetchedByte = FetchedByte(s: Machine, v: byte)
  datatype FetchedWord = FetchedWord(s: Machine, v: word)

  /** `_read_next_byte`. */
  function NextByte(s: Machine): Option<FetchedByte>
  {
    if Mmu.InRange(s.pc) then Some(FetchedByte(s.(pc := s.pc + 1), Mmu.Read(s.mem, s.pc))) else None
  }

  /** `_read_next_word`: the low byte comes first. */
  function NextWord(s: Machine): Option<FetchedWord>
  {
    match NextByte(s)
    case None => None
    case Some(lo) =>
      match NextByte(lo.s)
      case None => None
      case Some(hi) => Some(FetchedWord(hi.s, Join(hi.v, lo.v)))
  }

  /** `_push_word`: the high byte goes to SP-1, the low byte to SP-2. */
  function PushWord(s: Machine, v: int): Option<Machine>
  {
    var sp1 := s.sp - 1;
    if !Mmu.InRange(sp1) then None
    else
      var s1 := s.(sp := sp1, mem := Mmu.Write(s.mem, sp1, HighByte(v)));
      var sp2 := sp1 - 1;
      if !Mmu.InRange(sp2) then None
      else
        var t: Machine := s1.(sp := sp2, mem := Mmu.Write(s1.mem, sp2, LowByte(v)));
        Some(t)
  }

  /** `_pop_word`: the low byte at SP, the high byte at SP+1. */
  function PopWord(s: Machine): Option<FetchedWord>
  {
    if !Mmu.InRange(s.sp) then None
    else
      var lo := Mmu.Read(s.mem, s.sp);
      if !Mmu.InRange(s.sp + 1) then None
      else Some(FetchedWord(s.(sp := s.sp + 2), Join(Mmu.Read(s.mem, s.sp + 1), lo)))
  }

  function Load(s: Machine, addr: int): Option<byte>
  {
    if Mmu.InRange(addr) then Some(Mmu.Read(s.mem, addr)) else None
  }

  function Store(s: Machine, addr: int, v: byte): Option<Machine>
  {
    if Mmu.InRange(addr) then
      var t: Machine := s.(mem := Mmu.Write(s.mem, addr, v));
      Some(t)
    else None
  }

  function Done(o: Option<Machine>, n: nat): Outcome
  {
    match o
    case None => Crash
    case Some(m) => Ok(m, Cycles(n))
  }

  // ---------------------------------------------------------------------
  // Operands and helpers.

  /** The byte a LD/CB operand names; HL is always a valid index. */
  function LocValue(s: Machine, t: Loc): byte
  {
    match t
    case InReg(r) => Get(s, r)
    case AtHL => Mmu.Read(s.mem, HL(s))
  }

  function WriteLoc(s: Machine, t: Loc, v: byte): Machine
  {
    match t
    case InReg(r) => SetReg(s, r, v)
    case AtHL => s.(mem := Mmu.Write(s.mem, HL(s), v))
  }

  predicate Holds(cond: Cond, f: byte)
  {
    match cond
    case Always => true
    case IfNZ => Z(f) == 0
    case IfZ => Z(f) == 1
    case IfNC => C(f) == 0
    case IfC => C(f) == 1
  }

  function AluApply(op: AluOp, a: byte, v: byte, f: byte): Alu.AluOut
  {
    match op
    case AddOp => Alu.Add(a, v, f)
    case AdcOp => Alu.Adc(a, v, f)
    case SubOp => Alu.Sub(a, v, f)
    case SbcOp => Alu.Sbc(a, v, f)
    case AndOp => Alu.And(a, v, f)
    case XorOp => Alu.Xor(a, v, f)
    case OrOp => Alu.Or(a, v, f)
    case CpOp => Alu.AluOut(a, Alu.Cp(a, v, f))
  }

  function ShiftApply(op: ShiftOp, v: byte, f: byte): Alu.AluOut
  {
    match op
    case RlcOp => Alu.Rlc(v, f)
    case RrcOp => Alu.Rrc(v, f)
    case RlOp => Alu.Rl(v, f)
    case RrOp => Alu.Rr(v, f)
    case SlaOp => Alu.Sla(v, f)
    case SraOp => Alu.Sra(v, f)
    case SwapOp => Alu.Swap(v, f)
    case SrlOp => Alu.Srl(v, f)
  }

  /** `val & 0xFF & 0xF0` of POP AF, written as clearing the low nibble. */
  function HighNibble(x: byte): (r: byte)
    ensures r % 16 == 0
  {
    x / 16 * 16
  }

  /** The value a PUSH sends to the stack. */
  function StackValue(s: Machine, sp: StackPair): word
  {
    match sp
    case StackBC => Join(s.b, s.c)
    case StackDE => Join(s.d, s.e)
    case StackHL => Join(s.h, s.l)
    case StackAF => Join(s.a, s.f)
  }

  function SetStackPair(s: Machine, sp: StackPair, v: word): Machine
  {
    match sp
    case StackBC => SetPair(s, PairBC, v)
    case StackDE => SetPair(s, PairDE, v)
    case StackHL => SetPair(s, PairHL, v)
    case StackAF => s.(a := HighByte(v), f := HighNibble(LowByte(v)))
  }

  // ---------------------------------------------------------------------
  // The handlers.

  /** The effect of one base-table handler, PC already past the opcode. */
  function Exec(i: Instr, s: Machine): Outcome
  {
    match i
    case Nop => Ok(s, Cycles(4))
    case Ld(dst, src) => Ok(SetReg(s, dst, Get(s, src)), Cycles(4))
    case LdFromHL(dst) => Ok(SetReg(s, dst, Mmu.Read(s.mem, HL(s))), Cycles(8))
    case LdToHL(src) => Ok(s.(mem := Mmu.Write(s.mem, HL(s), Get(s, src))), Cycles(8))
    case LdImm(dst) =>
      (match NextByte(s)
       case None => Crash
       case Some(n) => Ok(SetReg(n.s, dst, n.v), Cycles(8)))
    case LdHLImm =>
      (match NextByte(s)
       case None => Crash
       case Some(n) => Ok(n.s.(mem := Mmu.Write(n.s.mem, HL(s), n.v)), Cycles(12)))
    case LdPairImm(p) =>
      (match NextWord(s)
       case None => Crash
       case Some(w) => Ok(SetPair(w.s, p, w.v), Cycles(12)))
    case StoreA(p) => Done(Store(s, GetPair(s, p), s.a), 8)
    case LoadA(p) =>
      (match Load(s, GetPair(s, p))
       case None => Crash
       case Some(v) => Ok(s.(a := v), Cycles(8)))
    case StoreAHL(delta) =>
      Ok(SetPair(s.(mem := Mmu.Write(s.mem, HL(s), s.a)), PairHL, HL(s) + delta), Cycles(8))
    case LoadAHL(delta) =>
      Ok(SetPair(s.(a := Mmu.Read(s.mem, HL(s))), PairHL, HL(s) + delta), Cycles(8))
    case StoreHigh =>
      (match NextByte(s)
       case None => Crash
       case Some(n) => Done(Store(n.s, 0xFF00 + n.v, n.s.a), 12))
    case LoadHigh =>
      (match NextByte(s)
       case None => Crash
       case Some(n) => Ok(n.s.(a := Mmu.Read(n.s.mem, 0xFF00 + n.v)), Cycles(12)))
    case StoreHighC => Done(Store(s, 0xFF00 + s.c, s.a), 8)
    case LoadHighC => Ok(s.(a := Mmu.Read(s.mem, 0xFF00 + s.c)), Cycles(8))
    case LoadAC => Ok(s.(a := Mmu.Read(s.mem, s.c)), Cycles(4))
    case StoreAbs =>
      (match NextWord(s)
       case None => Crash
       case Some(w) => Done(Store(w.s, w.v, w.s.a), 16))
    case LoadAbs =>
      (match NextWord(s)
       case None => Crash
       case Some(w) => Ok(w.s.(a := Mmu.Read(w.s.mem, w.v)), Cycles(16)))
    case StoreSP =>
      (match NextWord(s)
       case None => Crash
       case Some(w) =>
         (match Store(w.s, w.v, LowByte(s.sp))
          case None => Crash
          case Some(t) => Done(Store(t, w.v + 1, HighByte(s.sp)), 20)))
    case LdSPHL => Ok(s.(sp := HL(s)), Cycles(8))
    case LdHLSPOffset =>
      (match NextByte(s)
       case None => Crash
       case Some(n) =>
         var r := Alu.AddSpOffset(n.s.sp, n.v, n.s.f);
         Ok(SetPair(n.s, PairHL, r.value).(f := r.f), Cycles(12)))
    case AddSPOffset =>
      (match NextByte(s)
       case None => Crash
       case Some(n) =>
         var r := Alu.AddSpOffset(n.s.sp, n.v, n.s.f);
         Ok(n.s.(sp := r.value, f := r.f), Cycles(16)))
    case Inc(r) =>
      var o := Alu.Inc(Get(s, r), s.f);
      Ok(SetReg(s, r, o.value).(f := o.f), Cycles(4))
    case Dec(r) =>
      var o := Alu.Dec(Get(s, r), s.f);
      Ok(SetReg(s, r, o.value).(f := o.f), Cycles(4))
    case IncPair(p) => Ok(AddToPair(s, p, 1), Cycles(8))
    case DecPair(p) => Ok(AddToPair(s, p, -1), Cycles(8))
    case DecHLUncounted => Ok(AddToPair(s, PairHL, -1), NoCount)
    case AddHLPair(p) =>
      var o := Alu.AddHL(HL(s), GetPair(s, p), s.f);
      Ok(SetPair(s, PairHL, o.value).(f := o.f), Cycles(8))
    case Alu(op, from) =>
      (match from
       case FromLoc(t) =>
         var o := AluApply(op, s.a, LocValue(s, t), s.f);
         Ok(s.(a := o.value, f := o.f), Cycles(if t.AtHL? then 8 else 4))
       case FromImm =>
         (match NextByte(s)
          case None => Crash
          case Some(n) =>
            var o := AluApply(op, n.s.a, n.v, n.s.f);
            Ok(n.s.(a := o.value, f := o.f), Cycles(8))))
    case RotateA(op) =>
      var o := ShiftApply(op, s.a, s.f);
      Ok(s.(a := o.value, f := o.f), Cycles(4))
    case Rla =>
      var o := Alu.Rla(s.a, s.f);
      Ok(s.(a := o.value, f := o.f), Cycles(4))
    case Daa =>
      var o := Alu.Daa(s.a, s.f);
      Ok(s.(a := o.value, f := o.f), Cycles(4))
    case Cpl =>
      var o := Alu.Cpl(s.a, s.f);
      Ok(s.(a := o.value, f := o.f), Cycles(4))
    case Scf => Ok(s.(f := Alu.Scf(s.f)), Cycles(4))
    case Ccf => Ok(s.(f := Alu.Ccf(s.f)), Cycles(4))
    case Jr(cond) =>
      (match NextByte(s)
       case None => Crash
       case Some(n) =>
         if Holds(cond, n.s.f) then Ok(n.s.(pc := n.s.pc + Alu.Signed(n.v)), Cycles(12))
         else Ok(n.s, Cycles(8)))
    case Jp(cond) =>
      (match NextWord(s)
       case None => Crash
       case Some(w) =>
         if Holds(cond, w.s.f) then Ok(w.s.(pc := w.v), Cycles(16)) else Ok(w.s, Cycles(12)))
    case JpHL => Ok(s.(pc := HL(s)), Cycles(4))
    case Call(cond) =>
      (match NextWord(s)
       case None => Crash
       case Some(w) =>
         if Holds(cond, w.s.f) then
           (match PushWord(w.s, w.s.pc)
            case None => Crash
            case Some(t) => Ok(t.(pc := w.v), Cycles(24)))
         else Ok(w.s, Cycles(12)))
    case Ret =>
      (match PopWord(s)
       case None => Crash
       case Some(w) => Ok(w.s.(pc := w.v), Cycles(16)))
    case RetIf(cond) =>
      if Holds(cond, s.f) then
        (match PopWord(s)
         case None => Crash
         case Some(w) => Ok(w.s.(pc := w.v), Cycles(20)))
      else Ok(s, Cycles(8))
    case Reti =>
      (match PopWord(s.(ime := 1))
       case None => Crash
       case Some(w) => Ok(w.s.(pc := w.v), Cycles(16)))
    case Rst(target) =>
      (match PushWord(s, s.pc)
       case None => Crash
       case Some(t) => Ok(t.(pc := target), Cycles(16)))
    case Push(sp) => Done(PushWord(s, StackValue(s, sp)), 16)
    case Pop(sp) =>
      (match PopWord(s)
       case None => Crash
       case Some(w) => Ok(SetStackPair(w.s, sp, w.v), Cycles(12)))
    case Ei => Ok(s.(ime := 1), Cycles(4))
    case Prefix =>
      (match NextByte(s)
       case None => Crash
       case Some(n) => ExecCb(DecodeCb(n.v), n.s))
  }

  // ---------------------------------------------------------------------
  // `Exec` on each instruction, one lemma per handler.  Each repeats one
  // case of `Exec` and adds nothing to it: they are not a second semantics,
  // only a way to keep verification cheap, so that the proof of each CPU
  // method sees its own case rather than the whole table.

  lemma ExecLd(dst: Reg8, src: Reg8, s: Machine)
    ensures Exec(Ld(dst, src), s) == Ok(SetReg(s, dst, Get(s, src)), Cycles(4))
  {
  }

  lemma ExecLdFromHL(dst: Reg8, s: Machine)
    ensures Exec(LdFromHL(dst), s) == Ok(SetReg(s, dst, Mmu.Read(s.mem, HL(s))), Cycles(8))
  {
  }

  lemma ExecLdToHL(src: Reg8, s: Machine)
    ensures Exec(LdToHL(src), s) == Ok(s.(mem := Mmu.Write(s.mem, HL(s), Get(s, src))), Cycles(8))
  {
  }

  lemma ExecLdImm(dst: Reg8, s: Machine)
    ensures Exec(LdImm(dst), s) ==
            (match NextByte(s)
             case None => Crash
             case Some(n) => Ok(SetReg(n.s, dst, n.v), Cycles(8)))
  {
  }

  lemma ExecLdHLImm(s: Machine)
    ensures Exec(LdHLImm, s) ==
            (match NextByte(s)
             case None => Crash
             case Some(n) => Ok(n.s.(mem := Mmu.Write(n.s.mem, HL(s), n.v)), Cycles(12)))
  {
  }

  lemma ExecLdPairImm(p: Pair, s: Machine)
    ensures Exec(LdPairImm(p), s) ==
            (match NextWord(s)
             case None => Crash
             case Some(w) => Ok(SetPair(w.s, p, w.v), Cycles(12)))
  {
  }

  lemma ExecStoreA(p: Pair, s: Machine)
    ensures Exec(StoreA(p), s) == Done(Store(s, GetPair(s, p), s.a), 8)
  {
  }

  lemma ExecLoadA(p: Pair, s: Machine)
    ensures Exec(LoadA(p), s) ==
            (match Load(s, GetPair(s, p))
             case None => Crash
             case Some(v) => Ok(s.(a := v), Cycles(8)))
  {
  }

  lemma ExecStoreAHL(delta: int, s: Machine)
    ensures Exec(StoreAHL(delta), s) == Ok(SetPair(s.(mem := Mmu.Write(s.mem, HL(s), s.a)), PairHL, HL(s) + delta), Cycles(8))
  {
  }

  lemma ExecLoadAHL(delta: int, s: Machine)
    ensures Exec(LoadAHL(delta), s) == Ok(SetPair(s.(a := Mmu.Read(s.mem, HL(s))), PairHL, HL(s) + delta), Cycles(8))
  {
  }

  lemma ExecStoreHigh(s: Machine)
    ensures Exec(StoreHigh, s) ==
            (match NextByte(s)
             case None => Crash
             case Some(n) => Done(Store(n.s, 0xFF00 + n.v, n.s.a), 12))
  {
  }

  lemma ExecLoadHigh(s: Machine)
    ensures Exec(LoadHigh, s) ==
            (match NextByte(s)
             case None => Crash
             case Some(n) => Ok(n.s.(a := Mmu.Read(n.s.mem, 0xFF00 + n.v)), Cycles(12)))
  {
  }

  lemma ExecStoreHighC(s: Machine)
    ensures Exec(StoreHighC, s) == Done(Store(s, 0xFF00 + s.c, s.a), 8)
  {
  }

  lemma ExecLoadHighC(s: Machine)
    ensures Exec(LoadHighC, s) == Ok(s.(a := Mmu.Read(s.mem, 0xFF00 + s.c)), Cycles(8))
  {
  }

  lemma ExecLoadAC(s: Machine)
    ensures Exec(LoadAC, s) == Ok(s.(a := Mmu.Read(s.mem, s.c)), Cycles(4))
  {
  }

  lemma ExecStoreAbs(s: Machine)
    ensures Exec(StoreAbs, s) ==
            (match NextWord(s)
             case None => Crash
             case Some(w) => Done(Store(w.s, w.v, w.s.a), 16))
  {
  }

  lemma ExecLoadAbs(s: Machine)
    ensures Exec(LoadAbs, s) ==
            (match NextWord(s)
             case None => Crash
             case Some(w) => Ok(w.s.(a := Mmu.Read(w.s.mem, w.v)), Cycles(16)))
  {
  }

  lemma ExecStoreSP(s: Machine)
    ensures Exec(StoreSP, s) ==
            (match NextWord(s)
             case None => Crash
             case Some(w) =>
               (match Store(w.s, w.v, LowByte(s.sp))
                case None => Crash
                case Some(t) => Done(Store(t, w.v + 1, HighByte(s.sp)), 20)))
  {
  }

  lemma ExecLdSPHL(s: Machine)
    ensures Exec(LdSPHL, s) == Ok(s.(sp := HL(s)), Cycles(8))
  {
  }

  lemma ExecLdHLSPOffset(s: Machine)
    ensures Exec(LdHLSPOffset, s) ==
            (match NextByte(s)
             case None => Crash
             case Some(n) =>
               var r := Alu.AddSpOffset(n.s.sp, n.v, n.s.f);
               Ok(SetPair(n.s, PairHL, r.value).(f := r.f), Cycles(12)))
  {
  }

  lemma ExecAddSPOffset(s: Machine)
    ensures Exec(AddSPOffset, s) ==
            (match NextByte(s)
             case None => Crash
             case Some(n) =>
               var r := Alu.AddSpOffset(n.s.sp, n.v, n.s.f);
               Ok(n.s.(sp := r.value, f := r.f), Cycles(16)))
  {
  }

  lemma ExecInc(r: Reg8, s: Machine)
    ensures Exec(Inc(r), s) ==
            var o := Alu.Inc(Get(s, r), s.f);
            Ok(SetReg(s, r, o.value).(f := o.f), Cycles(4))
  {
  }

  lemma ExecDec(r: Reg8, s: Machine)
    ensures Exec(Dec(r), s) ==
            var o := Alu.Dec(Get(s, r), s.f);
            Ok(SetReg(s, r, o.value).(f := o.f), Cycles(4))
  {
  }

  lemma ExecIncPair(p: Pair, s: Machine)
    ensures Exec(IncPair(p), s) == Ok(AddToPair(s, p, 1), Cycles(8))
  {
  }

  lemma ExecDecPair(p: Pair, s: Machine)
    ensures Exec(DecPair(p), s) == Ok(AddToPair(s, p, -1), Cycles(8))
  {
  }

  lemma ExecDecHLUncounted(s: Machine)
    ensures Exec(DecHLUncounted, s) == Ok(AddToPair(s, PairHL, -1), NoCount)
  {
  }

  lemma ExecAddHLPair(p: Pair, s: Machine)
    ensures Exec(AddHLPair(p), s) ==
            var o := Alu.AddHL(HL(s), GetPair(s, p), s.f);
            Ok(SetPair(s, PairHL, o.value).(f := o.f), Cycles(8))
  {
  }

  lemma ExecAlu(op: AluOp, from: AluSrc, s: Machine)
    ensures Exec(Alu(op, from), s) ==
            (match from
             case FromLoc(t) =>
               var o := AluApply(op, s.a, LocValue(s, t), s.f);
               Ok(s.(a := o.value, f := o.f), Cycles(if t.AtHL? then 8 else 4))
             case FromImm =>
               (match NextByte(s)
                case None => Crash
                case Some(n) =>
                  var o := AluApply(op, n.s.a, n.v, n.s.f);
                  Ok(n.s.(a := o.value, f := o.f), Cycles(8))))
  {
  }

  lemma ExecRotateA(op: ShiftOp, s: Machine)
    ensures Exec(RotateA(op), s) ==
            var o := ShiftApply(op, s.a, s.f);
            Ok(s.(a := o.value, f := o.f), Cycles(4))
  {
  }

  lemma ExecRla(s: Machine)
    ensures Exec(Rla, s) ==
            var o := Alu.Rla(s.a, s.f);
            Ok(s.(a := o.value, f := o.f), Cycles(4))
  {
  }

  lemma ExecDaa(s: Machine)
    ensures Exec(Daa, s) ==
            var o := Alu.Daa(s.a, s.f);
            Ok(s.(a := o.value, f := o.f), Cycles(4))
  {
  }

  lemma ExecCpl(s: Machine)
    ensures Exec(Cpl, s) ==
            var o := Alu.Cpl(s.a, s.f);
            Ok(s.(a := o.value, f := o.f), Cycles(4))
  {
  }

  lemma ExecScf(s: Machine)
    ensures Exec(Scf, s) == Ok(s.(f := Alu.Scf(s.f)), Cycles(4))
  {
  }

  lemma ExecCcf(s: Machine)
    ensures Exec(Ccf, s) == Ok(s.(f := Alu.Ccf(s.f)), Cycles(4))
  {
  }

  lemma ExecJr(cond: Cond, s: Machine)
    ensures Exec(Jr(cond), s) ==
            (match NextByte(s)
             case None => Crash
             case Some(n) =>
               if Holds(cond, n.s.f) then Ok(n.s.(pc := n.s.pc + Alu.Signed(n.v)), Cycles(12))
               else Ok(n.s, Cycles(8)))
  {
  }

  lemma ExecJp(cond: Cond, s: Machine)
    ensures Exec(Jp(cond), s) ==
            (match NextWord(s)
             case None => Crash
             case Some(w) =>
               if Holds(cond, w.s.f) then Ok(w.s.(pc := w.v), Cycles(16)) else Ok(w.s, Cycles(12)))
  {
  }

  lemma ExecJpHL(s: Machine)
    ensures Exec(JpHL, s) == Ok(s.(pc := HL(s)), Cycles(4))
  {
  }

  lemma ExecCall(cond: Cond, s: Machine)
    ensures Exec(Call(cond), s) ==
            (match NextWord(s)
             case None => Crash
             case Some(w) =>
               if Holds(cond, w.s.f) then
                 (match PushWord(w.s, w.s.pc)
                  case None => Crash
                  case Some(t) => Ok(t.(pc := w.v), Cycles(24)))
               else Ok(w.s, Cycles(12)))
  {
  }

  lemma ExecRet(s: Machine)
    ensures Exec(Ret, s) ==
            (match PopWord(s)
             case None => Crash
             case Some(w) => Ok(w.s.(pc := w.v), Cycles(16)))
  {
  }

  lemma ExecRetIf(cond: Cond, s: Machine)
    ensures Exec(RetIf(cond), s) ==
            if Holds(cond, s.f) then
              (match PopWord(s)
               case None => Crash
               case Some(w) => Ok(w.s.(pc := w.v), Cycles(20)))
            else Ok(s, Cycles(8))
  {
  }

  lemma ExecReti(s: Machine)
    ensures Exec(Reti, s) ==
            (match PopWord(s.(ime := 1))
             case None => Crash
             case Some(w) => Ok(w.s.(pc := w.v), Cycles(16)))
  {
  }

  lemma ExecRst(target: word, s: Machine)
    ensures Exec(Rst(target), s) ==
            (match PushWord(s, s.pc)
             case None => Crash
             case Some(t) => Ok(t.(pc := target), Cycles(16)))
  {
  }

  lemma ExecPush(sp: StackPair, s: Machine)
    ensures Exec(Push(sp), s) == Done(PushWord(s, StackValue(s, sp)), 16)
  {
  }

  lemma ExecPop(sp: StackPair, s: Machine)
    ensures Exec(Pop(sp), s) ==
            (match PopWord(s)
             case None => Crash
             case Some(w) => Ok(SetStackPair(w.s, sp, w.v), Cycles(12)))
  {
  }

  /** The effect of one CB-table handler (`_handle_cb_opcode`). */
  function ExecCb(i: CbInstr, s: Machine): Outcome
  {
    var v := LocValue(s, i.t);
    match i
    case Shift(op, t) =>
      var o := ShiftApply(op, v, s.f);
      Ok(WriteLoc(s.(f := o.f), t, o.value), Cycles(if t.AtHL? then 16 else 8))
    case TestBit(n, t) => Ok(s.(f := Alu.BitTest(n, v, s.f)), Cycles(if t.AtHL? then 12 else 8))
    case ResetBit(n, t) => Ok(WriteLoc(s, t, Alu.Res(n, v)), Cycles(if t.AtHL? then 16 else 8))
    case SetBit(n, t) => Ok(WriteLoc(s, t, Alu.Set(n, v)), Cycles(if t.AtHL? then 16 else 8))
  }

  /** `step`: fetch, advance PC, dispatch. */
  function Step(s: Machine): Outcome
  {
    match NextByte(s)
    case None => Crash
    case Some(op) => Exec(Decode(op.v), op.s)
  }
}
