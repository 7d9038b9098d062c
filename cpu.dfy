/** The CPU object (cpu.py): registers held in fields that the handlers
    update in place, and a reference to the memory bus.  Every method is
    proved against `Semantics`: after it returns, `Model()` (the fields and
    the memory read as a `Machine`) is what the specification function
    gives for the state before the call.  A method whose Python counterpart
    would raise IndexError returns `ok == false`; the state it leaves behind
    is not specified. */
module Cpu {
  import opened Bits
  import Alu
  import opened Isa
  import Mmu
  import opened Semantics

  class CPU {
    const mmu: Mmu.MMU
    var a: byte
    var b: byte
    var c: byte
    var d: byte
    var e: byte
    var h: byte
    var l: byte
    var f: byte
    var pc: int
    var sp: int
    var ime: bit

    ghost predicate Valid()
    {
      mmu.Valid()
    }

    /** The fields and the memory, as the specification sees them. */
    ghost function Model(): Machine
      requires Valid()
      reads this, mmu.memory
    {
      State(a, b, c, d, e, h, l, f, pc, sp, ime, mmu.memory[..])
    }

    /** What a handler that returned `ok` and `t` has done, as an outcome. */
    ghost function After(ok: bool, t: Ticks): Outcome
      requires Valid()
      reads this, mmu.memory
    {
      if ok then Ok(Model(), t) else Crash
    }

    /** `__init__` (cpu.py:2-25): the register values the boot ROM leaves. */
    constructor (bus: Mmu.MMU)
      requires bus.Valid()
      ensures mmu == bus && Valid()
      ensures Model() == Boot(bus.memory[..])
    {
      mmu := bus;
      a, b, c, d, e, h, l := 0x01, 0x00, 0x13, 0x00, 0xD8, 0x01, 0x4D;
      f := 0xB0;
      pc, sp := 0x0100, 0xFFFE;
      ime := 0;
    }

    // -------------------------------------------------------------------
    // Registers (cpu.py:27-72).

    function Reg(r: Reg8): (v: byte)
      requires Valid()
      reads this, mmu.memory
      ensures v == Get(Model(), r)
    {
      match r
      case RegB => b
      case RegC => c
      case RegD => d
      case RegE => e
      case RegH => h
      case RegL => l
      case RegA => a
    }

    method SetReg8(r: Reg8, v: byte)
      requires Valid()
      modifies this
      ensures Model() == SetReg(old(Model()), r, v)
    {
      match r
      case RegB => b := v;
      case RegC => c := v;
      case RegD => d := v;
      case RegE => e := v;
      case RegH => h := v;
      case RegL => l := v;
      case RegA => a := v;
    }

    /** `_get_bc`, `_get_de`, `_get_hl`, or SP. */
    function PairValue(p: Pair): (v: int)
      requires Valid()
      reads this, mmu.memory
      ensures v == GetPair(Model(), p)
    {
      match p
      case PairBC => 256 * b + c
      case PairDE => 256 * d + e
      case PairHL => 256 * h + l
      case PairSP => sp
    }

    /** `_set_bc`, `_set_de`, `_set_hl`, or `sp = v & 0xFFFF`. */
    method SetPairValue(p: Pair, v: int)
      requires Valid()
      modifies this
      ensures Model() == SetPair(old(Model()), p, v)
    {
      match p
      case PairBC => b, c := (v / 256) % 256, v % 256;
      case PairDE => d, e := (v / 256) % 256, v % 256;
      case PairHL => h, l := (v / 256) % 256, v % 256;
      case PairSP => sp := v % 0x1_0000;
    }

    // -------------------------------------------------------------------
    // Fetching, memory and the stack (cpu.py:87-108).

    /** `_read_next_byte`. */
    method ReadNextByte() returns (ok: bool, v: byte)
      requires Valid()
      modifies this
      ensures ok == NextByte(old(Model())).Some?
      ensures ok ==> Model() == NextByte(old(Model())).value.s && v == NextByte(old(Model())).value.v
    {
      if !Mmu.InRange(pc) {
        return false, 0;
      }
      v := mmu.ReadByte(pc);
      pc := pc + 1;
      ok := true;
    }

    /** `_read_next_word`: low byte first. */
    method ReadNextWord() returns (ok: bool, w: word)
      requires Valid()
      modifies this
      ensures ok == NextWord(old(Model())).Some?
      ensures ok ==> Model() == NextWord(old(Model())).value.s && w == NextWord(old(Model())).value.v
    {
      var low, high: byte;
      ok, low := ReadNextByte();
      if !ok {
        return false, 0;
      }
      ok, high := ReadNextByte();
      if !ok {
        return false, 0;
      }
      w := 256 * high + low;
    }

    /** `mmu.read_byte(addr)` where the address may be out of range. */
    method Load(addr: int) returns (ok: bool, v: byte)
      requires Valid()
      ensures ok == Semantics.Load(Model(), addr).Some?
      ensures ok ==> v == Semantics.Load(Model(), addr).value
    {
      if !Mmu.InRange(addr) {
        return false, 0;
      }
      v := mmu.ReadByte(addr);
      ok := true;
    }

    /** `mmu.write_byte(addr, v)` where the address may be out of range. */
    method Store(addr: int, v: byte) returns (ok: bool)
      requires Valid()
      modifies mmu.memory
      ensures ok == Semantics.Store(old(Model()), addr, v).Some?
      ensures ok ==> Model() == Semantics.Store(old(Model()), addr, v).value
    {
      if !Mmu.InRange(addr) {
        return false;
      }
      mmu.WriteByte(addr, v);
      ok := true;
    }

    /** `_push_word`. */
    method PushWord(v: int) returns (ok: bool)
      requires Valid()
      modifies this, mmu.memory
      ensures ok == Semantics.PushWord(old(Model()), v).Some?
      ensures ok ==> Model() == Semantics.PushWord(old(Model()), v).value
    {
      sp := sp - 1;
      if !Mmu.InRange(sp) {
        return false;
      }
      mmu.WriteByte(sp, (v / 256) % 256);
      sp := sp - 1;
      if !Mmu.InRange(sp) {
        return false;
      }
      mmu.WriteByte(sp, v % 256);
      ok := true;
    }

    /** `_pop_word`. */
    method PopWord() returns (ok: bool, w: word)
      requires Valid()
      modifies this
      ensures ok == Semantics.PopWord(old(Model())).Some?
      ensures ok ==> Model() == Semantics.PopWord(old(Model())).value.s && w == Semantics.PopWord(old(Model())).value.v
    {
      if !Mmu.InRange(sp) {
        return false, 0;
      }
      var low := mmu.ReadByte(sp);
      sp := sp + 1;
      if !Mmu.InRange(sp) {
        return false, 0;
      }
      var high := mmu.ReadByte(sp);
      sp := sp + 1;
      w := Join(high, low);
      ok := true;
    }

    /** A register or the byte at HL; HL is always a valid index. */
    method ReadLoc(t: Loc) returns (v: byte)
      requires Valid()
      ensures v == LocValue(Model(), t)
    {
      match t
      case InReg(r) => v := Reg(r);
      case AtHL => v := mmu.ReadByte(256 * h + l);
    }

    method WriteLocation(t: Loc, v: byte)
      requires Valid()
      modifies this, mmu.memory
      ensures Model() == WriteLoc(old(Model()), t, v)
    {
      match t
      case InReg(r) => SetReg8(r, v);
      case AtHL => mmu.WriteByte(256 * h + l, v);
    }

    // -------------------------------------------------------------------
    // The dispatcher (cpu.py:74-85, 1729-1736).

    /** `step`: fetch the opcode at PC, advance PC, run the handler. */
    method Step() returns (ok: bool, t: Ticks)
      requires Valid()
      modifies this, mmu.memory
      ensures After(ok, t) == Semantics.Step(old(Model()))
    {
      var op: byte;
      ok, op := ReadNextByte();
      if !ok {
        return false, NoCount;
      }
      ok, t := Execute(Decode(op));
    }

    /** The handler an opcode's table entry names. */
    method Execute(i: Instr) returns (ok: bool, t: Ticks)
      requires Valid()
      modifies this, mmu.memory
      ensures After(ok, t) == Exec(i, old(Model()))
    {
      if i.Nop? {
        ok, t := true, Cycles(4);
      } else if i.Ei? {
        ime := 1;
        ok, t := true, Cycles(4);
      } else if i.Prefix? {
        var op: byte;
        ok, op := ReadNextByte();
        if !ok {
          return false, NoCount;
        }
        t := HandleCbOpcode(op);
      } else if IsLoad(i) {
        ok, t := ExecuteLoad(i);
      } else if IsArithmetic(i) {
        ok, t := ExecuteArithmetic(i);
      } else {
        ok, t := ExecuteControl(i);
      }
    }

    /** The loads and stores. */
    method ExecuteLoad(i: Instr) returns (ok: bool, t: Ticks)
      requires Valid() && IsLoad(i)
      modifies this, mmu.memory
      ensures After(ok, t) == Exec(i, old(Model()))
    {
      match i
      case Ld(dst, src) => ok, t := LoadRegister(dst, src);
      case LdFromHL(dst) => ok, t := LoadFromHL(dst);
      case LdToHL(src) => ok, t := StoreToHL(src);
      case LdImm(dst) => ok, t := LoadImmediate(dst);
      case LdHLImm => ok, t := StoreImmediateToHL();
      case LdPairImm(p) => ok, t := LoadPairImmediate(p);
      case StoreA(p) => ok, t := StoreAIndirect(p);
      case LoadA(p) => ok, t := LoadAIndirect(p);
      case StoreAHL(delta) => ok, t := StoreAThroughHL(delta);
      case LoadAHL(delta) => ok, t := LoadAThroughHL(delta);
      case StoreHigh => ok, t := StoreHighImmediate();
      case LoadHigh => ok, t := LoadHighImmediate();
      case StoreHighC => ok, t := StoreHighThroughC();
      case LoadHighC => ok, t := LoadHighThroughC();
      case LoadAC => ok, t := LoadAFromC();
      case StoreAbs => ok, t := StoreAAbsolute();
      case LoadAbs => ok, t := LoadAAbsolute();
      case StoreSP => ok, t := StoreStackPointer();
      case LdSPHL => ok, t := LoadSPFromHL();
      case LdHLSPOffset => ok, t := LoadHLFromSPOffset();
      case _ => assert false;
    }

    /** The arithmetic and flag handlers. */
    method ExecuteArithmetic(i: Instr) returns (ok: bool, t: Ticks)
      requires Valid() && IsArithmetic(i)
      modifies this, mmu.memory
      ensures After(ok, t) == Exec(i, old(Model()))
    {
      match i
      case AddSPOffset => ok, t := AddOffsetToSP();
      case Inc(r) => ok, t := Increment(r);
      case Dec(r) => ok, t := Decrement(r);
      case IncPair(p) => ok, t := IncrementPair(p);
      case DecPair(p) => ok, t := DecrementPair(p);
      case DecHLUncounted => ok, t := DecrementHLUncounted();
      case AddHLPair(p) => ok, t := AddPairToHL(p);
      case Alu(op, FromLoc(loc)) => ok, t := Arithmetic(op, loc);
      case Alu(op, FromImm) => ok, t := ArithmeticImmediate(op);
      case RotateA(sop) => ok, t := RotateAccumulator(sop);
      case Rla => ok, t := RotateLeftThroughCarry();
      case Daa => ok, t := DecimalAdjust();
      case Cpl => ok, t := Complement();
      case Scf => ok, t := SetCarryFlag();
      case Ccf => ok, t := ComplementCarryFlag();
      case _ => assert false;
    }

    /** Jumps, calls, returns and the stack. */
    method ExecuteControl(i: Instr) returns (ok: bool, t: Ticks)
      requires Valid() && IsControl(i)
      modifies this, mmu.memory
      ensures After(ok, t) == Exec(i, old(Model()))
    {
      match i
      case Jr(cond) => ok, t := JumpRelative(cond);
      case Jp(cond) => ok, t := JumpAbsolute(cond);
      case JpHL => ok, t := JumpToHL();
      case Call(cond) => ok, t := CallSubroutine(cond);
      case Ret => ok, t := Return();
      case RetIf(cond) => ok, t := ReturnIf(cond);
      case Reti => ok, t := ReturnFromInterrupt();
      case Rst(target) => ok, t := Restart(target);
      case Push(p) => ok, t := PushPair(p);
      case Pop(p) => ok, t := PopPair(p);
      case _ => assert false;
    }

    // -------------------------------------------------------------------
    // Loads and stores.

    method LoadRegister(dst: Reg8, src: Reg8) returns (ok: bool, t: Ticks)
      requires Valid()
      modifies this, mmu.memory
      ensures After(ok, t) == Exec(Ld(dst, src), old(Model()))
    {
      ExecLd(dst, src, Model());
      SetReg8(dst, Reg(src));
      ok, t := true, Cycles(4);
    }

    method LoadFromHL(dst: Reg8) returns (ok: bool, t: Ticks)
      requires Valid()
      modifies this, mmu.memory
      ensures After(ok, t) == Exec(LdFromHL(dst), old(Model()))
    {
      ExecLdFromHL(dst, Model());
      var v := mmu.ReadByte(256 * h + l);
      SetReg8(dst, v);
      ok, t := true, Cycles(8);
    }

    method StoreToHL(src: Reg8) returns (ok: bool, t: Ticks)
      requires Valid()
      modifies this, mmu.memory
      ensures After(ok, t) == Exec(LdToHL(src), old(Model()))
    {
      ExecLdToHL(src, Model());
      mmu.WriteByte(256 * h + l, Reg(src));
      ok, t := true, Cycles(8);
    }

    method LoadImmediate(dst: Reg8) returns (ok: bool, t: Ticks)
      requires Valid()
      modifies this, mmu.memory
      ensures After(ok, t) == Exec(LdImm(dst), old(Model()))
    {
      ExecLdImm(dst, Model());
      var v: byte;
      ok, v := ReadNextByte();
      if !ok {
        return false, NoCount;
      }
      SetReg8(dst, v);
      t := Cycles(8);
    }

    method StoreImmediateToHL() returns (ok: bool, t: Ticks)
      requires Valid()
      modifies this, mmu.memory
      ensures After(ok, t) == Exec(LdHLImm, old(Model()))
    {
      ExecLdHLImm(Model());
      var v: byte;
      ok, v := ReadNextByte();
      if !ok {
        return false, NoCount;
      }
      mmu.WriteByte(256 * h + l, v);
      t := Cycles(12);
    }

    method LoadPairImmediate(p: Pair) returns (ok: bool, t: Ticks)
      requires Valid()
      modifies this, mmu.memory
      ensures After(ok, t) == Exec(LdPairImm(p), old(Model()))
    {
      ExecLdPairImm(p, Model());
      var w: word;
      ok, w := ReadNextWord();
      if !ok {
        return false, NoCount;
      }
      SetPairValue(p, w);
      t := Cycles(12);
    }

    method StoreAIndirect(p: Pair) returns (ok: bool, t: Ticks)
      requires Valid()
      modifies this, mmu.memory
      ensures After(ok, t) == Exec(StoreA(p), old(Model()))
    {
      ExecStoreA(p, Model());
      ok := Store(PairValue(p), a);
      t := Cycles(8);
    }

    method LoadAIndirect(p: Pair) returns (ok: bool, t: Ticks)
      requires Valid()
      modifies this, mmu.memory
      ensures After(ok, t) == Exec(LoadA(p), old(Model()))
    {
      ExecLoadA(p, Model());
      var v: byte;
      ok, v := Load(PairValue(p));
      if !ok {
        return false, NoCount;
      }
      a := v;
      t := Cycles(8);
    }

    /** LD (HL+),A and LD (HL-),A. */
    method StoreAThroughHL(delta: int) returns (ok: bool, t: Ticks)
      requires Valid()
      modifies this, mmu.memory
      ensures After(ok, t) == Exec(StoreAHL(delta), old(Model()))
    {
      ExecStoreAHL(delta, Model());
      var hl := 256 * h + l;
      mmu.WriteByte(hl, a);
      SetPairValue(PairHL, hl + delta);
      ok, t := true, Cycles(8);
    }

    /** LD A,(HL+) and LD A,(HL-). */
    method LoadAThroughHL(delta: int) returns (ok: bool, t: Ticks)
      requires Valid()
      modifies this, mmu.memory
      ensures After(ok, t) == Exec(LoadAHL(delta), old(Model()))
    {
      ExecLoadAHL(delta, Model());
      var hl := 256 * h + l;
      a := mmu.ReadByte(hl);
      SetPairValue(PairHL, hl + delta);
      ok, t := true, Cycles(8);
    }

    method StoreHighImmediate() returns (ok: bool, t: Ticks)
      requires Valid()
      modifies this, mmu.memory
      ensures After(ok, t) == Exec(StoreHigh, old(Model()))
    {
      ExecStoreHigh(Model());
      var n: byte;
      ok, n := ReadNextByte();
      if !ok {
        return false, NoCount;
      }
      ok := Store(0xFF00 + n, a);
      t := Cycles(12);
    }

    method LoadHighImmediate() returns (ok: bool, t: Ticks)
      requires Valid()
      modifies this, mmu.memory
      ensures After(ok, t) == Exec(LoadHigh, old(Model()))
    {
      ExecLoadHigh(Model());
      var n: byte;
      ok, n := ReadNextByte();
      if !ok {
        return false, NoCount;
      }
      a := mmu.ReadByte(0xFF00 + n);
      t := Cycles(12);
    }

    method StoreHighThroughC() returns (ok: bool, t: Ticks)
      requires Valid()
      modifies this, mmu.memory
      ensures After(ok, t) == Exec(StoreHighC, old(Model()))
    {
      ExecStoreHighC(Model());
      ok := Store(0xFF00 + c, a);
      t := Cycles(8);
    }

    method LoadHighThroughC() returns (ok: bool, t: Ticks)
      requires Valid()
      modifies this, mmu.memory
      ensures After(ok, t) == Exec(LoadHighC, old(Model()))
    {
      ExecLoadHighC(Model());
      a := mmu.ReadByte(0xFF00 + c);
      ok, t := true, Cycles(8);
    }

    /** 0xF3 as the source defines it: A gets the byte at address C. */
    method LoadAFromC() returns (ok: bool, t: Ticks)
      requires Valid()
      modifies this, mmu.memory
      ensures After(ok, t) == Exec(LoadAC, old(Model()))
    {
      ExecLoadAC(Model());
      a := mmu.ReadByte(c);
      ok, t := true, Cycles(4);
    }

    method StoreAAbsolute() returns (ok: bool, t: Ticks)
      requires Valid()
      modifies this, mmu.memory
      ensures After(ok, t) == Exec(StoreAbs, old(Model()))
    {
      ExecStoreAbs(Model());
      var w: word;
      ok, w := ReadNextWord();
      if !ok {
        return false, NoCount;
      }
      ok := Store(w, a);
      t := Cycles(16);
    }

    method LoadAAbsolute() returns (ok: bool, t: Ticks)
      requires Valid()
      modifies this, mmu.memory
      ensures After(ok, t) == Exec(LoadAbs, old(Model()))
    {
      ExecLoadAbs(Model());
      var w: word;
      ok, w := ReadNextWord();
      if !ok {
        return false, NoCount;
      }
      a := mmu.ReadByte(w);
      t := Cycles(16);
    }

    /** LD (nn),SP: the low byte at nn, the high byte at nn+1. */
    method StoreStackPointer() returns (ok: bool, t: Ticks)
      requires Valid()
      modifies this, mmu.memory
      ensures After(ok, t) == Exec(StoreSP, old(Model()))
    {
      ExecStoreSP(Model());
      var w: word;
      ok, w := ReadNextWord();
      if !ok {
        return false, NoCount;
      }
      ok := Store(w, sp % 256);
      if !ok {
        return false, NoCount;
      }
      ok := Store(w + 1, (sp / 256) % 256);
      t := Cycles(20);
    }

    method LoadSPFromHL() returns (ok: bool, t: Ticks)
      requires Valid()
      modifies this, mmu.memory
      ensures After(ok, t) == Exec(LdSPHL, old(Model()))
    {
      ExecLdSPHL(Model());
      sp := 256 * h + l;
      ok, t := true, Cycles(8);
    }

    method LoadHLFromSPOffset() returns (ok: bool, t: Ticks)
      requires Valid()
      modifies this, mmu.memory
      ensures After(ok, t) == Exec(LdHLSPOffset, old(Model()))
    {
      ExecLdHLSPOffset(Model());
      var n: byte;
      ok, n := ReadNextByte();
      if !ok {
        return false, NoCount;
      }
      var r := Alu.AddSpOffset(sp, n, f);
      SetPairValue(PairHL, r.value);
      f := r.f;
      t := Cycles(12);
    }

    // -------------------------------------------------------------------
    // Arithmetic.

    method AddOffsetToSP() returns (ok: bool, t: Ticks)
      requires Valid()
      modifies this, mmu.memory
      ensures After(ok, t) == Exec(AddSPOffset, old(Model()))
    {
      ExecAddSPOffset(Model());
      var n: byte;
      ok, n := ReadNextByte();
      if !ok {
        return false, NoCount;
      }
      var r := Alu.AddSpOffset(sp, n, f);
      sp, f := r.value, r.f;
      t := Cycles(16);
    }

    method Increment(r: Reg8) returns (ok: bool, t: Ticks)
      requires Valid()
      modifies this, mmu.memory
      ensures After(ok, t) == Exec(Inc(r), old(Model()))
    {
      ExecInc(r, Model());
      var o := Alu.Inc(Reg(r), f);
      SetReg8(r, o.value);
      f := o.f;
      ok, t := true, Cycles(4);
    }

    method Decrement(r: Reg8) returns (ok: bool, t: Ticks)
      requires Valid()
      modifies this, mmu.memory
      ensures After(ok, t) == Exec(Dec(r), old(Model()))
    {
      ExecDec(r, Model());
      var o := Alu.Dec(Reg(r), f);
      SetReg8(r, o.value);
      f := o.f;
      ok, t := true, Cycles(4);
    }

    method IncrementPair(p: Pair) returns (ok: bool, t: Ticks)
      requires Valid()
      modifies this, mmu.memory
      ensures After(ok, t) == Exec(IncPair(p), old(Model()))
    {
      ExecIncPair(p, Model());
      SetPairValue(p, PairValue(p) + 1);
      ok, t := true, Cycles(8);
    }

    method DecrementPair(p: Pair) returns (ok: bool, t: Ticks)
      requires Valid()
      modifies this, mmu.memory
      ensures After(ok, t) == Exec(DecPair(p), old(Model()))
    {
      ExecDecPair(p, Model());
      SetPairValue(p, PairValue(p) - 1);
      ok, t := true, Cycles(8);
    }

    /** 0x2B: DEC HL with no `return`. */
    method DecrementHLUncounted() returns (ok: bool, t: Ticks)
      requires Valid()
      modifies this, mmu.memory
      ensures After(ok, t) == Exec(DecHLUncounted, old(Model()))
    {
      ExecDecHLUncounted(Model());
      SetPairValue(PairHL, PairValue(PairHL) - 1);
      ok, t := true, NoCount;
    }

    method AddPairToHL(p: Pair) returns (ok: bool, t: Ticks)
      requires Valid()
      modifies this, mmu.memory
      ensures After(ok, t) == Exec(AddHLPair(p), old(Model()))
    {
      ExecAddHLPair(p, Model());
      ghost var s0 := Model();
      var o := Alu.AddHL(PairValue(PairHL), PairValue(p), f);
      assert o == Alu.AddHL(HL(s0), GetPair(s0, p), s0.f);
      SetPairValue(PairHL, o.value);
      f := o.f;
      assert Model() == SetPair(s0, PairHL, o.value).(f := o.f);
      ok, t := true, Cycles(8);
    }

    /** The ALU block 0x80-0xBF: A op r, or A op (HL). */
    method Arithmetic(op: AluOp, loc: Loc) returns (ok: bool, t: Ticks)
      requires Valid()
      modifies this, mmu.memory
      ensures After(ok, t) == Exec(Alu(op, FromLoc(loc)), old(Model()))
    {
      ExecAlu(op, FromLoc(loc), Model());
      ghost var s0 := Model();
      var v := ReadLoc(loc);
      var o := AluApply(op, a, v, f);
      a, f := o.value, o.f;
      assert Model() == s0.(a := o.value, f := o.f);
      ok, t := true, Cycles(if loc.AtHL? then 8 else 4);
    }

    /** The eight ALU operations on the byte after the opcode. */
    method ArithmeticImmediate(op: AluOp) returns (ok: bool, t: Ticks)
      requires Valid()
      modifies this, mmu.memory
      ensures After(ok, t) == Exec(Alu(op, FromImm), old(Model()))
    {
      ExecAlu(op, FromImm, Model());
      var v: byte;
      ok, v := ReadNextByte();
      if !ok {
        return false, NoCount;
      }
      ghost var s1 := Model();
      var o := AluApply(op, a, v, f);
      a, f := o.value, o.f;
      assert Model() == s1.(a := o.value, f := o.f);
      t := Cycles(8);
    }

    /** 0x07, 0x0F and 0x1F, which call `_rlc`, `_rrc` and `_rr`. */
    method RotateAccumulator(sop: ShiftOp) returns (ok: bool, t: Ticks)
      requires Valid()
      modifies this, mmu.memory
      ensures After(ok, t) == Exec(RotateA(sop), old(Model()))
    {
      ExecRotateA(sop, Model());
      var o := ShiftApply(sop, a, f);
      a, f := o.value, o.f;
      ok, t := true, Cycles(4);
    }

    method RotateLeftThroughCarry() returns (ok: bool, t: Ticks)
      requires Valid()
      modifies this, mmu.memory
      ensures After(ok, t) == Exec(Rla, old(Model()))
    {
      ExecRla(Model());
      var o := Alu.Rla(a, f);
      a, f := o.value, o.f;
      ok, t := true, Cycles(4);
    }

    method DecimalAdjust() returns (ok: bool, t: Ticks)
      requires Valid()
      modifies this, mmu.memory
      ensures After(ok, t) == Exec(Daa, old(Model()))
    {
      ExecDaa(Model());
      var o := Alu.Daa(a, f);
      a, f := o.value, o.f;
      ok, t := true, Cycles(4);
    }

    method Complement() returns (ok: bool, t: Ticks)
      requires Valid()
      modifies this, mmu.memory
      ensures After(ok, t) == Exec(Cpl, old(Model()))
    {
      ExecCpl(Model());
      var o := Alu.Cpl(a, f);
      a, f := o.value, o.f;
      ok, t := true, Cycles(4);
    }

    method SetCarryFlag() returns (ok: bool, t: Ticks)
      requires Valid()
      modifies this, mmu.memory
      ensures After(ok, t) == Exec(Scf, old(Model()))
    {
      ExecScf(Model());
      f := Alu.Scf(f);
      ok, t := true, Cycles(4);
    }

    method ComplementCarryFlag() returns (ok: bool, t: Ticks)
      requires Valid()
      modifies this, mmu.memory
      ensures After(ok, t) == Exec(Ccf, old(Model()))
    {
      ExecCcf(Model());
      f := Alu.Ccf(f);
      ok, t := true, Cycles(4);
    }

    // -------------------------------------------------------------------
    // Control flow.

    /** JR cc,e and `_jr`: the operand is a two's-complement offset. */
    method JumpRelative(cond: Cond) returns (ok: bool, t: Ticks)
      requires Valid()
      modifies this, mmu.memory
      ensures After(ok, t) == Exec(Jr(cond), old(Model()))
    {
      ExecJr(cond, Model());
      var n: byte;
      ok, n := ReadNextByte();
      if !ok {
        return false, NoCount;
      }
      var offset: int := n;
      if offset > 127 {
        offset := offset - 256;
      }
      if Holds(cond, f) {
        pc := pc + offset;
        t := Cycles(12);
      } else {
        t := Cycles(8);
      }
    }

    method JumpAbsolute(cond: Cond) returns (ok: bool, t: Ticks)
      requires Valid()
      modifies this, mmu.memory
      ensures After(ok, t) == Exec(Jp(cond), old(Model()))
    {
      ExecJp(cond, Model());
      var addr: word;
      ok, addr := ReadNextWord();
      if !ok {
        return false, NoCount;
      }
      if Holds(cond, f) {
        pc := addr;
        t := Cycles(16);
      } else {
        t := Cycles(12);
      }
    }

    method JumpToHL() returns (ok: bool, t: Ticks)
      requires Valid()
      modifies this, mmu.memory
      ensures After(ok, t) == Exec(JpHL, old(Model()))
    {
      ExecJpHL(Model());
      pc := 256 * h + l;
      ok, t := true, Cycles(4);
    }

    method CallSubroutine(cond: Cond) returns (ok: bool, t: Ticks)
      requires Valid()
      modifies this, mmu.memory
      ensures After(ok, t) == Exec(Call(cond), old(Model()))
    {
      ExecCall(cond, Model());
      var addr: word;
      ok, addr := ReadNextWord();
      if !ok {
        return false, NoCount;
      }
      if Holds(cond, f) {
        ghost var s1 := Model();
        ok := PushWord(pc);
        if !ok {
          return false, NoCount;
        }
        ghost var s2 := Model();
        assert s2 == Semantics.PushWord(s1, s1.pc).value;
        pc := addr;
        assert Model() == s2.(pc := addr);
        t := Cycles(24);
      } else {
        t := Cycles(12);
      }
    }

    method Return() returns (ok: bool, t: Ticks)
      requires Valid()
      modifies this, mmu.memory
      ensures After(ok, t) == Exec(Ret, old(Model()))
    {
      ExecRet(Model());
      var w: word;
      ok, w := PopWord();
      if !ok {
        return false, NoCount;
      }
      pc := w;
      t := Cycles(16);
    }

    method ReturnIf(cond: Cond) returns (ok: bool, t: Ticks)
      requires Valid()
      modifies this, mmu.memory
      ensures After(ok, t) == Exec(RetIf(cond), old(Model()))
    {
      ExecRetIf(cond, Model());
      if Holds(cond, f) {
        var w: word;
        ok, w := PopWord();
        if !ok {
          return false, NoCount;
        }
        pc := w;
        t := Cycles(20);
      } else {
        ok, t := true, Cycles(8);
      }
    }

    /** RETI: IME is set before the pop. */
    method ReturnFromInterrupt() returns (ok: bool, t: Ticks)
      requires Valid()
      modifies this, mmu.memory
      ensures After(ok, t) == Exec(Reti, old(Model()))
    {
      ExecReti(Model());
      ime := 1;
      var w: word;
      ok, w := PopWord();
      if !ok {
        return false, NoCount;
      }
      pc := w;
      t := Cycles(16);
    }

    method Restart(target: word) returns (ok: bool, t: Ticks)
      requires Valid()
      modifies this, mmu.memory
      ensures After(ok, t) == Exec(Rst(target), old(Model()))
    {
      ExecRst(target, Model());
      ok := PushWord(pc);
      if !ok {
        return false, NoCount;
      }
      pc := target;
      t := Cycles(16);
    }

    method PushPair(p: StackPair) returns (ok: bool, t: Ticks)
      requires Valid()
      modifies this, mmu.memory
      ensures After(ok, t) == Exec(Push(p), old(Model()))
    {
      ExecPush(p, Model());
      var v := match p
        case StackBC => 256 * b + c
        case StackDE => 256 * d + e
        case StackHL => 256 * h + l
        case StackAF => 256 * a + f;
      ok := PushWord(v);
      t := Cycles(16);
    }

    /** POP rr; POP AF keeps only the high nibble of the popped low byte. */
    method PopPair(p: StackPair) returns (ok: bool, t: Ticks)
      requires Valid()
      modifies this
      ensures After(ok, t) == Exec(Pop(p), old(Model()))
    {
      ExecPop(p, Model());
      var w: word;
      ok, w := PopWord();
      if !ok {
        return false, NoCount;
      }
      SetStackPairValue(p, w);
      t := Cycles(12);
    }

    /** The write half of POP rr: `_set_bc` and friends, or for AF the high
        byte to A and the low byte, low nibble cleared, to F. */
    method SetStackPairValue(p: StackPair, w: word)
      requires Valid()
      modifies this
      ensures Model() == SetStackPair(old(Model()), p, w)
    {
      match p {
        case StackBC => SetPairValue(PairBC, w);
        case StackDE => SetPairValue(PairDE, w);
        case StackHL => SetPairValue(PairHL, w);
        case StackAF =>
          a, f := (w / 256) % 256, w % 256 / 16 * 16;
      }
    }

    // -------------------------------------------------------------------
    // The CB table.

    /** `_handle_cb_opcode`: every CB handler returns a count. */
    method HandleCbOpcode(op: byte) returns (t: Ticks)
      requires Valid()
      modifies this, mmu.memory
      ensures Ok(Model(), t) == ExecCb(DecodeCb(op), old(Model()))
    {
      var i := DecodeCb(op);
      var v := ReadLoc(i.t);
      var cycles := if i.t.AtHL? then 16 else 8;
      match i {
        case Shift(sop, target) =>
          var o := ShiftApply(sop, v, f);
          f := o.f;
          WriteLocation(target, o.value);
        case TestBit(n, target) =>
          f := Alu.BitTest(n, v, f);
          if target.AtHL? {
            cycles := 12;
          }
        case ResetBit(n, target) =>
          WriteLocation(target, Alu.Res(n, v));
        case SetBit(n, target) =>
          WriteLocation(target, Alu.Set(n, v));
      }
      t := Cycles(cycles);
    }
  }
}
