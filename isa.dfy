/** The instruction set as the CPU's two dispatch tables define it
    (cpu.py:276-357 and 647-728).  `Decode` maps every base opcode to the
    instruction its `op_0x..` handler carries out (the later definition where
    the class defines a handler twice); `DecodeCb` does the same for the
    CB-prefixed table, whose 256 handlers follow the regular pattern
    group = op / 64, y = (op / 8) % 8, operand = op % 8. */
module Isa {
  import opened Bits

  /** The seven 8-bit registers an opcode names (F is never named). */
  datatype Reg8 = RegB | RegC | RegD | RegE | RegH | RegL | RegA

  /** An 8-bit operand of the LD and CB blocks: a register or the byte at HL. */
  datatype Loc = InReg(r: Reg8) | AtHL

  /** A source of the ALU block: a register or (HL), or the byte after the
      opcode. */
  datatype AluSrc = FromLoc(loc: Loc) | FromImm

  /** The 16-bit register pairs of LD rr,nn, INC rr, DEC rr and ADD HL,rr. */
  datatype Pair = PairBC | PairDE | PairHL | PairSP

  /** The pairs PUSH and POP move: AF takes the place of SP. */
  datatype StackPair = StackBC | StackDE | StackHL | StackAF

  /** The condition of a jump, call or return. */
  datatype Cond = Always | IfNZ | IfZ | IfNC | IfC

  /** The eight operations of the ALU block 0x80-0xBF and of the immediates. */
  datatype AluOp = AddOp | AdcOp | SubOp | SbcOp | AndOp | XorOp | OrOp | CpOp

  /** The eight rotates and shifts of the CB block 0x00-0x3F. */
  datatype ShiftOp = RlcOp | RrcOp | RlOp | RrOp | SlaOp | SraOp | SwapOp | SrlOp

  datatype Instr =
    | Nop                       // NOP, STOP, HALT and the eleven unused opcodes
    | Ld(dst: Reg8, src: Reg8)  // LD r,r'
    | LdFromHL(dst: Reg8)       // LD r,(HL)
    | LdToHL(src: Reg8)         // LD (HL),r
    | LdImm(dst: Reg8)          // LD r,n
    | LdHLImm                   // LD (HL),n
    | LdPairImm(p: Pair)        // LD rr,nn
    | StoreA(p: Pair)           // LD (BC),A and LD (DE),A
    | LoadA(p: Pair)            // LD A,(BC) and LD A,(DE)
    | StoreAHL(delta: int)      // LD (HL+),A and LD (HL-),A
    | LoadAHL(delta: int)       // LD A,(HL+) and LD A,(HL-)
    | StoreHigh                 // LDH (n),A
    | LoadHigh                  // LDH A,(n)
    | StoreHighC                // LD (C),A
    | LoadHighC                 // LD A,(C)
    | LoadAC                    // 0xF3 as written: A = memory[C]
    | StoreAbs                  // LD (nn),A
    | LoadAbs                   // LD A,(nn)
    | StoreSP                   // LD (nn),SP
    | LdSPHL                    // LD SP,HL
    | LdHLSPOffset              // LD HL,SP+e
    | AddSPOffset               // ADD SP,e
    | Inc(r: Reg8)              // INC r
    | Dec(r: Reg8)              // DEC r
    | IncPair(p: Pair)          // INC rr, and 0x34 as written
    | DecPair(p: Pair)          // DEC rr, and 0x35 as written
    | DecHLUncounted            // 0x2B: DEC HL, whose handler returns no count
    | AddHLPair(p: Pair)        // ADD HL,rr
    | Alu(op: AluOp, from: AluSrc)
    | RotateA(sop: ShiftOp)     // 0x07, 0x0F and 0x1F, through the CB helpers
    | Rla | Daa | Cpl | Scf | Ccf
    | Jr(cond: Cond)
    | Jp(cond: Cond)
    | JpHL
    | Call(cond: Cond)
    | Ret                       // RET, 16 cycles
    | RetIf(cond: Cond)         // RET cc, 20 or 8 cycles
    | Reti
    | Rst(target: word)
    | Push(sp: StackPair)
    | Pop(sp: StackPair)
    | Ei
    | Prefix                    // 0xCB: a second byte selects from the CB table

  /** The loads and stores: the handlers that move bytes and words. */
  predicate IsLoad(i: Instr)
  {
    i.Ld? || i.LdFromHL? || i.LdToHL? || i.LdImm? || i.LdHLImm? || i.LdPairImm?
    || i.StoreA? || i.LoadA? || i.StoreAHL? || i.LoadAHL? || i.StoreHigh? || i.LoadHigh?
    || i.StoreHighC? || i.LoadHighC? || i.LoadAC? || i.StoreAbs? || i.LoadAbs?
    || i.StoreSP? || i.LdSPHL? || i.LdHLSPOffset?
  }

  /** The arithmetic and flag handlers. */
  predicate IsArithmetic(i: Instr)
  {
    i.AddSPOffset? || i.Inc? || i.Dec? || i.IncPair? || i.DecPair? || i.DecHLUncounted?
    || i.AddHLPair? || i.Alu? || i.RotateA? || i.Rla? || i.Daa? || i.Cpl? || i.Scf? || i.Ccf?
  }

  /** Jumps, calls, returns, PUSH and POP. */
  predicate IsControl(i: Instr)
  {
    i.Jr? || i.Jp? || i.JpHL? || i.Call? || i.Ret? || i.RetIf? || i.Reti? || i.Rst?
    || i.Push? || i.Pop?
  }

  type BitIndex = n: int | 0 <= n < 8

  datatype CbInstr =
    | Shift(sop: ShiftOp, t: Loc)
    | TestBit(n: BitIndex, t: Loc)
    | ResetBit(n: BitIndex, t: Loc)
    | SetBit(n: BitIndex, t: Loc)

  /** The operand an opcode's three low bits (or bits 3-5) select, in the
      order B, C, D, E, H, L, (HL), A. */
  function LocAt(i: nat): (l: Loc)
    requires i < 8
    ensures l.AtHL? <==> i == 6
  {
    if i == 0 then InReg(RegB) else if i == 1 then InReg(RegC)
    else if i == 2 then InReg(RegD) else if i == 3 then InReg(RegE)
    else if i == 4 then InReg(RegH) else if i == 5 then InReg(RegL)
    else if i == 6 then AtHL else InReg(RegA)
  }

  function AluOpAt(i: nat): AluOp
    requires i < 8
  {
    if i == 0 then AddOp else if i == 1 then AdcOp else if i == 2 then SubOp
    else if i == 3 then SbcOp else if i == 4 then AndOp else if i == 5 then XorOp
    else if i == 6 then OrOp else CpOp
  }

  function ShiftOpAt(i: nat): ShiftOp
    requires i < 8
  {
    if i == 0 then RlcOp else if i == 1 then RrcOp else if i == 2 then RlOp
    else if i == 3 then RrOp else if i == 4 then SlaOp else if i == 5 then SraOp
    else if i == 6 then SwapOp else SrlOp
  }

  /** The LD block 0x40-0x7F: bits 3-5 the destination, bits 0-2 the source;
      0x76 (LD (HL),(HL)) is HALT. */
  function DecodeLd(op: byte): Instr
    requires 0x40 <= op < 0x80
  {
    var dst, src := LocAt((op / 8) % 8), LocAt(op % 8);
    if op == 0x76 then Nop
    else if src.AtHL? then LdFromHL(dst.r)
    else if dst.AtHL? then LdToHL(src.r)
    else Ld(dst.r, src.r)
  }

  /** The base table, `self.opcodes` with its handlers. */
  function Decode(op: byte): (i: Instr)
    ensures i.Prefix? <==> op == 0xCB
    ensures i.DecHLUncounted? <==> op == 0x2B
  {
    if op < 0x40 then DecodeLow(op)
    else if op < 0x80 then DecodeLd(op)
    else if op < 0xC0 then Alu(AluOpAt((op / 8) % 8), FromLoc(LocAt(op % 8)))
    else DecodeHigh(op)
  }

  /** The base table's first quarter, 0x00-0x3F. */
  function DecodeLow(op: byte): (i: Instr)
    requires op < 0x40
    ensures !i.Prefix?
    ensures i.DecHLUncounted? <==> op == 0x2B
  {
    match op
      case 0x00 => Nop
      case 0x01 => LdPairImm(PairBC)
      case 0x02 => StoreA(PairBC)
      case 0x03 => IncPair(PairBC)
      case 0x04 => Inc(RegB)
      case 0x05 => Dec(RegB)
      case 0x06 => LdImm(RegB)
      case 0x07 => RotateA(RlcOp)
      case 0x08 => StoreSP
      case 0x09 => AddHLPair(PairBC)
      case 0x0A => LoadA(PairBC)
      case 0x0B => DecPair(PairBC)
      case 0x0C => Inc(RegC)
      case 0x0D => Dec(RegC)
      case 0x0E => LdImm(RegC)
      case 0x0F => RotateA(RrcOp)
      case 0x10 => Nop
      case 0x11 => LdPairImm(PairDE)
      case 0x12 => StoreA(PairDE)
      case 0x13 => IncPair(PairDE)
      case 0x14 => Inc(RegD)
      case 0x15 => Dec(RegD)
      case 0x16 => LdImm(RegD)
      case 0x17 => Rla
      case 0x18 => Jr(Always)
      case 0x19 => AddHLPair(PairDE)
      case 0x1A => LoadA(PairDE)
      case 0x1B => DecPair(PairDE)
      case 0x1C => Inc(RegE)
      case 0x1D => Dec(RegE)
      case 0x1E => LdImm(RegE)
      case 0x1F => RotateA(RrOp)
      case 0x20 => Jr(IfNZ)
      case 0x21 => LdPairImm(PairHL)
      case 0x22 => StoreAHL(1)
      case 0x23 => IncPair(PairHL)
      case 0x24 => Inc(RegH)
      case 0x25 => Dec(RegH)
      case 0x26 => LdImm(RegH)
      case 0x27 => Daa
      case 0x28 => Jr(IfZ)
      case 0x29 => AddHLPair(PairHL)
      case 0x2A => LoadAHL(1)
      case 0x2B => DecHLUncounted
      case 0x2C => Inc(RegL)
      case 0x2D => Dec(RegL)
      case 0x2E => LdImm(RegL)
      case 0x2F => Cpl
      case 0x30 => Jr(IfNC)
      case 0x31 => LdPairImm(PairSP)
      case 0x32 => StoreAHL(-1)
      case 0x33 => IncPair(PairSP)
      case 0x34 => IncPair(PairHL)
      case 0x35 => DecPair(PairHL)
      case 0x36 => LdHLImm
      case 0x37 => Scf
      case 0x38 => Jr(IfC)
      case 0x39 => AddHLPair(PairSP)
      case 0x3A => LoadAHL(-1)
      case 0x3B => DecPair(PairSP)
      case 0x3C => Inc(RegA)
      case 0x3D => Dec(RegA)
      case 0x3E => LdImm(RegA)
      case _ => Ccf
  }

  /** The base table's last quarter, 0xC0-0xFF. */
  function DecodeHigh(op: byte): (i: Instr)
    requires 0xC0 <= op
    ensures i.Prefix? <==> op == 0xCB
    ensures !i.DecHLUncounted?
  {
    match op
      case 0xC0 => RetIf(IfNZ)
      case 0xC1 => Pop(StackBC)
      case 0xC2 => Jp(IfNZ)
      case 0xC3 => Jp(Always)
      case 0xC4 => Call(IfNZ)
      case 0xC5 => Push(StackBC)
      case 0xC6 => Alu(AddOp, FromImm)
      case 0xC7 => Rst(0x00)
      case 0xC8 => RetIf(IfZ)
      case 0xC9 => Ret
      case 0xCA => Jp(IfZ)
      case 0xCB => Prefix
      case 0xCC => Call(IfZ)
      case 0xCD => Call(Always)
      case 0xCE => Alu(AdcOp, FromImm)
      case 0xCF => Rst(0x08)
      case 0xD0 => RetIf(IfNC)
      case 0xD1 => Pop(StackDE)
      case 0xD2 => Jp(IfNC)
      case 0xD3 => Nop
      case 0xD4 => Call(IfNC)
      case 0xD5 => Push(StackDE)
      case 0xD6 => Alu(SubOp, FromImm)
      case 0xD7 => Rst(0x10)
      case 0xD8 => RetIf(IfC)
      case 0xD9 => Reti
      case 0xDA => Jp(IfC)
      case 0xDB => Nop
      case 0xDC => Call(IfC)
      case 0xDD => Nop
      case 0xDE => Alu(SbcOp, FromImm)
      case 0xDF => Rst(0x18)
      case 0xE0 => StoreHigh
      case 0xE1 => Pop(StackHL)
      case 0xE2 => StoreHighC
      case 0xE3 => Nop
      case 0xE4 => Nop
      case 0xE5 => Push(StackHL)
      case 0xE6 => Alu(AndOp, FromImm)
      case 0xE7 => Rst(0x20)
      case 0xE8 => AddSPOffset
      case 0xE9 => JpHL
      case 0xEA => StoreAbs
      case 0xEB => Nop
      case 0xEC => Nop
      case 0xED => Nop
      case 0xEE => Alu(XorOp, FromImm)
      case 0xEF => Rst(0x28)
      case 0xF0 => LoadHigh
      case 0xF1 => Pop(StackAF)
      case 0xF2 => LoadHighC
      case 0xF3 => LoadAC
      case 0xF4 => Nop
      case 0xF5 => Push(StackAF)
      case 0xF6 => Alu(OrOp, FromImm)
      case 0xF7 => Rst(0x30)
      case 0xF8 => LdHLSPOffset
      case 0xF9 => LdSPHL
      case 0xFA => LoadAbs
      case 0xFB => Ei
      case 0xFC => Nop
      case 0xFD => Nop
      case 0xFE => Alu(CpOp, FromImm)
      case _ => Rst(0x38)
  }

  /** The CB table, `self.cbcodes` with its handlers. */
  function DecodeCb(op: byte): (i: CbInstr)
    ensures i.t == LocAt(op % 8)
    ensures op < 0x40 ==> i.Shift? && i.sop == ShiftOpAt(op / 8)
    ensures 0x40 <= op < 0x80 ==> i.TestBit? && i.n == (op / 8) % 8
    ensures 0x80 <= op < 0xC0 ==> i.ResetBit? && i.n == (op / 8) % 8
    ensures 0xC0 <= op ==> i.SetBit? && i.n == (op / 8) % 8
  {
    var y, t := (op / 8) % 8, LocAt(op % 8);
    if op < 0x40 then Shift(ShiftOpAt(y), t)
    else if op < 0x80 then TestBit(y, t)
    else if op < 0xC0 then ResetBit(y, t)
    else SetBit(y, t)
  }

  /** The three-bit index of an operand: the inverse of `LocAt`. */
  function LocIndex(l: Loc): (i: nat)
    ensures i < 8 && LocAt(i) == l
  {
    match l
    case InReg(r) =>
      (match r
       case RegB => 0 case RegC => 1 case RegD => 2 case RegE => 3
       case RegH => 4 case RegL => 5 case RegA => 7)
    case AtHL => 6
  }

  /** The three-bit index of a rotate or shift: the inverse of `ShiftOpAt`. */
  function ShiftOpIndex(o: ShiftOp): (i: nat)
    ensures i < 8 && ShiftOpAt(i) == o
  {
    match o
    case RlcOp => 0 case RrcOp => 1 case RlOp => 2 case RrOp => 3
    case SlaOp => 4 case SraOp => 5 case SwapOp => 6 case SrlOp => 7
  }

  /** The CB opcode of an instruction: the group in bits 6-7, the shift or
      bit number in bits 3-5 and the operand in bits 0-2. */
  function EncodeCb(i: CbInstr): (op: byte)
  {
    var z := LocIndex(i.t);
    match i
    case Shift(o, _) => 8 * ShiftOpIndex(o) + z
    case TestBit(n, _) => 0x40 + 8 * n + z
    case ResetBit(n, _) => 0x80 + 8 * n + z
    case SetBit(n, _) => 0xC0 + 8 * n + z
  }

  /** Decoding the opcode of an instruction gives the instruction back:
      every CB handler form is reached by some opcode. */
  lemma DecodeEncodeCb(i: CbInstr)
    ensures DecodeCb(EncodeCb(i)) == i
  {
    var z := LocIndex(i.t);
    var y := match i
      case Shift(o, _) => ShiftOpIndex(o)
      case TestBit(n, _) => n
      case ResetBit(n, _) => n
      case SetBit(n, _) => n;
    var g := if i.Shift? then 0 else if i.TestBit? then 1 else if i.ResetBit? then 2 else 3;
    assert EncodeCb(i) == 64 * g + 8 * y + z;
    OpcodeFields(g, y, z);
  }

  /** Encoding the decoded instruction gives the opcode back: no two
      opcodes share a handler form, so the CB table is a bijection. */
  lemma EncodeDecodeCb(op: byte)
    ensures EncodeCb(DecodeCb(op)) == op
  {
    var g, y, z := op / 64, (op / 8) % 8, op % 8;
    OpcodeFields(g, y, z);
    assert op == 64 * g + 8 * y + z;
    var i := DecodeCb(op);
    IndexOfLocAt(z);
    assert LocIndex(i.t) == z;
    if op < 0x40 {
      IndexOfShiftOpAt(y);
      assert EncodeCb(i) == 8 * ShiftOpIndex(i.sop) + z;
    }
  }

  lemma IndexOfLocAt(z: nat)
    requires z < 8
    ensures LocIndex(LocAt(z)) == z
  {
  }

  lemma IndexOfShiftOpAt(y: nat)
    requires y < 8
    ensures ShiftOpIndex(ShiftOpAt(y)) == y
  {
  }

  /** The fields of an opcode built from a group, a middle and a low field. */
  lemma OpcodeFields(g: nat, y: nat, z: nat)
    requires g < 4 && y < 8 && z < 8
    ensures var op := 64 * g + 8 * y + z;
            op < 256 && op % 8 == z && (op / 8) % 8 == y && op / 64 == g
  {
    var op := 64 * g + 8 * y + z;
    assert op == 8 * (8 * g + y) + z;
    assert op / 8 == 8 * g + y;
  }
}
