/** The memory bus (mmu.py): 64 KiB of bytes with special rules for the
    joypad register JOYP (0xFF00), the divider DIV (0xFF04) and the interrupt
    flags IF (0xFF0F).  `Read` and `Write` say what `read_byte` and
    `write_byte` do to the memory as a value; the class `MMU` holds the
    bytearray and updates it in place. */
module Mmu {
  import opened Bits

  const MemSize: nat := 0x1_0000
  const Joyp: int := 0xFF00
  const Div: int := 0xFF04
  const IntFlags: int := 0xFF0F
  const Lcdc: int := 0xFF40
  const Scy: int := 0xFF42
  const Scx: int := 0xFF43
  const Ly: int := 0xFF44
  const Bgp: int := 0xFF47

  /** The indexes a 65536-byte bytearray accepts: from -65536 (counting from
      the end) up to 65535.  Any other index raises IndexError. */
  predicate InRange(addr: int)
  {
    -0x1_0000 <= addr < 0x1_0000
  }

  /** The cell an in-range index designates. */
  function Cell(addr: int): (i: nat)
    requires InRange(addr)
    ensures i < MemSize
    ensures 0 <= addr ==> i == addr
    ensures addr < 0 ==> i == addr + MemSize
  {
    if addr < 0 then addr + MemSize else addr
  }

  /** The cell is the index reduced modulo the length: every in-range index,
      negative or not, designates the one cell congruent to it. */
  lemma CellIsModulo(addr: int)
    requires InRange(addr)
    ensures Cell(addr) == addr % MemSize
    ensures forall j :: InRange(j) && Cell(j) == Cell(addr) ==> j == addr || j == addr + MemSize || j == addr - MemSize
  {
  }

  /** `read_byte` (mmu.py:5-19).  JOYP always reads 0xFF and DIV always
      reads 0; IF, the PPU registers and every other address read the stored
      byte.  The comparisons are on the address as given, so a negative
      index that wraps onto 0xFF00 reads the stored byte. */
  function Read(mem: seq<byte>, addr: int): byte
    requires |mem| == MemSize && InRange(addr)
  {
    if addr == Joyp then 0xFF
    else if addr == Div then 0
    else mem[Cell(addr)]
  }

  /** `write_byte` (mmu.py:21-44).  A JOYP write only replaces bits 4 and 5,
      a DIV write stores 0, an IF write stores the value with bits 5-7 set;
      LY, the other PPU registers and every other address, the ROM area
      included, store the value as given. */
  function Write(mem: seq<byte>, addr: int, v: byte): (m: seq<byte>)
    requires |mem| == MemSize && InRange(addr)
    ensures |m| == MemSize
  {
    if addr == Joyp then mem[Joyp := Or8(And8(mem[Joyp], 0xCF), And8(v, 0x30))]
    else if addr == Div then mem[Div := 0]
    else if addr == IntFlags then mem[IntFlags := Or8(v, 0xE0)]
    else mem[Cell(addr) := v]
  }

  // ---------------------------------------------------------------------
  // What reads and writes promise.

  /** JOYP and DIV read as constants whatever memory holds. */
  lemma ReadConstants(mem: seq<byte>)
    requires |mem| == MemSize
    ensures Read(mem, Joyp) == 0xFF && Read(mem, Div) == 0
  {
  }

  /** A write changes at most the one cell its address designates. */
  lemma WriteOneCell(mem: seq<byte>, addr: int, v: byte, i: int)
    requires |mem| == MemSize && InRange(addr)
    requires 0 <= i < MemSize && i != Cell(addr)
    ensures Write(mem, addr, v)[i] == mem[i]
  {
  }

  /** Outside JOYP, DIV and IF a write stores the value unchanged and a
      later read returns it. */
  lemma ReadAfterWrite(mem: seq<byte>, addr: int, v: byte)
    requires |mem| == MemSize && InRange(addr)
    requires addr != Joyp && addr != Div && addr != IntFlags
    ensures Write(mem, addr, v)[Cell(addr)] == v
    ensures Read(Write(mem, addr, v), addr) == v
  {
  }

  /** A read of another address is not disturbed by a write. */
  lemma ReadOtherAfterWrite(mem: seq<byte>, addr: int, v: byte, other: int)
    requires |mem| == MemSize && InRange(addr) && InRange(other)
    requires Cell(other) != Cell(addr)
    ensures Read(Write(mem, addr, v), other) == Read(mem, other)
  {
  }

  /** A DIV write stores 0 whatever the value. */
  lemma WriteDivider(mem: seq<byte>, v: byte)
    requires |mem| == MemSize
    ensures Write(mem, Div, v)[Div] == 0
  {
  }

  /** A JOYP write takes bits 4 and 5 from the value and keeps the other
      six bits of the stored byte. */
  lemma WriteJoypad(mem: seq<byte>, v: byte, k: nat)
    requires |mem| == MemSize && k < 8
    ensures Bit(Write(mem, Joyp, v)[Joyp], k) == if k == 4 || k == 5 then Bit(v, k) else Bit(mem[Joyp], k)
  {
    BitOr(And8(mem[Joyp], 0xCF), And8(v, 0x30), 8, k);
    BitAnd(mem[Joyp], 0xCF, 8, k);
    BitAnd(v, 0x30, 8, k);
    ConstantBits(k);
  }

  /** An IF write keeps bits 0-4 of the value and sets bits 5-7. */
  lemma WriteInterruptFlags(mem: seq<byte>, v: byte, k: nat)
    requires |mem| == MemSize && k < 8
    ensures Bit(Write(mem, IntFlags, v)[IntFlags], k) == if k < 5 then Bit(v, k) else 1
  {
    BitOr(v, 0xE0, 8, k);
    ConstantBits(k);
  }

  /** The bits of the three masks `write_byte` uses. */
  lemma ConstantBits(k: nat)
    requires k < 8
    ensures Bit(0xCF, k) == if k == 4 || k == 5 then 0 else 1
    ensures Bit(0x30, k) == if k == 4 || k == 5 then 1 else 0
    ensures Bit(0xE0, k) == if k < 5 then 0 else 1
  {
    Pow2Table();
    if k == 0 {
    } else if k == 1 {
    } else if k == 2 {
    } else if k == 3 {
    } else if k == 4 {
    } else if k == 5 {
    } else if k == 6 {
    }
  }

  // ---------------------------------------------------------------------
  // The bus object.

  /** `MMU` (mmu.py:1-3): the bytearray, updated in place by `WriteByte`. */
  class MMU {
    const memory: array<byte>

    ghost predicate Valid()
    {
      memory.Length == MemSize
    }

    /** A fresh bus holds 65536 zero bytes. */
    constructor ()
      ensures Valid() && fresh(memory)
      ensures forall i :: 0 <= i < MemSize ==> memory[i] == 0
    {
      memory := new byte[MemSize](_ => 0);
    }

    /** `read_byte`; it changes nothing. */
    method ReadByte(addr: int) returns (v: byte)
      requires Valid() && InRange(addr)
      ensures v == Read(memory[..], addr)
      ensures addr == Joyp ==> v == 0xFF
      ensures addr == Div ==> v == 0
      ensures addr != Joyp && addr != Div ==> v == memory[Cell(addr)]
    {
      if addr == Joyp {
        v := 0xFF;
      } else if addr == Div {
        v := 0;
      } else {
        v := memory[Cell(addr)];
      }
    }

    /** `write_byte`: exactly one cell of `memory` is assigned. */
    method WriteByte(addr: int, v: byte)
      requires Valid() && InRange(addr)
      modifies memory
      ensures memory[..] == Write(old(memory[..]), addr, v)
      ensures forall i :: 0 <= i < MemSize && i != Cell(addr) ==> memory[i] == old(memory[i])
    {
      if addr == Joyp {
        memory[Joyp] := Or8(And8(memory[Joyp], 0xCF), And8(v, 0x30));
      } else if addr == Div {
        memory[Div] := 0;
      } else if addr == IntFlags {
        memory[IntFlags] := Or8(v, 0xE0);
      } else {
        memory[Cell(addr)] := v;
      }
    }
  }
}
