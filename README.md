# A verified model of a small Game Boy emulator core

This project models the core of a Python Game Boy emulator in Dafny and
proves properties of that model. It covers three parts:

- **The MMU** (`mmu.py`). This is a 64 KiB bytearray.
  - Reading JOYP gives 0xFF and reading DIV gives 0.
  - A JOYP write keeps only bits 4 and 5 of the value.
  - A DIV write stores 0.
  - An IF write sets bits 5-7.
  - Every other address, ROM included, is written directly.
- **The CPU** (`cpu.py`). It has the register file and the flag and
  register-pair accessors. It has the stack helpers, the fetch helpers, and
  the ALU, rotate, shift and bit helpers. Its two dispatch tables hold the
  base handlers (`op_0x..`) and the CB-prefixed handlers (`cb_0x..`), and
  `step` fetches, advances PC and dispatches.
- **The PPU** (`ppu.py`). This is the dot-counting mode machine (OAM scan,
  drawing, H-Blank, V-Blank) and the background renderer. The renderer
  fills one 160-pixel row of a 144x160 framebuffer per scanline from the
  tile map, the tile data, SCX/SCY and the BGP palette.

The model has two layers.

The specification layer is made of pure functions on values:
- `Semantics.Exec` gives the effect of one base handler on a `Machine`
  (the CPU registers and the memory).
- `Semantics.ExecCb` does the same for one CB handler.
- `Semantics.Step` gives the effect of `step`.
- `Ppu.ScreenStep` gives the effect of `PPU.step` on a `Screen` (dots,
  mode, IME, memory, framebuffer).

Handlers are decoded from the two dispatch tables by `Isa.Decode` and
`Isa.DecodeCb`. Where the class defines a handler twice, the later
definition is the one that takes effect, and the decoder follows it.

The imperative layer is made of classes:
- `Mmu.MMU` owns the memory array.
- `Cpu.CPU` keeps the registers as fields and shares the `MMU`.
- `Ppu.PPU` keeps `dots` and `mode` as fields, together with a framebuffer
  array. It shares the CPU's bus, and it updates `cpu.ime` and the memory
  in place; its `Step` may change no other field of the CPU.

Each method is proved to compute exactly what the specification function
prescribes for its old state, and its frame says what else it may touch. The properties (round trips, timing, flags,
the mode machine, the renderer's output) are lemmas about the
specification functions.

A Python error is an outcome in the model:
- A handler that indexes the bytearray out of range raises IndexError, and
  its outcome is `Crash`.
- A handler that returns no cycle count gives `NoCount`. This is 0x2B,
  whose handler lacks a `return`.
- With the LCD on (LCDC bit 7 set), `PPU.step` with `NoCount` cycles raises
  TypeError; with the LCD off it returns before adding the cycles. With the
  background enabled (LCDC bit 0 set), rendering a line outside the
  framebuffer raises IndexError. Both failures give `None`.

Integers are unbounded, as in Python. The model keeps unmasked values
where the source does not mask. Examples are PC after a jump, SP after a
push, and LY+1 in the PPU. A later out-of-range index is then a crash,
exactly as in the source.

## Model

| member | source | states |
|---|---|---|
| Flags.SetZ | cpu.py:53-54 | Z becomes the value given; N, H, C and the low nibble of F are unchanged |
| Flags.SetN | cpu.py:59-60 | N becomes the value given; Z, H, C and the low nibble are unchanged |
| Flags.SetH | cpu.py:65-66 | H becomes the value given; Z, N, C and the low nibble are unchanged |
| Flags.SetC | cpu.py:71-72 | C becomes the value given; Z, N, H and the low nibble are unchanged |
| Flags.SetZIsMask | cpu.py:53-54 | the flag update equals the source's `(f & 0x7F) \| (v << 7)` |
| Flags.SetNIsMask | cpu.py:59-60 | the flag update equals `(f & 0xBF) \| (v << 6)` |
| Flags.SetHIsMask | cpu.py:65-66 | the flag update equals `(f & 0xDF) \| (v << 5)` |
| Flags.SetCIsMask | cpu.py:71-72 | the flag update equals `(f & 0xEF) \| (v << 4)` |
| Flags.Flags4 | cpu.py:270-274 | sets all four flags to the values given and keeps the low nibble of F |
| Flags.Flags4IsSetters | cpu.py:270-274 | setting all four flags at once equals the four setter calls in Z, N, H, C order, in C, Z, N, H order (RLA) and in Z, C, N, H order, and the six calls of the AND handlers; sequences of three or fewer calls follow from the next three rows |
| Flags.SettersCommute | cpu.py:53-72 | setters of two different flags commute |
| Flags.LastWriteWins | cpu.py:53-72 | a second call of the same setter overrides the first, so the AND handlers' later H and C calls decide those flags |
| Flags.SetterKeepsValue | cpu.py:53-72 | setting a flag to its current value leaves F unchanged, so a handler that skips a setter matches `Flags4` with that flag's old value |
| Flags.Unpack | cpu.py:50-72 | every value of F is determined by its four flags and its low nibble |
| Alu.Inc | cpu.py:110-115 | the value wraps from 255 to 0 and otherwise grows by 1; Z is set iff the result is 0; N is cleared; H is set iff the low nibble was 0xF; C is kept |
| Alu.Dec | cpu.py:117-122 | the value wraps from 0 to 255 and otherwise drops by 1; Z is set iff the result is 0; N is set; H is set iff the low nibble was 0; C is kept |
| Alu.IncDecInverse | cpu.py:110-122 | `_dec` undoes `_inc` and `_inc` undoes `_dec` on every byte |
| Alu.Rlc | cpu.py:140-147 | rotate left: bit 7 goes to bit 0 and to C; Z is set iff the result is 0; N and H are cleared |
| Alu.Rrc | cpu.py:149-156 | rotate right: bit 0 goes to bit 7 and to C; Z, N and H as for RLC |
| Alu.RotateInverse | cpu.py:140-156 | RRC undoes RLC and RLC undoes RRC |
| Alu.Rl | cpu.py:158-166 | the result and the new C form the 9-bit value 2*v + old C |
| Alu.Rr | cpu.py:168-176 | 2*result + new C == v + 256*old C |
| Alu.RotateThroughCarryInverse | cpu.py:158-176 | RR undoes RL and RL undoes RR, value and carry both |
| Alu.Sla | cpu.py:178-185 | the result plus 256 times the new C is 2*v |
| Alu.Sra | cpu.py:187-195 | shift right keeping bit 7; bit 0 goes to C |
| Alu.SraIsOr | cpu.py:187-195 | equals the source's `(v >> 1) \| (v & 0x80)` |
| Alu.Srl | cpu.py:197-204 | 2*result + new C == v, so bit 7 becomes 0 |
| Alu.Swap | cpu.py:206-212 | exchanges the nibbles; Z is set iff v is 0; N, H and C are cleared |
| Alu.SwapTwice | cpu.py:206-212 | SWAP applied twice is the identity |
| Alu.BitTest | cpu.py:214-218 | Z is set iff bit n of v is clear; N is cleared; H is set; C is kept |
| Alu.Res | cpu.py:220-223 | bit n of the result is 0 |
| Alu.ResBits | cpu.py:220-223 | RES n clears bit n and keeps every other bit |
| Alu.Set | cpu.py:225-226 | bit n of the result is 1 |
| Alu.SetBits | cpu.py:225-226 | SET n sets bit n and keeps every other bit |
| Alu.ResSetAbsorb | cpu.py:220-226 | SET after RES is SET; RES after SET is RES; each leaves a byte that already has the bit unchanged |
| Alu.Add | cpu.py:229-235 | the result plus 256 times C is a + v; H is the carry out of bit 3; Z is set iff the result is 0; N is cleared |
| Alu.Adc | cpu.py:237-244 | the result plus 256 times the new C is a + v + old C; H is the carry out of bit 3 with the carry in |
| Alu.Sub | cpu.py:246-252 | the result minus 256 times C is a - v; H is the borrow from bit 4; N is set |
| Alu.AddSubInverse | cpu.py:229-252 | SUB undoes ADD and ADD undoes SUB, modulo 256 |
| Alu.Sbc | cpu.py:254-261 | the result minus 256 times the new C is a - v - old C |
| Alu.CarryClear | cpu.py:237-261 | with C clear, ADC equals ADD and SBC equals SUB, flags included |
| Alu.Cp | cpu.py:263-268 | Z is set iff a == v; C is set iff a < v; H is the nibble borrow; N is set |
| Alu.CpIsSubFlags | cpu.py:263-268 | CP leaves exactly the flags SUB would |
| Bits.BytewiseBits | cpu.py:1064-1084 | Python's `&`, `\|` and `^` on two bytes act bit by bit: AND, OR and exclusive OR of the operands' bits |
| Alu.And | cpu.py:1064-1070 | each bit of the result is the AND of the operands' bits; Z is set iff the result is 0; H is set; N and C are cleared |
| Alu.Xor | cpu.py:1071-1077 | each bit of the result is the exclusive OR of the operands' bits; Z is set iff the result is 0; N, H and C are cleared |
| Alu.Or | cpu.py:1078-1084 | each bit of the result is the OR of the operands' bits; Z is set iff the result is 0; N, H and C are cleared |
| Alu.SelfOperand | cpu.py:1414-1421 | AND A and OR A leave A unchanged; XOR A clears A and sets Z |
| Alu.Rla | cpu.py:1261-1269 | rotate A left through C; Z, N and H are cleared |
| Alu.Cpl | cpu.py:1486-1491 | A becomes 0xFF - A; N and H are set; Z and C are kept |
| Alu.Scf | cpu.py:987-992 | C is set; N and H are cleared; Z is kept |
| Alu.Ccf | cpu.py:134-138 | C is inverted; N and H are cleared; Z is kept |
| Alu.Daa | cpu.py:1276-1300 | Z is set iff the result is 0; H is cleared; N is kept; a set carry stays set; after a subtraction C is unchanged |
| Alu.DaaAdjust | cpu.py:1276-1298 | the adjustment never lowers A after an addition and never raises it after a subtraction |
| Alu.DaaOfBcdSum | cpu.py:1276-1300 | DAA on the binary sum of two BCD bytes gives the BCD digits of the decimal sum mod 100, with C the decimal carry |
| Alu.DaaOfBcdDifference | cpu.py:1276-1300 | DAA on the binary difference of two BCD bytes gives the decimal difference mod 100, with C the decimal borrow |
| Alu.DaaAfterAdd | cpu.py:1276-1300 | ADD of two BCD bytes followed by DAA is decimal addition |
| Alu.DaaAfterSub | cpu.py:1276-1300 | SUB of two BCD bytes followed by DAA is decimal subtraction |
| Alu.AddHL | cpu.py:1402-1413 | the 16-bit sum plus 0x10000 times C is HL + rr; H is the carry out of bit 11; N is cleared; Z is kept |
| Alu.Signed | cpu.py:124-127 | the offset byte read as two's complement, in -128..127 and congruent to the byte mod 256 |
| Alu.AddSpOffset | cpu.py:1207-1218 | SP + e mod 0x10000; Z and N are cleared; H and C are the carries from the low nibble and the low byte |
| Mmu.CellIsModulo | mmu.py:19 | the cell an index designates is the index modulo 65536, so a negative index counts from the end as Python's does; two indexes that designate the same cell are equal or 65536 apart |
| Mmu.ReadConstants | mmu.py:5-11 | JOYP reads 0xFF and DIV reads 0, whatever memory holds |
| Mmu.WriteOneCell | mmu.py:21-44 | a write changes at most the one cell its address designates |
| Mmu.ReadAfterWrite | mmu.py:33-44 | outside JOYP, DIV and IF, a write stores the value and a read gives it back |
| Mmu.ReadOtherAfterWrite | mmu.py:21-44 | a write does not disturb the read of any other cell |
| Mmu.WriteDivider | mmu.py:26-29 | a DIV write stores 0 |
| Mmu.WriteJoypad | mmu.py:22-25 | a JOYP write takes bits 4 and 5 from the value and keeps the other bits |
| Mmu.WriteInterruptFlags | mmu.py:30-32 | an IF write keeps bits 0-4 of the value and sets bits 5-7 |
| Mmu.MMU.constructor | mmu.py:2-3 | 65536 zero bytes |
| Mmu.MMU.ReadByte | mmu.py:5-19 | returns the `read_byte` value and changes nothing |
| Mmu.MMU.WriteByte | mmu.py:21-44 | the memory becomes the `write_byte` result |
| Isa.Decode | cpu.py:647-728 | maps each base opcode to its handler's instruction; only 0xCB is the prefix and only 0x2B is the uncounted DEC HL |
| Isa.DecodeCb | cpu.py:276-357 | maps each CB opcode to its handler's instruction: rotates and shifts, BIT, RES or SET on the operand in the opcode's low three bits |
| Isa.DecodeEncodeCb | cpu.py:276-357 | every CB handler form (shift, BIT, RES or SET with its bit and operand) is reached by the opcode `EncodeCb` builds from its fields |
| Isa.EncodeDecodeCb | cpu.py:276-357 | no two CB opcodes share a handler form: encoding the decoded instruction gives the opcode back, so the 256-entry table is a bijection |
| Semantics.Boot | cpu.py:2-22 | the register values after the boot ROM: the low nibble of F is 0, and memory is the bus's |
| Semantics.Join | cpu.py:92-95 | `(hi << 8) \| lo`: the high byte is hi and the low byte is lo |
| Semantics.HighNibble | cpu.py:1371-1375 | POP AF's mask leaves the low nibble 0 |
| CpuProperties.HighNibbleIsMask | cpu.py:1371-1375 | equals the source's `val & 0xFF & 0xF0` |
| CpuProperties.HighNibbleFlags | cpu.py:1371-1375 | POP AF's mask keeps the four flags |
| CpuProperties.SplitJoin | cpu.py:31-33 | splitting a value into `(v >> 8) & 0xFF` and `v & 0xFF` and joining them gives v mod 0x10000 |
| CpuProperties.PairRoundTrip | cpu.py:28-47 | a pair setter followed by the getter yields v mod 0x10000; the other pairs, A, F, PC, IME and memory are unchanged |
| CpuProperties.IncPairWraps | cpu.py:1388-1390 | INC rr takes 8 cycles, wraps 0xFFFF to 0, and leaves the other pairs alone |
| CpuProperties.DecPairWraps | cpu.py:1438-1441 | DEC rr takes 8 cycles, wraps 0 to 0xFFFF, and leaves the other pairs alone |
| CpuProperties.ExecCbKeepsLowNibble | cpu.py:359-645 | every CB handler returns, and none sets a bit of F's low nibble |
| CpuProperties.AluKeepsLowNibble | cpu.py:229-268 | no eight-bit ALU helper changes F's low nibble |
| CpuProperties.ShiftKeepsLowNibble | cpu.py:140-212 | no rotate, shift or swap helper changes F's low nibble |
| CpuProperties.LoadKeepsLowNibble | cpu.py:1318-1363 | no load or store handler sets a bit of F's low nibble |
| CpuProperties.ArithmeticKeepsLowNibble | cpu.py:1252-1315 | no arithmetic or flag handler sets a bit of F's low nibble |
| CpuProperties.ExecKeepsLowNibble | cpu.py:730-1733 | no base handler sets a bit of F's low nibble |
| CpuProperties.StepKeepsLowNibble | cpu.py:74-85 | from a state with F's low nibble 0, such as the boot state, a step keeps it 0 |
| CpuProperties.PushThenPop | cpu.py:97-108 | `_push_word` puts the high byte at SP-1 and the low byte at SP-2, lowers SP by 2, and `_pop_word` then returns v mod 0x10000 with SP restored |
| CpuProperties.CallPushesReturn | cpu.py:1699-1704 | with PC at its operand, CALL nn takes 24 cycles, pushes the address just past the operand (high byte at SP-1, low byte at SP-2), lowers SP by 2 and jumps to the operand |
| CpuProperties.CallThenRet | cpu.py:1694-1704 | CALL nn followed by RET resumes just past CALL's operand with SP restored; RET takes 16 cycles |
| CpuProperties.CbCycles | cpu.py:359-645 | each CB handler returns 8 cycles on a register, 12 for BIT on (HL), and 16 for the other (HL) forms |
| CpuProperties.JrTiming | cpu.py:124-132 | JR takes 12 cycles when taken and 8 when not; a jump not taken only skips the operand |
| CpuProperties.JpTiming | cpu.py:1656-1663 | JP cc takes 16 cycles when taken and 12 when not; a jump not taken only skips the operand |
| CpuProperties.CallTiming | cpu.py:1093-1101 | CALL cc takes 24 cycles when taken and 12 when not; a call not taken only skips the operand |
| CpuProperties.RetIfTiming | cpu.py:1648-1654 | RET cc takes 20 cycles when taken and 8 when not; a return not taken changes nothing |
| CpuProperties.ArithmeticTicks | cpu.py:750-752 | of the arithmetic and flag handlers, exactly 0x2B's returns no cycle count |
| CpuProperties.UncountedOnlyDecHL | cpu.py:750-752 | the only opcode whose handler returns no cycle count is 0x2B |
| Cpu.CPU.constructor | cpu.py:2-25 | the fields hold the boot values and the CPU shares the bus |
| Cpu.CPU.PairValue | cpu.py:28-46 | `_get_bc`, `_get_de` and `_get_hl`, joining the high and low registers |
| Cpu.CPU.SetPairValue | cpu.py:31-47 | `_set_bc`, `_set_de` and `_set_hl` split the value into the two registers |
| Cpu.CPU.ReadNextByte | cpu.py:87-90 | reads the byte at PC and advances PC, or reports the out-of-range index |
| Cpu.CPU.ReadNextWord | cpu.py:92-95 | reads two bytes at PC, low byte first, and advances PC by 2 |
| Cpu.CPU.PushWord | cpu.py:97-101 | decrements SP twice, writing the high byte and then the low byte |
| Cpu.CPU.PopWord | cpu.py:103-108 | reads the low byte and then the high byte, incrementing SP twice |
| Cpu.CPU.Step | cpu.py:74-85 | fetch, advance PC and dispatch; the new fields and memory and the returned count are those of `Semantics.Step` |
| Cpu.CPU.Execute | cpu.py:647-728 | runs the handler the table names for the instruction, with the effect `Semantics.Exec` prescribes |
| Cpu.CPU.ExecuteLoad | cpu.py:1318-1363 | the load and store handlers, with the effect `Semantics.Exec` prescribes |
| Cpu.CPU.ExecuteArithmetic | cpu.py:1252-1315 | the arithmetic and flag handlers, with the effect `Semantics.Exec` prescribes |
| Cpu.CPU.ExecuteControl | cpu.py:1611-1721 | the jump, call, return, PUSH and POP handlers, with the effect `Semantics.Exec` prescribes |
| Cpu.CPU.LoadRegister | cpu.py:994-1029 | LD r,r' copies the register and returns 4 |
| Cpu.CPU.LoadFromHL | cpu.py:1349-1354 | LD r,(HL) reads the byte at HL and returns 8 |
| Cpu.CPU.StoreToHL | cpu.py:1030-1035 | LD (HL),r writes through the MMU and returns 8 |
| Cpu.CPU.LoadImmediate | cpu.py:1318-1324 | LD r,n fetches the operand and returns 8 |
| Cpu.CPU.StoreImmediateToHL | cpu.py:1341 | LD (HL),n writes the operand at HL and returns 12 |
| Cpu.CPU.LoadPairImmediate | cpu.py:1360-1363 | LD rr,nn fetches a word into the pair and returns 12 |
| Cpu.CPU.StoreAIndirect | cpu.py:1332-1333 | LD (BC),A and LD (DE),A |
| Cpu.CPU.LoadAIndirect | cpu.py:1336-1337 | LD A,(BC) and LD A,(DE) |
| Cpu.CPU.StoreAThroughHL | cpu.py:1334-1335 | LD (HL+),A and LD (HL-),A store A, then step HL |
| Cpu.CPU.LoadAThroughHL | cpu.py:1338-1339 | LD A,(HL+) and LD A,(HL-) load A, then step HL |
| Cpu.CPU.StoreHighImmediate | cpu.py:1345 | LDH (n),A writes A at 0xFF00+n |
| Cpu.CPU.LoadHighImmediate | cpu.py:1348 | LDH A,(n) reads 0xFF00+n into A |
| Cpu.CPU.StoreHighThroughC | cpu.py:1346 | LD (C),A writes A at 0xFF00+C |
| Cpu.CPU.LoadHighThroughC | cpu.py:873-876 | LD A,(C) reads 0xFF00+C into A |
| Cpu.CPU.LoadAFromC | cpu.py:1358 | 0xF3 as defined: A gets the byte at address C, 4 cycles |
| Cpu.CPU.StoreAAbsolute | cpu.py:1347 | LD (nn),A |
| Cpu.CPU.LoadAAbsolute | cpu.py:1352 | LD A,(nn) |
| Cpu.CPU.StoreStackPointer | cpu.py:1723-1728 | LD (nn),SP writes the low byte at nn and the high byte at nn+1 |
| Cpu.CPU.LoadSPFromHL | cpu.py:1247-1250 | LD SP,HL |
| Cpu.CPU.LoadHLFromSPOffset | cpu.py:1234-1245 | LD HL,SP+e with the flags of `AddSpOffset` |
| Cpu.CPU.AddOffsetToSP | cpu.py:1207-1218 | ADD SP,e with the flags of `AddSpOffset` |
| Cpu.CPU.Increment | cpu.py:1252-1255 | INC r through `_inc`, 4 cycles |
| Cpu.CPU.Decrement | cpu.py:1423-1426 | DEC r through `_dec`, 4 cycles |
| Cpu.CPU.IncrementPair | cpu.py:1388-1390 | INC rr, including 0x33 and 0x34 as defined |
| Cpu.CPU.DecrementPair | cpu.py:1438-1441 | DEC rr, including 0x3B and 0x35 as defined |
| Cpu.CPU.DecrementHLUncounted | cpu.py:750-752 | 0x2B decrements HL and returns no count |
| Cpu.CPU.AddPairToHL | cpu.py:1402-1413 | ADD HL,rr with the flags of `AddHL` |
| Cpu.CPU.Arithmetic | cpu.py:1036-1091 | the ALU block: A op r or A op (HL), through the helpers |
| Cpu.CPU.ArithmeticImmediate | cpu.py:1103-1112 | A op n on the fetched operand |
| Cpu.CPU.RotateAccumulator | cpu.py:730-738 | 0x07, 0x0F and 0x1F through `_rlc`, `_rrc` and `_rr` |
| Cpu.CPU.RotateLeftThroughCarry | cpu.py:1261-1269 | RLA |
| Cpu.CPU.DecimalAdjust | cpu.py:1276-1300 | DAA |
| Cpu.CPU.Complement | cpu.py:1486-1491 | CPL |
| Cpu.CPU.SetCarryFlag | cpu.py:987-992 | SCF |
| Cpu.CPU.ComplementCarryFlag | cpu.py:763-765 | CCF through `_ccf` |
| Cpu.CPU.JumpRelative | cpu.py:1616-1646 | JR and JR cc through `_jr` |
| Cpu.CPU.JumpAbsolute | cpu.py:1611-1614 | JP nn and JP cc,nn |
| Cpu.CPU.JumpToHL | cpu.py:1718-1721 | JP (HL) |
| Cpu.CPU.CallSubroutine | cpu.py:1699-1704 | CALL nn and CALL cc,nn push the return address and jump |
| Cpu.CPU.Return | cpu.py:1694-1697 | RET pops PC |
| Cpu.CPU.ReturnIf | cpu.py:1648-1654 | RET cc pops PC when the condition holds |
| Cpu.CPU.ReturnFromInterrupt | cpu.py:1170-1174 | RETI pops PC and sets IME |
| Cpu.CPU.Restart | cpu.py:803-807 | RST pushes PC and jumps to the fixed vector |
| Cpu.CPU.PushPair | cpu.py:1365-1368 | PUSH rr, with AF as `(a << 8) \| f` |
| Cpu.CPU.PopPair | cpu.py:1369-1375 | POP rr; POP AF clears F's low nibble |
| Cpu.CPU.HandleCbOpcode | cpu.py:1735-1736 | runs the CB handler for the opcode; the result is `Semantics.ExecCb` |
| Ppu.TileIdAddress | ppu.py:91-94 | the map entry lies in the 1 KiB tile map that LCDC bit 3 selects |
| Ppu.TileRowAddress | ppu.py:97-104 | the row's two bytes lie in the 4 KiB tile data area that LCDC bit 4 selects |
| Ppu.ColorId | ppu.py:109-110 | a colour id 0..3 |
| Ppu.ColorIdBits | ppu.py:109-110 | the id's low bit is the tile bit of byte1 and its high bit that of byte2 |
| Ppu.Shade | ppu.py:113 | a palette entry 0..3 |
| Ppu.ShadeBits | ppu.py:113 | entry id is bits 2*id and 2*id+1 of BGP |
| Ppu.BackgroundRow | ppu.py:88-115 | 160 pixels, each one of the four colours |
| Ppu.PixelFromReads | ppu.py:88-115 | the colour computed from the values the loop reads is the model's `Pixel` |
| Ppu.BlankRowPixel | ppu.py:104-115 | a tile row of two zero bytes shows palette entry 0 |
| Ppu.BlankTileIsShadeZero | ppu.py:78-115 | with all tile data zero every pixel shows palette entry 0: white under BGP 0xE4 |
| Ppu.SameMapColumn | ppu.py:86-89 | a pixel depends on x and SCX only through the map column `(x + scx) & 0xFF` |
| Ppu.ScrollShiftsRow | ppu.py:86-89 | raising SCX by one shifts the row one pixel to the left |
| Ppu.ScrollWraps | ppu.py:89 | the map position wraps at 256 pixels |
| Ppu.Initial | ppu.py:2-19 | a white 144x160 framebuffer, mode 2, 0 dots |
| Ppu.StepWellFormed | ppu.py:21-65 | a step keeps the memory size and the framebuffer's shape |
| Ppu.LcdOffResets | ppu.py:22-28 | with LCDC bit 7 clear, a step sets LY, dots and mode to 0 and changes nothing else |
| Ppu.ModeTransitions | ppu.py:35-65 | the mode changes at most once per step, only along 2->3->0->2, 0->1 and 1->2; each change resets dots; dots grows by the cycle count exactly when the step stays below the mode's length (80, 172, 204 or 456 dots), and is reset otherwise |
| Ppu.BelowThresholdGrows | ppu.py:30-65 | below the current mode's length a step only adds the cycles to dots and changes nothing else |
| Ppu.OamScanEnds | ppu.py:35-38 | at 80 dots the OAM scan gives way to drawing with dots reset, and nothing else changes |
| Ppu.DrawingEnds | ppu.py:39-43 | at 172 dots drawing gives way to H-Blank with dots reset and memory and IME kept; row LY is rendered with LCDC bit 0 set, and the step fails iff that bit is set and LY is outside the framebuffer |
| Ppu.HBlankEnds | ppu.py:44-56 | the end of H-Blank advances LY; on line 143 it enters V-Blank, sets IME and raises IF bit 0; on earlier lines it enters OAM scan |
| Ppu.VBlankLineEnds | ppu.py:57-65 | a V-Blank line lasts 456 dots; LY counts to 153 and then wraps to 0 with mode 2 |
| Ppu.LineStaysInRange | ppu.py:44-65 | LY stays within 0..153 |
| Ppu.RenderTouchesOneRow | ppu.py:39-43 | a step only writes row LY, only at the end of mode 3 with LCDC bits 7 and 0 set, and only with the four colours |
| Ppu.PPU.constructor | ppu.py:2-19 | the fields and framebuffer are `Initial` |
| Ppu.PPU.Step | ppu.py:21-65 | the fields, `cpu.ime`, memory and framebuffer become `ScreenStep` of the old state, or the step fails as the source raises; of the CPU only `ime` may change, so its other registers are kept |
| Ppu.PPU.RenderScanline | ppu.py:67-76 | renders the background only when LCDC bit 0 is set |
| Ppu.PPU.RenderBackground | ppu.py:78-115 | row `ly` of the framebuffer becomes `BackgroundRow` and every other row is unchanged; a line of 144 or more is an IndexError |
| Ppu.PPU.PaintRow | ppu.py:88-115 | the loop over x: cell (ly, x) becomes `BackgroundRow`'s pixel x for every x, and every other row is unchanged |
| Ppu.PPU.BackgroundPixel | ppu.py:89-113 | one pass of the loop computes the model's `Pixel` for column x |

## Left out

- The main loop, ROM loading (`MMU.load_rom`), the pygame window, and the
  `print` calls in `step`, in the HALT handler (0x76) and in the handlers
  of the forbidden opcodes. These are I/O; apart from printing, those
  handlers return 4 and do nothing, which is what the model does.
- `exit(1)` on an unknown opcode is unreachable. Both tables define all 256
  entries, so `Step` never takes that branch.
- What the source does after an IndexError or TypeError. The model stops
  at `Crash` or `None` and does not describe the partial state. On the
  Python side the exception ends the emulator.
- Sprites and the window. `_render_scanline` does not draw them.
- The framebuffer is an `array2<Rgb>` rather than a list of lists.
  Aliasing between rows does not arise, because the source builds each row
  separately.
- Signed tile ids: in the 0x8800 addressing mode the tile id is used
  unsigned. The source intends signed ids but computes unsigned ones, and
  the model follows the code.
- Interrupt dispatch: the V-Blank interrupt is only the IME and IF update the
  source performs. There is no interrupt dispatch in the CPU.
- Interrupts, timers, HALT and STOP behaviour. The source's handlers for
  these are no-ops (or absent), and the model treats them as NOP.
