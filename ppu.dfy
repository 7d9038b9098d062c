/** The picture unit (ppu.py): a mode machine driven by the cycle counts the
    CPU returns, and a background renderer that fills one 160-pixel row of a
    144-row framebuffer per scanline.  `Step` and `RenderRow` say what
    `step` and `_render_scanline` do, as functions of a `Screen` value; the
    class `PPU` keeps `dots`, `mode` and the framebuffer in fields and is
    proved against them. */
module Ppu {
  import opened Bits
  import Mmu
  import opened Semantics
  import Cpu

  /** An RGB triple of the framebuffer. */
  datatype Rgb = Rgb(r: byte, g: byte, b: byte)

  const White := Rgb(255, 255, 255)
  const LightGray := Rgb(192, 192, 192)
  const DarkGray := Rgb(96, 96, 96)
  const Black := Rgb(0, 0, 0)

  /** `self.colors` (ppu.py:10-15): the shade a palette entry selects. */
  const Colors: seq<Rgb> := [White, LightGray, DarkGray, Black]

  const Width: nat := 160
  const Height: nat := 144

  /** The dot counts at which modes 2, 3, 0 and 1 end, and the last line. */
  const OamScanDots: nat := 80
  const DrawingDots: nat := 172
  const HBlankDots: nat := 204
  const LineDots: nat := 456
  const LastLine: nat := 153

  // ---------------------------------------------------------------------
  // One background pixel (ppu.py:78-115).

  /** `0x9C00 if (lcdc >> 3) & 1 else 0x9800`. */
  function TileMapBase(lcdc: byte): int
  {
    if lcdc / 8 % 2 == 1 then 0x9C00 else 0x9800
  }

  /** `0x8000 if (lcdc >> 4) & 1 else 0x8800`. */
  function TileDataBase(lcdc: byte): int
  {
    if lcdc / 16 % 2 == 1 then 0x8000 else 0x8800
  }

  /** `tile_id_addr`: the 32x32 map entry holding the map position. */
  function TileIdAddress(lcdc: byte, xInMap: byte, yInMap: byte): (addr: int)
    ensures TileMapBase(lcdc) <= addr < TileMapBase(lcdc) + 0x400
  {
    TileMapBase(lcdc) + (yInMap / 8) * 32 + xInMap / 8
  }

  /** The address of `byte1`, the first of the two bytes of the tile row:
      16 bytes per tile, the tile id read unsigned in both data areas. */
  function TileRowAddress(lcdc: byte, tileId: byte, yInMap: byte): (addr: int)
    ensures TileDataBase(lcdc) <= addr && addr + 1 < TileDataBase(lcdc) + 0x1000
  {
    TileDataBase(lcdc) + tileId * 16 + (yInMap % 8) * 2
  }

  /** `((byte2 >> bit) & 1) << 1 | ((byte1 >> bit) & 1)`. */
  function ColorId(byte1: byte, byte2: byte, bit: nat): (id: nat)
    requires bit < 8
    ensures id < 4
  {
    2 * ((byte2 / Pow2(bit)) % 2) + (byte1 / Pow2(bit)) % 2
  }

  /** `(bgp >> (color_id * 2)) & 0b11`. */
  function Shade(bgp: byte, id: nat): (p: nat)
    requires id < 4
    ensures p < 4
  {
    (bgp / Pow2(2 * id)) % 4
  }

  /** Reads of the background's registers and video memory. */
  predicate Bus(mem: seq<byte>)
  {
    |mem| == Mmu.MemSize
  }

  /** `framebuffer[ly][x]` as `_render_background` computes it, for the
      scroll registers SCY and SCX given. */
  function ScrolledPixel(mem: seq<byte>, lcdc: byte, ly: byte, scy: byte, scx: byte, x: nat): Rgb
    requires Bus(mem)
  {
    var yInMap := (ly + scy) % 256;
    var xInMap := (x + scx) % 256;
    var tileId := Mmu.Read(mem, TileIdAddress(lcdc, xInMap, yInMap));
    var row := TileRowAddress(lcdc, tileId, yInMap);
    var id := ColorId(Mmu.Read(mem, row), Mmu.Read(mem, row + 1), 7 - xInMap % 8);
    Colors[Shade(Mmu.Read(mem, Mmu.Bgp), id)]
  }

  function Pixel(mem: seq<byte>, lcdc: byte, ly: byte, x: nat): Rgb
    requires Bus(mem)
  {
    ScrolledPixel(mem, lcdc, ly, Mmu.Read(mem, Mmu.Scy), Mmu.Read(mem, Mmu.Scx), x)
  }

  /** The row `_render_background` writes. */
  function BackgroundRow(mem: seq<byte>, lcdc: byte, ly: byte): (row: seq<Rgb>)
    requires Bus(mem)
    ensures |row| == Width
    ensures forall x :: 0 <= x < Width ==> row[x] in Colors
  {
    seq(Width, x requires 0 <= x < Width => Pixel(mem, lcdc, ly, x))
  }

  // ---------------------------------------------------------------------
  // What the pixel computation promises.

  /** The colour id's low bit is bit `bit` of the first tile byte and its
      high bit the same bit of the second. */
  lemma ColorIdBits(byte1: byte, byte2: byte, bit: nat)
    requires bit < 8
    ensures Bit(ColorId(byte1, byte2, bit), 0) == Bit(byte1, bit)
    ensures Bit(ColorId(byte1, byte2, bit), 1) == Bit(byte2, bit)
  {
    var id := ColorId(byte1, byte2, bit);
    assert Pow2(0) == 1 && Pow2(1) == 2;
    assert id / 2 == (byte2 / Pow2(bit)) % 2;
  }

  /** Entry `id` of the palette is bits 2*id and 2*id+1 of BGP. */
  lemma ShadeBits(bgp: byte, id: nat)
    requires id < 4
    ensures Bit(Shade(bgp, id), 0) == Bit(bgp, 2 * id)
    ensures Bit(Shade(bgp, id), 1) == Bit(bgp, 2 * id + 1)
  {
    var p := Pow2(2 * id);
    var q := bgp / p;
    assert Pow2(0) == 1 && Pow2(1) == 2;
    assert Shade(bgp, id) == q % 4;
    assert Pow2(2 * id + 1) == 2 * p;
    DivSwap(bgp, p);
    assert Bit(bgp, 2 * id + 1) == (q / 2) % 2;
    LowTwoBits(q);
  }

  /** The two bits of `q % 4` are bits 0 and 1 of q. */
  lemma LowTwoBits(q: nat)
    ensures Bit(q % 4, 0) == q % 2 && Bit(q % 4, 1) == (q / 2) % 2
  {
    assert Pow2(0) == 1 && Pow2(1) == 2;
  }

  /** Palette entry 0 is BGP's two low bits. */
  lemma ShadeZero(bgp: byte)
    ensures Shade(bgp, 0) == bgp % 4
  {
    assert Pow2(0) == 1;
  }

  /** Two zero tile bytes give colour id 0. */
  lemma ColorIdZero(bit: nat)
    requires bit < 8
    ensures ColorId(0, 0, bit) == 0
  {
  }

  /** The pixel `_render_background` writes, from the values it read on
      the way. */
  lemma PixelFromReads(mem: seq<byte>, lcdc: byte, ly: byte, x: nat,
                       scy: byte, scx: byte, bgp: byte, tileId: byte, byte1: byte, byte2: byte)
    requires Bus(mem)
    requires scy == Mmu.Read(mem, Mmu.Scy) && scx == Mmu.Read(mem, Mmu.Scx) && bgp == Mmu.Read(mem, Mmu.Bgp)
    requires tileId == Mmu.Read(mem, TileIdAddress(lcdc, (x + scx) % 256, (ly + scy) % 256))
    requires byte1 == Mmu.Read(mem, TileRowAddress(lcdc, tileId, (ly + scy) % 256))
    requires byte2 == Mmu.Read(mem, TileRowAddress(lcdc, tileId, (ly + scy) % 256) + 1)
    ensures Colors[Shade(bgp, ColorId(byte1, byte2, 7 - (x + scx) % 256 % 8))] == Pixel(mem, lcdc, ly, x)
  {
    assert Pixel(mem, lcdc, ly, x) == ScrolledPixel(mem, lcdc, ly, scy, scx, x);
    ScrolledPixelReads(mem, lcdc, ly, scy, scx, x);
  }

  /** `ScrolledPixel` with its reads spelt out, as `PixelFromReads` matches
      them against the loop's. */
  lemma ScrolledPixelReads(mem: seq<byte>, lcdc: byte, ly: byte, scy: byte, scx: byte, x: nat)
    requires Bus(mem)
    ensures var yInMap := (ly + scy) % 256;
            var xInMap := (x + scx) % 256;
            var row := TileRowAddress(lcdc, Mmu.Read(mem, TileIdAddress(lcdc, xInMap, yInMap)), yInMap);
            ScrolledPixel(mem, lcdc, ly, scy, scx, x)
            == Colors[Shade(Mmu.Read(mem, Mmu.Bgp), ColorId(Mmu.Read(mem, row), Mmu.Read(mem, row + 1), 7 - xInMap % 8))]
  {
  }

  /** The row of the tile the pixel falls in, for the scroll given. */
  function PixelRowAddress(mem: seq<byte>, lcdc: byte, ly: byte, scy: byte, scx: byte, x: nat): (addr: int)
    requires Bus(mem)
    ensures 0x8000 <= addr && addr + 1 < 0x9800
  {
    var yInMap := (ly + scy) % 256;
    TileRowAddress(lcdc, Mmu.Read(mem, TileIdAddress(lcdc, (x + scx) % 256, yInMap)), yInMap)
  }

  /** A pixel whose tile row holds two zero bytes shows palette entry 0. */
  lemma BlankRowPixel(mem: seq<byte>, lcdc: byte, ly: byte, scy: byte, scx: byte, x: nat)
    requires Bus(mem)
    requires mem[PixelRowAddress(mem, lcdc, ly, scy, scx, x)] == 0
    requires mem[PixelRowAddress(mem, lcdc, ly, scy, scx, x) + 1] == 0
    ensures ScrolledPixel(mem, lcdc, ly, scy, scx, x) == Colors[Mmu.Read(mem, Mmu.Bgp) % 4]
  {
    ColorIdZero(7 - (x + scx) % 256 % 8);
    ShadeZero(Mmu.Read(mem, Mmu.Bgp));
  }

  /** With all tile data zero every pixel shows palette entry 0: with
      BGP = 0xE4, white. */
  lemma BlankTileIsShadeZero(mem: seq<byte>, lcdc: byte, ly: byte, x: nat)
    requires Bus(mem)
    requires forall a :: 0x8000 <= a < 0x9800 ==> mem[a] == 0
    ensures Pixel(mem, lcdc, ly, x) == Colors[Mmu.Read(mem, Mmu.Bgp) % 4]
    ensures Mmu.Read(mem, Mmu.Bgp) == 0xE4 ==> Pixel(mem, lcdc, ly, x) == White
  {
    var scy, scx := Mmu.Read(mem, Mmu.Scy), Mmu.Read(mem, Mmu.Scx);
    var row := PixelRowAddress(mem, lcdc, ly, scy, scx, x);
    assert mem[row] == 0 && mem[row + 1] == 0;
    BlankRowPixel(mem, lcdc, ly, scy, scx, x);
    assert Pixel(mem, lcdc, ly, x) == Colors[Mmu.Read(mem, Mmu.Bgp) % 4];
    assert Colors[0xE4 % 4] == White;
  }

  /** Raising SCX by one (mod 256) shifts the row one pixel to the left. */
  lemma ScrollShiftsRow(mem: seq<byte>, lcdc: byte, ly: byte, scy: byte, scx: byte, x: nat)
    ensures Bus(mem) ==>
            ScrolledPixel(mem, lcdc, ly, scy, (scx + 1) % 256, x) == ScrolledPixel(mem, lcdc, ly, scy, scx, x + 1)
  {
    if Bus(mem) {
      assert (x + (scx + 1) % 256) % 256 == (x + 1 + scx) % 256;
      SameMapColumn(mem, lcdc, ly, scy, (scx + 1) % 256, x, scx, x + 1);
    }
  }

  /** SCY and SCX wrap: scrolling by 256 more is no scroll at all. */
  lemma ScrollWraps(mem: seq<byte>, lcdc: byte, ly: byte, scy: byte, scx: byte, x: nat)
    requires Bus(mem)
    ensures ScrolledPixel(mem, lcdc, ly, scy, scx, x + 256) == ScrolledPixel(mem, lcdc, ly, scy, scx, x)
  {
    assert (x + 256 + scx) % 256 == (x + scx) % 256;
    SameMapColumn(mem, lcdc, ly, scy, scx, x + 256, scx, x);
  }

  /** A pixel depends on its column and SCX only through the map column
      `(x + scx) % 256`. */
  lemma SameMapColumn(mem: seq<byte>, lcdc: byte, ly: byte, scy: byte, scx: byte, x: nat, scx': byte, x': nat)
    requires Bus(mem)
    requires (x + scx) % 256 == (x' + scx') % 256
    ensures ScrolledPixel(mem, lcdc, ly, scy, scx, x) == ScrolledPixel(mem, lcdc, ly, scy, scx', x')
  {
  }

  // ---------------------------------------------------------------------
  // The mode machine (ppu.py:21-72) on values.

  /** The PPU's fields, the CPU's `ime` it sets, the memory it reads and
      writes (LY at 0xFF44, IF at 0xFF0F) and the framebuffer. */
  datatype Screen = Screen(dots: int, mode: int, ime: bit, mem: seq<byte>, frame: seq<seq<Rgb>>)

  /** A framebuffer of 144 rows of 160 pixels over a 64 KiB memory. */
  predicate WellFormed(s: Screen)
  {
    |s.mem| == Mmu.MemSize && |s.frame| == Height
    && forall y :: 0 <= y < Height ==> |s.frame[y]| == Width
  }

  /** `PPU.__init__`: a white screen, mode 2, no dots counted. */
  function Initial(mem: seq<byte>, ime: bit): (s: Screen)
    requires |mem| == Mmu.MemSize
    ensures WellFormed(s) && s.mode == 2 && s.dots == 0
    ensures forall y, x :: 0 <= y < Height && 0 <= x < Width ==> s.frame[y][x] == White
  {
    Screen(0, 2, ime, mem, seq(Height, _ => seq(Width, _ => White)))
  }

  /** `_render_scanline(ly)`: with LCDC bit 0 set, row `ly` is replaced by
      the background; a line outside the framebuffer raises IndexError
      (`None`). */
  function RenderRow(s: Screen, ly: byte): Option<Screen>
    requires WellFormed(s)
  {
    var lcdc := Mmu.Read(s.mem, Mmu.Lcdc);
    if lcdc % 2 == 0 then Some(s)
    else if ly < Height then Some(s.(frame := s.frame[ly := BackgroundRow(s.mem, lcdc, ly)]))
    else None
  }

  /** The end of H-Blank with LY already incremented. */
  function EndHBlank(s: Screen, ly: int): Screen
    requires WellFormed(s) && 0 < ly <= 256
  {
    var mem := if ly <= Height then Mmu.Write(s.mem, Mmu.Ly, ly) else s.mem;
    if ly == Height then
      var flags := Mmu.Read(mem, Mmu.IntFlags);
      s.(mode := 1, ime := 1, mem := Mmu.Write(mem, Mmu.IntFlags, Or8(flags, 1)))
    else s.(mode := 2, mem := mem)
  }

  /** The end of one V-Blank line with LY already incremented. */
  function EndVBlankLine(s: Screen, ly: int): Screen
    requires WellFormed(s) && 0 < ly <= 256
  {
    var mem := if ly <= LastLine then Mmu.Write(s.mem, Mmu.Ly, ly) else s.mem;
    if ly > LastLine then s.(mode := 2, mem := Mmu.Write(mem, Mmu.Ly, 0))
    else s.(mem := mem)
  }

  /** `step(cycles)`.  A handler that returned no count (`NoCount`) makes
      `self.dots += cycles` raise TypeError, which is `None` here, as is a
      render of a line past the framebuffer. */
  function ScreenStep(s: Screen, cycles: Ticks): Option<Screen>
    requires WellFormed(s)
  {
    var lcdc := Mmu.Read(s.mem, Mmu.Lcdc);
    if lcdc / 128 % 2 == 0 then Some(s.(mem := Mmu.Write(s.mem, Mmu.Ly, 0), dots := 0, mode := 0))
    else if cycles.NoCount? then None
    else
      var dots := s.dots + cycles.n;
      var ly := Mmu.Read(s.mem, Mmu.Ly);
      if s.mode == 2 then
        Some(if dots >= OamScanDots then s.(dots := 0, mode := 3) else s.(dots := dots))
      else if s.mode == 3 then
        if dots >= DrawingDots then RenderRow(s.(dots := 0, mode := 0), ly) else Some(s.(dots := dots))
      else if s.mode == 0 then
        Some(if dots >= HBlankDots then EndHBlank(s.(dots := 0), ly + 1) else s.(dots := dots))
      else if s.mode == 1 then
        Some(if dots >= LineDots then EndVBlankLine(s.(dots := 0), ly + 1) else s.(dots := dots))
      else Some(s.(dots := dots))
  }

  // ---------------------------------------------------------------------
  // What the mode machine promises.

  /** The line LY holds. */
  function LineOf(s: Screen): byte
    requires WellFormed(s)
  {
    Mmu.Read(s.mem, Mmu.Ly)
  }

  /** `Step` keeps the framebuffer's shape. */
  lemma StepWellFormed(s: Screen, cycles: Ticks)
    requires WellFormed(s)
    ensures ScreenStep(s, cycles).Some? ==> WellFormed(ScreenStep(s, cycles).value)
  {
  }

  /** With the LCD off (LCDC bit 7 clear) a step only resets: LY, dots and
      the mode become 0, and nothing else changes. */
  lemma LcdOffResets(s: Screen, cycles: Ticks)
    requires WellFormed(s) && Mmu.Read(s.mem, Mmu.Lcdc) < 0x80
    ensures ScreenStep(s, cycles).Some?
    ensures var t := ScreenStep(s, cycles).value;
            t.dots == 0 && t.mode == 0 && LineOf(t) == 0 && t.frame == s.frame && t.ime == s.ime
            && forall i :: 0 <= i < Mmu.MemSize && i != Mmu.Ly ==> t.mem[i] == s.mem[i]
  {
  }

  /** The number of dots after which each mode ends: 80 for the OAM scan,
      172 for drawing, 204 for H-Blank and 456 for a V-Blank line. */
  function ModeLength(mode: int): (d: nat)
    requires 0 <= mode < 4
    ensures d >= OamScanDots
  {
    if mode == 2 then OamScanDots
    else if mode == 3 then DrawingDots
    else if mode == 0 then HBlankDots
    else LineDots
  }

  /** The mode stays in 0..3, changes at most once per step, only along
      2 -> 3 -> 0 -> 2, 0 -> 1 and 1 -> 2 (or to 0 when the LCD is off), and
      every change resets `dots`. `dots` grows by the cycle count exactly
      when the step stays below the mode's length; otherwise it is reset. */
  lemma ModeTransitions(s: Screen, n: nat)
    requires WellFormed(s) && 0 <= s.mode < 4 && s.dots >= 0
    requires Mmu.Read(s.mem, Mmu.Lcdc) >= 0x80
    requires ScreenStep(s, Cycles(n)).Some?
    ensures var t := ScreenStep(s, Cycles(n)).value;
            0 <= t.mode < 4
            && (t.mode == s.mode ==> t.dots == 0 || t.dots == s.dots + n)
            && (t.mode != s.mode ==>
                  t.dots == 0 && (s.mode, t.mode) in {(2, 3), (3, 0), (0, 2), (0, 1), (1, 2)})
            && (t.dots == s.dots + n <==> s.dots + n < ModeLength(s.mode))
            && (s.dots + n >= ModeLength(s.mode) ==> t.dots == 0)
  {
  }

  /** Below the mode's length a step only counts: the dots grow by the
      cycle count and nothing else changes. */
  lemma BelowThresholdGrows(s: Screen, n: nat)
    requires WellFormed(s) && 0 <= s.mode < 4
    requires Mmu.Read(s.mem, Mmu.Lcdc) >= 0x80
    requires s.dots + n < ModeLength(s.mode)
    ensures ScreenStep(s, Cycles(n)) == Some(s.(dots := s.dots + n))
  {
  }

  /** After 80 dots of OAM scan the drawing mode starts with the dots
      reset; nothing else changes. */
  lemma OamScanEnds(s: Screen, n: nat)
    requires WellFormed(s) && s.mode == 2
    requires Mmu.Read(s.mem, Mmu.Lcdc) >= 0x80
    requires s.dots + n >= OamScanDots
    ensures ScreenStep(s, Cycles(n)) == Some(s.(dots := 0, mode := 3))
  {
  }

  /** After 172 dots of drawing, H-Blank starts with the dots reset, and
      row LY is rendered when LCDC bit 0 is set; memory and IME are kept.
      With the background enabled and LY outside the framebuffer the step
      fails, as the IndexError in `_render_scanline` does. */
  lemma DrawingEnds(s: Screen, n: nat)
    requires WellFormed(s) && s.mode == 3
    requires Mmu.Read(s.mem, Mmu.Lcdc) >= 0x80
    requires s.dots + n >= DrawingDots
    ensures var lcdc := Mmu.Read(s.mem, Mmu.Lcdc);
            ScreenStep(s, Cycles(n)).None? <==> lcdc % 2 == 1 && LineOf(s) >= Height
    ensures var lcdc := Mmu.Read(s.mem, Mmu.Lcdc);
            ScreenStep(s, Cycles(n)).Some? ==>
              var t := ScreenStep(s, Cycles(n)).value;
              t.mode == 0 && t.dots == 0 && t.mem == s.mem && t.ime == s.ime
              && (lcdc % 2 == 0 ==> t.frame == s.frame)
              && (lcdc % 2 == 1 ==> t.frame == s.frame[LineOf(s) := BackgroundRow(s.mem, lcdc, LineOf(s))])
  {
  }

  /** At the end of H-Blank on line 143, LY becomes 144, the mode V-Blank,
      IME is set and bit 0 of IF is raised; on an earlier line the next
      line's OAM scan starts. */
  lemma HBlankEnds(s: Screen, n: nat)
    requires WellFormed(s) && s.mode == 0 && Mmu.Read(s.mem, Mmu.Lcdc) >= 0x80
    requires s.dots + n >= HBlankDots && LineOf(s) < Height
    ensures ScreenStep(s, Cycles(n)).Some?
    ensures var t := ScreenStep(s, Cycles(n)).value;
            LineOf(t) == LineOf(s) + 1 && t.dots == 0
            && (LineOf(s) == Height - 1 ==>
                  t.mode == 1 && t.ime == 1 && Bit(Mmu.Read(t.mem, Mmu.IntFlags), 0) == 1)
            && (LineOf(s) < Height - 1 ==> t.mode == 2 && t.ime == s.ime)
  {
    var s0 := s.(dots := 0);
    var ly := LineOf(s) + 1;
    var mem := Mmu.Write(s0.mem, Mmu.Ly, ly);
    var t := EndHBlank(s0, ly);
    assert ScreenStep(s, Cycles(n)) == Some(t);
    if ly == Height {
      var flags := Mmu.Read(mem, Mmu.IntFlags);
      assert t.mem == Mmu.Write(mem, Mmu.IntFlags, Or8(flags, 1));
      Mmu.WriteInterruptFlags(mem, Or8(flags, 1), 0);
      BitOr(flags, 1, 8, 0);
      assert Bit(1, 0) == 1;
    }
  }

  /** A V-Blank line ends after 456 dots: LY counts up to 153 and then
      wraps to 0 with the OAM scan of line 0. */
  lemma VBlankLineEnds(s: Screen, n: nat)
    requires WellFormed(s) && s.mode == 1 && Mmu.Read(s.mem, Mmu.Lcdc) >= 0x80
    requires s.dots + n >= LineDots
    ensures ScreenStep(s, Cycles(n)).Some?
    ensures var t := ScreenStep(s, Cycles(n)).value;
            t.dots == 0 && t.ime == s.ime && t.frame == s.frame
            && (LineOf(s) < LastLine ==> t.mode == 1 && LineOf(t) == LineOf(s) + 1)
            && (LineOf(s) >= LastLine ==> t.mode == 2 && LineOf(t) == 0)
  {
  }

  /** LY stays a line number 0..153 once it is one. */
  lemma LineStaysInRange(s: Screen, cycles: Ticks)
    requires WellFormed(s) && LineOf(s) <= LastLine
    requires ScreenStep(s, cycles).Some?
    ensures LineOf(ScreenStep(s, cycles).value) <= LastLine
  {
  }

  /** A step renders at most row LY, and only at the end of mode 3 with
      LCDC bits 7 and 0 set; every pixel it writes is one of the four
      colours. */
  lemma RenderTouchesOneRow(s: Screen, cycles: Ticks)
    requires WellFormed(s)
    requires ScreenStep(s, cycles).Some?
    ensures var t := ScreenStep(s, cycles).value;
            (forall y :: 0 <= y < Height && y != LineOf(s) ==> t.frame[y] == s.frame[y])
            && (t.frame != s.frame ==>
                  s.mode == 3 && t.mode == 0 && Mmu.Read(s.mem, Mmu.Lcdc) % 2 == 1
                  && Mmu.Read(s.mem, Mmu.Lcdc) >= 0x80)
            && (forall y, x :: 0 <= y < Height && 0 <= x < Width && t.frame[y][x] != s.frame[y][x]
                  ==> t.frame[y][x] in Colors)
  {
  }

  // ---------------------------------------------------------------------
  // The PPU object.

  /** `PPU` (ppu.py:1-19): the mode machine's fields, the framebuffer it
      overwrites in place, and the bus and CPU it shares with the CPU. */
  class PPU {
    const mmu: Mmu.MMU
    const cpu: Cpu.CPU
    const framebuffer: array2<Rgb>
    var dots: int
    var mode: int

    /** The CPU and the PPU share one bus, as the emulator wires them. */
    ghost predicate Valid()
    {
      mmu.Valid() && cpu.mmu == mmu && framebuffer.Length0 == Height && framebuffer.Length1 == Width
    }

    ghost function Frame(): (rows: seq<seq<Rgb>>)
      requires Valid()
      reads framebuffer
      ensures |rows| == Height && forall y :: 0 <= y < Height ==> |rows[y]| == Width
    {
      seq(Height, y requires 0 <= y < Height reads framebuffer =>
        seq(Width, x requires 0 <= x < Width reads framebuffer => framebuffer[y, x]))
    }

    /** The fields, `cpu.ime`, the memory and the framebuffer as a value. */
    ghost function Model(): (s: Screen)
      requires Valid()
      reads this, cpu, mmu.memory, framebuffer
      ensures WellFormed(s)
    {
      Screen(dots, mode, cpu.ime, mmu.memory[..], Frame())
    }

    /** `__init__`: a white framebuffer, 0 dots, mode 2 (OAM scan). */
    constructor (bus: Mmu.MMU, owner: Cpu.CPU)
      requires bus.Valid() && owner.mmu == bus
      ensures mmu == bus && cpu == owner && Valid() && fresh(framebuffer)
      ensures Model() == Initial(bus.memory[..], owner.ime)
    {
      mmu, cpu := bus, owner;
      framebuffer := new Rgb[Height, Width]((_, _) => White);
      dots, mode := 0, 2;
      new;
      assert forall y :: 0 <= y < Height ==> Frame()[y] == seq(Width, _ => White);
    }

    /** `step(cycles)`: of the CPU it only assigns `ime`. */
    method Step(cycles: Ticks) returns (ok: bool)
      requires Valid()
      modifies this, cpu`ime, mmu.memory, framebuffer
      ensures ok == ScreenStep(old(Model()), cycles).Some?
      ensures ok ==> Model() == ScreenStep(old(Model()), cycles).value
    {
      var lcdc := mmu.ReadByte(Mmu.Lcdc);
      if lcdc / 128 % 2 == 0 {
        mmu.WriteByte(Mmu.Ly, 0);
        dots, mode := 0, 0;
        return true;
      }
      if cycles.NoCount? {
        return false;
      }
      dots := dots + cycles.n;
      var ly: int := mmu.ReadByte(Mmu.Ly);
      ok := true;
      if mode == 2 {
        if dots >= OamScanDots {
          dots, mode := 0, 3;
        }
      } else if mode == 3 {
        if dots >= DrawingDots {
          dots, mode := 0, 0;
          ok := RenderScanline(ly);
        }
      } else if mode == 0 {
        if dots >= HBlankDots {
          dots := 0;
          ly := ly + 1;
          if ly <= Height {
            mmu.WriteByte(Mmu.Ly, ly);
          }
          if ly == Height {
            mode := 1;
            cpu.ime := 1;
            var flags := mmu.ReadByte(Mmu.IntFlags);
            mmu.WriteByte(Mmu.IntFlags, Or8(flags, 1));
          } else {
            mode := 2;
          }
        }
      } else if mode == 1 {
        if dots >= LineDots {
          dots := 0;
          ly := ly + 1;
          if ly <= LastLine {
            mmu.WriteByte(Mmu.Ly, ly);
          }
          if ly > LastLine {
            mode := 2;
            mmu.WriteByte(Mmu.Ly, 0);
          }
        }
      }
    }

    /** `_render_scanline(ly)`: the background when LCDC bit 0 is set;
      sprites are not drawn. */
    method RenderScanline(ly: byte) returns (ok: bool)
      requires Valid()
      modifies framebuffer
      ensures ok == RenderRow(old(Model()), ly).Some?
      ensures ok ==> Model() == RenderRow(old(Model()), ly).value
    {
      var lcdc := mmu.ReadByte(Mmu.Lcdc);
      if lcdc % 2 == 1 {
        ok := RenderBackground(ly, lcdc);
      } else {
        ok := true;
      }
    }

    /** One pass of `_render_background`'s loop: the map entry, the two
        bytes of the tile row and the palette entry for pixel x of row ly. */
    method BackgroundPixel(lcdc: byte, ly: byte, x: nat, scy: byte, scx: byte, bgp: byte) returns (color: Rgb)
      requires Valid()
      requires scy == Mmu.Read(mmu.memory[..], Mmu.Scy) && scx == Mmu.Read(mmu.memory[..], Mmu.Scx)
      requires bgp == Mmu.Read(mmu.memory[..], Mmu.Bgp)
      ensures color == Pixel(mmu.memory[..], lcdc, ly, x)
    {
      var tileDataAddr := TileDataBase(lcdc);
      var yInMap := (ly + scy) % 256;
      var xInMap := (x + scx) % 256;
      var tileId := mmu.ReadByte(TileIdAddress(lcdc, xInMap, yInMap));
      var tileDataStart := tileDataAddr + tileId * 16;
      var yInTile := yInMap % 8;
      var byte1 := mmu.ReadByte(tileDataStart + yInTile * 2);
      var byte2 := mmu.ReadByte(tileDataStart + yInTile * 2 + 1);
      assert tileDataStart + yInTile * 2 == TileRowAddress(lcdc, tileId, yInMap);
      var bit := 7 - xInMap % 8;
      var colorId := ColorId(byte1, byte2, bit);
      var paletteColor := Shade(bgp, colorId);
      PixelFromReads(mmu.memory[..], lcdc, ly, x, scy, scx, bgp, tileId, byte1, byte2);
      color := Colors[paletteColor];
    }

    /** `_render_background(ly, lcdc)`: pixel by pixel, left to right. */
    method RenderBackground(ly: byte, lcdc: byte) returns (ok: bool)
      requires Valid()
      modifies framebuffer
      ensures ok == (ly < Height)
      ensures ok ==> Frame() == old(Frame())[ly := BackgroundRow(mmu.memory[..], lcdc, ly)]
    {
      if ly >= Height {
        return false;
      }
      var scy := mmu.ReadByte(Mmu.Scy);
      var scx := mmu.ReadByte(Mmu.Scx);
      var bgp := mmu.ReadByte(Mmu.Bgp);
      PaintRow(lcdc, ly, scy, scx, bgp);
      ok := true;
      ghost var row := BackgroundRow(mmu.memory[..], lcdc, ly);
      assert forall y :: 0 <= y < Height ==> Frame()[y] == old(Frame())[ly := row][y];
    }

    /** The loop of `_render_background`: row ly gets the background
        pixels and no other row changes. */
    method PaintRow(lcdc: byte, ly: byte, scy: byte, scx: byte, bgp: byte)
      requires Valid() && ly < Height
      requires scy == Mmu.Read(mmu.memory[..], Mmu.Scy) && scx == Mmu.Read(mmu.memory[..], Mmu.Scx)
      requires bgp == Mmu.Read(mmu.memory[..], Mmu.Bgp)
      modifies framebuffer
      ensures forall i :: 0 <= i < Width ==> framebuffer[ly, i] == BackgroundRow(mmu.memory[..], lcdc, ly)[i]
      ensures forall y, i :: 0 <= y < Height && y != ly && 0 <= i < Width ==>
                framebuffer[y, i] == old(framebuffer[y, i])
    {
      ghost var row := BackgroundRow(mmu.memory[..], lcdc, ly);
      var x := 0;
      while x < Width
        invariant 0 <= x <= Width
        invariant forall i :: 0 <= i < x ==> framebuffer[ly, i] == row[i]
        invariant forall y, i :: 0 <= y < Height && y != ly && 0 <= i < Width ==>
                    framebuffer[y, i] == old(framebuffer[y, i])
      {
        var color := BackgroundPixel(lcdc, ly, x, scy, scx, bgp);
        assert color == row[x];
        framebuffer[ly, x] := color;
        x := x + 1;
      }
    }
  }
}
