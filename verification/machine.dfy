/**
  The CHIP-8 machine state: 4 KiB of memory, sixteen 8-bit V registers, the
  16-bit index register I, the 16-bit program counter, a 16-slot return stack
  with its stack pointer, a 64x32 monochrome display and the delay and sound
  timers. Also the built-in hexadecimal font, program loading at 0x200, the
  display clear and the 60Hz timer tick.
*/
module Machine {

  type Byte = b: int | 0 <= b < 0x100
  type Word = w: int | 0 <= w < 0x1_0000
  /** A 12-bit memory address. */
  type Addr = a: int | 0 <= a < 0x1000
  /** A 4-bit value; register selectors are nibbles. */
  type Nibble = n: int | 0 <= n < 0x10

  const RamSize := 0x1000
  const ProgramStart := 0x200
  const DisplayWidth := 64
  const DisplayHeight := 32
  const StackDepth := 16
  /** VF, the register some instructions use as a flag output. */
  const Flag: Nibble := 0xF
  /** Where the font is placed in low memory. */
  const FontBase: Addr := 0

  /** The sixteen 4x5 hexadecimal glyphs, five rows each, pixels in the high nibble of a row. */
  const Glyphs: seq<seq<Byte>> := [
    [0xF0, 0x90, 0x90, 0x90, 0xF0], // 0
    [0x20, 0x60, 0x20, 0x20, 0x70], // 1
    [0xF0, 0x10, 0xF0, 0x80, 0xF0], // 2
    [0xF0, 0x10, 0xF0, 0x10, 0xF0], // 3
    [0x90, 0x90, 0xF0, 0x10, 0x10], // 4
    [0xF0, 0x80, 0xF0, 0x10, 0xF0], // 5
    [0xF0, 0x80, 0xF0, 0x90, 0xF0], // 6
    [0xF0, 0x10, 0x20, 0x40, 0x40], // 7
    [0xF0, 0x90, 0xF0, 0x90, 0xF0], // 8
    [0xF0, 0x90, 0xF0, 0x10, 0xF0], // 9
    [0xF0, 0x90, 0xF0, 0x90, 0x90], // A
    [0xE0, 0x90, 0xE0, 0x90, 0xE0], // B
    [0xF0, 0x80, 0x80, 0x80, 0xF0], // C
    [0xE0, 0x90, 0x90, 0x90, 0xE0], // D
    [0xF0, 0x80, 0xF0, 0x80, 0xF0], // E
    [0xF0, 0x80, 0xF0, 0x80, 0x80]  // F
  ]

  /** The 80-byte font table: the glyphs one after another, the rows of digit d at offset 5 * d. */
  function Font(): (f: seq<Byte>)
    ensures |f| == 5 * 16
    ensures forall d, r | 0 <= d < 16 && 0 <= r < 5 :: f[5 * d + r] == Glyphs[d][r]
  {
    GlyphsShape();
    var f := seq(5 * 16, a requires 0 <= a < 5 * 16 => Glyphs[a / 5][a % 5]);
    assert forall d, r | 0 <= d < 16 && 0 <= r < 5 :: f[5 * d + r] == Glyphs[d][r] by {
      forall d, r | 0 <= d < 16 && 0 <= r < 5 ensures f[5 * d + r] == Glyphs[d][r] {
        assert (5 * d + r) / 5 == d && (5 * d + r) % 5 == r;
      }
    }
    f
  }

  /** Every glyph has five rows. */
  lemma GlyphsShape()
    ensures |Glyphs| == 16
    ensures forall d | 0 <= d < 16 :: |Glyphs[d]| == 5
  {
  }

  /** The five rows of the glyph for hexadecimal digit `d`; every row is at most four pixels wide. */
  function Glyph(d: Nibble): (g: seq<Byte>)
    ensures |g| == 5
    ensures forall r | 0 <= r < 5 :: g[r] % 0x10 == 0
  {
    GlyphsNarrow(d);
    Glyphs[d]
  }

  lemma GlyphsNarrow(d: Nibble)
    ensures |Glyphs[d]| == 5
    ensures forall r | 0 <= r < 5 :: Glyphs[d][r] % 0x10 == 0
  {
    var g := Glyphs[d];
    match d
    case 0 => assert g == [0xF0, 0x90, 0x90, 0x90, 0xF0];
    case 1 => assert g == [0x20, 0x60, 0x20, 0x20, 0x70];
    case 2 => assert g == [0xF0, 0x10, 0xF0, 0x80, 0xF0];
    case 3 => assert g == [0xF0, 0x10, 0xF0, 0x10, 0xF0];
    case 4 => assert g == [0x90, 0x90, 0xF0, 0x10, 0x10];
    case 5 => assert g == [0xF0, 0x80, 0xF0, 0x10, 0xF0];
    case 6 => assert g == [0xF0, 0x80, 0xF0, 0x90, 0xF0];
    case 7 => assert g == [0xF0, 0x10, 0x20, 0x40, 0x40];
    case 8 => assert g == [0xF0, 0x90, 0xF0, 0x90, 0xF0];
    case 9 => assert g == [0xF0, 0x90, 0xF0, 0x10, 0xF0];
    case 10 => assert g == [0xF0, 0x90, 0xF0, 0x90, 0x90];
    case 11 => assert g == [0xE0, 0x90, 0xE0, 0x90, 0xE0];
    case 12 => assert g == [0xF0, 0x80, 0x80, 0x80, 0xF0];
    case 13 => assert g == [0xE0, 0x90, 0x90, 0x90, 0xE0];
    case 14 => assert g == [0xF0, 0x80, 0xF0, 0x80, 0xF0];
    case 15 => assert g == [0xF0, 0x80, 0xF0, 0x80, 0x80];
  }

  /** No two digits share a glyph. */
  lemma GlyphsDistinct(d: Nibble, e: Nibble)
    requires d != e
    ensures Glyph(d) != Glyph(e)
  {
  }

  datatype Fault = StackOverflow | StackUnderflow | ProgramTooLarge

  datatype Result<T> = Ok(value: T) | Err(fault: Fault)

  /** The 64x32 pixels, column after column: pixel (x, y) is at `x * DisplayHeight + y`, the layout of `display[x][y]`. */
  const DisplaySize := DisplayWidth * DisplayHeight

  function Pixel(x: nat, y: nat): nat
  {
    x * DisplayHeight + y
  }

  datatype State = State(
    ram: seq<Byte>,
    v: seq<Byte>,
    i: Word,
    pc: Word,
    sp: Byte,
    stack: seq<Word>,
    display: seq<bool>,
    delay: Byte,
    sound: Byte)
  {
    /** The fixed sizes of the record, and a stack pointer that indexes at most one past the top slot. */
    predicate Valid()
    {
      && |ram| == RamSize
      && |v| == 16
      && sp <= StackDepth
      && |stack| == StackDepth
      && |display| == DisplaySize
    }
  }

  /** A display with every pixel off. */
  function Blank(): (d: seq<bool>)
    ensures |d| == DisplaySize
    ensures forall x, y | 0 <= x < DisplayWidth && 0 <= y < DisplayHeight :: !d[Pixel(x, y)]
  {
    seq(DisplaySize, p => false)
  }

  /** Turns every pixel of `d` off, column by column and row by row. */
  method ClearDisplay(d: seq<bool>) returns (e: seq<bool>)
    requires |d| == DisplaySize
    ensures e == Blank()
  {
    e := d;
    var x := 0;
    while x < DisplayWidth
      invariant 0 <= x <= DisplayWidth
      invariant |e| == DisplaySize
      invariant forall p | 0 <= p < x * DisplayHeight :: !e[p]
    {
      var y := 0;
      while y < DisplayHeight
        invariant 0 <= y <= DisplayHeight
        invariant |e| == DisplaySize
        invariant forall p | 0 <= p < Pixel(x, y) :: !e[p]
      {
        e := e[Pixel(x, y) := false];
        y := y + 1;
      }
      x := x + 1;
    }
  }

  /** Memory with the font at FontBase and zeros everywhere else. */
  function FontMemory(): (m: seq<Byte>)
    ensures |m| == RamSize
    ensures m[FontBase .. FontBase + |Font()|] == Font()
    ensures forall a | FontBase + |Font()| <= a < RamSize :: m[a] == 0
  {
    Font() + seq(RamSize - |Font()|, a => 0)
  }

  /** The canonical power-on state: font in low memory, PC at 0x200, everything else zero or off. */
  function Initial(): (s: State)
    ensures s.Valid()
    ensures s.pc == ProgramStart && s.sp == 0 && s.i == 0
    ensures forall k | 0 <= k < 16 :: s.v[k] == 0
    ensures s.delay == 0 && s.sound == 0
    ensures forall x, y | 0 <= x < DisplayWidth && 0 <= y < DisplayHeight :: !s.display[Pixel(x, y)]
    ensures s.ram[FontBase .. FontBase + |Font()|] == Font()
  {
    State(FontMemory(), seq(16, k => 0), 0, ProgramStart, 0, seq(StackDepth, k => 0),
          Blank(), 0, 0)
  }

  /** Copies a ROM image into memory from 0x200 on; an image that would run past 0xFFF is refused. */
  function LoadProgram(ram: seq<Byte>, rom: seq<Byte>): (r: Result<seq<Byte>>)
    requires |ram| == RamSize
    ensures r.Ok? <==> |rom| <= RamSize - ProgramStart
    ensures r.Err? ==> r.fault == ProgramTooLarge
    ensures r.Ok? ==> |r.value| == RamSize
    ensures r.Ok? ==> forall k | 0 <= k < |rom| :: r.value[ProgramStart + k] == rom[k]
    ensures r.Ok? ==> forall a | 0 <= a < RamSize && !(ProgramStart <= a < ProgramStart + |rom|) ::
                        r.value[a] == ram[a]
  {
    if |rom| > RamSize - ProgramStart then Err(ProgramTooLarge)
    else Ok(ram[..ProgramStart] + rom + ram[ProgramStart + |rom|..])
  }

  /** The power-on state with `rom` loaded. */
  function Boot(rom: seq<Byte>): (r: Result<State>)
    ensures r.Ok? <==> |rom| <= RamSize - ProgramStart
    ensures r.Ok? ==> r.value.Valid() && r.value.pc == ProgramStart
    ensures r.Ok? ==> r.value.ram[FontBase .. FontBase + |Font()|] == Font()
    ensures r.Ok? ==> r.value.ram[ProgramStart .. ProgramStart + |rom|] == rom
  {
    var s := Initial();
    match LoadProgram(s.ram, rom)
    case Err(f) => Err(f)
    case Ok(m) =>
      assert m[FontBase .. FontBase + |Font()|] == s.ram[FontBase .. FontBase + |Font()|];
      assert m[ProgramStart .. ProgramStart + |rom|] == rom;
      Ok(s.(ram := m))
  }

  /** One timer decrement: a nonzero timer counts down by one, zero stays zero. */
  function TickTimer(t: Byte): Byte
  {
    if t > 0 then t - 1 else 0
  }

  /** One 60Hz tick of both timers. */
  function Tick(s: State): State
  {
    s.(delay := TickTimer(s.delay), sound := TickTimer(s.sound))
  }

  /** `n` consecutive ticks. */
  function Ticks(s: State, n: nat): State
    decreases n
  {
    if n == 0 then s else Ticks(Tick(s), n - 1)
  }

  /** After n ticks each timer has gone down by n but never below zero, and nothing else has changed. */
  lemma {:induction false} TicksCountDown(s: State, n: nat)
    ensures Ticks(s, n).delay == if s.delay >= n then s.delay - n else 0
    ensures Ticks(s, n).sound == if s.sound >= n then s.sound - n else 0
    ensures Ticks(s, n) == s.(delay := Ticks(s, n).delay, sound := Ticks(s, n).sound)
    decreases n
  {
    if n > 0 {
      TicksCountDown(Tick(s), n - 1);
    }
  }
}
