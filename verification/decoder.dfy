/**
  Instruction decoding: splitting a 16-bit instruction word into its fields
  and dispatching on them, first match wins, to one of the CHIP-8
  instructions. `Assemble` is the inverse encoding.
*/
module Decoder {
  import opened Machine

  /**
    The fields of an instruction word `0xUXYN`: the class `u`, the register
    selectors `x` and `y` and the low nibble `n`; the low byte `kk` and the
    low twelve bits `nnn` are read off the same nibbles.
  */
  datatype Fields = Fields(u: Nibble, x: Nibble, y: Nibble, n: Nibble)
  {
    function kk(): Byte
    {
      y * 0x10 + n
    }

    function nnn(): Addr
    {
      x * 0x100 + y * 0x10 + n
    }
  }

  /** The word whose four nibbles are, from the top, `u`, `x`, `y`, `n`. */
  function Compose(u: Nibble, x: Nibble, y: Nibble, n: Nibble): Word
  {
    u * 0x1000 + x * 0x100 + y * 0x10 + n
  }

  /** Each field as a number in its own range: the nibbles are shifted down, not merely masked. */
  function FieldsOf(w: Word): (f: Fields)
    ensures Compose(f.u, f.x, f.y, f.n) == w
  {
    var u := w / 0x1000;
    var nnn := w % 0x1000;
    var x := nnn / 0x100;
    var kk := nnn % 0x100;
    Fields(u, x, kk / 0x10, kk % 0x10)
  }

  /** Splitting a composed word gives back the four nibbles it was made of. */
  lemma ComposeSplits(u: Nibble, x: Nibble, y: Nibble, n: Nibble)
    ensures FieldsOf(Compose(u, x, y, n)) == Fields(u, x, y, n)
  {
    var w := Compose(u, x, y, n);
    assert w % 0x1000 == x * 0x100 + y * 0x10 + n;
    assert (x * 0x100 + y * 0x10 + n) % 0x100 == y * 0x10 + n;
  }

  /** The fields of the word `hi * 0x100 + lo`, read off its two bytes. */
  function SplitBytes(hi: Byte, lo: Byte): Fields
  {
    Fields(hi / 0x10, hi % 0x10, lo / 0x10, lo % 0x10)
  }

  /** Splitting the two bytes is splitting the big-endian word they form. */
  lemma SplitBytesWord(hi: Byte, lo: Byte)
    ensures SplitBytes(hi, lo) == FieldsOf(hi * 0x100 + lo)
  {
    var f := SplitBytes(hi, lo);
    assert Compose(f.u, f.x, f.y, f.n) == hi * 0x100 + lo;
    ComposeSplits(f.u, f.x, f.y, f.n);
  }

  /** Two field records with the same word are the same record. */
  lemma ComposeInjective(f: Fields, g: Fields)
    requires Compose(f.u, f.x, f.y, f.n) == Compose(g.u, g.x, g.y, g.n)
    ensures f == g
  {
    ComposeSplits(f.u, f.x, f.y, f.n);
    ComposeSplits(g.u, g.x, g.y, g.n);
  }

  /**
    The fields as the masks of the original decoder produce them: `w & 0xF000`,
    `w & 0x0F00`, `w & 0x00F0` keep the bits in place, so `u`, `x` and `y`
    come out multiplied by 0x1000, 0x100 and 0x10.
  */
  function MaskedFields(w: Word): (m: (int, int, int))
  {
    var f := FieldsOf(w);
    (f.u * 0x1000, f.x * 0x100, f.y * 0x10)
  }

  /**
    With masked fields no class test `u == c` for c in 1..15 can hold, and a
    nonzero register field is never a register index below 16.
  */
  lemma MaskedFieldsMisfire(w: Word, c: int)
    requires 1 <= c <= 0xF
    ensures MaskedFields(w).0 != c
    ensures FieldsOf(w).x != 0 ==> MaskedFields(w).1 >= 0x10
    ensures FieldsOf(w).y != 0 ==> MaskedFields(w).2 >= 0x10
  {
  }

  datatype Instr =
    | Sys(addr: Addr)              // 0nnn
    | Cls                          // 00E0
    | Ret                          // 00EE
    | Jp(addr: Addr)               // 1nnn
    | Call(addr: Addr)             // 2nnn
    | SeByte(x: Nibble, kk: Byte)  // 3xkk
    | SneByte(x: Nibble, kk: Byte) // 4xkk
    | SeReg(x: Nibble, y: Nibble)  // 5xy0
    | LdByte(x: Nibble, kk: Byte)  // 6xkk
    | AddByte(x: Nibble, kk: Byte) // 7xkk
    | LdReg(x: Nibble, y: Nibble)  // 8xy0
    | Or(x: Nibble, y: Nibble)     // 8xy1
    | And(x: Nibble, y: Nibble)    // 8xy2
    | Xor(x: Nibble, y: Nibble)    // 8xy3
    | AddReg(x: Nibble, y: Nibble) // 8xy4
    | Sub(x: Nibble, y: Nibble)    // 8xy5
    | Shr(x: Nibble, y: Nibble)    // 8xy6
    | Subn(x: Nibble, y: Nibble)   // 8xy7
    | Shl(x: Nibble, y: Nibble)    // 8xyE
    | SneReg(x: Nibble, y: Nibble) // 9xy0
    | LdIndex(addr: Addr)          // Annn
    | JpV0(addr: Addr)             // Bnnn
    | Rnd(x: Nibble, kk: Byte)     // Cxkk
    | Drw(x: Nibble, y: Nibble, n: Nibble) // Dxyn
    | Skp(x: Nibble)               // Ex9E
    | Sknp(x: Nibble)              // ExA1
    | LdFromDelay(x: Nibble)       // Fx07
    | LdKey(x: Nibble)             // Fx0A
    | LdDelay(x: Nibble)           // Fx15
    | LdSound(x: Nibble)           // Fx18
    | AddIndex(x: Nibble)          // Fx1E
    | LdFont(x: Nibble)            // Fx29
    | LdBcd(x: Nibble)             // Fx33
    | Store(x: Nibble)             // Fx55
    | Load(x: Nibble)              // Fx65
    | Unknown(word: Word)          // no entry matches

  /** Class 0xE: the two key-skip instructions, told apart by the low byte. */
  function KeyClass(f: Fields): Instr
    requires f.u == 0xE
  {
    if f.kk() == 0x9E then Skp(f.x)
    else if f.kk() == 0xA1 then Sknp(f.x)
    else Unknown(Compose(f.u, f.x, f.y, f.n))
  }

  /** Class 0xE as the original table tests it: the SKP entry accepts the whole class. */
  function KeyClassAsWritten(f: Fields): Instr
    requires f.u == 0xE
  {
    Skp(f.x)
  }

  /** The corrected key class accepts exactly Ex9E as SKP and ExA1 as SKNP. */
  lemma KeyClassExact(f: Fields)
    requires f.u == 0xE
    ensures KeyClass(f).Skp? <==> f.kk() == 0x9E
    ensures KeyClass(f).Sknp? <==> f.kk() == 0xA1
    ensures KeyClass(f).Skp? || KeyClass(f).Sknp? || KeyClass(f).Unknown?
  {
  }

  /** As written, SKNP Vx (ExA1) and every other Exkk is taken for SKP Vx. */
  lemma KeyClassAsWrittenSwallowsSknp()
    ensures KeyClassAsWritten(FieldsOf(0xE1A1)) == Skp(1)
    ensures KeyClass(FieldsOf(0xE1A1)) == Sknp(1)
    ensures KeyClassAsWritten(FieldsOf(0xE100)) == Skp(1)
    ensures KeyClass(FieldsOf(0xE100)) == Unknown(0xE100)
  {
  }

  /** Class 0x0: the entries for 00E0 and 00EE come first, every other word is SYS. */
  function SystemClass(f: Fields): Instr
    requires f.u == 0x0
  {
    if f.kk() == 0xE0 then Cls
    else if f.kk() == 0xEE then Ret
    else Sys(f.nnn())
  }

  /** Class 0x8: the register-to-register operations, selected by the low nibble. */
  function AluClass(f: Fields): Instr
    requires f.u == 0x8
  {
    if f.n == 0x0 then LdReg(f.x, f.y)
    else if f.n == 0x1 then Or(f.x, f.y)
    else if f.n == 0x2 then And(f.x, f.y)
    else if f.n == 0x3 then Xor(f.x, f.y)
    else if f.n == 0x4 then AddReg(f.x, f.y)
    else if f.n == 0x5 then Sub(f.x, f.y)
    else if f.n == 0x6 then Shr(f.x, f.y)
    else if f.n == 0x7 then Subn(f.x, f.y)
    else if f.n == 0xE then Shl(f.x, f.y)
    else Unknown(Compose(f.u, f.x, f.y, f.n))
  }

  /** Class 0xF: timers, the index register and memory, selected by the low byte. */
  function MiscClass(f: Fields): Instr
    requires f.u == 0xF
  {
    if f.kk() == 0x07 then LdFromDelay(f.x)
    else if f.kk() == 0x0A then LdKey(f.x)
    else if f.kk() == 0x15 then LdDelay(f.x)
    else if f.kk() == 0x18 then LdSound(f.x)
    else if f.kk() == 0x1E then AddIndex(f.x)
    else if f.kk() == 0x29 then LdFont(f.x)
    else if f.kk() == 0x33 then LdBcd(f.x)
    else if f.kk() == 0x55 then Store(f.x)
    else if f.kk() == 0x65 then Load(f.x)
    else Unknown(Compose(f.u, f.x, f.y, f.n))
  }

  /**
    First-match dispatch over the instruction table, by class `u` and then,
    in classes 0, 8, E and F, by `kk` or `n`; a word no entry accepts
    dispatches to `Unknown`. Three entries have no usable test in the
    table, and they are placed as follows: SYS, listed first with an empty
    test, is the fallback of class 0 after CLS and RET; RND, listed without
    a test, takes all of class C; SKNP, absent from the table, is ExA1 in
    class E. SE and SNE Vx, Vy test only the class, so 5xyN and 9xyN
    dispatch to them for every N.
  */
  function Dispatch(f: Fields): Instr
  {
    if f.u == 0x0 then SystemClass(f)
    else if f.u == 0x1 then Jp(f.nnn())
    else if f.u == 0x2 then Call(f.nnn())
    else if f.u == 0x3 then SeByte(f.x, f.kk())
    else if f.u == 0x4 then SneByte(f.x, f.kk())
    else if f.u == 0x5 then SeReg(f.x, f.y)
    else if f.u == 0x6 then LdByte(f.x, f.kk())
    else if f.u == 0x7 then AddByte(f.x, f.kk())
    else if f.u == 0x8 then AluClass(f)
    else if f.u == 0x9 then SneReg(f.x, f.y)
    else if f.u == 0xA then LdIndex(f.nnn())
    else if f.u == 0xB then JpV0(f.nnn())
    else if f.u == 0xC then Rnd(f.x, f.kk())
    else if f.u == 0xD then Drw(f.x, f.y, f.n)
    else if f.u == 0xE then KeyClass(f)
    else MiscClass(f)
  }

  function Decode(w: Word): Instr
  {
    Dispatch(FieldsOf(w))
  }

  /** Fields with a register selector and a low byte. */
  function ByteFields(u: Nibble, x: Nibble, kk: Byte): (f: Fields)
    ensures f.u == u && f.x == x && f.kk() == kk
  {
    Fields(u, x, kk / 0x10, kk % 0x10)
  }

  /** Fields with a twelve-bit address. */
  function AddrFields(u: Nibble, a: Addr): (f: Fields)
    ensures f.u == u && f.nnn() == a
  {
    Fields(u, a / 0x100, (a % 0x100) / 0x10, a % 0x10)
  }

  /** The canonical fields of each instruction. */
  function Encode(i: Instr): Fields
  {
    match i
    case Sys(a) => AddrFields(0x0, a)
    case Cls => ByteFields(0x0, 0x0, 0xE0)
    case Ret => ByteFields(0x0, 0x0, 0xEE)
    case Jp(a) => AddrFields(0x1, a)
    case Call(a) => AddrFields(0x2, a)
    case SeByte(x, kk) => ByteFields(0x3, x, kk)
    case SneByte(x, kk) => ByteFields(0x4, x, kk)
    case SeReg(x, y) => Fields(0x5, x, y, 0x0)
    case LdByte(x, kk) => ByteFields(0x6, x, kk)
    case AddByte(x, kk) => ByteFields(0x7, x, kk)
    case LdReg(x, y) => Fields(0x8, x, y, 0x0)
    case Or(x, y) => Fields(0x8, x, y, 0x1)
    case And(x, y) => Fields(0x8, x, y, 0x2)
    case Xor(x, y) => Fields(0x8, x, y, 0x3)
    case AddReg(x, y) => Fields(0x8, x, y, 0x4)
    case Sub(x, y) => Fields(0x8, x, y, 0x5)
    case Shr(x, y) => Fields(0x8, x, y, 0x6)
    case Subn(x, y) => Fields(0x8, x, y, 0x7)
    case Shl(x, y) => Fields(0x8, x, y, 0xE)
    case SneReg(x, y) => Fields(0x9, x, y, 0x0)
    case LdIndex(a) => AddrFields(0xA, a)
    case JpV0(a) => AddrFields(0xB, a)
    case Rnd(x, kk) => ByteFields(0xC, x, kk)
    case Drw(x, y, n) => Fields(0xD, x, y, n)
    case Skp(x) => ByteFields(0xE, x, 0x9E)
    case Sknp(x) => ByteFields(0xE, x, 0xA1)
    case LdFromDelay(x) => ByteFields(0xF, x, 0x07)
    case LdKey(x) => ByteFields(0xF, x, 0x0A)
    case LdDelay(x) => ByteFields(0xF, x, 0x15)
    case LdSound(x) => ByteFields(0xF, x, 0x18)
    case AddIndex(x) => ByteFields(0xF, x, 0x1E)
    case LdFont(x) => ByteFields(0xF, x, 0x29)
    case LdBcd(x) => ByteFields(0xF, x, 0x33)
    case Store(x) => ByteFields(0xF, x, 0x55)
    case Load(x) => ByteFields(0xF, x, 0x65)
    case Unknown(w) => FieldsOf(w)
  }

  /** The canonical instruction word of each instruction. */
  function Assemble(i: Instr): Word
  {
    var f := Encode(i);
    Compose(f.u, f.x, f.y, f.n)
  }

  /** Rebuilding fields from their class, `x` and low byte gives the same fields. */
  lemma ByteFieldsOf(f: Fields)
    ensures ByteFields(f.u, f.x, f.kk()) == f
  {
  }

  /** Rebuilding fields from their class and low twelve bits gives the same fields. */
  lemma AddrFieldsOf(f: Fields)
    ensures AddrFields(f.u, f.nnn()) == f
  {
  }

  /**
    The instructions that have a word of their own: SYS may not name the
    addresses whose low byte makes it CLS or RET, and `Unknown` must carry a
    word that no entry accepts.
  */
  predicate WellFormed(i: Instr)
  {
    match i
    case Sys(a) => a % 0x100 != 0xE0 && a % 0x100 != 0xEE
    case Unknown(w) => Decode(w).Unknown?
    case _ => true
  }

  /** Dispatching on the canonical fields of an instruction selects that instruction. */
  lemma DispatchEncode(i: Instr)
    requires WellFormed(i)
    ensures Dispatch(Encode(i)) == i
  {
    if i.Unknown? {
      var f := FieldsOf(i.word);
      assert Compose(f.u, f.x, f.y, f.n) == i.word;
    }
  }

  /** Decoding the canonical word of an instruction gives the instruction back. */
  lemma DecodeAssemble(i: Instr)
    requires WellFormed(i)
    ensures Decode(Assemble(i)) == i
  {
    var e := Encode(i);
    ComposeSplits(e.u, e.x, e.y, e.n);
    DispatchEncode(i);
  }

  /**
    The fields an instruction is dispatched from are its canonical fields,
    except where the table does not look at every field: 5xyN and 9xyN
    with N != 0 are taken for SE and SNE Vx, Vy, and 0xE0 and 0xEE with
    x != 0 for CLS and RET.
  */
  lemma EncodeDispatch(f: Fields)
    ensures Encode(Dispatch(f)) == f <==>
              !(|| ((f.u == 0x5 || f.u == 0x9) && f.n != 0)
                || (f.u == 0x0 && f.x != 0 && (f.kk() == 0xE0 || f.kk() == 0xEE)))
  {
    if f.u == 0x0 {
      EncodeDispatchSystem(f);
    } else if f.u in {0x1, 0x2, 0xA, 0xB} {
      AddrFieldsOf(f);
    } else if f.u in {0x3, 0x4, 0x6, 0x7, 0xC} {
      ByteFieldsOf(f);
    } else if f.u in {0x5, 0x8, 0x9, 0xD} {
      EncodeDispatchRegs(f);
    } else if f.u == 0xE {
      EncodeDispatchKeys(f);
    } else {
      EncodeDispatchMisc(f);
    }
  }

  lemma EncodeDispatchSystem(f: Fields)
    requires f.u == 0x0
    ensures Encode(Dispatch(f)) == f <==> !(f.x != 0 && (f.kk() == 0xE0 || f.kk() == 0xEE))
  {
    if f.kk() == 0xE0 {
      assert Encode(Dispatch(f)) == Fields(0x0, 0x0, 0xE, 0x0);
      assert f.y == 0xE && f.n == 0x0;
    } else if f.kk() == 0xEE {
      assert Encode(Dispatch(f)) == Fields(0x0, 0x0, 0xE, 0xE);
      assert f.y == 0xE && f.n == 0xE;
    } else {
      AddrFieldsOf(f);
    }
  }

  lemma EncodeDispatchRegs(f: Fields)
    requires f.u in {0x5, 0x8, 0x9, 0xD}
    ensures Encode(Dispatch(f)) == f <==> !((f.u == 0x5 || f.u == 0x9) && f.n != 0)
  {
    if f.u == 0x8 && !(f.n <= 0x7 || f.n == 0xE) {
      ComposeSplits(f.u, f.x, f.y, f.n);
    }
  }

  lemma EncodeDispatchKeys(f: Fields)
    requires f.u == 0xE
    ensures Encode(Dispatch(f)) == f
  {
    if KeyClass(f).Unknown? {
      ComposeSplits(f.u, f.x, f.y, f.n);
    } else {
      ByteFieldsOf(f);
    }
  }

  lemma EncodeDispatchMisc(f: Fields)
    requires f.u == 0xF
    ensures Encode(Dispatch(f)) == f
  {
    if MiscClass(f).Unknown? {
      ComposeSplits(f.u, f.x, f.y, f.n);
    } else {
      ByteFieldsOf(f);
    }
  }

  /**
    Every word is the canonical word of what it decodes to, except the words
    listed for `EncodeDispatch`.
  */
  lemma AssembleDecode(w: Word)
    ensures var f := FieldsOf(w);
            Assemble(Decode(w)) == w <==>
              !(|| ((f.u == 0x5 || f.u == 0x9) && f.n != 0)
                || (f.u == 0x0 && f.x != 0 && (f.kk() == 0xE0 || f.kk() == 0xEE)))
  {
    var f := FieldsOf(w);
    var e := Encode(Dispatch(f));
    EncodeDispatch(f);
    if Compose(e.u, e.x, e.y, e.n) == w {
      ComposeInjective(e, f);
    }
  }

  /** CLS and RET are recognised by class 0 and the low byte alone; the rest of class 0 is SYS. */
  lemma DecodeClassZero(w: Word)
    ensures Decode(w) == Cls <==> w < 0x1000 && w % 0x100 == 0xE0
    ensures Decode(w) == Ret <==> w < 0x1000 && w % 0x100 == 0xEE
    ensures Decode(w).Sys? <==> w < 0x1000 && w % 0x100 != 0xE0 && w % 0x100 != 0xEE
  {
  }

  /** Exactly the words with no entry in classes 8, E and F decode to `Unknown`. */
  lemma DecodeUnknown(w: Word)
    ensures var f := FieldsOf(w);
            Decode(w).Unknown? <==>
              || (f.u == 0x8 && !(f.n <= 0x7 || f.n == 0xE))
              || (f.u == 0xE && f.kk() != 0x9E && f.kk() != 0xA1)
              || (f.u == 0xF && f.kk() !in {0x07, 0x0A, 0x15, 0x18, 0x1E, 0x29, 0x33, 0x55, 0x65})
  {
  }
}
