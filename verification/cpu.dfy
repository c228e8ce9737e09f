/**
  The fetch-decode-execute cycle: reading the instruction word at PC,
  advancing PC, and the state transition of each instruction.
*/
module Cpu {
  import opened Machine
  import opened Decoder
  import Bits

  /** The instruction word at `pc`, high byte first; both addresses are taken modulo 4096. */
  function WordAt(ram: seq<Byte>, pc: Word): (w: Word)
    requires |ram| == RamSize
    ensures w / 0x100 == ram[pc % RamSize]
    ensures w % 0x100 == ram[(pc + 1) % RamSize]
  {
    (ram[pc % RamSize] as int) * 0x100 + ram[(pc + 1) % RamSize]
  }

  /** The 16-bit program counter two bytes further on. */
  function Next(pc: Word): Word
  {
    (pc + 2) % 0x1_0000
  }

  /** The instruction at `pc`: the table's dispatch on the fields of the two bytes there. */
  function InstrAt(ram: seq<Byte>, pc: Word): Instr
    requires |ram| == RamSize
  {
    Dispatch(SplitBytes(ram[pc % RamSize], ram[(pc + 1) % RamSize]))
  }

  /** The instruction at `pc` is the decoding of the big-endian word there. */
  lemma InstrAtDecodesWord(ram: seq<Byte>, pc: Word)
    requires |ram| == RamSize
    ensures InstrAt(ram, pc) == Decode(WordAt(ram, pc))
  {
    SplitBytesWord(ram[pc % RamSize], ram[(pc + 1) % RamSize]);
  }

  function SetV(s: State, x: Nibble, b: Byte): (t: State)
    requires s.Valid()
    ensures t.Valid()
  {
    s.(v := s.v[x := b])
  }

  /** Stores `b` in Vx and then `flag` in VF, so that VF ends up holding the flag even when x is F. */
  function SetWithFlag(s: State, x: Nibble, b: Byte, flag: Byte): (t: State)
    requires s.Valid()
    ensures t.Valid()
  {
    s.(v := s.v[x := b][Flag := flag])
  }

  function SkipIf(s: State, c: bool): (t: State)
    requires s.Valid()
    ensures t.Valid()
  {
    if c then s.(pc := Next(s.pc)) else s
  }

  function OrByte(a: Byte, b: Byte): Byte
  {
    Bits.ByteClosed(a, b);
    Bits.Or(a, b)
  }

  function AndByte(a: Byte, b: Byte): Byte
  {
    Bits.ByteClosed(a, b);
    Bits.And(a, b)
  }

  function XorByte(a: Byte, b: Byte): Byte
  {
    Bits.ByteClosed(a, b);
    Bits.Xor(a, b)
  }

  /** Fx55: V0..Vx are written to memory from address `base` on, addresses wrapping at 4096. */
  function StoreRegs(ram: seq<Byte>, v: seq<Byte>, base: Word, x: Nibble): (r: seq<Byte>)
    requires |ram| == RamSize && |v| == 16
    ensures |r| == RamSize
    ensures forall k | 0 <= k <= x :: r[(base + k) % RamSize] == v[k]
    ensures forall a | 0 <= a < RamSize && (a - base) % RamSize > x :: r[a] == ram[a]
  {
    var r := seq(RamSize, a requires 0 <= a < RamSize =>
                   if (a - base) % RamSize <= x then v[(a - base) % RamSize] else ram[a]);
    assert forall k | 0 <= k <= x :: r[(base + k) % RamSize] == v[k] by {
      forall k | 0 <= k <= x
        ensures r[(base + k) % RamSize] == v[k]
      {
        OffsetBack(base, k);
      }
    }
    r
  }

  /** Fx65: V0..Vx are read from memory from address `base` on; the other registers keep their values. */
  function LoadRegs(ram: seq<Byte>, v: seq<Byte>, base: Word, x: Nibble): (r: seq<Byte>)
    requires |ram| == RamSize && |v| == 16
    ensures |r| == 16
    ensures forall k | 0 <= k <= x :: r[k] == ram[(base + k) % RamSize]
    ensures forall k | x < k < 16 :: r[k] == v[k]
  {
    seq(16, k requires 0 <= k < 16 => if k <= x then ram[(base + k) % RamSize] else v[k])
  }

  /**
    Fx33: the hundreds, tens and ones digits of `b` at `base`, `base + 1`
    and `base + 2`; read back as decimal digits they give `b` again.
  */
  function WriteBcd(ram: seq<Byte>, base: Word, b: Byte): (r: seq<Byte>)
    requires |ram| == RamSize
    ensures |r| == RamSize
    ensures r[base % RamSize] < 10 && r[(base + 1) % RamSize] < 10 && r[(base + 2) % RamSize] < 10
    ensures (r[base % RamSize] as int) * 100 + (r[(base + 1) % RamSize] as int) * 10 + r[(base + 2) % RamSize] == b
    ensures forall a | 0 <= a < RamSize && a != base % RamSize && a != (base + 1) % RamSize
                       && a != (base + 2) % RamSize :: r[a] == ram[a]
  {
    var h, t, o := b / 100, (b / 10) % 10, b % 10;
    assert h * 100 + t * 10 + o == b by {
      assert b == (b / 10) * 10 + o;
      assert b / 10 == h * 10 + t;
    }
    ram[base % RamSize := h][(base + 1) % RamSize := t][(base + 2) % RamSize := o]
  }

  /**
    The effect of one instruction on a state whose PC has already been
    advanced past it. CALL beyond sixteen levels and RET with an empty
    stack are the only faults; every other instruction completes.
  */
  function Execute(s: State, i: Instr): (r: Result<State>)
    requires s.Valid()
    ensures r.Ok? ==> r.value.Valid()
    ensures r.Err? <==> (i.Call? && s.sp == StackDepth) || (i.Ret? && s.sp == 0)
    ensures r.Err? ==> r.fault == if i.Call? then StackOverflow else StackUnderflow
    ensures FallsThrough(i) ==> r.Ok? && r.value.pc == s.pc
  {
    match i
    case Sys(_) => Ok(s)
    case Cls => Ok(s.(display := Blank()))
    case Ret =>
      if s.sp == 0 then Err(StackUnderflow)
      else Ok(s.(sp := s.sp - 1, pc := s.stack[s.sp - 1]))
    case Jp(a) => Ok(s.(pc := a))
    case Call(a) =>
      if s.sp == StackDepth then Err(StackOverflow)
      else Ok(s.(stack := s.stack[s.sp := s.pc], sp := s.sp + 1, pc := a))
    case SeByte(x, kk) => Ok(SkipIf(s, s.v[x] == kk))
    case SneByte(x, kk) => Ok(SkipIf(s, s.v[x] != kk))
    case SeReg(x, y) => Ok(SkipIf(s, s.v[x] == s.v[y]))
    case LdByte(x, kk) => Ok(SetV(s, x, kk))
    case AddByte(x, kk) => Ok(SetV(s, x, ((s.v[x] as int) + kk) % 0x100))
    case LdReg(x, y) => Ok(SetV(s, x, s.v[y]))
    case Or(x, y) => Ok(SetV(s, x, OrByte(s.v[x], s.v[y])))
    case And(x, y) => Ok(SetV(s, x, AndByte(s.v[x], s.v[y])))
    case Xor(x, y) => Ok(SetV(s, x, XorByte(s.v[x], s.v[y])))
    case AddReg(x, y) =>
      var sum := (s.v[x] as int) + s.v[y];
      Ok(SetWithFlag(s, x, sum % 0x100, if sum > 0xFF then 1 else 0))
    case Sub(x, y) =>
      Ok(SetWithFlag(s, x, ((s.v[x] as int) - s.v[y]) % 0x100, if s.v[x] >= s.v[y] then 1 else 0))
    case Shr(x, y) => Ok(SetWithFlag(s, x, s.v[y] / 2, s.v[y] % 2))
    case Subn(x, y) =>
      Ok(SetWithFlag(s, x, ((s.v[y] as int) - s.v[x]) % 0x100, if s.v[y] >= s.v[x] then 1 else 0))
    case Shl(x, y) => Ok(SetWithFlag(s, x, ((s.v[y] as int) * 2) % 0x100, s.v[y] / 0x80))
    case SneReg(x, y) => Ok(SkipIf(s, s.v[x] != s.v[y]))
    case LdIndex(a) => Ok(s.(i := a))
    case JpV0(a) => Ok(s.(pc := a + s.v[0]))
    case Rnd(_, _) => Ok(s)
    case Drw(_, _, _) => Ok(s)
    case Skp(_) => Ok(s)
    case Sknp(_) => Ok(s)
    case LdFromDelay(x) => Ok(SetV(s, x, s.delay))
    case LdKey(_) => Ok(s)
    case LdDelay(x) => Ok(s.(delay := s.v[x]))
    case LdSound(x) => Ok(s.(sound := s.v[x]))
    case AddIndex(x) => Ok(s.(i := ((s.i as int) + s.v[x]) % 0x1_0000))
    case LdFont(x) => Ok(s.(i := FontBase + 5 * (s.v[x] % 0x10)))
    case LdBcd(x) => Ok(s.(ram := WriteBcd(s.ram, s.i, s.v[x])))
    case Store(x) => Ok(s.(ram := StoreRegs(s.ram, s.v, s.i, x), i := (s.i + x + 1) % 0x1_0000))
    case Load(x) => Ok(s.(v := LoadRegs(s.ram, s.v, s.i, x), i := (s.i + x + 1) % 0x1_0000))
    case Unknown(_) => Ok(s)
  }

  /** One cycle: decode the word at PC, advance PC by two, execute. */
  function Step(s: State): (r: Result<State>)
    requires s.Valid()
    ensures r.Ok? ==> r.value.Valid()
    ensures r.Err? <==> ((InstrAt(s.ram, s.pc).Call? && s.sp == StackDepth)
                         || (InstrAt(s.ram, s.pc).Ret? && s.sp == 0))
  {
    Execute(s.(pc := Next(s.pc)), InstrAt(s.ram, s.pc))
  }

  /**
    The cycle as the original main loop runs it: `fetch` advances PC by two,
    then `decode` reads the word at the advanced PC and executes it without
    advancing again.
  */
  function StepAsWritten(s: State): Result<State>
    requires s.Valid()
  {
    var t := s.(pc := Next(s.pc));
    Execute(t, InstrAt(t.ram, t.pc))
  }

  /** ADD I, Vx as its body is written: Vx receives the truncated sum and I is left alone. */
  function AddIndexAsWritten(s: State, x: Nibble): State
    requires s.Valid()
  {
    SetV(s, x, ((s.v[x] as int) + s.i) % 0x100)
  }

  // ---------------------------------------------------------------------
  // Fetch and dispatch

  /** The instructions that leave PC where the fetch put it. */
  predicate FallsThrough(i: Instr)
  {
    !(i.Ret? || i.Jp? || i.Call? || i.SeByte? || i.SneByte? || i.SeReg? || i.SneReg? || i.JpV0?)
  }

  /** An instruction that does not transfer control completes and leaves PC two further on, modulo 2^16. */
  lemma StepAdvancesPc(s: State)
    requires s.Valid()
    requires FallsThrough(InstrAt(s.ram, s.pc))
    ensures Step(s).Ok?
    ensures Step(s).value.pc == Next(s.pc)
  {
  }

  /** A word no table entry accepts changes nothing but the PC. */
  lemma StepUnknown(s: State)
    requires s.Valid()
    requires InstrAt(s.ram, s.pc).Unknown?
    ensures Step(s) == Ok(s.(pc := Next(s.pc)))
  {
  }

  /** The entries whose bodies are empty in the original table change nothing but the PC. */
  lemma StepEmptyBodies(s: State)
    requires s.Valid()
    requires var i := InstrAt(s.ram, s.pc);
             i.Sys? || i.Rnd? || i.Drw? || i.Skp? || i.Sknp? || i.LdKey?
    ensures Step(s) == Ok(s.(pc := Next(s.pc)))
  {
  }

  // ---------------------------------------------------------------------
  // Control flow

  /** CLS turns every pixel off and changes nothing else. */
  lemma StepClear(s: State)
    requires s.Valid()
    requires InstrAt(s.ram, s.pc) == Cls
    ensures Step(s) == Ok(s.(pc := Next(s.pc), display := Blank()))
    ensures forall x, y | 0 <= x < DisplayWidth && 0 <= y < DisplayHeight :: !Step(s).value.display[Pixel(x, y)]
  {
    assert Step(s) == Execute(s.(pc := Next(s.pc)), Cls);
  }

  /** JP addr sets PC to the address and changes nothing else. */
  lemma StepJump(s: State, a: Addr)
    requires s.Valid()
    requires InstrAt(s.ram, s.pc) == Jp(a)
    ensures Step(s) == Ok(s.(pc := a))
  {
    assert Step(s) == Execute(s.(pc := Next(s.pc)), Jp(a));
  }

  /** JP V0, addr sets PC to the address plus V0 and changes nothing else. */
  lemma StepJumpOffset(s: State, a: Addr)
    requires s.Valid()
    requires InstrAt(s.ram, s.pc) == JpV0(a)
    ensures Step(s) == Ok(s.(pc := a + s.v[0]))
  {
    assert Step(s) == Execute(s.(pc := Next(s.pc)), JpV0(a));
  }

  /**
    SE Vx, byte, SNE Vx, byte, SE Vx, Vy and SNE Vx, Vy skip the next
    instruction exactly when their comparison holds, and change nothing but
    the PC.
  */
  lemma StepSkip(s: State)
    requires s.Valid()
    requires var i := InstrAt(s.ram, s.pc);
             i.SeByte? || i.SneByte? || i.SeReg? || i.SneReg?
    ensures var i := InstrAt(s.ram, s.pc);
            var taken := match i
                         case SeByte(x, kk) => s.v[x] == kk
                         case SneByte(x, kk) => s.v[x] != kk
                         case SeReg(x, y) => s.v[x] == s.v[y]
                         case SneReg(x, y) => s.v[x] != s.v[y]
                         case _ => false;
            Step(s) == Ok(s.(pc := if taken then Next(Next(s.pc)) else Next(s.pc)))
  {
  }

  /** CALL pushes the address after it; the RET that follows pops it and restores the depth. */
  lemma ReturnUndoesCall(s: State, a: Addr)
    requires s.Valid() && s.sp < StackDepth
    ensures Execute(s, Call(a)).Ok?
    ensures Execute(Execute(s, Call(a)).value, Ret) == Ok(s.(stack := s.stack[s.sp := s.pc]))
  {
  }

  /**
    A CALL to a subroutine that starts with RET comes back to the
    instruction after the CALL with the stack depth it had before.
  */
  lemma StepCallThenReturn(s: State, a: Addr)
    requires s.Valid() && s.sp < StackDepth
    requires InstrAt(s.ram, s.pc) == Call(a)
    requires InstrAt(s.ram, a) == Ret
    ensures Step(s).Ok? && Step(s).value.pc == a && Step(s).value.sp == s.sp + 1
    ensures Step(Step(s).value).Ok?
    ensures Step(Step(s).value).value.pc == Next(s.pc)
    ensures Step(Step(s).value).value.sp == s.sp
  {
    StepCall(s, a);
    StepReturn(Step(s).value);
  }

  /** CALL addr with a free slot pushes the address after it and jumps to the address. */
  lemma StepCall(s: State, a: Addr)
    requires s.Valid() && s.sp < StackDepth
    requires InstrAt(s.ram, s.pc) == Call(a)
    ensures Step(s) == Ok(s.(stack := s.stack[s.sp := Next(s.pc)], sp := s.sp + 1, pc := a))
  {
    assert Step(s) == Execute(s.(pc := Next(s.pc)), Call(a));
  }

  /** RET with a nonempty stack pops the top slot into PC. */
  lemma StepReturn(s: State)
    requires s.Valid() && s.sp > 0
    requires InstrAt(s.ram, s.pc) == Ret
    ensures Step(s) == Ok(s.(sp := s.sp - 1, pc := s.stack[s.sp - 1]))
  {
    assert Step(s) == Execute(s.(pc := Next(s.pc)), Ret);
  }

  /**
    Seventeen nested CALLs cannot happen: a CALL with sixteen frames faults,
    as does a RET with none. Below those bounds they complete and move the
    depth by one.
  */
  lemma StackFaults(s: State, a: Addr)
    requires s.Valid()
    ensures Execute(s, Call(a)) == Err(StackOverflow) <==> s.sp == StackDepth
    ensures Execute(s, Ret) == Err(StackUnderflow) <==> s.sp == 0
    ensures s.sp < StackDepth ==> Execute(s, Call(a)).Ok? && Execute(s, Call(a)).value.sp == s.sp + 1
    ensures s.sp > 0 ==> Execute(s, Ret).Ok? && Execute(s, Ret).value.sp == s.sp - 1
  {
  }

  /** Only CALL and RET move the stack depth, by one level each; every other instruction leaves it and the stack alone. */
  lemma StackDepthChanges(s: State, i: Instr)
    requires s.Valid()
    ensures var r := Execute(s, i);
            r.Ok? ==> r.value.sp as int == s.sp as int + (if i.Call? then 1 else if i.Ret? then -1 else 0)
    ensures !i.Call? && Execute(s, i).Ok? ==> Execute(s, i).value.stack == s.stack
  {
  }

  // ---------------------------------------------------------------------
  // Register loads and arithmetic

  /** LD I, addr sets I to the address and changes nothing else. */
  lemma StepLoadIndex(s: State, a: Addr)
    requires s.Valid()
    requires InstrAt(s.ram, s.pc) == LdIndex(a)
    ensures Step(s) == Ok(s.(pc := Next(s.pc), i := a))
  {
    assert Step(s) == Execute(s.(pc := Next(s.pc)), LdIndex(a));
  }

  /** LD Vx, byte sets Vx to the byte and changes nothing else. */
  lemma StepLoadByte(s: State, x: Nibble, kk: Byte)
    requires s.Valid()
    requires InstrAt(s.ram, s.pc) == LdByte(x, kk)
    ensures Step(s) == Ok(s.(pc := Next(s.pc), v := s.v[x := kk]))
  {
    assert Step(s) == Execute(s.(pc := Next(s.pc)), LdByte(x, kk));
  }

  /** ADD Vx, byte adds modulo 256 into Vx and leaves VF alone unless VF is the target. */
  lemma StepAddByte(s: State, x: Nibble, kk: Byte)
    requires s.Valid()
    requires InstrAt(s.ram, s.pc) == AddByte(x, kk)
    ensures Step(s) == Ok(s.(pc := Next(s.pc), v := s.v[x := ((s.v[x] as int) + kk) % 0x100]))
    ensures x != Flag ==> Step(s).value.v[Flag] == s.v[Flag]
  {
    var t := s.(pc := Next(s.pc));
    assert Step(s) == Execute(t, AddByte(x, kk));
    AddByteEffect(t, x, kk);
  }

  lemma AddByteEffect(s: State, x: Nibble, kk: Byte)
    requires s.Valid()
    ensures Execute(s, AddByte(x, kk)) == Ok(s.(v := s.v[x := ((s.v[x] as int) + kk) % 0x100]))
  {
  }

  /** 8xy0 copies Vy into Vx and changes nothing else. */
  lemma CopyRegister(s: State, x: Nibble, y: Nibble)
    requires s.Valid()
    ensures Execute(s, LdReg(x, y)) == Ok(s.(v := s.v[x := s.v[y]]))
  {
  }

  /** 8xy1: bit k of the new Vx is set exactly when bit k of Vx or of Vy was; no other register changes. */
  lemma OrSetsBits(s: State, x: Nibble, y: Nibble)
    requires s.Valid()
    ensures var r := Execute(s, Or(x, y));
            && r == Ok(s.(v := s.v[x := r.value.v[x]]))
            && forall k: nat | k < 8 ::
                 Bits.Bit(r.value.v[x], k) == 1 <==> Bits.Bit(s.v[x], k) == 1 || Bits.Bit(s.v[y], k) == 1
  {
    forall k: nat | k < 8
      ensures Bits.Bit(Bits.Or(s.v[x], s.v[y]), k) == 1 <==> Bits.Bit(s.v[x], k) == 1 || Bits.Bit(s.v[y], k) == 1
    {
      Bits.OrBits(s.v[x], s.v[y], k);
    }
  }

  /** 8xy2: bit k of the new Vx is set exactly when bit k of both Vx and Vy was; no other register changes. */
  lemma AndSetsBits(s: State, x: Nibble, y: Nibble)
    requires s.Valid()
    ensures var r := Execute(s, And(x, y));
            && r == Ok(s.(v := s.v[x := r.value.v[x]]))
            && forall k: nat | k < 8 ::
                 Bits.Bit(r.value.v[x], k) == 1 <==> Bits.Bit(s.v[x], k) == 1 && Bits.Bit(s.v[y], k) == 1
  {
    forall k: nat | k < 8
      ensures Bits.Bit(Bits.And(s.v[x], s.v[y]), k) == 1 <==> Bits.Bit(s.v[x], k) == 1 && Bits.Bit(s.v[y], k) == 1
    {
      Bits.AndBits(s.v[x], s.v[y], k);
    }
  }

  /** 8xy3: bit k of the new Vx is set exactly when bits k of Vx and Vy differed; no other register changes. */
  lemma XorSetsBits(s: State, x: Nibble, y: Nibble)
    requires s.Valid()
    ensures var r := Execute(s, Xor(x, y));
            && r == Ok(s.(v := s.v[x := r.value.v[x]]))
            && forall k: nat | k < 8 ::
                 Bits.Bit(r.value.v[x], k) == 1 <==> Bits.Bit(s.v[x], k) != Bits.Bit(s.v[y], k)
  {
    forall k: nat | k < 8
      ensures Bits.Bit(Bits.Xor(s.v[x], s.v[y]), k) == 1 <==> Bits.Bit(s.v[x], k) != Bits.Bit(s.v[y], k)
    {
      Bits.XorBits(s.v[x], s.v[y], k);
    }
  }

  /** 8xy3 applied twice with the same Vy (y != x) gives Vx its old value back. */
  lemma XorTwiceRestores(s: State, x: Nibble, y: Nibble)
    requires s.Valid() && x != y
    ensures Execute(s, Xor(x, y)).Ok?
    ensures Execute(Execute(s, Xor(x, y)).value, Xor(x, y)) == Ok(s)
  {
    Bits.XorCancel(s.v[x], s.v[y]);
    var t := Execute(s, Xor(x, y)).value;
    assert t.v[x := XorByte(t.v[x], t.v[y])] == s.v;
  }

  /** Registers other than Vx and VF keep their values. */
  predicate OthersKept(s: State, t: State, x: Nibble)
    requires s.Valid() && t.Valid()
  {
    forall k | 0 <= k < 16 && k != x && k != Flag :: t.v[k] == s.v[k]
  }

  /**
    8xy4: VF is 1 exactly when Vx + Vy exceeds 255; Vx keeps the low eight
    bits, so Vx + 256 * VF is the full sum. Vy is unchanged unless it is Vx
    or VF.
  */
  lemma AddCarry(s: State, x: Nibble, y: Nibble)
    requires s.Valid()
    ensures var t := Execute(s, AddReg(x, y)).value;
            && t == s.(v := t.v)
            && OthersKept(s, t, x)
            && (t.v[Flag] == 1 <==> (s.v[x] as int) + s.v[y] > 0xFF)
            && (t.v[Flag] == 0 <==> (s.v[x] as int) + s.v[y] <= 0xFF)
            && (x != Flag ==> (t.v[x] as int) + 0x100 * (t.v[Flag] as int) == (s.v[x] as int) + s.v[y])
            && (y != x && y != Flag ==> t.v[y] == s.v[y])
  {
  }

  /**
    8xy5: VF is 1 exactly when no borrow occurs (Vx >= Vy); Vx becomes
    Vx - Vy modulo 256, so Vx + Vy is the old Vx plus 256 when a borrow
    occurred.
  */
  lemma SubBorrow(s: State, x: Nibble, y: Nibble)
    requires s.Valid()
    ensures var t := Execute(s, Sub(x, y)).value;
            && t == s.(v := t.v)
            && OthersKept(s, t, x)
            && (t.v[Flag] == 1 <==> s.v[x] >= s.v[y])
            && (t.v[Flag] == 0 <==> s.v[x] < s.v[y])
            && (x != Flag ==> (t.v[x] as int) + s.v[y] == (s.v[x] as int) + 0x100 * (1 - (t.v[Flag] as int)))
            && (y != x && y != Flag ==> t.v[y] == s.v[y])
  {
  }

  /** 8xy7: as 8xy5 with the operands exchanged: Vx becomes Vy - Vx, VF is 1 exactly when Vy >= Vx. */
  lemma SubnBorrow(s: State, x: Nibble, y: Nibble)
    requires s.Valid()
    ensures var t := Execute(s, Subn(x, y)).value;
            && t == s.(v := t.v)
            && OthersKept(s, t, x)
            && (t.v[Flag] == 1 <==> s.v[y] >= s.v[x])
            && (t.v[Flag] == 0 <==> s.v[y] < s.v[x])
            && (x != Flag ==> (t.v[x] as int) + s.v[x] == (s.v[y] as int) + 0x100 * (1 - (t.v[Flag] as int)))
            && (y != x && y != Flag ==> t.v[y] == s.v[y])
  {
  }

  /**
    8xy6: Vx becomes Vy shifted right by one and VF the bit shifted out, so
    2 * Vx + VF is the old Vy.
  */
  lemma ShiftRight(s: State, x: Nibble, y: Nibble)
    requires s.Valid()
    ensures var t := Execute(s, Shr(x, y)).value;
            && t == s.(v := t.v)
            && OthersKept(s, t, x)
            && t.v[Flag] == Bits.Bit(s.v[y], 0)
            && (x != Flag ==> 2 * t.v[x] + t.v[Flag] == s.v[y])
            && (y != x && y != Flag ==> t.v[y] == s.v[y])
  {
  }

  /**
    8xyE: Vx becomes Vy shifted left by one, modulo 256, and VF the bit
    shifted out, so 128 * VF + Vx / 2 is the old Vy.
  */
  lemma ShiftLeft(s: State, x: Nibble, y: Nibble)
    requires s.Valid()
    ensures var t := Execute(s, Shl(x, y)).value;
            && t == s.(v := t.v)
            && OthersKept(s, t, x)
            && t.v[Flag] == Bits.Bit(s.v[y], 7)
            && (t.v[Flag] == 1 <==> s.v[y] >= 0x80)
            && (x != Flag ==> 0x80 * t.v[Flag] + t.v[x] / 2 == s.v[y] && t.v[x] % 2 == 0)
            && (y != x && y != Flag ==> t.v[y] == s.v[y])
  {
    Bits.TopBit(s.v[y]);
  }

  // ---------------------------------------------------------------------
  // Timers, I and memory

  /** Fx07, Fx15 and Fx18 copy between Vx and the delay and sound timers and change nothing else. */
  lemma TimerTransfers(s: State, x: Nibble)
    requires s.Valid()
    ensures Execute(s, LdFromDelay(x)) == Ok(s.(v := s.v[x := s.delay]))
    ensures Execute(s, LdDelay(x)) == Ok(s.(delay := s.v[x]))
    ensures Execute(s, LdSound(x)) == Ok(s.(sound := s.v[x]))
  {
  }

  /** ADD I, Vx (Fx1E) adds Vx to the 16-bit I and changes nothing else. */
  lemma AddIndexMovesIndex(s: State, x: Nibble)
    requires s.Valid()
    ensures Execute(s, AddIndex(x)) == Ok(s.(i := ((s.i as int) + s.v[x]) % 0x1_0000))
    ensures (s.i as int) + s.v[x] < 0x1_0000 ==> Execute(s, AddIndex(x)).value.i - s.i == s.v[x]
  {
  }

  /**
    As written, ADD I, Vx leaves I unchanged, and it overwrites Vx whenever I
    is not a multiple of 256; the intended instruction moves I whenever Vx
    is nonzero.
  */
  lemma AddIndexAsWrittenMissesIndex(s: State, x: Nibble)
    requires s.Valid() && s.v[x] != 0 && s.i % 0x100 != 0
    ensures AddIndexAsWritten(s, x).i == s.i
    ensures Execute(s, AddIndex(x)).value.i != s.i
    ensures AddIndexAsWritten(s, x).v[x] != s.v[x]
  {
  }

  /** LD F, Vx (Fx29) points I at the five glyph rows of the low hexadecimal digit of Vx. */
  lemma FontGlyphAddressed(s: State, x: Nibble)
    requires s.Valid()
    requires s.ram[FontBase .. FontBase + |Font()|] == Font()
    ensures var t := Execute(s, LdFont(x)).value;
            && t == s.(i := t.i)
            && t.i + 5 <= RamSize
            && t.ram[t.i .. t.i + 5] == Glyph(s.v[x] % 0x10)
  {
    var d := s.v[x] % 0x10;
    var t := Execute(s, LdFont(x)).value;
    assert t.ram == s.ram && t.i == FontBase + 5 * d;
    forall r | 0 <= r < 5
      ensures t.ram[t.i .. t.i + 5][r] == Glyph(d)[r]
    {
      assert s.ram[FontBase .. FontBase + |Font()|][5 * d + r] == Font()[5 * d + r];
    }
  }

  /**
    LD B, Vx (Fx33) leaves the three decimal digits of Vx at I, I + 1 and
    I + 2, leaves the rest of memory and all registers alone.
  */
  lemma BcdDigits(s: State, x: Nibble)
    requires s.Valid()
    ensures var t := Execute(s, LdBcd(x)).value;
            var m := t.ram;
            && t == s.(ram := m)
            && m[s.i % RamSize] == s.v[x] / 100
            && m[(s.i + 1) % RamSize] == (s.v[x] / 10) % 10
            && m[(s.i + 2) % RamSize] == s.v[x] % 10
  {
    var m := WriteBcd(s.ram, s.i, s.v[x]);
    DecimalDigits(m[s.i % RamSize], m[(s.i + 1) % RamSize], m[(s.i + 2) % RamSize], s.v[x]);
  }

  /** Three decimal digits that spell `b` are its hundreds, tens and ones digits. */
  lemma DecimalDigits(h: int, t: int, o: int, b: int)
    requires 0 <= h < 10 && 0 <= t < 10 && 0 <= o < 10
    requires h * 100 + t * 10 + o == b
    ensures h == b / 100 && t == (b / 10) % 10 && o == b % 10
  {
    assert b == (h * 10 + t) * 10 + o;
    assert b / 10 == h * 10 + t;
  }

  /** The register index stored at `(base + k) % 4096` is `k` again. */
  lemma OffsetBack(base: Word, k: int)
    requires 0 <= k < RamSize
    ensures ((base + k) % RamSize - base) % RamSize == k
  {
  }

  /** From address `a` back to the register index it was stored from, modulo 4096. */
  lemma OffsetRoundTrip(base: Word, a: int)
    requires 0 <= a < RamSize
    ensures (base + (a - base) % RamSize) % RamSize == a
  {
  }

  /**
    LD [I], Vx (Fx55) changes only memory and I: memory becomes `StoreRegs`
    of it, which holds V0..Vx at I, I + 1, ..., I + x modulo 4096 and every
    other byte unchanged, and I advances by x + 1.
  */
  lemma StoreEffect(s: State, x: Nibble)
    requires s.Valid()
    ensures Execute(s, Store(x)).Ok?
    ensures var t := Execute(s, Store(x)).value;
            && t == s.(ram := t.ram, i := (s.i + x + 1) % 0x1_0000)
            && t.ram == StoreRegs(s.ram, s.v, s.i, x)
  {
    var m := StoreRegs(s.ram, s.v, s.i, x);
    assert Execute(s, Store(x)) == Ok(s.(ram := m, i := (s.i + x + 1) % 0x1_0000));
  }

  /**
    LD Vx, [I] (Fx65) reads V0..Vx from I, I + 1, ..., I + x, modulo 4096,
    leaves the registers above Vx alone, advances I by x + 1 and changes
    nothing else.
  */
  lemma LoadEffect(s: State, x: Nibble)
    requires s.Valid()
    ensures var t := Execute(s, Load(x)).value;
            && t == s.(v := t.v, i := t.i)
            && t.i == (s.i + x + 1) % 0x1_0000
            && (forall k | 0 <= k <= x :: t.v[k] == s.ram[(s.i + k) % RamSize])
            && (forall k | x < k < 16 :: t.v[k] == s.v[k])
  {
  }

  /**
    LD [I], Vx (Fx55) then LD Vx, [I] (Fx65) from the same I gives every
    register its old value back; both advance I by x + 1.
  */
  lemma StoreThenLoad(s: State, x: Nibble)
    requires s.Valid()
    ensures var t := Execute(s, Store(x)).value;
            && t.i == (s.i + x + 1) % 0x1_0000
            && Execute(t.(i := s.i), Load(x)).value.v == s.v
  {
    var m := StoreRegs(s.ram, s.v, s.i, x);
    assert Execute(s, Store(x)).value == s.(ram := m, i := (s.i + x + 1) % 0x1_0000);
    assert Execute(s.(ram := m), Load(x)).value.v == LoadRegs(m, s.v, s.i, x);
    LoadStoredRegs(s.ram, s.v, s.i, x);
  }

  /** Loading registers just stored at the same place gives the registers back. */
  lemma LoadStoredRegs(ram: seq<Byte>, v: seq<Byte>, base: Word, x: Nibble)
    requires |ram| == RamSize && |v| == 16
    ensures LoadRegs(StoreRegs(ram, v, base, x), v, base, x) == v
  {
    var m := StoreRegs(ram, v, base, x);
    assert forall k | 0 <= k < 16 :: LoadRegs(m, v, base, x)[k] == v[k];
  }

  /**
    LD Vx, [I] (Fx65) then LD [I], Vx (Fx55) from the same I writes back
    exactly what was read, leaving memory as it was.
  */
  lemma LoadThenStore(s: State, x: Nibble)
    requires s.Valid()
    ensures var t := Execute(s, Load(x)).value;
            && t.i == (s.i + x + 1) % 0x1_0000
            && Execute(t.(i := s.i), Store(x)).value.ram == s.ram
  {
    StoreLoadedRegs(s.ram, s.v, s.i, x);
  }

  /** Storing registers just loaded from the same place rewrites memory with its own contents. */
  lemma StoreLoadedRegs(ram: seq<Byte>, v: seq<Byte>, base: Word, x: Nibble)
    requires |ram| == RamSize && |v| == 16
    ensures StoreRegs(ram, LoadRegs(ram, v, base, x), base, x) == ram
  {
    var w := LoadRegs(ram, v, base, x);
    var r := StoreRegs(ram, w, base, x);
    forall a | 0 <= a < RamSize
      ensures r[a] == ram[a]
    {
      var k := (a - base) % RamSize;
      if k <= x {
        OffsetRoundTrip(base, a);
        assert w[k] == ram[(base + k) % RamSize];
      }
    }
  }

  // ---------------------------------------------------------------------
  // The original fetch

  /** With JP 0x300 at 0x200, the cycle jumps to 0x300. */
  lemma StepJumpsAtStart(s: State)
    requires s.Valid() && s.pc == ProgramStart
    requires s.ram[ProgramStart] == 0x13 && s.ram[ProgramStart + 1] == 0x00
    ensures Step(s) == Ok(s.(pc := 0x300))
  {
    assert SplitBytes(0x13, 0x00) == Fields(0x1, 0x3, 0x0, 0x0);
  }

  /** With 0000 (SYS 0) at 0x202, the cycle as written executes it and stops at 0x202. */
  lemma StepAsWrittenRunsSecondWord(s: State)
    requires s.Valid() && s.pc == ProgramStart
    requires s.ram[ProgramStart + 2] == 0x00 && s.ram[ProgramStart + 3] == 0x00
    ensures StepAsWritten(s) == Ok(s.(pc := ProgramStart + 2))
  {
    assert SplitBytes(0x00, 0x00) == Fields(0x0, 0x0, 0x0, 0x0);
    var t := s.(pc := Next(s.pc));
    assert t == s.(pc := ProgramStart + 2);
  }

  /**
    As written, the first cycle after power-on skips the instruction at
    0x200: with JP 0x300 there and 0000 after it, the corrected cycle jumps
    to 0x300 while the original one executes 0000 and ends at 0x202.
  */
  lemma StepAsWrittenSkipsInstruction(s: State)
    requires s.Valid() && s.pc == ProgramStart
    requires s.ram[ProgramStart] == 0x13 && s.ram[ProgramStart + 1] == 0x00
    requires s.ram[ProgramStart + 2] == 0x00 && s.ram[ProgramStart + 3] == 0x00
    ensures Step(s) == Ok(s.(pc := 0x300))
    ensures StepAsWritten(s) == Ok(s.(pc := ProgramStart + 2))
  {
    StepJumpsAtStart(s);
    StepAsWrittenRunsSecondWord(s);
  }
}
