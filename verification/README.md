# CHIP-8 interpreter core

A Dafny model of the fetch/decode/execute core of a CHIP-8 interpreter
written in C++ (`CHIP8.cpp`). The modelled parts are:

- the machine state: 4 KiB of memory, sixteen 8-bit registers V0..VF, the
  16-bit index register I and program counter PC, a sixteen-level return
  stack with its stack pointer, the 64x32 monochrome display, and the delay
  and sound timers;
- the built-in hexadecimal font;
- assembling the instruction word and splitting it into fields;
- dispatch over the instruction table, first match within each class
  (see below for the entries with unusable tests);
- the state transition of each instruction;
- the one-instruction cycle.

The semantics of each instruction come from the comment beside its entry in
the source's instruction table. The Cowgod Chip-8 Technical Reference
(sections 2.5 and 3.0) fills only the gaps those comments leave: the SKNP
instruction, where the font lies for Fx29, and CALL and RET as a push and
pop. The comments depart from Cowgod's text in three places, and the model
follows the comments:

- 8xy6 and 8xyE shift Vy into Vx (CHIP8.cpp:193, CHIP8.cpp:199). Cowgod
  shifts Vx.
- Fx55 and Fx65 leave I at I + x + 1 (CHIP8.cpp:222, CHIP8.cpp:224).
  Cowgod leaves I unchanged.
- 8xy5 and 8xy7 set VF to 1 when no borrow occurs, so equal operands give
  VF = 1. Cowgod sets VF only when the minuend is strictly greater.

Modules:

- `Bits` defines bitwise OR, AND and XOR on naturals one bit at a time. It
  proves each operation against a per-bit reading (`Bit`) and proves that
  8-bit operands give 8-bit results.
- `Machine` holds the state record, the font, the display clear (`reset` in
  the source), program loading at 0x200, and the 60Hz timer decrement.
- `Decoder` holds:
  - the fields `u x y n` of a word `0xUXYN`, with `kk` and `nnn` derived
    from them;
  - the `Instr` datatype: one constructor per table entry, plus SKNP
    (ExA1), which the table lacks, and `Unknown` for words no entry accepts;
  - first-match `Dispatch`;
  - `Decode`;
  - the inverse encoding `Assemble`, with both round-trip lemmas.
- `Cpu` holds:
  - `Execute`: one instruction on a state whose PC has already been
    advanced;
  - `Step`: decode the instruction from the two bytes at PC, advance PC by
    two, execute;
  - a lemma per instruction;
  - the members that model the original code where it departs from its
    evident intent (see Findings).

Where the code and its documentation differ, the model makes these choices:

- Table entries with an empty body but a precise comment take their
  semantics from the comment. These are:
  - CALL and RET, as a push and pop on the sixteen-slot stack;
  - 8xy4 to 8xyE;
  - SNE Vx, Vy;
  - JP V0;
  - Fx07, Fx15, Fx18, Fx29 and Fx33;
  - Fx55 and Fx65.
- SHR and SHL follow the comments: Vx receives Vy shifted and VF the bit
  shifted out. VF is written after Vx, so with x = F the flag wins.
- The undefined `nn` of the SE and SNE Vx, byte entries is read as `kk`.
- Dispatch places the three entries whose tests are unusable:
  - SYS is listed first, with an empty test. The model makes it the
    fallback of class 0, after CLS and RET.
  - RND is listed without a test. The model gives it all of class C.
  - SKNP (ExA1) is not in the table at all. The model adds it to class E
    after SKP (Ex9E), as the Cowgod reference defines it.
- SE Vx, Vy has a malformed body. The model gives it the skip its comment
  describes. SE and SNE Vx, Vy test only the class, so 5xyN and 9xyN reach
  them for every N.
- Fx33, Fx55 and Fx65 take the addresses I, I + 1, ... modulo 4096, the
  same wrap the fetch applies to PC with `& 0xFFF`. The source applies no
  mask there, so an address past 0xFFF would index outside memory.
- A word that no entry accepts changes nothing but the PC, as the table's
  final empty `else {}` does.
- CALL and RET have empty bodies in the source, and `SP` and `stack` are
  declared but never used. The model gives them the push and pop of the
  stack that the comment at CHIP8.cpp:62-64 describes, with up to sixteen
  levels. A CALL with all sixteen levels in use and a RET with an empty
  stack are faults (`StackOverflow`, `StackUnderflow`). These faults are
  the model's own choice; the source says nothing about either case.
- The font table is kept as sixteen five-row glyphs. The 80-byte table of
  the source is their concatenation, with digit d at offset 5 * d.
- The font is placed at address 0 of memory. LD F, Vx points I at
  `5 * (Vx mod 16)`. The source keeps the font in a separate array and
  leaves Fx29 unimplemented.
- The display is one sequence of 64 * 32 cells. Cell (x, y) is at
  `x * 32 + y`, the layout of `display[64][32]`.
- Loading a program refuses an image longer than 0xE00 bytes
  (`ProgramTooLarge`). The source copies whatever the file holds and
  writes past memory for a larger file.

## Model

| member | source | states |
|---|---|---|
| Bits.OrBits | CHIP8.cpp:184 | bit k of a OR b is set exactly when bit k of a or of b is set |
| Bits.AndBits | CHIP8.cpp:185 | bit k of a AND b is set exactly when bit k of both a and b is set |
| Bits.XorBits | CHIP8.cpp:186 | bit k of a XOR b is set exactly when bits k of a and b differ |
| Bits.XorCancel | CHIP8.cpp:186 | XOR with the same operand twice gives the original value |
| Bits.ByteClosed | CHIP8.cpp:67 | OR, AND and XOR of two 8-bit values fit in an 8-bit register |
| Bits.TopBit | CHIP8.cpp:200 | bit 7 of an 8-bit value is 1 exactly from 0x80 on |
| Machine.Font | CHIP8.cpp:112-129 | the font table has 80 bytes, and row r of digit d's glyph sits at offset 5d + r |
| Machine.Glyph | CHIP8.cpp:112-129 | every glyph has five rows, each at most four pixels wide (low nibble clear) |
| Machine.GlyphsDistinct | CHIP8.cpp:112-129 | two different digits never share a glyph |
| Machine.Blank | CHIP8.cpp:103 | a display of the full 64x32 size with every cell off |
| Machine.ClearDisplay | CHIP8.cpp:160-166 | clearing column by column, row by row, turns every one of the 64x32 cells off |
| Machine.Initial | CHIP8.cpp:241-245 | the power-on state is well formed, has PC at 0x200, an empty stack, I, every register and both timers at zero, a dark display, and holds the font |
| Machine.LoadProgram | CHIP8.cpp:134-153 | the image is copied byte for byte from 0x200 and every other address keeps its byte; loading fails exactly when the image does not fit below 0x1000 |
| Machine.Boot | CHIP8.cpp:241-245 | a booted machine is well formed, starts at 0x200, and holds both the font and the program image |
| Machine.TicksCountDown | CHIP8.cpp:52-55 | after n ticks each timer has gone down by n but not below zero, and nothing else has changed |
| Decoder.FieldsOf | CHIP8.cpp:229-234 | the four nibbles u, x, y, n lie in range and reassemble to the word they came from |
| Decoder.ComposeSplits | CHIP8.cpp:229-234 | splitting a word built from four nibbles gives back those nibbles |
| Decoder.SplitBytesWord | CHIP8.cpp:227 | splitting the high and low bytes is the same as splitting the big-endian word they form |
| Decoder.ComposeInjective | CHIP8.cpp:229-234 | two field records that make the same word are equal |
| Decoder.MaskedFieldsMisfire | CHIP8.cpp:229-231 | with the masks as written, no class test `u == c` for c from 1 to 15 can hold, and a nonzero register field is never below 16 |
| Decoder.KeyClassExact | CHIP8.cpp:210 | in class E, SKP is chosen exactly for low byte 9E and SKNP exactly for A1; anything else is unknown |
| Decoder.KeyClassAsWrittenSwallowsSknp | CHIP8.cpp:210 | as written, ExA1 (SKNP in the Cowgod reference, absent from the table) and E100 both dispatch to SKP |
| Decoder.DecodeClassZero | CHIP8.cpp:172-174 | 00E0-style words are CLS and 00EE-style words are RET, both recognised by class 0 and the low byte; every other class-0 word is SYS |
| Decoder.DecodeUnknown | CHIP8.cpp:236-237 | a word decodes to no entry exactly when it is in class 8, E or F with a selector that has no table entry |
| Decoder.DispatchEncode | CHIP8.cpp:172-224 | every well-formed instruction is selected again by its own canonical fields |
| Decoder.DecodeAssemble | CHIP8.cpp:226-237 | decoding the canonical word of a well-formed instruction gives that instruction back |
| Decoder.EncodeDispatch | CHIP8.cpp:172-224 | the canonical fields of the dispatched instruction equal the original fields, except where the table ignores a field (5xyN and 9xyN with N != 0; 0xE0 and 0xEE with x != 0) |
| Decoder.AssembleDecode | CHIP8.cpp:226-237 | every word is the canonical word of its decoding, exactly except for the words whose ignored fields are nonzero |
| Cpu.WordAt | CHIP8.cpp:227 | the instruction word has `ram[PC & 0xFFF]` as its high byte and `ram[(PC+1) & 0xFFF]` as its low byte |
| Cpu.InstrAtDecodesWord | CHIP8.cpp:227 | the instruction the cycle executes is the decoding of the big-endian word at PC |
| Cpu.StoreRegs | CHIP8.cpp:221-222 | V0..Vx are written at I, I+1, ..., I+x modulo 4096, and no other address changes |
| Cpu.LoadRegs | CHIP8.cpp:223-224 | V0..Vx are read from I, I+1, ..., I+x modulo 4096, and the registers above Vx keep their values |
| Cpu.WriteBcd | CHIP8.cpp:219-220 | three digits below 10 are written at I, I+1, I+2 and read back as decimal they give Vx; no other address changes |
| Cpu.Execute | CHIP8.cpp:172-224 | an instruction fails exactly for CALL with sixteen levels in use or RET with none, with the matching fault; a successful result is well formed; instructions that do not transfer control leave PC alone |
| Cpu.Step | CHIP8.cpp:155-158 | a cycle keeps the state well formed and fails exactly when the instruction at PC is CALL on a full stack or RET on an empty one |
| Cpu.StepAdvancesPc | CHIP8.cpp:155-158 | an instruction that does not transfer control completes and leaves PC exactly two further on, modulo 2^16 |
| Cpu.StepUnknown | CHIP8.cpp:236-237 | a word no entry accepts changes nothing but the PC advance |
| Cpu.StepEmptyBodies | CHIP8.cpp:172-213 | SYS, RND, DRW, SKP, SKNP and LD Vx, K change nothing but the PC advance |
| Cpu.StepClear | CHIP8.cpp:173 | CLS turns every display cell off and changes nothing else but the PC advance |
| Cpu.StepJump | CHIP8.cpp:175 | JP addr sets PC to addr and changes nothing else |
| Cpu.StepJumpOffset | CHIP8.cpp:205 | JP V0, addr sets PC to addr + V0 and changes nothing else |
| Cpu.StepSkip | CHIP8.cpp:177-179 | SE/SNE Vx, byte and SE/SNE Vx, Vy skip the next instruction exactly when their comparison holds, and change nothing but PC |
| Cpu.StepCall | CHIP8.cpp:176 | CALL with a free level pushes the address after it, deepens the stack by one and jumps |
| Cpu.StepReturn | CHIP8.cpp:174 | RET with a nonempty stack pops the top address into PC |
| Cpu.ReturnUndoesCall | CHIP8.cpp:62-64 | RET right after CALL restores PC and the stack depth |
| Cpu.StepCallThenReturn | CHIP8.cpp:174-176 | a CALL to a subroutine that starts with RET comes back to the instruction after the CALL at the same depth |
| Cpu.StackFaults | CHIP8.cpp:62-64 | CALL overflows exactly at sixteen levels and RET underflows exactly at zero; below those bounds they complete and move the depth by one |
| Cpu.StackDepthChanges | CHIP8.cpp:62-64 | only CALL and RET change the stack depth, by plus and minus one; no instruction but CALL writes the stack |
| Cpu.StepLoadIndex | CHIP8.cpp:204 | LD I, addr sets I to addr and changes nothing else |
| Cpu.StepLoadByte | CHIP8.cpp:181 | LD Vx, byte sets Vx to the byte and changes nothing else |
| Cpu.StepAddByte | CHIP8.cpp:182 | ADD Vx, byte stores (Vx + kk) mod 256 in Vx, and VF is untouched unless it is the target |
| Cpu.CopyRegister | CHIP8.cpp:183 | 8xy0 copies Vy into Vx and changes nothing else |
| Cpu.OrSetsBits | CHIP8.cpp:184 | 8xy1 sets each bit of Vx to the OR of the bits of Vx and Vy, and only Vx changes |
| Cpu.AndSetsBits | CHIP8.cpp:185 | 8xy2 sets each bit of Vx to the AND of the bits of Vx and Vy, and only Vx changes |
| Cpu.XorSetsBits | CHIP8.cpp:186 | 8xy3 sets each bit of Vx to the XOR of the bits of Vx and Vy, and only Vx changes |
| Cpu.XorTwiceRestores | CHIP8.cpp:186 | 8xy3 applied twice with y != x restores the whole state |
| Cpu.AddCarry | CHIP8.cpp:187-189 | 8xy4 sets VF to 1 exactly on a carry; Vx + 256 * VF is the full sum; Vy and the other registers are unchanged |
| Cpu.SubBorrow | CHIP8.cpp:190-192 | 8xy5 sets VF to 1 exactly when no borrow occurs; Vx becomes Vx - Vy modulo 256; Vy is unchanged |
| Cpu.ShiftRight | CHIP8.cpp:193-195 | 8xy6 makes VF the low bit of Vy and Vx equal to Vy shifted right, so 2 * Vx + VF = Vy; Vy is unchanged |
| Cpu.SubnBorrow | CHIP8.cpp:196-198 | 8xy7 sets VF to 1 exactly when no borrow occurs; Vx becomes Vy - Vx modulo 256; Vy is unchanged |
| Cpu.ShiftLeft | CHIP8.cpp:199-201 | 8xyE makes VF the high bit of Vy and Vx equal to Vy shifted left modulo 256; Vy is unchanged |
| Cpu.TimerTransfers | CHIP8.cpp:212-215 | Fx07 copies the delay timer into Vx, and Fx15 and Fx18 copy Vx into the delay and sound timers; nothing else changes |
| Cpu.AddIndexMovesIndex | CHIP8.cpp:216 | ADD I, Vx adds Vx to I modulo 2^16 and changes nothing else |
| Cpu.AddIndexAsWrittenMissesIndex | CHIP8.cpp:216 | for nonzero Vx and I not a multiple of 256, the body as written leaves I unchanged and changes Vx, while the intended instruction moves I |
| Cpu.FontGlyphAddressed | CHIP8.cpp:217-218 | LD F, Vx points I at the five rows of the glyph for the low digit of Vx and changes nothing else |
| Cpu.BcdDigits | CHIP8.cpp:219-220 | LD B, Vx puts the hundreds, tens and ones digits of Vx at I, I+1, I+2 and changes only memory |
| Cpu.StoreEffect | CHIP8.cpp:221-222 | LD [I], Vx changes only memory and I: memory becomes the `StoreRegs` image and I advances by x + 1 modulo 2^16 |
| Cpu.LoadEffect | CHIP8.cpp:223-224 | LD Vx, [I] changes only the registers and I: V0..Vx come from I, I+1, ..., I+x modulo 4096, the higher registers are kept, and I advances by x + 1 |
| Cpu.StoreThenLoad | CHIP8.cpp:221-224 | storing V0..Vx at I and loading them back from the same I gives every register its old value; I advances by x + 1 |
| Cpu.LoadThenStore | CHIP8.cpp:221-224 | loading V0..Vx from I and storing them back at the same I leaves memory unchanged; I advances by x + 1 |
| Cpu.StepJumpsAtStart | CHIP8.cpp:175 | with JP 0x300 at 0x200, the corrected cycle jumps to 0x300 |
| Cpu.StepAsWrittenRunsSecondWord | CHIP8.cpp:155-158 | with the original fetch, the first cycle executes the word at 0x202 |
| Cpu.StepAsWrittenSkipsInstruction | CHIP8.cpp:227 | the corrected cycle and the original one diverge on the first instruction of a program |

## Left out

- DRW and `draw`: decoded, but executed as a no-op. The drawing body is an empty stub, and the XOR and wrap rules appear nowhere in the code.
- RND: decoded, but executed as a no-op. It needs a random source, and the table entry has neither a test nor a body.
- SKP, SKNP and LD Vx, K: decoded, but executed as no-ops. The state has no keyboard, and waiting for a key is host interaction.
- SYS addr: executed as a no-op, because it calls machine code.
- Reading the ROM file in `loadROM`: file I/O. `LoadProgram` takes the image as bytes.
- `main` and `initVM`: the host loop and its pointer set-up. `Boot` stands for the initial state they aim at.
- The 60Hz pacing of the timers: wall-clock behaviour. Only the decrement-if-nonzero tick is modelled.
- The X-macro mechanics of the instruction table. They are replaced by the `Instr` datatype, `Dispatch` and a `match`.
- Sound output when the sound timer is nonzero: host output.
- Cpu.StepEmptyBodies: states the no-op reading of the stubbed entries. It states nothing about what a finished DRW, RND or key instruction would do.

## Findings

| source | as written | input that shows it | evidently intended | confidence | as-written member | corrected member |
|---|---|---|---|---|---|---|
| CHIP8.cpp:229-231 | `u`, `x` and `y` are masked but not shifted, so `u` is a multiple of 0x1000 and `x` and `y` are multiples of 0x100 and 0x10 | word 0x1300: `u` is 0x1000, so the JP test `u == 0x1` fails, and so does every class test from 1 to 15 | shifted 4-bit fields, as the comments call them | not executed | Decoder.MaskedFields, Decoder.MaskedFieldsMisfire | Decoder.FieldsOf, Decoder.ComposeSplits |
| CHIP8.cpp:155-158, CHIP8.cpp:227 | `fetch` adds 2 to PC, then `decode` reads the word at the advanced PC | JP 0x300 at 0x200 and 0000 at 0x202: the first cycle runs 0000 and ends at 0x202 | read the word at PC, then add 2 | not executed | Cpu.StepAsWritten, Cpu.StepAsWrittenSkipsInstruction | Cpu.Step, Cpu.StepAdvancesPc, Cpu.StepJumpsAtStart |
| CHIP8.cpp:216 | ADD I, Vx executes `V[x] += I` | I = 1, Vx = 1: I stays 1 and Vx becomes 2 | I := I + Vx, as the comment says | not executed | Cpu.AddIndexAsWritten, Cpu.AddIndexAsWrittenMissesIndex | Cpu.AddIndexMovesIndex |
| CHIP8.cpp:210 | the SKP test is only `u == 0xE` | word 0xE1A1 dispatches to SKP V1, and so does 0xE100 | SKP only for Ex9E. The table has no entry for ExA1; the Cowgod reference makes it SKNP, and the corrected member adds that | not executed | Decoder.KeyClassAsWritten, Decoder.KeyClassAsWrittenSwallowsSknp | Decoder.KeyClass, Decoder.KeyClassExact |
