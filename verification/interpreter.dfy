/**
 * The Chip-8 interpreter: reset, program loading and the fetch/decode/execute
 * cycle.  Instruction semantics follow section 3.1 of Cowgod's Chip-8
 * Technical Reference, except where the C implementation differs; the model
 * follows the implementation.
 *
 * The two function-pointer tables of the source become a dispatch on the top
 * nibble (`Execute`) with nested dispatches for families 0, 8, E and F.  A
 * sub-opcode with no handler does nothing beyond the pc advance of the fetch
 * (the source only prints a diagnostic).
 */
module Interpreter {
  import opened Bits
  import opened Results
  import opened Machine
  import Sprite

  /** The built-in 4 x 5 font for the hex digits 0-F, 5 bytes per glyph. */
  const Font: seq<Byte> := [
    0xF0, 0x90, 0x90, 0x90, 0xF0, // 0
    0x20, 0x60, 0x20, 0x20, 0x70, // 1
    0xF0, 0x10, 0xF0, 0x80, 0xF0, // 2
    0xF0, 0x10, 0xF0, 0x10, 0xF0, // 3
    0x90, 0x90, 0xF0, 0x10, 0x10, // 4
    0xF0, 0x80, 0xF0, 0x10, 0xF0, // 5
    0xF0, 0x80, 0xF0, 0x90, 0xF0, // 6
    0xF0, 0x10, 0x20, 0x40, 0x40, // 7
    0xF0, 0x90, 0xF0, 0x90, 0xF0, // 8
    0xF0, 0x90, 0xF0, 0x10, 0xF0, // 9
    0xF0, 0x90, 0xF0, 0x90, 0x90, // A
    0xE0, 0x90, 0xE0, 0x90, 0xE0, // B
    0xF0, 0x80, 0x80, 0x80, 0xF0, // C
    0xE0, 0x90, 0x90, 0x90, 0xE0, // D
    0xF0, 0x80, 0xF0, 0x80, 0xF0, // E
    0xF0, 0x80, 0xF0, 0x80, 0x80  // F
  ]

  // ---------------------------------------------------------------------------
  // Instruction fields

  /** Bits 12-15: the instruction family, `(op & 0xF000) >> 12`. */
  function Family(op: Word): nat { op / 0x1000 }
  /** Bits 8-11: register X, `(op & 0x0F00) >> 8`. */
  function RegX(op: Word): nat { op / 0x100 % 0x10 }
  /** Bits 4-7: register Y, `(op & 0x00F0) >> 4`. */
  function RegY(op: Word): nat { op / 0x10 % 0x10 }
  /** Bits 0-3: N, `op & 0x000F`. */
  function LowNibble(op: Word): nat { op % 0x10 }
  /** Bits 0-7: KK, `op & 0x00FF`. */
  function LowByte(op: Word): Byte { op % 0x100 }
  /** Bits 0-11: NNN, `op & 0x0FFF`. */
  function Address(op: Word): nat { op % 0x1000 }

  /** The fields are nibbles that reassemble into the instruction word. */
  lemma DecodeFields(op: Word)
    ensures Family(op) < 0x10 && RegX(op) < 0x10 && RegY(op) < 0x10 && LowNibble(op) < 0x10
    ensures op == Family(op) * 0x1000 + RegX(op) * 0x100 + RegY(op) * 0x10 + LowNibble(op)
    ensures LowByte(op) == RegY(op) * 0x10 + LowNibble(op)
    ensures Address(op) == RegX(op) * 0x100 + LowByte(op)
  {
    var q1, n0 := op / 0x10, op % 0x10;
    var q2, n1 := q1 / 0x10, q1 % 0x10;
    var q3, n2 := q2 / 0x10, q2 % 0x10;
    DivUnique(op, 0x100, q2, 0x10 * n1 + n0);
    DivUnique(op, 0x1000, q3, 0x100 * n2 + 0x10 * n1 + n0);
  }

  // ---------------------------------------------------------------------------
  // State helpers

  /** The video buffer with the 64 x 32 standard view switched off. */
  function Blank(video: seq<Byte>): (r: seq<Byte>)
    ensures |r| == |video|
    ensures forall k :: 0 <= k < |r| ==> r[k] == if k < ScreenWidth * ScreenHeight then 0 else video[k]
  {
    seq(|video|, k requires 0 <= k < |video| => if k < ScreenWidth * ScreenHeight then 0 else video[k])
  }

  function SetV(m: Chip8, x: nat, b: Byte): (r: Chip8)
    requires Valid(m) && x < RegisterCount
    ensures Valid(r)
  {
    m.(v := m.v[x := b])
  }

  /** Skips the next instruction when `cond` holds: `pc += 2`. */
  function SkipIf(m: Chip8, cond: bool): (r: Chip8)
    requires Valid(m)
    ensures Valid(r)
  {
    if cond then m.(pc := Wrap16(m.pc as int + 2)) else m
  }

  // ---------------------------------------------------------------------------
  // Reset and loading

  /**
   * Power-on defaults.  Only the 64 x 32 part of the video buffer is cleared;
   * memory above the font, the stack, the R flags and the graphics mode keep
   * their values.
   */
  function Reset(m: Chip8): (r: Chip8)
    requires Valid(m)
    ensures Valid(r)
    ensures r.pc == ProgramStart && r.sp == 0 && r.i == 0
    ensures r.delayTimer == 0 && r.soundTimer == 0 && !r.refreshScreen && !r.playBeep
    ensures forall k :: 0 <= k < RegisterCount ==> r.v[k] == 0
    ensures forall k :: 0 <= k < KeyCount ==> r.key[k] == 0
    ensures r.memory[..FontSize] == Font && r.memory[FontSize..] == m.memory[FontSize..]
    ensures forall k :: 0 <= k < VideoSize ==>
              r.video[k] == if k < ScreenWidth * ScreenHeight then 0 else m.video[k]
    ensures r.stack == m.stack && r.r == m.r && r.extendedGraphicsMode == m.extendedGraphicsMode
    ensures r.opcode == m.opcode
  {
    m.(pc := ProgramStart, sp := 0, i := 0, delayTimer := 0, soundTimer := 0,
       refreshScreen := false, playBeep := false,
       v := seq(RegisterCount, _ => 0), key := seq(KeyCount, _ => 0),
       video := Blank(m.video), memory := Font + m.memory[FontSize..])
  }

  /** Reference description of a loaded program: its bytes in order from 0x200. */
  function Loaded(m: Chip8, program: seq<Byte>): (r: Chip8)
    requires Valid(m) && |program| <= MemorySize - ProgramStart
    ensures Valid(r)
  {
    m.(memory := m.memory[..ProgramStart] + program + m.memory[ProgramStart + |program|..])
  }

  /**
   * The copy loop of the ROM loader over an in-memory program.  A program
   * longer than the 3584 bytes above 0x200 is refused rather than written past
   * the end of memory.
   */
  method LoadProgram(m: Chip8, program: seq<Byte>) returns (r: Result<Chip8, Fault>)
    requires Valid(m)
    ensures r.Ok? <==> |program| <= MemorySize - ProgramStart
    ensures r.Err? ==> r.error == ProgramTooLarge
    ensures r.Ok? ==> Valid(r.value) && r.value == Loaded(m, program)
  {
    if |program| > MemorySize - ProgramStart {
      return Err(ProgramTooLarge);
    }
    var memory := m.memory;
    var k := 0;
    while k < |program|
      invariant 0 <= k <= |program|
      invariant |memory| == MemorySize
      invariant forall a :: 0 <= a < ProgramStart ==> memory[a] == m.memory[a]
      invariant forall j :: 0 <= j < k ==> memory[ProgramStart + j] == program[j]
      invariant forall a :: ProgramStart + |program| <= a < MemorySize ==> memory[a] == m.memory[a]
    {
      memory := memory[ProgramStart + k := program[k]];
      k := k + 1;
    }
    ghost var loaded := Loaded(m, program).memory;
    assert forall a :: 0 <= a < MemorySize ==> memory[a] == loaded[a] by {
      forall a | 0 <= a < MemorySize ensures memory[a] == loaded[a] {
        if ProgramStart <= a < ProgramStart + |program| {
          assert memory[ProgramStart + (a - ProgramStart)] == program[a - ProgramStart];
        }
      }
    }
    assert memory == loaded;
    return Ok(m.(memory := memory));
  }

  // ---------------------------------------------------------------------------
  // The cycle

  /** Reads the big-endian instruction at pc and moves pc past it. */
  function Fetch(m: Chip8): (r: Result<Chip8, Fault>)
    requires Valid(m)
    ensures r.Ok? <==> m.pc + 1 < MemorySize
    ensures r.Err? ==> r.error == MemoryOutOfRange
    ensures r.Ok? ==> Valid(r.value)
    ensures r.Ok? ==>
              && r.value.opcode / 0x100 == m.memory[m.pc]
              && r.value.opcode % 0x100 == m.memory[m.pc + 1]
              && r.value.pc == m.pc + 2
              && r.value.(opcode := m.opcode, pc := m.pc) == m
  {
    if m.pc + 1 >= MemorySize then Err(MemoryOutOfRange)
    else Ok(m.(opcode := m.memory[m.pc] as int * 0x100 + m.memory[m.pc + 1], pc := m.pc + 2))
  }

  /** One cycle: fetch, then run the handler the top nibble selects. */
  function Step(m: Chip8, rnd: Byte): (r: Result<Chip8, Fault>)
    requires Valid(m)
    ensures r.Ok? ==> Valid(r.value)
    ensures m.pc + 1 >= MemorySize ==> r == Err(MemoryOutOfRange)
  {
    var fetched :- Fetch(m);
    Execute(fetched, rnd)
  }

  /**
   * Runs the instruction in `m.opcode`.  `rnd` is the random byte CXKK
   * combines with its mask.
   */
  function Execute(m: Chip8, rnd: Byte): (r: Result<Chip8, Fault>)
    requires Valid(m)
    ensures r.Ok? ==> Valid(r.value)
  {
    var op := m.opcode;
    var x, y := RegX(op), RegY(op);
    var family := Family(op);
    if family == 0x0 then ExecSystem(m)
    else if family == 0x1 then Ok(m.(pc := Address(op)))
    else if family == 0x2 then ExecCall(m)
    else if family == 0x3 then Ok(SkipIf(m, m.v[x] == LowByte(op)))
    else if family == 0x4 then Ok(SkipIf(m, m.v[x] != LowByte(op)))
    else if family == 0x5 then Ok(SkipIf(m, m.v[x] == m.v[y]))
    else if family == 0x6 then Ok(SetV(m, x, LowByte(op)))
    else if family == 0x7 then Ok(SetV(m, x, Wrap8(m.v[x] as int + LowByte(op))))
    else if family == 0x8 then Ok(ExecAlu(m))
    else if family == 0x9 then Ok(SkipIf(m, m.v[x] != m.v[y]))
    else if family == 0xA then Ok(m.(i := Address(op)))
    else if family == 0xB then Ok(m.(pc := Wrap16(Address(op) as int + m.v[0])))
    else if family == 0xC then Ok(SetV(m, x, And8(rnd, LowByte(op))))
    else if family == 0xD then ExecDraw(m)
    else if family == 0xE then ExecKey(m)
    else ExecMisc(m)
  }

  /** Family 0: only the low nibble is examined, so 0NN0 clears and 0NNE returns. */
  function ExecSystem(m: Chip8): (r: Result<Chip8, Fault>)
    requires Valid(m)
    ensures r.Ok? ==> Valid(r.value)
  {
    var n := LowNibble(m.opcode);
    if n == 0x0 then
      Ok(m.(video := Blank(m.video), refreshScreen := true))
    else if n == 0xE then
      if m.sp == 0 then Err(StackUnderflow)
      else Ok(m.(sp := m.sp - 1, pc := m.stack[m.sp - 1]))
    else
      Ok(m)
  }

  /** 2NNN: push the return address, then jump. */
  function ExecCall(m: Chip8): (r: Result<Chip8, Fault>)
    requires Valid(m)
    ensures r.Ok? ==> Valid(r.value)
  {
    if m.sp >= StackDepth then Err(StackOverflow)
    else Ok(m.(stack := m.stack[m.sp := m.pc], sp := m.sp + 1, pc := Address(m.opcode)))
  }

  /**
   * Family 8: register-to-register operations.  Where VF is a flag it is
   * written first, and the result is then computed from the updated
   * registers, as the source does.  OR, AND and XOR leave VF alone.
   */
  function ExecAlu(m: Chip8): (r: Chip8)
    requires Valid(m)
    ensures Valid(r)
  {
    var op := m.opcode;
    var x, y := RegX(op), RegY(op);
    var vx, vy := m.v[x], m.v[y];
    var n := LowNibble(op);
    if n == 0x0 then SetV(m, x, vy)
    else if n == 0x1 then SetV(m, x, Or8(vx, vy))
    else if n == 0x2 then SetV(m, x, And8(vx, vy))
    else if n == 0x3 then SetV(m, x, Xor8(vx, vy))
    else if n == 0x4 then
      var f := SetV(m, Flag, if vy > 0xFF - vx then 1 else 0);
      SetV(f, x, Wrap8(f.v[x] as int + f.v[y]))
    else if n == 0x5 then
      var f := SetV(m, Flag, if vy > vx then 0 else 1);
      SetV(f, x, Wrap8(f.v[x] as int - f.v[y]))
    else if n == 0x6 then
      var f := SetV(m, Flag, vx % 2);           // VX & 0x1
      SetV(f, x, f.v[x] / 2)
    else if n == 0x7 then
      var f := SetV(m, Flag, if vx > vy then 0 else 1);
      SetV(f, x, Wrap8(f.v[y] as int - f.v[x]))
    else if n == 0xE then
      var f := SetV(m, Flag, vx / 0x80);        // VX >> 7
      SetV(f, x, Wrap8(f.v[x] as int * 2))
    else
      m
  }

  /** DXYN: XOR an N-row sprite from memory[I..] onto the screen at (VX, VY). */
  function ExecDraw(m: Chip8): (r: Result<Chip8, Fault>)
    requires Valid(m)
    ensures r.Ok? ==> Valid(r.value)
  {
    var op := m.opcode;
    var x, y, height := m.v[RegX(op)], m.v[RegY(op)], LowNibble(op);
    Sprite.DrawEffect(m.video, m.memory, m.i, x, y, height);
    var drawn :- Sprite.Draw(m.video, m.memory, m.i, x, y, height);
    Ok(m.(v := m.v[Flag := if drawn.collided then 1 else 0], video := drawn.cells, refreshScreen := true))
  }

  /** EX9E / EXA1: skip if key VX is / is not pressed. */
  function ExecKey(m: Chip8): (r: Result<Chip8, Fault>)
    requires Valid(m)
    ensures r.Ok? ==> Valid(r.value)
  {
    var op := m.opcode;
    var k := m.v[RegX(op)];
    if LowByte(op) == 0x9E then
      if k >= KeyCount then Err(KeyOutOfRange) else Ok(SkipIf(m, m.key[k] != 0))
    else if LowByte(op) == 0xA1 then
      if k >= KeyCount then Err(KeyOutOfRange) else Ok(SkipIf(m, m.key[k] == 0))
    else
      Ok(m)
  }

  /**
   * The FX0A key scan: keys `k..` are visited in order and every pressed one
   * replaces the previous finding, so the highest pressed key wins.
   */
  function ScanKeys(key: seq<Byte>, k: nat, found: Option<nat>): (r: Option<nat>)
    requires k <= |key|
    ensures (forall j :: k <= j < |key| ==> key[j] == 0) ==> r == found
    ensures (exists j :: k <= j < |key| && key[j] != 0) ==>
              && r.Some? && k <= r.value < |key| && key[r.value] != 0
              && forall j :: r.value < j < |key| ==> key[j] == 0
    decreases |key| - k
  {
    if k == |key| then found
    else ScanKeys(key, k + 1, if key[k] != 0 then Some(k) else found)
  }

  /** Family F: timers, key wait, I arithmetic, BCD and register block transfer. */
  function ExecMisc(m: Chip8): (r: Result<Chip8, Fault>)
    requires Valid(m)
    ensures r.Ok? ==> Valid(r.value)
  {
    var op := m.opcode;
    var x := RegX(op);
    var vx := m.v[x];
    var kk := LowByte(op);
    if kk == 0x07 then Ok(SetV(m, x, m.delayTimer))
    else if kk == 0x0A then
      match ScanKeys(m.key, 0, None)
      case Some(k) => Ok(SetV(m, x, k))
      case None => Ok(m.(pc := Wrap16(m.pc as int - 2)))      // run this instruction again
    else if kk == 0x15 then Ok(m.(delayTimer := vx))
    else if kk == 0x18 then Ok(m.(soundTimer := vx))
    else if kk == 0x1E then
      var f := SetV(m, Flag, if m.i + vx > 0xFFF then 1 else 0);
      Ok(f.(i := Wrap16(f.i as int + f.v[x])))
    else if kk == 0x29 then Ok(m.(i := vx as int * 5))
    else if kk == 0x33 then
      if m.i + 2 >= MemorySize then Err(MemoryOutOfRange)
      else Ok(m.(memory := m.memory[m.i := vx / 100][m.i + 1 := vx / 10 % 10][m.i + 2 := vx % 100 % 10]))
    else if kk == 0x55 then
      if m.i + x >= MemorySize then Err(MemoryOutOfRange)
      else Ok(m.(memory := m.memory[..m.i] + m.v[..x + 1] + m.memory[m.i + x + 1..], i := Wrap16(m.i as int + x + 1)))
    else if kk == 0x65 then
      if m.i + x >= MemorySize then Err(MemoryOutOfRange)
      else Ok(m.(v := m.memory[m.i..m.i + x + 1] + m.v[x + 1..], i := Wrap16(m.i as int + x + 1)))
    else
      Ok(m)
  }
}
