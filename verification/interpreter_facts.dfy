/**
 * Properties of the interpreter: boot, the call stack, the flag-setting
 * arithmetic, BCD, register block transfer, drawing and key waiting.
 */
module InterpreterFacts {
  import opened Bits
  import opened Results
  import opened Machine
  import opened Interpreter
  import Sprite

  // ---------------------------------------------------------------------------
  // Reset, loading and fetching

  /** Resetting a freshly reset machine changes nothing. */
  lemma ResetIdempotent(m: Chip8)
    requires Valid(m)
    ensures Reset(Reset(m)) == Reset(m)
  {
    var once := Reset(m);
    var twice := Reset(once);
    assert twice.memory == once.memory;
    assert twice.video == once.video;
    assert twice.v == once.v && twice.key == once.key;
  }

  /**
   * After reset and loading, the first cycle fetches the program's first two
   * bytes as one big-endian instruction.
   */
  lemma BootFetch(m: Chip8, program: seq<Byte>)
    requires Valid(m) && 2 <= |program| <= MemorySize - ProgramStart
    ensures var booted := Loaded(Reset(m), program);
            && Fetch(booted).Ok?
            && Fetch(booted).value.opcode == program[0] as int * 0x100 + program[1]
            && Fetch(booted).value.pc == ProgramStart + 2
  {
    var booted := Loaded(Reset(m), program);
    assert booted.pc == ProgramStart;
    assert booted.memory[ProgramStart] == program[0];
    assert booted.memory[ProgramStart + 1] == program[1];
  }

  /** The fields of a fetched instruction are the nibbles of the two bytes at pc. */
  lemma FetchDecodes(m: Chip8)
    requires Valid(m) && m.pc + 1 < MemorySize
    ensures var op, hi, lo := Fetch(m).value.opcode, m.memory[m.pc], m.memory[m.pc + 1];
            && Family(op) == hi / 0x10 && RegX(op) == hi % 0x10
            && RegY(op) == lo / 0x10 && LowNibble(op) == lo % 0x10
            && LowByte(op) == lo && Address(op) == hi as int % 0x10 * 0x100 + lo
  {
    var op, hi, lo := Fetch(m).value.opcode, m.memory[m.pc], m.memory[m.pc + 1];
    assert op == 0x100 * hi as int + lo;
    DivUnique(op, 0x100, hi, lo);
    DivUnique(op, 0x1000, hi / 0x10, hi as int % 0x10 * 0x100 + lo);
    DivUnique(op, 0x10, hi as int * 0x10 + lo / 0x10, lo % 0x10);
    DivUnique(hi as int * 0x10 + lo / 0x10, 0x10, hi, lo / 0x10);
  }

  // ---------------------------------------------------------------------------
  // The call stack

  /** CALL fails exactly when all sixteen slots are in use. */
  lemma CallFault(m: Chip8, rnd: Byte)
    requires Valid(m) && Family(m.opcode) == 0x2
    ensures Execute(m, rnd).Err? <==> m.sp == StackDepth
    ensures Execute(m, rnd).Err? ==> Execute(m, rnd).error == StackOverflow
  {
  }

  /**
   * RET (any 0NNE) fails exactly when the stack is empty; otherwise it pops
   * the top slot into pc and changes nothing else.
   */
  lemma ReturnFault(m: Chip8, rnd: Byte)
    requires Valid(m) && Family(m.opcode) == 0x0 && LowNibble(m.opcode) == 0xE
    ensures Execute(m, rnd).Err? <==> m.sp == 0
    ensures Execute(m, rnd).Err? ==> Execute(m, rnd).error == StackUnderflow
    ensures m.sp > 0 ==> Execute(m, rnd) == Ok(m.(pc := m.stack[m.sp - 1], sp := m.sp - 1))
  {
  }

  /**
   * A call followed by a return resumes after the call with the stack pointer
   * restored; the only other trace is the return address left in its slot.
   */
  lemma CallThenReturn(m: Chip8, ret: Word, rnd: Byte, rnd': Byte)
    requires Valid(m) && Family(m.opcode) == 0x2 && m.sp < StackDepth
    requires Family(ret) == 0x0 && LowNibble(ret) == 0xE
    ensures Execute(m, rnd).Ok?
    ensures var called := Execute(m, rnd).value;
            && called.pc == Address(m.opcode) && called.sp == m.sp + 1
            && Execute(called.(opcode := ret), rnd') == Ok(m.(opcode := ret, stack := m.stack[m.sp := m.pc]))
  {
  }

  // ---------------------------------------------------------------------------
  // Family 8 arithmetic: VF carries the bit the 8-bit result loses

  /** 8XY4: VF:VX is the 9-bit sum of VX and VY. */
  lemma AddWithCarry(m: Chip8, rnd: Byte)
    requires Valid(m) && Family(m.opcode) == 0x8 && LowNibble(m.opcode) == 0x4
    requires RegX(m.opcode) != Flag && RegY(m.opcode) != Flag
    ensures Execute(m, rnd).Ok?
    ensures var x, y, r := RegX(m.opcode), RegY(m.opcode), Execute(m, rnd).value;
            && r.v[Flag] as int * 0x100 + r.v[x] == m.v[x] as int + m.v[y]
            && r.v[Flag] <= 1
            && (forall k :: 0 <= k < RegisterCount && k != x && k != Flag ==> r.v[k] == m.v[k])
            && r == m.(v := r.v)
  {
  }

  /** 8XY5: VX becomes VX - VY modulo 256 and VF is 1 exactly when nothing was borrowed. */
  lemma SubtractWithBorrow(m: Chip8, rnd: Byte)
    requires Valid(m) && Family(m.opcode) == 0x8 && LowNibble(m.opcode) == 0x5
    requires RegX(m.opcode) != Flag && RegY(m.opcode) != Flag
    ensures Execute(m, rnd).Ok?
    ensures var x, y, r := RegX(m.opcode), RegY(m.opcode), Execute(m, rnd).value;
            && r.v[x] == m.v[x] as int - m.v[y] + 0x100 * (1 - r.v[Flag] as int)
            && (r.v[Flag] == 1 <==> m.v[x] >= m.v[y])
            && r.v[Flag] <= 1
            && (forall k :: 0 <= k < RegisterCount && k != x && k != Flag ==> r.v[k] == m.v[k])
            && r == m.(v := r.v)
  {
  }

  /** 8XY7: VX becomes VY - VX modulo 256 and VF is 1 exactly when nothing was borrowed. */
  lemma ReverseSubtract(m: Chip8, rnd: Byte)
    requires Valid(m) && Family(m.opcode) == 0x8 && LowNibble(m.opcode) == 0x7
    requires RegX(m.opcode) != Flag && RegY(m.opcode) != Flag
    ensures Execute(m, rnd).Ok?
    ensures var x, y, r := RegX(m.opcode), RegY(m.opcode), Execute(m, rnd).value;
            && r.v[x] == m.v[y] as int - m.v[x] + 0x100 * (1 - r.v[Flag] as int)
            && (r.v[Flag] == 1 <==> m.v[y] >= m.v[x])
            && r.v[Flag] <= 1
            && (forall k :: 0 <= k < RegisterCount && k != x && k != Flag ==> r.v[k] == m.v[k])
            && r == m.(v := r.v)
  {
  }

  /** 8XY6: VX:VF is the old VX shifted right, VF catching the bit shifted out; VY is ignored. */
  lemma ShiftRight(m: Chip8, rnd: Byte)
    requires Valid(m) && Family(m.opcode) == 0x8 && LowNibble(m.opcode) == 0x6
    requires RegX(m.opcode) != Flag
    ensures Execute(m, rnd).Ok?
    ensures var x, r := RegX(m.opcode), Execute(m, rnd).value;
            && r.v[x] as int * 2 + r.v[Flag] == m.v[x]
            && r.v[Flag] <= 1
            && (forall k :: 0 <= k < RegisterCount && k != x && k != Flag ==> r.v[k] == m.v[k])
            && r == m.(v := r.v)
  {
  }

  /** 8XYE: VF:VX is the old VX shifted left, VF catching the bit shifted out; VY is ignored. */
  lemma ShiftLeft(m: Chip8, rnd: Byte)
    requires Valid(m) && Family(m.opcode) == 0x8 && LowNibble(m.opcode) == 0xE
    requires RegX(m.opcode) != Flag
    ensures Execute(m, rnd).Ok?
    ensures var x, r := RegX(m.opcode), Execute(m, rnd).value;
            && r.v[Flag] as int * 0x100 + r.v[x] == 2 * m.v[x] as int
            && r.v[Flag] <= 1
            && (forall k :: 0 <= k < RegisterCount && k != x && k != Flag ==> r.v[k] == m.v[k])
            && r == m.(v := r.v)
  {
  }

  /**
   * 8FY6: because the flag is written before the shift reads VF back, shifting
   * VF itself always leaves 0 there.
   */
  lemma ShiftFlagRight(m: Chip8, rnd: Byte)
    requires Valid(m) && Family(m.opcode) == 0x8 && LowNibble(m.opcode) == 0x6
    requires RegX(m.opcode) == Flag
    ensures Execute(m, rnd).Ok? && Execute(m, rnd).value.v[Flag] == 0
    ensures Execute(m, rnd).value == m.(v := m.v[Flag := 0])
  {
  }

  /**
   * 8XY4 with VF as an operand: the carry is written to VF before the sum
   * reads its operands, so VF as Y contributes the new carry, and VF as X
   * loses the carry to the sum.
   */
  lemma AddFlagOperand(m: Chip8, rnd: Byte)
    requires Valid(m) && Family(m.opcode) == 0x8 && LowNibble(m.opcode) == 0x4
    requires RegX(m.opcode) == Flag || RegY(m.opcode) == Flag
    ensures Execute(m, rnd).Ok?
    ensures var x, y, r := RegX(m.opcode), RegY(m.opcode), Execute(m, rnd).value;
            var carry := if m.v[x] as int + m.v[y] > 0xFF then 1 else 0;
            && r == m.(v := r.v)
            && (forall k :: 0 <= k < RegisterCount && k != x && k != Flag ==> r.v[k] == m.v[k])
            && (x != Flag ==> r.v[Flag] == carry && r.v[x] == (m.v[x] as int + carry) % 0x100)
            && (x == Flag && y != Flag ==> r.v[Flag] == (carry + m.v[y] as int) % 0x100)
            && (x == Flag && y == Flag ==> r.v[Flag] == 2 * carry)
  {
  }

  /**
   * 8XY5 with VF as an operand: the no-borrow flag is written first, so VF as
   * Y subtracts the new flag, and VF as X ends as the flag minus VY.
   */
  lemma SubtractFlagOperand(m: Chip8, rnd: Byte)
    requires Valid(m) && Family(m.opcode) == 0x8 && LowNibble(m.opcode) == 0x5
    requires RegX(m.opcode) == Flag || RegY(m.opcode) == Flag
    ensures Execute(m, rnd).Ok?
    ensures var x, y, r := RegX(m.opcode), RegY(m.opcode), Execute(m, rnd).value;
            var noBorrow := if m.v[x] >= m.v[y] then 1 else 0;
            && r == m.(v := r.v)
            && (forall k :: 0 <= k < RegisterCount && k != x && k != Flag ==> r.v[k] == m.v[k])
            && (x != Flag ==> r.v[Flag] == noBorrow && r.v[x] == (m.v[x] as int - noBorrow) % 0x100)
            && (x == Flag && y != Flag ==> r.v[Flag] == (noBorrow - m.v[y] as int) % 0x100)
            && (x == Flag && y == Flag ==> r.v[Flag] == 0)
  {
  }

  /**
   * 8XY7 with VF as an operand: the no-borrow flag is written first, so VF as
   * Y is the new flag minus VX, and VF as X ends as VY minus the flag.
   */
  lemma ReverseSubtractFlagOperand(m: Chip8, rnd: Byte)
    requires Valid(m) && Family(m.opcode) == 0x8 && LowNibble(m.opcode) == 0x7
    requires RegX(m.opcode) == Flag || RegY(m.opcode) == Flag
    ensures Execute(m, rnd).Ok?
    ensures var x, y, r := RegX(m.opcode), RegY(m.opcode), Execute(m, rnd).value;
            var noBorrow := if m.v[y] >= m.v[x] then 1 else 0;
            && r == m.(v := r.v)
            && (forall k :: 0 <= k < RegisterCount && k != x && k != Flag ==> r.v[k] == m.v[k])
            && (x != Flag ==> r.v[Flag] == noBorrow && r.v[x] == (noBorrow - m.v[x] as int) % 0x100)
            && (x == Flag && y != Flag ==> r.v[Flag] == (m.v[y] as int - noBorrow) % 0x100)
            && (x == Flag && y == Flag ==> r.v[Flag] == 0)
  {
  }

  /**
   * 8FYE: the shifted-out bit is written to VF first and then shifted itself,
   * so VF ends as 2 when its top bit was set and 0 otherwise.
   */
  lemma ShiftFlagLeft(m: Chip8, rnd: Byte)
    requires Valid(m) && Family(m.opcode) == 0x8 && LowNibble(m.opcode) == 0xE
    requires RegX(m.opcode) == Flag
    ensures Execute(m, rnd).Ok?
    ensures var r := Execute(m, rnd).value;
            && r.v[Flag] == (if m.v[Flag] >= 0x80 then 2 else 0)
            && r == m.(v := m.v[Flag := r.v[Flag]])
  {
  }

  /**
   * 8XY3: VX becomes VX XOR VY and nothing else changes, for every X and Y;
   * so 8XX3 clears VX, and a zero VY leaves the machine as it was.
   */
  lemma ExclusiveOr(m: Chip8, rnd: Byte)
    requires Valid(m) && Family(m.opcode) == 0x8 && LowNibble(m.opcode) == 0x3
    ensures var x, y := RegX(m.opcode), RegY(m.opcode);
            && Execute(m, rnd).Ok?
            && Execute(m, rnd).value == m.(v := m.v[x := BitXor(m.v[x], m.v[y], 8)])
            && (x == y ==> Execute(m, rnd).value.v[x] == 0)
            && (m.v[y] == 0 ==> Execute(m, rnd).value == m)
  {
    var x, y := RegX(m.opcode), RegY(m.opcode);
    Pow2Values();
    XorSelf(m.v[x], 8);
    XorZero(m.v[x], 8);
  }

  /** 8XY3 applied twice restores every register when X and Y differ; VF is never touched. */
  lemma XorTwiceRestores(m: Chip8, rnd: Byte, rnd': Byte)
    requires Valid(m) && Family(m.opcode) == 0x8 && LowNibble(m.opcode) == 0x3
    requires RegX(m.opcode) != RegY(m.opcode)
    ensures Execute(m, rnd).Ok?
    ensures Execute(m, rnd).value.v[Flag] == m.v[Flag] || RegX(m.opcode) == Flag
    ensures Execute(Execute(m, rnd).value, rnd') == Ok(m)
  {
    var x, y := RegX(m.opcode), RegY(m.opcode);
    Pow2Values();
    XorTwice(m.v[x], m.v[y], 8);
    var once := Execute(m, rnd).value;
    assert once.v[x] == Xor8(m.v[x], m.v[y]);
    assert Execute(once, rnd').value.v == m.v;
  }

  /**
   * CXKK: VX becomes the random byte AND KK, so VX has no bit outside KK and
   * nothing else changes.
   */
  lemma RandomMasked(m: Chip8, rnd: Byte)
    requires Valid(m) && Family(m.opcode) == 0xC
    ensures Execute(m, rnd).Ok?
    ensures var x, kk, r := RegX(m.opcode), LowByte(m.opcode), Execute(m, rnd).value;
            && r.v[x] == BitAnd(rnd, kk, 8)
            && BitOr(r.v[x], kk, 8) == kk
            && r == m.(v := m.v[x := r.v[x]])
  {
    Pow2Values();
    AndWithin(rnd, LowByte(m.opcode), 8);
  }

  // ---------------------------------------------------------------------------
  // Family F

  /**
   * FX33 writes the three decimal digits of VX at I, I+1 and I+2 and nothing
   * else; it faults when I+2 is past the end of memory.
   */
  lemma StoreDecimal(m: Chip8, rnd: Byte)
    requires Valid(m) && Family(m.opcode) == 0xF && LowByte(m.opcode) == 0x33
    ensures Execute(m, rnd).Ok? <==> m.i + 2 < MemorySize
    ensures Execute(m, rnd).Err? ==> Execute(m, rnd).error == MemoryOutOfRange
    ensures Execute(m, rnd).Ok? ==>
              var r, i := Execute(m, rnd).value, m.i;
              && r.memory[i] < 10 && r.memory[i + 1] < 10 && r.memory[i + 2] < 10
              && 100 * r.memory[i] as int + 10 * r.memory[i + 1] as int + r.memory[i + 2] == m.v[RegX(m.opcode)]
              && (forall a :: 0 <= a < MemorySize && !(i <= a <= i + 2) ==> r.memory[a] == m.memory[a])
              && r == m.(memory := r.memory)
  {
    Bits.DecimalDigits(m.v[RegX(m.opcode)]);
  }

  /**
   * FX55 followed by FX65 with the same X and I set back restores V0..VX;
   * both advance I past the block.
   */
  lemma StoreThenLoad(m: Chip8, load: Word, w: seq<Byte>, rnd: Byte, rnd': Byte)
    requires Valid(m) && Family(m.opcode) == 0xF && LowByte(m.opcode) == 0x55
    requires m.i + RegX(m.opcode) < MemorySize
    requires Family(load) == 0xF && LowByte(load) == 0x65 && RegX(load) == RegX(m.opcode)
    requires |w| == RegisterCount
    ensures Execute(m, rnd).Ok?
    ensures var x, stored := RegX(m.opcode), Execute(m, rnd).value;
            && stored.i == m.i + x + 1
            && stored.memory[m.i..m.i + x + 1] == m.v[..x + 1]
            && (forall a :: 0 <= a < MemorySize && !(m.i <= a <= m.i + x) ==> stored.memory[a] == m.memory[a])
            && stored == m.(memory := stored.memory, i := stored.i)
            && var again := Execute(stored.(opcode := load, i := m.i, v := w), rnd');
               && again.Ok?
               && again.value.v[..x + 1] == m.v[..x + 1]
               && again.value.v[x + 1..] == w[x + 1..]
               && again.value.i == m.i + x + 1
               && again.value == stored.(opcode := load, v := again.value.v)
  {
  }

  /**
   * FX55 and FX65 fault exactly when the block I..I+X runs past memory.
   * Otherwise FX55 copies V0..VX to memory[I..I+X] and FX65 copies them
   * back; each moves I past the block and changes nothing else.
   */
  lemma BlockTransfer(m: Chip8, rnd: Byte)
    requires Valid(m) && Family(m.opcode) == 0xF && LowByte(m.opcode) in {0x55, 0x65}
    ensures Execute(m, rnd).Ok? <==> m.i + RegX(m.opcode) < MemorySize
    ensures Execute(m, rnd).Err? ==> Execute(m, rnd).error == MemoryOutOfRange
    ensures Execute(m, rnd).Ok? ==>
              var x, r := RegX(m.opcode), Execute(m, rnd).value;
              && r.i == m.i + x + 1
              && (LowByte(m.opcode) == 0x55 ==>
                    && r.memory[m.i..m.i + x + 1] == m.v[..x + 1]
                    && (forall a :: 0 <= a < MemorySize && !(m.i <= a <= m.i + x) ==> r.memory[a] == m.memory[a])
                    && r == m.(memory := r.memory, i := r.i))
              && (LowByte(m.opcode) == 0x65 ==>
                    && r.v[..x + 1] == m.memory[m.i..m.i + x + 1]
                    && r.v[x + 1..] == m.v[x + 1..]
                    && r == m.(v := r.v, i := r.i))
  {
  }

  /** FX1E: I grows by VX modulo 2^16 and VF reports a result past 0xFFF. */
  lemma AddToIndex(m: Chip8, rnd: Byte)
    requires Valid(m) && Family(m.opcode) == 0xF && LowByte(m.opcode) == 0x1E
    ensures Execute(m, rnd).Ok?
    ensures var x, r := RegX(m.opcode), Execute(m, rnd).value;
            && (r.v[Flag] == 1 <==> m.i as int + m.v[x] > 0xFFF)
            && r.v[Flag] <= 1
            && (x != Flag ==> r.i == (m.i as int + m.v[x]) % 0x1_0000)
            && (x == Flag ==> r.i == (m.i as int + r.v[Flag]) % 0x1_0000)
            && r == m.(v := m.v[Flag := r.v[Flag]], i := r.i)
  {
  }

  /** FX29 sets I to 5 * VX for every VX and changes nothing else. */
  lemma FontAddress(m: Chip8, rnd: Byte)
    requires Valid(m) && Family(m.opcode) == 0xF && LowByte(m.opcode) == 0x29
    ensures Execute(m, rnd).Ok?
    ensures var r := Execute(m, rnd).value;
            && r.i == 5 * m.v[RegX(m.opcode)] as int
            && r == m.(i := r.i)
  {
  }

  /** FX29 after reset: I points at the five font rows of hex digit VX. */
  lemma FontGlyph(m: Chip8, rnd: Byte)
    requires Valid(m) && Family(m.opcode) == 0xF && LowByte(m.opcode) == 0x29
    requires m.memory[..FontSize] == Font && m.v[RegX(m.opcode)] < 0x10
    ensures Execute(m, rnd).Ok?
    ensures var d, r := m.v[RegX(m.opcode)] as int, Execute(m, rnd).value;
            && r.i == 5 * d
            && r.memory[r.i..r.i + 5] == Font[5 * d..5 * d + 5]
            && r == m.(i := r.i)
  {
    var d := m.v[RegX(m.opcode)] as int;
    assert Execute(m, rnd) == ExecMisc(m);
    assert ExecMisc(m) == Ok(m.(i := d * 5));
    assert m.memory[5 * d..5 * d + 5] == m.memory[..FontSize][5 * d..5 * d + 5];
  }

  /** FX15 then FY07 copies VX into VY through the delay timer. */
  lemma DelayTimerRoundTrip(m: Chip8, read: Word, rnd: Byte, rnd': Byte)
    requires Valid(m) && Family(m.opcode) == 0xF && LowByte(m.opcode) == 0x15
    requires Family(read) == 0xF && LowByte(read) == 0x07
    ensures Execute(m, rnd).Ok?
    ensures var timed := Execute(m, rnd).value;
            && timed == m.(delayTimer := m.v[RegX(m.opcode)])
            && Execute(timed.(opcode := read), rnd').Ok?
            && Execute(timed.(opcode := read), rnd').value.v[RegX(read)] == m.v[RegX(m.opcode)]
            && Execute(timed.(opcode := read), rnd').value
                 == timed.(opcode := read, v := timed.v[RegX(read) := m.v[RegX(m.opcode)]])
  {
  }

  /**
   * FX0A: with no key down the instruction runs again and nothing else
   * changes; otherwise VX receives the highest-numbered key that is down.
   */
  lemma WaitForKey(m: Chip8, rnd: Byte)
    requires Valid(m) && m.pc + 1 < MemorySize
    requires m.memory[m.pc] / 0x10 == 0xF && m.memory[m.pc + 1] == 0x0A
    ensures Step(m, rnd).Ok?
    ensures (forall k :: 0 <= k < KeyCount ==> m.key[k] == 0) ==>
              Step(m, rnd).value == m.(opcode := Fetch(m).value.opcode)
    ensures (exists k :: 0 <= k < KeyCount && m.key[k] != 0) ==>
              var x, r := m.memory[m.pc] % 0x10, Step(m, rnd).value;
              && r.pc == m.pc + 2
              && r.v[x] < KeyCount && m.key[r.v[x]] != 0
              && (forall j :: r.v[x] < j < KeyCount ==> m.key[j] == 0)
              && r == m.(opcode := r.opcode, pc := r.pc, v := m.v[x := r.v[x]])
  {
    FetchDecodes(m);
  }

  // ---------------------------------------------------------------------------
  // Skips and jumps, in terms of the instruction bytes

  /**
   * 3XKK, 4XKK, 5XYN and 9XYN skip the next instruction exactly when their
   * comparison holds (5XYN and 9XYN ignore N); nothing else changes.
   */
  lemma SkipFamilies(m: Chip8, rnd: Byte)
    requires Valid(m) && m.pc + 1 < MemorySize
    requires m.memory[m.pc] / 0x10 in {0x3, 0x4, 0x5, 0x9}
    ensures var hi, lo := m.memory[m.pc], m.memory[m.pc + 1];
            var vx, vy := m.v[hi % 0x10], m.v[lo / 0x10];
            var family := hi / 0x10;
            var skip := if family == 0x3 then vx == lo
                        else if family == 0x4 then vx != lo
                        else if family == 0x5 then vx == vy
                        else vx != vy;
            Step(m, rnd) == Ok(m.(opcode := hi as int * 0x100 + lo, pc := if skip then m.pc + 4 else m.pc + 2))
  {
    FetchDecodes(m);
  }

  /**
   * 1NNN jumps to NNN and BNNN to NNN + V0, whatever the stack holds; 2NNN,
   * given a free stack slot, also pushes the address after the call.  Nothing
   * else changes beyond the fetched opcode.
   */
  lemma Jumps(m: Chip8, rnd: Byte)
    requires Valid(m) && m.pc + 1 < MemorySize
    requires m.memory[m.pc] / 0x10 in {0x1, 0x2, 0xB}
    requires m.memory[m.pc] / 0x10 == 0x2 ==> m.sp < StackDepth
    ensures var hi, lo := m.memory[m.pc], m.memory[m.pc + 1];
            var op, target := hi as int * 0x100 + lo, hi as int % 0x10 * 0x100 + lo;
            && Step(m, rnd).Ok?
            && (hi / 0x10 == 0x1 ==> Step(m, rnd).value == m.(opcode := op, pc := target))
            && (hi / 0x10 == 0xB ==> Step(m, rnd).value == m.(opcode := op, pc := target + m.v[0]))
            && (hi / 0x10 == 0x2 ==>
                  Step(m, rnd).value == m.(opcode := op, pc := target, sp := m.sp + 1, stack := m.stack[m.sp := m.pc + 2]))
  {
    FetchDecodes(m);
  }

  /**
   * EX9E and EXA1 read the key whose number is in VX: they fail when that is
   * no key, and otherwise skip exactly when the key is pressed (EX9E) or not
   * pressed (EXA1).
   */
  lemma KeySkips(m: Chip8, rnd: Byte)
    requires Valid(m) && Family(m.opcode) == 0xE && (LowByte(m.opcode) == 0x9E || LowByte(m.opcode) == 0xA1)
    ensures var k := m.v[RegX(m.opcode)];
            && (Execute(m, rnd).Ok? <==> k < KeyCount)
            && (Execute(m, rnd).Err? ==> Execute(m, rnd).error == KeyOutOfRange)
            && (Execute(m, rnd).Ok? ==>
                  var skip := (m.key[k] != 0) == (LowByte(m.opcode) == 0x9E);
                  Execute(m, rnd) == Ok(m.(pc := if skip then (m.pc + 2) % 0x1_0000 else m.pc)))
  {
  }

  /**
   * 6XKK loads KK, 7XKK adds KK modulo 256 without touching VF, 8XY0 copies
   * VY, ANNN loads I and FX18 loads the sound timer; nothing else changes.
   */
  lemma Loads(m: Chip8, rnd: Byte)
    requires Valid(m)
    ensures var op, x := m.opcode, RegX(m.opcode);
            && (Family(op) == 0x6 ==> Execute(m, rnd) == Ok(m.(v := m.v[x := LowByte(op)])))
            && (Family(op) == 0x7 ==>
                  Execute(m, rnd) == Ok(m.(v := m.v[x := (m.v[x] as int + LowByte(op)) % 0x100])))
            && (Family(op) == 0x8 && LowNibble(op) == 0x0 ==>
                  Execute(m, rnd) == Ok(m.(v := m.v[x := m.v[RegY(op)]])))
            && (Family(op) == 0xA ==> Execute(m, rnd) == Ok(m.(i := op - 0xA000)))
            && (Family(op) == 0xF && LowByte(op) == 0x18 ==> Execute(m, rnd) == Ok(m.(soundTimer := m.v[x])))
  {
  }

  /**
   * 8XY1 and 8XY2 put VX | VY and VX & VY into VX and leave VF alone: or-ing
   * in a zero VY keeps VX, and the bits of an and are all bits of VY.
   */
  lemma BitwiseOps(m: Chip8, rnd: Byte)
    requires Valid(m) && Family(m.opcode) == 0x8 && (LowNibble(m.opcode) == 0x1 || LowNibble(m.opcode) == 0x2)
    ensures Execute(m, rnd).Ok?
    ensures var x, y, r := RegX(m.opcode), RegY(m.opcode), Execute(m, rnd).value;
            && r == m.(v := m.v[x := r.v[x]])
            && (LowNibble(m.opcode) == 0x1 ==> r.v[x] == BitOr(m.v[x], m.v[y], 8) && (m.v[y] == 0 ==> r.v[x] == m.v[x]))
            && (LowNibble(m.opcode) == 0x2 ==> r.v[x] == BitAnd(m.v[x], m.v[y], 8) && BitOr(r.v[x], m.v[y], 8) == m.v[y])
  {
    Pow2Values();
    OrZero(m.v[RegX(m.opcode)], 8);
    AndWithin(m.v[RegX(m.opcode)], m.v[RegY(m.opcode)], 8);
  }

  // ---------------------------------------------------------------------------
  // Drawing

  /**
   * DXYN: the draw succeeds exactly when every set sprite pixel lands in the
   * video buffer; then VF is 1 exactly when a lit pixel was switched off, the
   * covered pixels are toggled, and the display is asked to refresh.
   */
  lemma DrawSetsCollision(m: Chip8, rnd: Byte)
    requires Valid(m) && Family(m.opcode) == 0xD
    ensures var x, y, n := m.v[RegX(m.opcode)], m.v[RegY(m.opcode)], LowNibble(m.opcode);
            && (Execute(m, rnd).Ok? <==> Sprite.FitsFrom(m.memory, m.i, x, y, 0, n, VideoSize))
            && (Execute(m, rnd).Err? ==> Execute(m, rnd).error == VideoOutOfRange || Execute(m, rnd).error == MemoryOutOfRange)
            && (Execute(m, rnd).Ok? ==>
                  var r := Execute(m, rnd).value;
                  && (r.v[Flag] == 1 <==>
                        exists k :: 0 <= k < VideoSize && Sprite.Covers(m.memory, m.i, x, y, n, k) && m.video[k] == 1)
                  && r.v[Flag] <= 1
                  && (forall k :: 0 <= k < VideoSize ==>
                        r.video[k] == if Sprite.Covers(m.memory, m.i, x, y, n, k) then Sprite.Toggle(m.video[k]) else m.video[k])
                  && r.refreshScreen
                  && r == m.(v := m.v[Flag := r.v[Flag]], video := r.video, refreshScreen := true))
  {
    var x, y, n := m.v[RegX(m.opcode)], m.v[RegY(m.opcode)], LowNibble(m.opcode);
    Sprite.DrawEffect(m.video, m.memory, m.i, x, y, n);
  }

  /**
   * Executing the same DXYN twice erases the sprite again when neither
   * coordinate register is VF (which the first draw overwrites).
   */
  lemma DrawTwiceErases(m: Chip8, rnd: Byte, rnd': Byte)
    requires Valid(m) && Family(m.opcode) == 0xD && Execute(m, rnd).Ok?
    requires RegX(m.opcode) != Flag && RegY(m.opcode) != Flag
    ensures Execute(Execute(m, rnd).value, rnd').Ok?
    ensures Execute(Execute(m, rnd).value, rnd').value.video == m.video
  {
    var x, y, n := m.v[RegX(m.opcode)], m.v[RegY(m.opcode)], LowNibble(m.opcode);
    Sprite.DrawTwice(m.video, m.memory, m.i, x, y, n);
    var once := Execute(m, rnd).value;
    assert once.v[RegX(m.opcode)] == x && once.v[RegY(m.opcode)] == y;
    Sprite.DrawEffect(once.video, once.memory, once.i, x, y, n);
  }

  // ---------------------------------------------------------------------------
  // Dispatch

  /**
   * Sub-opcodes without a handler change nothing (the pc advance has already
   * happened in the fetch).  Family 0 is decided by its low nibble alone.
   */
  lemma UnhandledIsNoOp(m: Chip8, rnd: Byte)
    requires Valid(m)
    requires var op := m.opcode;
             || (Family(op) == 0x0 && LowNibble(op) != 0x0 && LowNibble(op) != 0xE)
             || (Family(op) == 0x8 && (0x8 <= LowNibble(op) <= 0xD || LowNibble(op) == 0xF))
             || (Family(op) == 0xE && LowByte(op) != 0x9E && LowByte(op) != 0xA1)
             || (Family(op) == 0xF && LowByte(op) !in {0x07, 0x0A, 0x15, 0x18, 0x1E, 0x29, 0x33, 0x55, 0x65})
    ensures Execute(m, rnd) == Ok(m)
  {
  }

  /** Any 0NN0 clears the standard screen, whatever NN is (00E0 included). */
  lemma ClearScreen(m: Chip8, rnd: Byte)
    requires Valid(m) && Family(m.opcode) == 0x0 && LowNibble(m.opcode) == 0x0
    ensures Execute(m, rnd).Ok?
    ensures var r := Execute(m, rnd).value;
            && (forall k :: 0 <= k < ScreenWidth * ScreenHeight ==> r.video[k] == 0)
            && r.video[ScreenWidth * ScreenHeight..] == m.video[ScreenWidth * ScreenHeight..]
            && r == m.(video := r.video, refreshScreen := true)
  {
  }
}
