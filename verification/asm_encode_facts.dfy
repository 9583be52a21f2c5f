/**
 * What `Chip8AssBuildCode` produces for the usual operand shapes, stated
 * as the instruction word and, through the interpreter's field decoders,
 * as the registers and constants the interpreter reads back out of it.
 */
module AsmEncodeFacts {
  import opened Bits
  import opened Results
  import opened AsmText
  import opened AsmEncode
  import opened AsmTextFacts
  import I = Interpreter

  // ---------------------------------------------------------------------------
  // Packing fields

  /** The interpreter's decoders take a packed word apart into the nibbles it was packed from. */
  lemma NibbleFields(f: nat, x: nat, y: nat, n: nat)
    requires f < 0x10 && x < 0x10 && y < 0x10 && n < 0x10
    ensures var w := Nibbles(f, x, y, n);
            && I.Family(w) == f && I.RegX(w) == x && I.RegY(w) == y && I.LowNibble(w) == n
            && I.LowByte(w) == y * 0x10 + n
            && I.Address(w) == x * 0x100 + y * 0x10 + n
  {
    var w := Nibbles(f, x, y, n);
    DivUnique(w, 0x10, (f * 0x10 + x) * 0x10 + y, n);
    DivUnique((f * 0x10 + x) * 0x10 + y, 0x10, f * 0x10 + x, y);
    DivUnique(w, 0x100, f * 0x10 + x, y * 0x10 + n);
    DivUnique(f * 0x10 + x, 0x10, f, x);
    DivUnique(w, 0x1000, f, x * 0x100 + y * 0x10 + n);
  }

  /** A byte form: the interpreter reads the family, register X and the byte KK back out. */
  lemma ByteFields(f: nat, x: nat, kk: nat)
    requires f < 0x10 && x < 0x10 && kk < 0x100
    ensures var w := f * 0x1000 + x * 0x100 + kk;
            && 0 <= w < 0x10000
            && I.Family(w) == f && I.RegX(w) == x && I.LowByte(w) == kk
  {
    ByteNibbles(kk);
    NibbleFields(f, x, kk / 0x10, kk % 0x10);
  }

  /** An address form: the interpreter reads the family and the address NNN back out. */
  lemma AddressFields(f: nat, a: nat)
    requires f < 0x10 && a < 0x1000
    ensures var w := f * 0x1000 + a;
            && 0 <= w < 0x10000
            && I.Family(w) == f && I.Address(w) == a
  {
    AddressNibbles(a);
    NibbleFields(f, a / 0x100, a / 0x10 % 0x10, a % 0x10);
  }

  /** A nibble or-ed with zero, on either side, is a sum. */
  lemma Or4Apart(n: nat, m: nat)
    requires n < 0x10 && m < 0x10 && (n == 0 || m == 0)
    ensures Or4(n, m) == n + m
  {
    Or4Zero(n + m);
  }

  /**
   * Or-ing words whose nibbles never overlap adds them nibble by nibble:
   * `c` is the word with both sets of nibbles.
   */
  lemma OrApart(a: Word, b: Word, c: Word, a1: nat, a2: nat, a3: nat, a4: nat, b1: nat, b2: nat, b3: nat, b4: nat)
    requires a1 < 0x10 && a2 < 0x10 && a3 < 0x10 && a4 < 0x10
    requires b1 < 0x10 && b2 < 0x10 && b3 < 0x10 && b4 < 0x10
    requires (a1 == 0 || b1 == 0) && (a2 == 0 || b2 == 0) && (a3 == 0 || b3 == 0) && (a4 == 0 || b4 == 0)
    requires a == Nibbles(a1, a2, a3, a4) && b == Nibbles(b1, b2, b3, b4)
    requires c == Nibbles(a1 + b1, a2 + b2, a3 + b3, a4 + b4)
    ensures Or16(a, b) == c
  {
    OrNibbles(a1, a2, a3, a4, b1, b2, b3, b4);
    Or4Apart(a1, b1);
    Or4Apart(a2, b2);
    Or4Apart(a3, b3);
    Or4Apart(a4, b4);
  }

  /** `base | (x << 8) | (y << 4)` for a base whose register nibbles are clear. */
  lemma PackRegisters(base: int, f: nat, x: nat, y: nat, n: nat)
    requires f < 0x10 && x < 0x10 && y < 0x10 && n < 0x10 && base == f * 0x1000 + n
    ensures Or3(base, x * 0x100, y * 0x10) == Nibbles(f, x, y, n)
  {
    var fxn := f * 0x1000 + x * 0x100 + n;
    OrApart(base, x * 0x100, fxn, f, 0, 0, n, 0, x, 0, 0);
    OrApart(fxn, y * 0x10, Nibbles(f, x, y, n), f, x, 0, n, 0, 0, y, 0);
  }

  /** `base | (x << 8) | low` for a base holding only the family nibble and a fixed low byte. */
  lemma PackLowByte(base: int, low: int, f: nat, x: nat, y: nat, n: nat)
    requires f < 0x10 && x < 0x10 && y < 0x10 && n < 0x10 && base == f * 0x1000 && low == y * 0x10 + n
    ensures Or3(base, x * 0x100, low) == Nibbles(f, x, y, n)
  {
    var fx := f * 0x1000 + x * 0x100;
    OrApart(base, x * 0x100, fx, f, 0, 0, 0, 0, x, 0, 0);
    OrApart(fx, low, Nibbles(f, x, y, n), f, x, 0, 0, 0, 0, y, n);
  }

  /** `base | (x << 8) | kk` for a byte `kk`: the byte lands in the low half unchanged. */
  lemma PackByte(base: int, f: nat, x: nat, kk: int)
    requires f < 0x10 && x < 0x10 && 0 <= kk < 0x100 && base == f * 0x1000
    ensures Or3(base, x * 0x100, kk) == base + x * 0x100 + kk
  {
    ByteNibbles(kk);
    PackLowByte(base, kk, f, x, kk / 0x10, kk % 0x10);
  }

  /** `base | (r << 8)` for a base whose X nibble is clear. */
  lemma PackRegister(base: int, f: nat, x: nat, y: nat, n: nat)
    requires f < 0x10 && x < 0x10 && y < 0x10 && n < 0x10 && base == Nibbles(f, 0, y, n)
    ensures Or16(base, x * 0x100) == Nibbles(f, x, y, n)
  {
    OrApart(base, x * 0x100, Nibbles(f, x, y, n), f, 0, y, n, 0, x, 0, 0);
  }

  /** `word | n` for a nibble `n` and a word whose low nibble is clear. */
  lemma PackNibble(w: int, f: nat, x: nat, y: nat, n: int)
    requires f < 0x10 && x < 0x10 && y < 0x10 && 0 <= n < 0x10 && w == Nibbles(f, x, y, 0)
    ensures Or16(w, n) == Nibbles(f, x, y, n)
  {
    OrApart(w, n, Nibbles(f, x, y, n), f, x, y, 0, 0, 0, 0, n);
  }

  /** `base | nnn` for a 12-bit address: the address lands in the low 12 bits unchanged. */
  lemma PackAddress(base: int, f: nat, a: int)
    requires f < 0x10 && 0 <= a < 0x1000 && base == f * 0x1000
    ensures Or16(base, a) == base + a
  {
    AddressNibbles(a);
    OrApart(base, a, base + a, f, 0, 0, 0, 0, a / 0x100, a / 0x10 % 0x10, a % 0x10);
  }

  /** The nibbles of a byte. */
  lemma ByteNibbles(kk: nat)
    requires kk < 0x100
    ensures kk / 0x10 < 0x10 && kk % 0x10 < 0x10 && kk == kk / 0x10 * 0x10 + kk % 0x10
  {
  }

  /** The nibbles of an address. */
  lemma AddressNibbles(a: nat)
    requires a < 0x1000
    ensures a / 0x100 < 0x10 && a / 0x10 % 0x10 < 0x10 && a % 0x10 < 0x10
    ensures a == (a / 0x100 * 0x10 + a / 0x10 % 0x10) * 0x10 + a % 0x10
  {
    DivUnique(a, 0x10, a / 0x10, a % 0x10);
    DivUnique(a / 0x10, 0x10, a / 0x100, a / 0x10 % 0x10);
  }

  // ---------------------------------------------------------------------------
  // Operands

  /** `Vx, Vy` at `i`, with something after it (the newline `fgets` keeps). */
  predicate RegisterPairAt(line: Line, i: nat, x: nat, y: nat)
  {
    x < 0x10 && y < 0x10 && i + 6 < |line| && line[i..i + 6] == RegName(x) + ", " + RegName(y)
  }

  /** `Vx, ` at `i`, and the second operand at `i + 4`. */
  predicate RegisterThenAt(line: Line, i: nat, x: nat)
  {
    x < 0x10 && i + 4 < |line| && line[i..i + 4] == RegName(x) + ", "
  }

  /** Both registers of a pair are read, the second from where the first left the pointer. */
  lemma RegisterPair(line: Line, i: nat, x: nat, y: nat)
    requires RegisterPairAt(line, i, x, y)
    ensures GetV(line, i) == Ok(Scan(x, i + 4))
    ensures GetV(line, i + 4) == Ok(Scan(y, SkipSpaces(line, i + 7)))
    ensures line[i + 4] == 'V'
  {
    assert line[i..i + 2] == line[i..i + 6][..2];
    assert line[i + 4..i + 6] == line[i..i + 6][4..];
    assert line[i + 3] == ' ' && line[i + 4] == 'V';
    assert SkipSpaces(line, i + 3) == i + 4;
    RegisterParam(line, i, x);
    RegisterParam(line, i + 4, y);
  }

  /** A register followed by a separator, read at the start of an operand list. */
  lemma RegisterThen(line: Line, i: nat, x: nat)
    requires RegisterThenAt(line, i, x)
    ensures GetV(line, i) == Ok(Scan(x, SkipSpaces(line, i + 3)))
  {
    assert line[i..i + 2] == line[i..i + 4][..2];
    RegisterParam(line, i, x);
  }

  /** The first characters of the parameter names. */
  predicate ParamInitial(c: char)
  {
    c == 'V' || c == 'I' || c == 'D' || c == 'B' || c == '[' || c == 'H' || c == 'R' || c == 'K' || c == 'F'
  }

  lemma ParamInitials()
    ensures forall p :: 0 <= p < ParamCount ==> ParamInitial(ParamName(p)[0])
  {
  }

  /** A word found at `j` starts with the character at `j`. */
  lemma StartsWithChar(line: Line, j: nat, w: string)
    requires j <= |line| && |w| > 0 && StartsAt(line, j, w)
    ensures j < |line| && line[j] == w[0]
  {
    assert line[j..j + |w|][0] == line[j];
  }

  /** Text that does not start like a parameter name is no parameter. */
  lemma NoParamAt(line: Line, j: nat, p: nat)
    requires j < |line| && !ParamInitial(line[j]) && p < ParamCount
    ensures !StartsAt(line, j, ParamName(p))
  {
    ParamInitials();
    if StartsAt(line, j, ParamName(p)) {
      StartsWithChar(line, j, ParamName(p));
    }
  }

  /** An operand that cannot be mistaken for a parameter: a number (`#`, `$`, a digit) or most labels. */
  predicate PlainAt(line: Line, j: nat)
  {
    j < |line| && !ParamInitial(line[j])
  }

  /** `Chip8AssGetV` on a plain operand gives `OPCODE_PARAM_NULL` and leaves the pointer where it was. */
  lemma PlainOperand(line: Line, j: nat)
    requires PlainAt(line, j)
    ensures GetV(line, j) == Ok(Scan(ParamNull, j))
  {
    forall p | 0 <= p < ParamCount ensures !StartsAt(line, j, ParamName(p)) {
      NoParamAt(line, j, p);
    }
  }

  /** `I` followed by a separator is the index register `OPCODE_PARAM_I`. */
  lemma IndexOperand(line: Line, i: nat)
    requires i + 1 < |line| && line[i] == 'I'
    ensures GetV(line, i) == Ok(Scan(ParamI, SkipSpaces(line, i + 2)))
  {
    assert StartsAt(line, i, ParamName(ParamI));
    forall q | 0 <= q < ParamI ensures !StartsAt(line, i, ParamName(q)) {
      RegisterCodes(q);
      if StartsAt(line, i, ParamName(q)) {
        StartsWithChar(line, i, ParamName(q));
      }
    }
  }

  /** `DT` followed by a separator is the delay timer `OPCODE_PARAM_DT`. */
  lemma DelayTimerOperand(line: Line, i: nat)
    requires i + 2 < |line| && line[i..i + 2] == "DT"
    ensures GetV(line, i) == Ok(Scan(ParamDT, SkipSpaces(line, i + 3)))
  {
    assert StartsAt(line, i, ParamName(ParamDT));
    assert line[i] == 'D';
    forall q | 0 <= q < ParamDT ensures !StartsAt(line, i, ParamName(q)) {
      if q < ParamI {
        RegisterCodes(q);
      }
      if StartsAt(line, i, ParamName(q)) {
        StartsWithChar(line, i, ParamName(q));
      }
    }
  }

  /** An operand `Chip8AssParseInt` can read is a valid address operand, label or not. */
  lemma AddressOk(line: Line, j: nat, labels: seq<Label>)
    requires j <= |line| && ParseInt(line, SkipSpaces(line, j)).Ok?
    ensures GetAddress(line, j, labels).Ok?
  {
  }

  /** A register operand is never a `$` literal, so it reads as an address without error. */
  lemma RegisterAddressOk(line: Line, j: nat, labels: seq<Label>)
    requires j < |line| && line[j] == 'V'
    ensures GetAddress(line, j, labels).Ok?
  {
    assert SkipSpaces(line, j) == j;
    AddressOk(line, j, labels);
  }

  /** `Vx, kk`: a register, then a plain operand that reads as the byte `kk`. */
  predicate RegisterByteAt(line: Line, i: nat, x: nat, kk: int)
  {
    && RegisterThenAt(line, i, x)
    && PlainAt(line, SkipSpaces(line, i + 3))
    && ParseInt(line, SkipSpaces(line, i + 3)) == Ok(kk)
    && 0 <= kk < 0x100
  }

  /** The register is read, then the missing second parameter leaves the pointer at the byte. */
  lemma RegisterByte(line: Line, i: nat, x: nat, kk: int)
    requires RegisterByteAt(line, i, x, kk)
    ensures var j := SkipSpaces(line, i + 3);
            GetV(line, i) == Ok(Scan(x, j)) && GetV(line, j) == Ok(Scan(ParamNull, j))
  {
    RegisterThen(line, i, x);
    PlainOperand(line, SkipSpaces(line, i + 3));
  }

  // ---------------------------------------------------------------------------
  // The cases of the `switch`, one at a time

  lemma BuildJp(line: Line, i: nat, labels: seq<Label>)
    requires i <= |line|
    ensures BuildCode(OpJp, line, i, labels) == EncodeJp(line, i, labels)
  {
  }

  lemma BuildSe(line: Line, i: nat, labels: seq<Label>)
    requires i <= |line|
    ensures BuildCode(OpSe, line, i, labels) == EncodeSe(line, i)
  {
  }

  lemma BuildSne(line: Line, i: nat, labels: seq<Label>)
    requires i <= |line|
    ensures BuildCode(OpSne, line, i, labels) == EncodeSne(line, i)
  {
  }

  lemma BuildLd(line: Line, i: nat, labels: seq<Label>)
    requires i <= |line|
    ensures BuildCode(OpLd, line, i, labels) == EncodeLd(line, i, labels)
  {
  }

  lemma BuildAdd(line: Line, i: nat, labels: seq<Label>)
    requires i <= |line|
    ensures BuildCode(OpAdd, line, i, labels) == EncodeAdd(line, i)
  {
  }

  lemma BuildOr(line: Line, i: nat, labels: seq<Label>)
    requires i <= |line|
    ensures BuildCode(OpOr, line, i, labels) == EncodeTwo(0x8001, line, i)
  {
  }

  lemma BuildAnd(line: Line, i: nat, labels: seq<Label>)
    requires i <= |line|
    ensures BuildCode(OpAnd, line, i, labels) == EncodeTwo(0x8002, line, i)
  {
  }

  lemma BuildXor(line: Line, i: nat, labels: seq<Label>)
    requires i <= |line|
    ensures BuildCode(OpXor, line, i, labels) == EncodeTwo(0x8003, line, i)
  {
  }

  lemma BuildSub(line: Line, i: nat, labels: seq<Label>)
    requires i <= |line|
    ensures BuildCode(OpSub, line, i, labels) == EncodeTwo(0x8005, line, i)
  {
  }

  lemma BuildSubn(line: Line, i: nat, labels: seq<Label>)
    requires i <= |line|
    ensures BuildCode(OpSubn, line, i, labels) == EncodeTwo(0x8007, line, i)
  {
  }

  lemma BuildShr(line: Line, i: nat, labels: seq<Label>)
    requires i <= |line|
    ensures BuildCode(OpShr, line, i, labels) == EncodeOne(0x8000, 0x0006, line, i)
  {
  }

  lemma BuildShl(line: Line, i: nat, labels: seq<Label>)
    requires i <= |line|
    ensures BuildCode(OpShl, line, i, labels) == EncodeOne(0x8000, 0x000E, line, i)
  {
  }

  lemma BuildSkp(line: Line, i: nat, labels: seq<Label>)
    requires i <= |line|
    ensures BuildCode(OpSkp, line, i, labels) == EncodeOne(0xE000, 0x009E, line, i)
  {
  }

  lemma BuildSknp(line: Line, i: nat, labels: seq<Label>)
    requires i <= |line|
    ensures BuildCode(OpSknp, line, i, labels) == EncodeOne(0xE000, 0x00A1, line, i)
  {
  }

  lemma BuildRnd(line: Line, i: nat, labels: seq<Label>)
    requires i <= |line|
    ensures BuildCode(OpRnd, line, i, labels) == EncodeRnd(line, i)
  {
  }

  lemma BuildDrw(line: Line, i: nat, labels: seq<Label>)
    requires i <= |line|
    ensures BuildCode(OpDrw, line, i, labels) == EncodeDrw(line, i)
  {
  }

  // ---------------------------------------------------------------------------
  // The encoders on their usual operands

  lemma SeRegistersEncoded(line: Line, i: nat, x: nat, y: nat)
    requires RegisterPairAt(line, i, x, y)
    ensures EncodeSe(line, i).Ok? && EncodeSe(line, i).value == Nibbles(0x5, x, y, 0)
  {
    RegisterPair(line, i, x, y);
    PackRegisters(0x5000, 0x5, x, y, 0);
  }

  lemma SneRegistersEncoded(line: Line, i: nat, x: nat, y: nat)
    requires RegisterPairAt(line, i, x, y)
    ensures EncodeSne(line, i).Ok? && EncodeSne(line, i).value == Nibbles(0x9, x, y, 0)
  {
    RegisterPair(line, i, x, y);
    PackRegisters(0x9000, 0x9, x, y, 0);
  }

  lemma AddRegistersEncoded(line: Line, i: nat, x: nat, y: nat)
    requires RegisterPairAt(line, i, x, y)
    ensures EncodeAdd(line, i).Ok? && EncodeAdd(line, i).value == Nibbles(0x8, x, y, 4)
  {
    RegisterPair(line, i, x, y);
    PackRegisters(0x8004, 0x8, x, y, 4);
  }

  lemma TwoRegistersEncoded(base: int, n: nat, line: Line, i: nat, x: nat, y: nat)
    requires RegisterPairAt(line, i, x, y) && n < 0x10 && base == 0x8000 + n
    ensures EncodeTwo(base, line, i).Ok? && EncodeTwo(base, line, i).value == Nibbles(0x8, x, y, n)
  {
    RegisterPair(line, i, x, y);
    PackRegisters(base, 0x8, x, y, n);
  }

  lemma DrawRegistersEncoded(line: Line, i: nat, x: nat, y: nat, n: int)
    requires RegisterPairAt(line, i, x, y)
    requires ParseInt(line, SkipSpaces(line, i + 7)) == Ok(n) && 0 <= n < 0x10
    ensures EncodeDrw(line, i).Ok? && EncodeDrw(line, i).value == Nibbles(0xD, x, y, n)
  {
    RegisterPair(line, i, x, y);
    PackRegisters(0xD000, 0xD, x, y, 0);
    PackNibble(Nibbles(0xD, x, y, 0), 0xD, x, y, n);
  }

  lemma OneRegisterEncoded(base: int, low: int, f: nat, y: nat, n: nat, line: Line, i: nat, x: nat)
    requires RegisterThenAt(line, i, x) && f < 0x10 && y < 0x10 && n < 0x10
    requires base == f * 0x1000 && low == y * 0x10 + n
    ensures EncodeOne(base, low, line, i).Ok? && EncodeOne(base, low, line, i).value == Nibbles(f, x, y, n)
  {
    RegisterThen(line, i, x);
    PackLowByte(base, low, f, x, y, n);
  }

  lemma JumpAddressEncoded(line: Line, i: nat, labels: seq<Label>, a: int)
    requires i <= |line| && GetAddress(line, i, labels) == Ok(a) && 0 <= a < 0x1000
    requires GetV(line, i).Ok? && GetV(line, i).value.code != ParamV0
    ensures EncodeJp(line, i, labels).Ok? && EncodeJp(line, i, labels).value == 0x1000 + a
  {
    PackAddress(0x1000, 0x1, a);
  }

  lemma JumpOffsetEncoded(line: Line, i: nat, labels: seq<Label>, a: int)
    requires RegisterThenAt(line, i, 0) && GetAddress(line, SkipSpaces(line, i + 3), labels) == Ok(a) && 0 <= a < 0x1000
    ensures EncodeJp(line, i, labels).Ok? && EncodeJp(line, i, labels).value == 0xB000 + a
  {
    RegisterThen(line, i, 0);
    RegisterAddressOk(line, i, labels);
    PackAddress(0xB000, 0xB, a);
  }

  lemma LdIndexEncoded(line: Line, i: nat, labels: seq<Label>, a: int)
    requires i + 1 < |line| && line[i] == 'I'
    requires GetAddress(line, SkipSpaces(line, i + 2), labels) == Ok(a) && GetV(line, SkipSpaces(line, i + 2)).Ok?
    requires 0 <= a < 0x1000
    ensures EncodeLd(line, i, labels).Ok? && EncodeLd(line, i, labels).value == 0xA000 + a
  {
    IndexOperand(line, i);
    PackAddress(0xA000, 0xA, a);
  }

  // ---------------------------------------------------------------------------
  // The encoders once their operands are read

  lemma SeImmediate(line: Line, i: nat, x: nat, j: nat, n: int)
    requires i <= |line| && j <= |line|
    requires GetV(line, i) == Ok(Scan(x, j)) && GetV(line, j) == Ok(Scan(ParamNull, j)) && ParseInt(line, j) == Ok(n)
    ensures EncodeSe(line, i) == Ok(Or3(0x3000, x * 0x100, n))
  {
  }

  lemma SneImmediate(line: Line, i: nat, x: nat, j: nat, n: int)
    requires i <= |line| && j <= |line|
    requires GetV(line, i) == Ok(Scan(x, j)) && GetV(line, j) == Ok(Scan(ParamNull, j)) && ParseInt(line, j) == Ok(n)
    ensures EncodeSne(line, i) == Ok(Or3(0x4000, x * 0x100, n))
  {
  }

  lemma AddImmediate(line: Line, i: nat, x: nat, j: nat, n: int)
    requires i <= |line| && j <= |line|
    requires GetV(line, i) == Ok(Scan(x, j)) && GetV(line, j) == Ok(Scan(ParamNull, j)) && ParseInt(line, j) == Ok(n)
    ensures EncodeAdd(line, i) == Ok(Or3(0x7000, x * 0x100, n))
  {
  }

  lemma AddIndexScanned(line: Line, i: nat, j: nat, y: nat, k: nat)
    requires i <= |line| && j <= |line|
    requires GetV(line, i) == Ok(Scan(ParamI, j)) && GetV(line, j) == Ok(Scan(y, k)) && y != ParamNull
    ensures EncodeAdd(line, i).Ok? && EncodeAdd(line, i).value == 0xF01E
  {
    AddIndexWord();
  }

  lemma RndImmediate(line: Line, i: nat, x: nat, j: nat, n: int)
    requires i <= |line| && j <= |line|
    requires GetV(line, i) == Ok(Scan(x, j)) && ParseInt(line, j) == Ok(n)
    ensures EncodeRnd(line, i) == Ok(Or3(0xC000, x * 0x100, n))
  {
  }

  lemma LdImmediate(line: Line, i: nat, labels: seq<Label>, x: nat, j: nat, a: int, n: int)
    requires i <= |line| && j <= |line| && x <= ParamVF
    requires GetV(line, i) == Ok(Scan(x, j)) && GetAddress(line, j, labels) == Ok(a)
    requires GetV(line, j) == Ok(Scan(ParamNull, j)) && ParseInt(line, j) == Ok(n)
    ensures EncodeLd(line, i, labels) == Ok(LdForm(x, ParamNull, a, n))
  {
  }

  /** Two registers select the first form of `LD`. */
  lemma LdFormRegisters(x: nat, y: nat, a: int)
    requires x < 0x10 && y < 0x10
    ensures LdForm(x, y, a, 0) == Nibbles(0x8, x, y, 0)
  {
    PackRegisters(0x8000, 0x8, x, y, 0);
  }

  /** The `ADD I` form ORs the index parameter's code into the top nibble, where `F` absorbs it. */
  lemma AddIndexWord()
    ensures Or3(0xF000, ParamI * 0x100, 0x001E) == 0xF01E
  {
    OrNibbles(0xF, 0, 0, 0, 1, 0, 0, 0);
    assert Or4(0xF, 1) == 0xF;
    OrApart(0xF000, 0x001E, 0xF01E, 0xF, 0, 0, 0, 0, 0, 1, 0xE);
  }

  lemma LdScanned(line: Line, i: nat, labels: seq<Label>, x: nat, j: nat, a: int, y: nat, k: nat)
    requires i <= |line| && j <= |line| && !(x <= ParamVF && y == ParamNull)
    requires GetV(line, i) == Ok(Scan(x, j)) && GetAddress(line, j, labels) == Ok(a) && GetV(line, j) == Ok(Scan(y, k))
    ensures EncodeLd(line, i, labels) == Ok(LdForm(x, y, a, 0))
  {
  }

  /** No form of `LD` starts with the delay timer, so `LD DT, Vx` falls through to -1. */
  lemma LdDelayTimerScanned(line: Line, i: nat, labels: seq<Label>, j: nat, y: nat, k: nat)
    requires i <= |line| && j <= |line| && y < 0x10
    requires GetV(line, i) == Ok(Scan(ParamDT, j)) && GetAddress(line, j, labels).Ok? && GetV(line, j) == Ok(Scan(y, k))
    ensures EncodeLd(line, i, labels).Ok? && EncodeLd(line, i, labels).value == 0xFFFF
  {
    LdScanned(line, i, labels, ParamDT, j, GetAddress(line, j, labels).value, y, k);
  }

  // ---------------------------------------------------------------------------
  // The encoders on their usual operands, continued

  lemma LdRegistersEncoded(line: Line, i: nat, labels: seq<Label>, x: nat, y: nat)
    requires RegisterPairAt(line, i, x, y)
    ensures EncodeLd(line, i, labels).Ok? && EncodeLd(line, i, labels).value == Nibbles(0x8, x, y, 0)
  {
    RegisterPair(line, i, x, y);
    RegisterAddressOk(line, i + 4, labels);
    var a := GetAddress(line, i + 4, labels).value;
    LdScanned(line, i, labels, x, i + 4, a, y, SkipSpaces(line, i + 7));
    LdFormRegisters(x, y, a);
  }

  lemma SeByteEncoded(line: Line, i: nat, x: nat, kk: int)
    requires RegisterByteAt(line, i, x, kk)
    ensures EncodeSe(line, i).Ok? && EncodeSe(line, i).value == 0x3000 + x * 0x100 + kk
  {
    var j := SkipSpaces(line, i + 3);
    RegisterByte(line, i, x, kk);
    SeImmediate(line, i, x, j, kk);
    PackByte(0x3000, 0x3, x, kk);
  }

  lemma SneByteEncoded(line: Line, i: nat, x: nat, kk: int)
    requires RegisterByteAt(line, i, x, kk)
    ensures EncodeSne(line, i).Ok? && EncodeSne(line, i).value == 0x4000 + x * 0x100 + kk
  {
    var j := SkipSpaces(line, i + 3);
    RegisterByte(line, i, x, kk);
    SneImmediate(line, i, x, j, kk);
    PackByte(0x4000, 0x4, x, kk);
  }

  lemma LdByteEncoded(line: Line, i: nat, labels: seq<Label>, x: nat, kk: int)
    requires RegisterByteAt(line, i, x, kk)
    ensures EncodeLd(line, i, labels).Ok? && EncodeLd(line, i, labels).value == 0x6000 + x * 0x100 + kk
  {
    var j := SkipSpaces(line, i + 3);
    RegisterByte(line, i, x, kk);
    assert SkipSpaces(line, j) == j;
    AddressOk(line, j, labels);
    var a := GetAddress(line, j, labels).value;
    LdImmediate(line, i, labels, x, j, a, kk);
    PackByte(0x6000, 0x6, x, kk);
  }

  lemma AddByteEncoded(line: Line, i: nat, x: nat, kk: int)
    requires RegisterByteAt(line, i, x, kk)
    ensures EncodeAdd(line, i).Ok? && EncodeAdd(line, i).value == 0x7000 + x * 0x100 + kk
  {
    var j := SkipSpaces(line, i + 3);
    RegisterByte(line, i, x, kk);
    AddImmediate(line, i, x, j, kk);
    PackByte(0x7000, 0x7, x, kk);
  }

  lemma RndByteEncoded(line: Line, i: nat, x: nat, kk: int)
    requires RegisterByteAt(line, i, x, kk)
    ensures EncodeRnd(line, i).Ok? && EncodeRnd(line, i).value == 0xC000 + x * 0x100 + kk
  {
    var j := SkipSpaces(line, i + 3);
    RegisterThen(line, i, x);
    RndImmediate(line, i, x, j, kk);
    PackByte(0xC000, 0xC, x, kk);
  }

  /** `I, Vx` at `i`. */
  predicate IndexRegisterAt(line: Line, i: nat, x: nat)
  {
    x < 0x10 && i + 5 < |line| && line[i..i + 5] == "I, " + RegName(x)
  }

  /** `DT, Vx` at `i`. */
  predicate DelayTimerRegisterAt(line: Line, i: nat, x: nat)
  {
    x < 0x10 && i + 6 < |line| && line[i..i + 6] == "DT, " + RegName(x)
  }

  lemma IndexRegister(line: Line, i: nat, x: nat)
    requires IndexRegisterAt(line, i, x)
    ensures GetV(line, i) == Ok(Scan(ParamI, i + 3))
    ensures GetV(line, i + 3) == Ok(Scan(x, SkipSpaces(line, i + 6)))
  {
    assert line[i] == 'I' && line[i + 2] == ' ' && line[i + 3] == 'V';
    assert SkipSpaces(line, i + 2) == i + 3;
    assert line[i + 3..i + 5] == line[i..i + 5][3..];
    IndexOperand(line, i);
    RegisterParam(line, i + 3, x);
  }

  lemma DelayTimerRegister(line: Line, i: nat, x: nat)
    requires DelayTimerRegisterAt(line, i, x)
    ensures GetV(line, i) == Ok(Scan(ParamDT, i + 4))
    ensures GetV(line, i + 4) == Ok(Scan(x, SkipSpaces(line, i + 7)))
    ensures line[i + 4] == 'V'
  {
    assert line[i..i + 2] == line[i..i + 6][..2];
    assert line[i + 3] == ' ' && line[i + 4] == 'V';
    assert SkipSpaces(line, i + 3) == i + 4;
    assert line[i + 4..i + 6] == line[i..i + 6][4..];
    DelayTimerOperand(line, i);
    RegisterParam(line, i + 4, x);
  }

  lemma AddIndexEncoded(line: Line, i: nat, x: nat)
    requires IndexRegisterAt(line, i, x)
    ensures EncodeAdd(line, i).Ok? && EncodeAdd(line, i).value == 0xF01E
  {
    IndexRegister(line, i, x);
    AddIndexScanned(line, i, i + 3, x, SkipSpaces(line, i + 6));
  }

  lemma LdDelayTimerEncoded(line: Line, i: nat, labels: seq<Label>, x: nat)
    requires DelayTimerRegisterAt(line, i, x)
    ensures EncodeLd(line, i, labels).Ok? && EncodeLd(line, i, labels).value == 0xFFFF
  {
    DelayTimerRegister(line, i, x);
    RegisterAddressOk(line, i + 4, labels);
    LdDelayTimerScanned(line, i, labels, i + 4, x, SkipSpaces(line, i + 7));
  }

  // ---------------------------------------------------------------------------
  // What `Chip8AssBuildCode` gives for each mnemonic

  /** `SE Vx, Vy` assembles to 5xy0. */
  lemma SeRegisters(line: Line, i: nat, labels: seq<Label>, x: nat, y: nat)
    requires RegisterPairAt(line, i, x, y)
    ensures BuildCode(OpSe, line, i, labels).Ok? && BuildCode(OpSe, line, i, labels).value == Nibbles(0x5, x, y, 0)
  {
    BuildSe(line, i, labels);
    SeRegistersEncoded(line, i, x, y);
  }

  /** `SNE Vx, Vy` assembles to 9xy0. */
  lemma SneRegisters(line: Line, i: nat, labels: seq<Label>, x: nat, y: nat)
    requires RegisterPairAt(line, i, x, y)
    ensures BuildCode(OpSne, line, i, labels).Ok? && BuildCode(OpSne, line, i, labels).value == Nibbles(0x9, x, y, 0)
  {
    BuildSne(line, i, labels);
    SneRegistersEncoded(line, i, x, y);
  }

  /** `LD Vx, Vy` assembles to 8xy0. */
  lemma LdRegisters(line: Line, i: nat, labels: seq<Label>, x: nat, y: nat)
    requires RegisterPairAt(line, i, x, y)
    ensures BuildCode(OpLd, line, i, labels).Ok? && BuildCode(OpLd, line, i, labels).value == Nibbles(0x8, x, y, 0)
  {
    BuildLd(line, i, labels);
    LdRegistersEncoded(line, i, labels, x, y);
  }

  /** `ADD Vx, Vy` assembles to 8xy4. */
  lemma AddRegisters(line: Line, i: nat, labels: seq<Label>, x: nat, y: nat)
    requires RegisterPairAt(line, i, x, y)
    ensures BuildCode(OpAdd, line, i, labels).Ok? && BuildCode(OpAdd, line, i, labels).value == Nibbles(0x8, x, y, 4)
  {
    BuildAdd(line, i, labels);
    AddRegistersEncoded(line, i, x, y);
  }

  /** `OR Vx, Vy` assembles to 8xy1. */
  lemma OrRegisters(line: Line, i: nat, labels: seq<Label>, x: nat, y: nat)
    requires RegisterPairAt(line, i, x, y)
    ensures BuildCode(OpOr, line, i, labels).Ok? && BuildCode(OpOr, line, i, labels).value == Nibbles(0x8, x, y, 1)
  {
    BuildOr(line, i, labels);
    TwoRegistersEncoded(0x8001, 1, line, i, x, y);
  }

  /** `AND Vx, Vy` assembles to 8xy2. */
  lemma AndRegisters(line: Line, i: nat, labels: seq<Label>, x: nat, y: nat)
    requires RegisterPairAt(line, i, x, y)
    ensures BuildCode(OpAnd, line, i, labels).Ok? && BuildCode(OpAnd, line, i, labels).value == Nibbles(0x8, x, y, 2)
  {
    BuildAnd(line, i, labels);
    TwoRegistersEncoded(0x8002, 2, line, i, x, y);
  }

  /** `XOR Vx, Vy` assembles to 8xy3. */
  lemma XorRegisters(line: Line, i: nat, labels: seq<Label>, x: nat, y: nat)
    requires RegisterPairAt(line, i, x, y)
    ensures BuildCode(OpXor, line, i, labels).Ok? && BuildCode(OpXor, line, i, labels).value == Nibbles(0x8, x, y, 3)
  {
    BuildXor(line, i, labels);
    TwoRegistersEncoded(0x8003, 3, line, i, x, y);
  }

  /** `SUB Vx, Vy` assembles to 8xy5. */
  lemma SubRegisters(line: Line, i: nat, labels: seq<Label>, x: nat, y: nat)
    requires RegisterPairAt(line, i, x, y)
    ensures BuildCode(OpSub, line, i, labels).Ok? && BuildCode(OpSub, line, i, labels).value == Nibbles(0x8, x, y, 5)
  {
    BuildSub(line, i, labels);
    TwoRegistersEncoded(0x8005, 5, line, i, x, y);
  }

  /** `SUBN Vx, Vy` assembles to 8xy7. */
  lemma SubnRegisters(line: Line, i: nat, labels: seq<Label>, x: nat, y: nat)
    requires RegisterPairAt(line, i, x, y)
    ensures BuildCode(OpSubn, line, i, labels).Ok? && BuildCode(OpSubn, line, i, labels).value == Nibbles(0x8, x, y, 7)
  {
    BuildSubn(line, i, labels);
    TwoRegistersEncoded(0x8007, 7, line, i, x, y);
  }

  /** `SHR Vx` assembles to 8x06. */
  lemma ShrRegister(line: Line, i: nat, labels: seq<Label>, x: nat)
    requires RegisterThenAt(line, i, x)
    ensures BuildCode(OpShr, line, i, labels).Ok? && BuildCode(OpShr, line, i, labels).value == Nibbles(0x8, x, 0, 0x6)
  {
    BuildShr(line, i, labels);
    OneRegisterEncoded(0x8000, 0x0006, 0x8, 0, 0x6, line, i, x);
  }

  /** `SHL Vx` assembles to 8x0E. */
  lemma ShlRegister(line: Line, i: nat, labels: seq<Label>, x: nat)
    requires RegisterThenAt(line, i, x)
    ensures BuildCode(OpShl, line, i, labels).Ok? && BuildCode(OpShl, line, i, labels).value == Nibbles(0x8, x, 0, 0xE)
  {
    BuildShl(line, i, labels);
    OneRegisterEncoded(0x8000, 0x000E, 0x8, 0, 0xE, line, i, x);
  }

  /** `SKP Vx` assembles to Ex9E. */
  lemma SkpRegister(line: Line, i: nat, labels: seq<Label>, x: nat)
    requires RegisterThenAt(line, i, x)
    ensures BuildCode(OpSkp, line, i, labels).Ok? && BuildCode(OpSkp, line, i, labels).value == Nibbles(0xE, x, 0x9, 0xE)
  {
    BuildSkp(line, i, labels);
    OneRegisterEncoded(0xE000, 0x009E, 0xE, 0x9, 0xE, line, i, x);
  }

  /** `SKNP Vx` assembles to ExA1. */
  lemma SknpRegister(line: Line, i: nat, labels: seq<Label>, x: nat)
    requires RegisterThenAt(line, i, x)
    ensures BuildCode(OpSknp, line, i, labels).Ok? && BuildCode(OpSknp, line, i, labels).value == Nibbles(0xE, x, 0xA, 0x1)
  {
    BuildSknp(line, i, labels);
    OneRegisterEncoded(0xE000, 0x00A1, 0xE, 0xA, 0x1, line, i, x);
  }

  /** `SE Vx, kk` assembles to 3xkk. */
  lemma SeByte(line: Line, i: nat, labels: seq<Label>, x: nat, kk: int)
    requires RegisterByteAt(line, i, x, kk)
    ensures BuildCode(OpSe, line, i, labels).Ok? && BuildCode(OpSe, line, i, labels).value == 0x3000 + x * 0x100 + kk
  {
    BuildSe(line, i, labels);
    SeByteEncoded(line, i, x, kk);
  }

  /** `SNE Vx, kk` assembles to 4xkk. */
  lemma SneByte(line: Line, i: nat, labels: seq<Label>, x: nat, kk: int)
    requires RegisterByteAt(line, i, x, kk)
    ensures BuildCode(OpSne, line, i, labels).Ok? && BuildCode(OpSne, line, i, labels).value == 0x4000 + x * 0x100 + kk
  {
    BuildSne(line, i, labels);
    SneByteEncoded(line, i, x, kk);
  }

  /** `LD Vx, kk` assembles to 6xkk. */
  lemma LdByte(line: Line, i: nat, labels: seq<Label>, x: nat, kk: int)
    requires RegisterByteAt(line, i, x, kk)
    ensures BuildCode(OpLd, line, i, labels).Ok? && BuildCode(OpLd, line, i, labels).value == 0x6000 + x * 0x100 + kk
  {
    BuildLd(line, i, labels);
    LdByteEncoded(line, i, labels, x, kk);
  }

  /** `ADD Vx, kk` assembles to 7xkk. */
  lemma AddByte(line: Line, i: nat, labels: seq<Label>, x: nat, kk: int)
    requires RegisterByteAt(line, i, x, kk)
    ensures BuildCode(OpAdd, line, i, labels).Ok? && BuildCode(OpAdd, line, i, labels).value == 0x7000 + x * 0x100 + kk
  {
    BuildAdd(line, i, labels);
    AddByteEncoded(line, i, x, kk);
  }

  /** `RND Vx, kk` assembles to Cxkk. */
  lemma RndByte(line: Line, i: nat, labels: seq<Label>, x: nat, kk: int)
    requires RegisterByteAt(line, i, x, kk)
    ensures BuildCode(OpRnd, line, i, labels).Ok? && BuildCode(OpRnd, line, i, labels).value == 0xC000 + x * 0x100 + kk
  {
    BuildRnd(line, i, labels);
    RndByteEncoded(line, i, x, kk);
  }

  /** `DRW Vx, Vy, n` assembles to Dxyn. */
  lemma DrwRegisters(line: Line, i: nat, labels: seq<Label>, x: nat, y: nat, n: int)
    requires RegisterPairAt(line, i, x, y)
    requires ParseInt(line, SkipSpaces(line, i + 7)) == Ok(n) && 0 <= n < 0x10
    ensures BuildCode(OpDrw, line, i, labels).Ok? && BuildCode(OpDrw, line, i, labels).value == Nibbles(0xD, x, y, n)
  {
    BuildDrw(line, i, labels);
    DrawRegistersEncoded(line, i, x, y, n);
  }

  /**
   * `LD I, addr` assembles to Annn, whatever the operand looks like: a label
   * such as `DRAW` is as good as a number, since the second parameter is not
   * examined once the first is I.
   */
  lemma LdIndex(line: Line, i: nat, labels: seq<Label>, a: int)
    requires i + 1 < |line| && line[i] == 'I'
    requires GetAddress(line, SkipSpaces(line, i + 2), labels) == Ok(a) && GetV(line, SkipSpaces(line, i + 2)).Ok?
    requires 0 <= a < 0x1000
    ensures BuildCode(OpLd, line, i, labels).Ok? && BuildCode(OpLd, line, i, labels).value == 0xA000 + a
  {
    BuildLd(line, i, labels);
    LdIndexEncoded(line, i, labels, a);
  }

  /**
   * `JP addr` assembles to 1nnn whenever the operand does not read as V0,
   * labels such as `DRAW` included.
   */
  lemma JpAddress(line: Line, i: nat, labels: seq<Label>, a: int)
    requires i <= |line| && GetAddress(line, i, labels) == Ok(a) && 0 <= a < 0x1000
    requires GetV(line, i).Ok? && GetV(line, i).value.code != ParamV0
    ensures BuildCode(OpJp, line, i, labels).Ok? && BuildCode(OpJp, line, i, labels).value == 0x1000 + a
  {
    BuildJp(line, i, labels);
    JumpAddressEncoded(line, i, labels, a);
  }

  /** A label whose name starts with a parameter letter is still a jump target: `JP DRAW` with DRAW at 0x234 is 1234. */
  lemma JumpToLabel()
    ensures BuildCode(OpJp, "DRAW\n", 0, [Label("DRAW", 0x234)]) == Ok(0x1234)
  {
    var line, labels := "DRAW\n", [Label("DRAW", 0x234)];
    assert StartsAt(line, 0, "DRAW");
    assert GetAddress(line, 0, labels) == Ok(0x234);
    JpAddress(line, 0, labels, 0x234);
  }

  /** `JP V0, addr` assembles to Bnnn. */
  lemma JpOffset(line: Line, i: nat, labels: seq<Label>, a: int)
    requires RegisterThenAt(line, i, 0) && GetAddress(line, SkipSpaces(line, i + 3), labels) == Ok(a) && 0 <= a < 0x1000
    ensures BuildCode(OpJp, line, i, labels).Ok? && BuildCode(OpJp, line, i, labels).value == 0xB000 + a
  {
    BuildJp(line, i, labels);
    JumpOffsetEncoded(line, i, labels, a);
  }

  /** `CALL addr` assembles to 2nnn, whatever the operand looks like. */
  lemma CallAddress(line: Line, i: nat, labels: seq<Label>, a: int)
    requires i <= |line| && GetAddress(line, i, labels) == Ok(a) && 0 <= a < 0x1000
    ensures BuildCode(OpCall, line, i, labels).Ok? && BuildCode(OpCall, line, i, labels).value == 0x2000 + a
  {
    PackAddress(0x2000, 0x2, a);
  }

  /** `ADD I, Vx` assembles to F01E for every register: the register's bits vanish under the F. */
  lemma AddIndex(line: Line, i: nat, labels: seq<Label>, x: nat)
    requires IndexRegisterAt(line, i, x)
    ensures BuildCode(OpAdd, line, i, labels).Ok? && BuildCode(OpAdd, line, i, labels).value == 0xF01E
  {
    BuildAdd(line, i, labels);
    AddIndexEncoded(line, i, x);
  }

  /** `LD DT, Vx` matches no form of `LD` and assembles to FFFF. */
  lemma LdDelayTimer(line: Line, i: nat, labels: seq<Label>, x: nat)
    requires DelayTimerRegisterAt(line, i, x)
    ensures BuildCode(OpLd, line, i, labels).Ok? && BuildCode(OpLd, line, i, labels).value == 0xFFFF
  {
    BuildLd(line, i, labels);
    LdDelayTimerEncoded(line, i, labels, x);
  }

  /** `SCD n` assembles to 00Cn. */
  lemma ScdNibble(line: Line, i: nat, labels: seq<Label>, n: int)
    requires i <= |line| && ParseInt(line, i) == Ok(n) && 0 <= n < 0x10
    ensures BuildCode(OpScd, line, i, labels).Ok? && BuildCode(OpScd, line, i, labels).value == 0x00C0 + n
  {
    OrApart(0x00C0, n, 0x00C0 + n, 0, 0, 0xC, 0, 0, 0, 0, n);
  }

  /** The mnemonics without operands ignore the rest of the line. */
  lemma FixedWords(line: Line, i: nat, labels: seq<Label>)
    requires i <= |line|
    ensures BuildCode(OpCls, line, i, labels) == Ok(0x00E0)
    ensures BuildCode(OpRet, line, i, labels) == Ok(0x00EE)
  {
  }

  /** The Super-CHIP screen mnemonics are assembled although the interpreter has no handler for them. */
  lemma SuperChipWords(line: Line, i: nat, labels: seq<Label>)
    requires i <= |line|
    ensures BuildCode(OpScr, line, i, labels) == Ok(0x00FB)
    ensures BuildCode(OpScl, line, i, labels) == Ok(0x00FC)
    ensures BuildCode(OpExit, line, i, labels) == Ok(0x00FD)
    ensures BuildCode(OpLow, line, i, labels) == Ok(0x00FE)
    ensures BuildCode(OpHigh, line, i, labels) == Ok(0x00FF)
  {
  }
}
