/**
 * The disassembler's text fed back to the assembler.  The disassembler
 * prints every field in hex, while the assembler reads a plain operand as
 * a decimal number (`atoi`), so the two agree only where the hex digits
 * spell the same value in decimal.
 */
module RoundTrip {
  import opened Bits
  import opened Results
  import opened AsmText
  import opened AsmEncode
  import opened AsmTextFacts
  import opened AsmEncodeFacts
  import D = Disassembler
  import DF = DisassemblerFacts
  import I = Interpreter

  /** A printed nibble below ten is a decimal digit worth the nibble; above, it is no decimal digit at all. */
  lemma PrintedNibble(n: nat)
    requires n < 0x10
    ensures var c := D.HexDigit(n);
            && !IsSpace(c) && c != '#' && c != '$' && c != '-' && c != '+'
            && (IsDigitIn(c, 10) <==> n < 10)
            && (n < 10 ==> !ParamInitial(c))
            && (n < 10 ==> DigitVal(c, 10) == n)
  {
  }

  /** `atoi` on one printed nibble followed by a non-digit: the nibble below ten, zero above. */
  lemma ReadNibble(line: Line, j: nat, n: nat)
    requires n < 0x10 && j + 1 < |line| && line[j] == D.HexDigit(n) && !IsDigitIn(line[j + 1], 10)
    ensures ParseInt(line, j) == Ok(if n < 10 then n else 0)
  {
    PrintedNibble(n);
    assert SkipSpaces(line, j) == j;
    assert Sign(line, j) == (j, 1);
    if n < 10 {
      assert DigitsEnd(line, j + 1, 10) == j + 1;
      assert DigitsEnd(line, j, 10) == j + 1;
      assert DigitsValue(line, j, j + 1, 10) == DigitsValue(line, j, j, 10) * 10 + n;
    } else {
      assert DigitsEnd(line, j, 10) == j;
    }
  }

  /** `atoi` on three printed nibbles below ten reads them as decimal digits. */
  lemma ReadDecimalNibbles(line: Line, j: nat, a: nat, b: nat, c: nat)
    requires a < 10 && b < 10 && c < 10 && j + 3 < |line|
    requires line[j] == D.HexDigit(a) && line[j + 1] == D.HexDigit(b) && line[j + 2] == D.HexDigit(c)
    requires !IsDigitIn(line[j + 3], 10)
    ensures ParseInt(line, j) == Ok(a * 100 + b * 10 + c)
  {
    PrintedNibble(a);
    PrintedNibble(b);
    PrintedNibble(c);
    assert SkipSpaces(line, j) == j;
    assert Sign(line, j) == (j, 1);
    assert DigitsEnd(line, j + 3, 10) == j + 3;
    assert DigitsEnd(line, j + 2, 10) == j + 3;
    assert DigitsEnd(line, j + 1, 10) == j + 3;
    assert DigitsEnd(line, j, 10) == j + 3;
    assert DigitsValue(line, j, j + 1, 10) == a;
    assert DigitsValue(line, j, j + 2, 10) == a * 10 + b;
    assert DigitsValue(line, j, j + 3, 10) == (a * 10 + b) * 10 + c;
  }

  /** The operands the disassembler prints for DXYN, as `fgets` returns them with the newline. */
  function DrawOperands(op: Word): Line
  {
    ['V', D.HexDigit(I.RegX(op)), ',', ' ', 'V', D.HexDigit(I.RegY(op)), ',', ' ', D.HexDigit(I.LowNibble(op)), '\n']
  }

  lemma {:induction false} DrawPrinted(op: Word)
    requires I.Family(op) == 0xD
    ensures D.Disassemble(op) == "DRW " + DrawOperands(op)[..9]
  {
    DF.DrawText(op);
  }

  /** The printed registers are a register pair, and the printed height reads as itself or as zero. */
  lemma DrawOperandsRead(op: Word)
    ensures var line := DrawOperands(op);
            && RegisterPairAt(line, 0, I.RegX(op), I.RegY(op))
            && ParseInt(line, SkipSpaces(line, 7)) == Ok(if I.LowNibble(op) < 10 then I.LowNibble(op) else 0)
  {
    var line := DrawOperands(op);
    assert line[..6] == RegName(I.RegX(op)) + ", " + RegName(I.RegY(op));
    PrintedNibble(I.LowNibble(op));
    assert SkipSpaces(line, 7) == 8;
    ReadNibble(line, 8, I.LowNibble(op));
  }

  /**
   * Assembling the operands of a disassembled DXYN gives the word back
   * exactly when the height is below ten: a height printed as a letter
   * reads as zero.
   */
  lemma {:induction false} DrawRoundTrip(op: Word, labels: seq<Label>)
    requires I.Family(op) == 0xD
    ensures D.Disassemble(op) == "DRW " + DrawOperands(op)[..9]
    ensures var r := BuildCode(OpDrw, DrawOperands(op), 0, labels);
            && r.Ok?
            && r.value == Nibbles(0xD, I.RegX(op), I.RegY(op), if I.LowNibble(op) < 10 then I.LowNibble(op) else 0)
            && (r.value == op <==> I.LowNibble(op) < 10)
  {
    var x, y, n := I.RegX(op), I.RegY(op), I.LowNibble(op);
    DrawPrinted(op);
    DrawOperandsRead(op);
    I.DecodeFields(op);
    DrwRegisters(DrawOperands(op), 0, labels, x, y, if n < 10 then n else 0);
  }

  /** With no labels defined, an address operand is read as a number. */
  lemma NoLabels(line: Line, i: nat)
    requires i <= |line|
    ensures GetAddress(line, i, []) == ParseInt(line, SkipSpaces(line, i))
  {
  }

  /** The operand the disassembler prints for 1NNN, with the newline. */
  function JumpOperand(op: Word): Line
  {
    [D.HexDigit(I.RegX(op)), D.HexDigit(I.RegY(op)), D.HexDigit(I.LowNibble(op)), '\n']
  }

  lemma JumpPrinted(op: Word)
    requires I.Family(op) == 0x1
    ensures D.Disassemble(op) == "JP " + JumpOperand(op)[..3]
  {
    DF.JumpText(op);
  }

  /** Three decimal digits and a newline after `JP` assemble to the address they spell in decimal. */
  lemma JumpOperandRead(line: Line, a: nat, b: nat, c: nat)
    requires a < 10 && b < 10 && c < 10
    requires line == [D.HexDigit(a), D.HexDigit(b), D.HexDigit(c), '\n']
    ensures BuildCode(OpJp, line, 0, []).Ok? && BuildCode(OpJp, line, 0, []).value == 0x1000 + a * 100 + b * 10 + c
  {
    PrintedNibble(a);
    assert SkipSpaces(line, 0) == 0;
    ReadDecimalNibbles(line, 0, a, b, c);
    NoLabels(line, 0);
    PlainOperand(line, 0);
    JpAddress(line, 0, [], a * 100 + b * 10 + c);
  }

  /**
   * Assembling the operand of a disassembled 1NNN whose address digits are
   * all below ten reads the address as a decimal number, so the word comes
   * back only when the address is below ten.
   */
  lemma {:induction false} JumpRoundTrip(op: Word)
    requires I.Family(op) == 0x1 && I.RegX(op) < 10 && I.RegY(op) < 10 && I.LowNibble(op) < 10
    ensures D.Disassemble(op) == "JP " + JumpOperand(op)[..3]
    ensures var r := BuildCode(OpJp, JumpOperand(op), 0, []);
            && r.Ok?
            && r.value == 0x1000 + I.RegX(op) * 100 + I.RegY(op) * 10 + I.LowNibble(op)
            && (r.value == op <==> I.RegX(op) == 0 && I.RegY(op) == 0)
  {
    JumpPrinted(op);
    I.DecodeFields(op);
    JumpOperandRead(JumpOperand(op), I.RegX(op), I.RegY(op), I.LowNibble(op));
  }
}
