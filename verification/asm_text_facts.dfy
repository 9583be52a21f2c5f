/**
 * Properties of the assembler's character helpers: upper-casing, the
 * parameter table, and number literals read back.
 */
module AsmTextFacts {
  import opened Bits
  import opened Results
  import opened AsmText
  import D = Disassembler

  /** Upper-casing twice is upper-casing once. */
  lemma UppercaseIdempotent(line: Line)
    ensures Uppercase(Uppercase(line)) == Uppercase(line)
  {
    var u := Uppercase(line);
    forall k | 0 <= k < |u| ensures Uppercase(u)[k] == u[k] {
      assert !IsLower(u[k]);
    }
  }

  /** A line with no lower-case letter is left as it is. */
  lemma UppercaseKeeps(line: Line)
    requires forall k :: 0 <= k < |line| ==> !IsLower(line[k])
    ensures Uppercase(line) == line
  {
  }

  /** A register as the assembler spells it: V and one upper-case hex digit. */
  function RegName(r: nat): (s: string)
    requires r < 0x10
    ensures |s| == 2 && s[0] == 'V' && !IsSpace(s[1]) && !IsLower(s[1])
  {
    ['V', D.HexDigit(r)]
  }

  /** `OPCODE_PARAM_V0`..`VF` are 0..15: the code of a register parameter is its number. */
  lemma RegisterCodes(r: nat)
    requires r < 0x10
    ensures ParamName(r) == RegName(r)
    ensures ParamV0 <= r <= ParamVF < ParamCount <= ParamNull
  {
  }

  /**
   * `Chip8AssGetV` on a register followed by a separator gives the register's
   * number and moves past the separator and the spaces after it.
   */
  lemma {:induction false} RegisterParam(line: Line, i: nat, r: nat)
    requires r < 0x10 && i + 2 < |line| && line[i..i + 2] == RegName(r)
    ensures GetV(line, i) == Ok(Scan(r, SkipSpaces(line, i + 3)))
    ensures line[i] == 'V'
  {
    RegisterCodes(r);
    assert StartsAt(line, i, ParamName(r));
    forall q | 0 <= q < r ensures !StartsAt(line, i, ParamName(q)) {
      RegisterCodes(q);
      assert line[i + 1] == D.HexDigit(r) != D.HexDigit(q);
    }
  }

  /** Nothing the disassembler prints in a word is a space, a sign or the `X` of a `0X` prefix. */
  lemma HexDigitIsDigit(c: char)
    requires D.IsHexDigit(c)
    ensures IsDigitIn(c, 16) && DigitVal(c, 16) == D.DigitValue(c)
    ensures !IsSpace(c) && c != '-' && c != '+' && c != 'X' && c != 'x'
  {
  }

  /** `#` selects the hex reader. */
  lemma ParseHash(line: Line, j: nat)
    requires j < |line| && line[j] == '#'
    ensures ParseInt(line, j) == Ok(Strtol16(line, j + 1))
  {
    assert SkipSpaces(line, j) == j;
  }

  /** `$` with enough characters after it selects the binary reader. */
  lemma ParseDollar(line: Line, j: nat)
    requires j + 8 <= |line| && line[j] == '$'
    ensures ParseInt(line, j) == Ok(BinaryValue(line, j + 1, 8))
  {
    assert SkipSpaces(line, j) == j;
  }

  /** Four printed hex digits followed by a non-digit are one run whose value the digits spell. */
  lemma HexRun(line: Line, j: nat, s: string)
    requires j + 4 <= |line| && line[j..j + 4] == s
    requires forall k :: 0 <= k < 4 ==> D.IsHexDigit(s[k])
    requires j + 4 == |line| || !IsDigitIn(line[j + 4], 16)
    ensures DigitsEnd(line, j, 16) == j + 4
    ensures DigitsValue(line, j, j + 4, 16)
            == D.DigitValue(s[0]) * 0x1000 + D.DigitValue(s[1]) * 0x100 + D.DigitValue(s[2]) * 0x10 + D.DigitValue(s[3])
  {
    assert line[j] == s[0] && line[j + 1] == s[1] && line[j + 2] == s[2] && line[j + 3] == s[3];
    HexDigitIsDigit(s[0]);
    HexDigitIsDigit(s[1]);
    HexDigitIsDigit(s[2]);
    HexDigitIsDigit(s[3]);
    assert DigitsEnd(line, j + 3, 16) == DigitsEnd(line, j + 4, 16);
    assert DigitsEnd(line, j + 2, 16) == DigitsEnd(line, j + 3, 16);
    assert DigitsEnd(line, j + 1, 16) == DigitsEnd(line, j + 2, 16);
    assert DigitsValue(line, j, j + 1, 16) == D.DigitValue(s[0]);
    assert DigitsValue(line, j, j + 2, 16) == DigitsValue(line, j, j + 1, 16) * 16 + D.DigitValue(s[1]);
    assert DigitsValue(line, j, j + 3, 16) == DigitsValue(line, j, j + 2, 16) * 16 + D.DigitValue(s[2]);
    assert DigitsValue(line, j, j + 4, 16) == DigitsValue(line, j, j + 3, 16) * 16 + D.DigitValue(s[3]);
  }

  /** `strtol` at a digit that is not the `0` of a `0x` prefix reads the run of digits there. */
  lemma Strtol16Digits(line: Line, j: nat)
    requires j + 1 < |line| && IsDigitIn(line[j], 16) && line[j + 1] != 'X' && line[j + 1] != 'x'
    ensures Strtol16(line, j) == DigitsValue(line, j, DigitsEnd(line, j, 16), 16)
  {
    assert SkipSpaces(line, j) == j;
    assert Sign(line, j) == (j, 1);
  }

  /**
   * A word the disassembler prints with `%04X`, written after `#`, reads
   * back as the same word.
   */
  lemma {:induction false} ParseHexWord(op: Word, line: Line, i: nat)
    requires i + 5 <= |line| && line[i] == '#' && line[i + 1..i + 5] == D.Hex4(op)
    requires i + 5 == |line| || !IsDigitIn(line[i + 5], 16)
    ensures ParseInt(line, i) == Ok(op)
  {
    var s := D.Hex4(op);
    HexDigitIsDigit(s[0]);
    HexDigitIsDigit(s[1]);
    assert line[i + 1] == s[0] && line[i + 2] == s[1];
    ParseHash(line, i);
    Strtol16Digits(line, i + 1);
    HexRun(line, i + 1, s);
    D.Hex4RoundTrip(op);
  }

  // ---------------------------------------------------------------------------
  // Binary literals

  /** `n` binary characters for the low `n` bits of `v`, most significant first: `1` or `.`. */
  function BinText(v: nat, n: nat): (s: string)
    ensures |s| == n
    ensures forall k :: 0 <= k < n ==> s[k] == '1' || s[k] == '.'
  {
    if n == 0 then [] else BinText(v / 2, n - 1) + [if v % 2 == 1 then '1' else '.']
  }

  /** The `$` reader inverts `BinText`: it gives back the low `n` bits. */
  lemma {:induction false} BinaryValueOf(line: Line, i: nat, v: nat, n: nat)
    requires i + n <= |line| && line[i..i + n] == BinText(v, n)
    ensures BinaryValue(line, i, n) == v % Pow2(n)
  {
    if n > 0 {
      var t := BinText(v, n);
      assert BinText(v / 2, n - 1) == t[..n - 1];
      assert line[i..i + (n - 1)] == line[i..i + n][..n - 1];
      BinaryValueOf(line, i, v / 2, n - 1);
      assert CharAt(line, i + n - 1) == t[n - 1];
      HalfDiv(v, Pow2(n - 1));
    }
  }

  /** A byte written as `$` and eight binary characters reads back as the byte. */
  lemma {:induction false} ParseBinaryByte(b: Byte, line: Line, i: nat)
    requires i + 9 <= |line| && line[i] == '$' && line[i + 1..i + 9] == BinText(b, 8)
    ensures ParseInt(line, i) == Ok(b)
  {
    assert line[i + 1..i + 1 + 8] == BinText(b, 8);
    BinaryValueOf(line, i + 1, b, 8);
    assert Pow2(8) == 0x100 by { Pow2Values(); }
    assert BinaryValue(line, i + 1, 8) == b;
    ParseDollar(line, i);
  }
}
