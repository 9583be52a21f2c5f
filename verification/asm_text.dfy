/**
 * The character-level helpers of the assembler: the line as a C string,
 * `isspace`, `toupper`, prefix comparison (`strncmp` against a table
 * entry), the number parser and the parameter matcher.
 *
 * A line is the text `fgets` left in the buffer, up to its terminating NUL.
 * Reading the terminator itself is allowed and yields NUL; reading any
 * further is a read of stale buffer contents and is reported as
 * `ReadPastEnd`.
 */
module AsmText {
  import opened Bits
  import opened Results

  const Nul: char := '\0'

  /** A C string: no NUL before its end. */
  type Line = s: string | forall i :: 0 <= i < |s| ==> s[i] != '\0'

  /** What the C code would do that is undefined or out of bounds. */
  datatype AsmFault =
    | ReadPastEnd      // a read beyond the line's terminating NUL
    | MemoryFull       // a write (or read) at memory[pc] with pc >= 4096
    | LabelTableFull   // a 257th label

  /** Character `i` of the C string, the terminator at `|line|`. */
  function CharAt(line: Line, i: nat): (c: char)
    requires i <= |line|
    ensures c == Nul <==> i == |line|
  {
    if i < |line| then line[i] else Nul
  }

  /** `isspace` in the C locale. */
  predicate IsSpace(c: char)
  {
    c == ' ' || c == '\t' || c == '\n' || c == '\U{0B}' || c == '\U{0C}' || c == '\r'
  }

  predicate IsLower(c: char)
  {
    'a' <= c <= 'z'
  }

  /** `toupper` in the C locale: only `a`-`z` change. */
  function ToUpper(c: char): (r: char)
    ensures IsLower(c) ==> r as int == c as int - 32 && 'A' <= r <= 'Z'
    ensures !IsLower(c) ==> r == c
  {
    if IsLower(c) then (c as int - 32) as char else c
  }

  /** `Chip8AssUppercase`: `toupper` on every character before the terminator. */
  function Uppercase(line: Line): (r: Line)
    ensures |r| == |line|
    ensures forall i :: 0 <= i < |line| ==> r[i] == ToUpper(line[i])
  {
    if line == [] then [] else [ToUpper(line[0])] + Uppercase(line[1..])
  }

  /** The whitespace-skipping loops: the first position at or after `i` that is not a space. */
  function SkipSpaces(line: Line, i: nat): (j: nat)
    requires i <= |line|
    ensures i <= j <= |line|
    ensures forall k :: i <= k < j ==> IsSpace(line[k])
    ensures j == |line| || !IsSpace(line[j])
    decreases |line| - i
  {
    if i < |line| && IsSpace(line[i]) then SkipSpaces(line, i + 1) else i
  }

  /** The scan past a word: the first position at or after `i` that is a space or the end. */
  function SkipWord(line: Line, i: nat): (j: nat)
    requires i <= |line|
    ensures i <= j <= |line|
    ensures forall k :: i <= k < j ==> !IsSpace(line[k])
    ensures j == |line| || IsSpace(line[j])
    decreases |line| - i
  {
    if i < |line| && !IsSpace(line[i]) then SkipWord(line, i + 1) else i
  }

  /**
   * `strncmp(line + i, word, strlen(word)) == 0` for a word without NUL: the
   * comparison stops at the first difference, so it never reads past the
   * line's terminator.
   */
  predicate StartsAt(line: Line, i: nat, word: string)
    requires i <= |line|
  {
    i + |word| <= |line| && line[i..i + |word|] == word
  }

  // ---------------------------------------------------------------------------
  // Numbers

  predicate IsDecimalDigit(c: char)
  {
    '0' <= c <= '9'
  }

  predicate IsHexLetter(c: char)
  {
    'A' <= c <= 'F' || 'a' <= c <= 'f'
  }

  /** A digit in the given base (10 or 16). */
  predicate IsDigitIn(c: char, base: nat)
  {
    IsDecimalDigit(c) || (base == 16 && IsHexLetter(c))
  }

  function DigitVal(c: char, base: nat): (d: nat)
    requires IsDigitIn(c, base)
    ensures d < base || (base < 10 && d < 10)
  {
    if IsDecimalDigit(c) then c as int - '0' as int
    else if 'A' <= c <= 'F' then c as int - 'A' as int + 10
    else c as int - 'a' as int + 10
  }

  /** The end of the run of digits starting at `i`. */
  function DigitsEnd(line: Line, i: nat, base: nat): (j: nat)
    requires i <= |line|
    ensures i <= j <= |line|
    ensures forall k :: i <= k < j ==> IsDigitIn(line[k], base)
    ensures j == |line| || !IsDigitIn(line[j], base)
    decreases |line| - i
  {
    if i < |line| && IsDigitIn(line[i], base) then DigitsEnd(line, i + 1, base) else i
  }

  /** The value of the digits `line[i..j]`, most significant first. */
  function DigitsValue(line: Line, i: nat, j: nat, base: nat): (v: nat)
    requires i <= j <= |line|
    requires forall k :: i <= k < j ==> IsDigitIn(line[k], base)
    decreases j - i
  {
    if j == i then 0 else DigitsValue(line, i, j - 1, base) * base + DigitVal(line[j - 1], base)
  }

  /** An optional sign; the position after it and the factor it stands for. */
  function Sign(line: Line, i: nat): (r: (nat, int))
    requires i <= |line|
    ensures i <= r.0 <= i + 1 && r.0 <= |line| && (r.1 == 1 || r.1 == -1)
  {
    if i < |line| && line[i] == '-' then (i + 1, -1)
    else if i < |line| && line[i] == '+' then (i + 1, 1)
    else (i, 1)
  }

  /** `atoi(line + i)`: spaces, an optional sign, decimal digits; 0 when there are none. */
  function Atoi(line: Line, i: nat): int
    requires i <= |line|
  {
    var j := SkipSpaces(line, i);
    var (k, sign) := Sign(line, j);
    sign * DigitsValue(line, k, DigitsEnd(line, k, 10), 10)
  }

  /**
   * `strtol(line + i, NULL, 16)`: spaces, an optional sign, an optional `0x`
   * or `0X` prefix when a hex digit follows it, hex digits.
   */
  function Strtol16(line: Line, i: nat): int
    requires i <= |line|
  {
    var j := SkipSpaces(line, i);
    var (k, sign) := Sign(line, j);
    var start :=
      if k + 2 < |line| && line[k] == '0' && (line[k + 1] == 'X' || line[k + 1] == 'x') && IsDigitIn(line[k + 2], 16)
      then k + 2 else k;
    sign * DigitsValue(line, start, DigitsEnd(line, start, 16), 16)
  }

  /** One character of a `$` binary literal: `.` and `0` are 0, anything else (the terminator too) is 1. */
  function BinaryDigit(c: char): (b: nat)
    ensures b < 2
  {
    if c == '.' || c == '0' then 0 else 1
  }

  /** The `n` binary characters starting at `i`, most significant first. */
  function BinaryValue(line: Line, i: nat, n: nat): (v: nat)
    requires i + n <= |line| + 1
    ensures v < Pow2(n)
  {
    if n == 0 then 0 else BinaryValue(line, i, n - 1) * 2 + BinaryDigit(CharAt(line, i + n - 1))
  }

  /**
   * `Chip8AssParseInt`: after leading spaces, `#` introduces hex, `$` exactly
   * eight binary characters, and anything else is decimal.  A `$` with fewer
   * than seven characters after it reads past the terminator.
   */
  function ParseInt(line: Line, i: nat): (r: Result<int, AsmFault>)
    requires i <= |line|
    ensures r.Err? <==> (var j := SkipSpaces(line, i); j < |line| && line[j] == '$' && |line| < j + 8)
    ensures r.Ok? && CharAt(line, SkipSpaces(line, i)) == '$' ==> 0 <= r.value < 0x100
    ensures r.Err? ==> r.error == ReadPastEnd
  {
    var j := SkipSpaces(line, i);
    if j < |line| && line[j] == '#' then Ok(Strtol16(line, j + 1))
    else if j < |line| && line[j] == '$' then
      if j + 8 <= |line| then Ok(Pow2Values(); BinaryValue(line, j + 1, 8)) else Err(ReadPastEnd)
    else Ok(Atoi(line, j))
  }

  // ---------------------------------------------------------------------------
  // Parameters

  /** `opcodeParamsCount` and the `OPCODE_PARAM_*` codes. */
  const ParamCount: nat := 25
  const ParamV0: nat := 0
  const ParamVF: nat := 15
  const ParamI: nat := 16
  const ParamDT: nat := 17
  const ParamDS: nat := 18
  const ParamB: nat := 19
  const ParamIndirect: nat := 20   // [I]
  const ParamHF: nat := 21
  const ParamR: nat := 22
  const ParamK: nat := 23
  const ParamF: nat := 24
  /** What `Chip8AssGetV` returns when no parameter matches. */
  const ParamNull: nat := 99

  /** The `opcodePerams` table. */
  function ParamName(p: nat): (s: string)
    requires p < ParamCount
    ensures 1 <= |s| <= 3
  {
    match p
    case 0 => "V0"
    case 1 => "V1"
    case 2 => "V2"
    case 3 => "V3"
    case 4 => "V4"
    case 5 => "V5"
    case 6 => "V6"
    case 7 => "V7"
    case 8 => "V8"
    case 9 => "V9"
    case 10 => "VA"
    case 11 => "VB"
    case 12 => "VC"
    case 13 => "VD"
    case 14 => "VE"
    case 15 => "VF"
    case 16 => "I"
    case 17 => "DT"
    case 18 => "DS"
    case 19 => "B"
    case 20 => "[I]"
    case 21 => "HF"
    case 22 => "R"
    case 23 => "K"
    case _ => "F"
  }

  /** The matching loop of `Chip8AssGetV`: the first parameter at or after `p` that prefixes the text at `i`. */
  function FindParam(line: Line, i: nat, p: nat): (r: Option<nat>)
    requires i <= |line| && p <= ParamCount
    ensures r.Some? ==>
              && p <= r.value < ParamCount
              && StartsAt(line, i, ParamName(r.value))
              && forall q :: p <= q < r.value ==> !StartsAt(line, i, ParamName(q))
    ensures r.None? ==> forall q :: p <= q < ParamCount ==> !StartsAt(line, i, ParamName(q))
    decreases ParamCount - p
  {
    if p == ParamCount then None
    else if StartsAt(line, i, ParamName(p)) then Some(p)
    else FindParam(line, i, p + 1)
  }

  /** A parameter code and the position `Chip8AssGetV` leaves the line pointer at. */
  datatype Scan = Scan(code: nat, next: nat)

  /**
   * `Chip8AssGetV`: on a match, skip the parameter, one more character
   * whatever it is, and the spaces after it; otherwise `ParamNull` and the
   * pointer stays.  Skipping the terminator leaves the pointer past it, and
   * the space test then reads past the end.
   */
  function GetV(line: Line, i: nat): (r: Result<Scan, AsmFault>)
    requires i <= |line|
    ensures r.Ok? ==> r.value.next <= |line|
    ensures r.Ok? && r.value.code == ParamNull ==> r.value.next == i && FindParam(line, i, 0).None?
    ensures r.Ok? && r.value.code != ParamNull ==>
              && r.value.code < ParamCount
              && FindParam(line, i, 0) == Some(r.value.code)
              && i + |ParamName(r.value.code)| + 1 <= |line|
              && r.value.next == SkipSpaces(line, i + |ParamName(r.value.code)| + 1)
    ensures r.Err? <==> (var f := FindParam(line, i, 0); f.Some? && i + |ParamName(f.value)| == |line|)
    ensures r.Err? ==> r.error == ReadPastEnd
  {
    match FindParam(line, i, 0)
    case None => Ok(Scan(ParamNull, i))
    case Some(p) =>
      var after := i + |ParamName(p)| + 1;
      if after <= |line| then Ok(Scan(p, SkipSpaces(line, after))) else Err(ReadPastEnd)
  }
}
