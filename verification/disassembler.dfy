/**
 * The disassembler: an instruction word becomes a mnemonic line.
 *
 * The word is printed as four upper-case hex digits and matched against a
 * table of 44 patterns in order.  In a pattern, the letters X, Y, K and N
 * stand for any digit and every other character must match exactly.  The
 * first pattern that fits selects a mnemonic template; each placeholder
 * digit of the pattern is then copied, left to right, over the first
 * remaining occurrence of the same letter in the template.  A word that fits
 * no pattern is printed as its four hex digits.
 */
module Disassembler {
  import opened Bits
  import opened Results
  import opened Interpreter

  /** The characters `%X` prints. */
  predicate IsHexDigit(c: char)
  {
    '0' <= c <= '9' || 'A' <= c <= 'F'
  }

  /** The upper-case hex digit of a nibble. */
  function HexDigit(n: nat): (c: char)
    requires n < 0x10
    ensures IsHexDigit(c) && !IsPlaceholder(c)
  {
    if n < 10 then ('0' as int + n) as char else ('A' as int + n - 10) as char
  }

  /** The table has 44 rows; rows 35-43 are the Super-CHIP additions. */
  const TableSize: nat := 44

  /** The pattern of row `k`: one character per hex digit of the word. */
  function Pattern(k: nat): (p: string)
    requires k < TableSize
    ensures |p| == 4 && IsHexDigit(p[0])
  {
    match k
    case 0 => "00E0"
    case 1 => "00EE"
    case 2 => "0NNN"
    case 3 => "1NNN"
    case 4 => "2NNN"
    case 5 => "3XKK"
    case 6 => "4XKK"
    case 7 => "5XY0"
    case 8 => "6XKK"
    case 9 => "7XKK"
    case 10 => "8XY0"
    case 11 => "8XY1"
    case 12 => "8XY2"
    case 13 => "8XY3"
    case 14 => "8XY4"
    case 15 => "8XY5"
    case 16 => "8XY6"
    case 17 => "8XY7"
    case 18 => "8XYE"
    case 19 => "9XY0"
    case 20 => "ANNN"
    case 21 => "BNNN"
    case 22 => "CXKK"
    case 23 => "DXYN"
    case 24 => "EX9E"
    case 25 => "EXA1"
    case 26 => "FX07"
    case 27 => "FX0A"
    case 28 => "FX15"
    case 29 => "FX18"
    case 30 => "FX1E"
    case 31 => "FX29"
    case 32 => "FX33"
    case 33 => "FX55"
    case 34 => "FX65"
    case 35 => "00CN"
    case 36 => "00FB"
    case 37 => "00FC"
    case 38 => "00FD"
    case 39 => "00FE"
    case 40 => "00FF"
    case 41 => "FX30"
    case 42 => "FX75"
    case 43 => "FX85"
    case _ => assert false; ""
  }

  /** The mnemonic template of row `k`, in which the pattern's placeholder letters recur. */
  function Mnemonic(k: nat): (m: string)
    requires k < TableSize
    ensures |m| > 0
  {
    match k
    case 0 => "CLS"
    case 1 => "RET"
    case 2 => "SYS NNN"
    case 3 => "JP NNN"
    case 4 => "CALL NNN"
    case 5 => "SE VX, KK"
    case 6 => "SNE VX, KK"
    case 7 => "SE VX, VY"
    case 8 => "LD VX, KK"
    case 9 => "ADD VX, KK"
    case 10 => "LD VX, VY"
    case 11 => "OR VX, VY"
    case 12 => "AND VX, VY"
    case 13 => "XOR VX, VY"
    case 14 => "ADD VX, VY"
    case 15 => "SUB VX, VY"
    case 16 => "SHR VX"
    case 17 => "SUBN VX, VY"
    case 18 => "SHL VX"
    case 19 => "SNE VX, VY"
    case 20 => "LD I, NNN"
    case 21 => "JP V0, NNN"
    case 22 => "RND VX, KK"
    case 23 => "DRW VX, VY, N"
    case 24 => "SKP VX"
    case 25 => "SKNP VX"
    case 26 => "LD VX, DT"
    case 27 => "LD VX, K"
    case 28 => "LD DT, VX"
    case 29 => "LD ST, VX"
    case 30 => "ADD I, VX"
    case 31 => "LD F, VX"
    case 32 => "LD B, VX"
    case 33 => "LD [I], VX"
    case 34 => "LD VX, [I]"
    case 35 => "SCD N"
    case 36 => "SCR"
    case 37 => "SCL"
    case 38 => "EXIT"
    case 39 => "LOW"
    case 40 => "HIGH"
    case 41 => "LD HF, VX"
    case 42 => "LD R, VX"
    case 43 => "LD VX, R"
    case _ => assert false; ""
  }

  // ---------------------------------------------------------------------------
  // Hex rendering

  /** The `%04X` rendering of an instruction word. */
  function Hex4(op: Word): (s: string)
    ensures |s| == 4
    ensures forall i :: 0 <= i < 4 ==> IsHexDigit(s[i])
  {
    DecodeFields(op);
    [HexDigit(Family(op)), HexDigit(RegX(op)), HexDigit(RegY(op)), HexDigit(LowNibble(op))]
  }

  /** The value of an upper-case hex digit. */
  function DigitValue(c: char): (d: nat)
    requires IsHexDigit(c)
    ensures d < 0x10 && HexDigit(d) == c
  {
    if '0' <= c <= '9' then c as int - '0' as int else c as int - 'A' as int + 10
  }

  /** The four digits read back give the word they were printed from. */
  lemma Hex4RoundTrip(op: Word)
    ensures var s := Hex4(op);
            DigitValue(s[0]) * 0x1000 + DigitValue(s[1]) * 0x100 + DigitValue(s[2]) * 0x10 + DigitValue(s[3]) == op
  {
    var s := Hex4(op);
    DecodeFields(op);
    DigitOfHex(Family(op));
    DigitOfHex(RegX(op));
    DigitOfHex(RegY(op));
    DigitOfHex(LowNibble(op));
    assert DigitValue(s[0]) == Family(op) && DigitValue(s[1]) == RegX(op);
    assert DigitValue(s[2]) == RegY(op) && DigitValue(s[3]) == LowNibble(op);
  }

  /** Reading a printed nibble gives the nibble. */
  lemma DigitOfHex(n: nat)
    requires n < 0x10
    ensures DigitValue(HexDigit(n)) == n
  {
  }

  // ---------------------------------------------------------------------------
  // Pattern matching

  predicate IsPlaceholder(c: char)
  {
    c == 'X' || c == 'Y' || c == 'K' || c == 'N'
  }

  /** Reference definition: every digit position matches or is a placeholder. */
  predicate Fits(pattern: string, hex: string)
    requires |pattern| == 4 && |hex| == 4
  {
    forall i :: 0 <= i < 4 ==> pattern[i] == hex[i] || IsPlaceholder(pattern[i])
  }

  /** The inner matching loop: positions `i..3`, stopping at the first mismatch. */
  function MatchFrom(pattern: string, hex: string, i: nat): (r: bool)
    requires |pattern| == 4 && |hex| == 4 && i <= 4
    ensures r <==> forall j :: i <= j < 4 ==> pattern[j] == hex[j] || IsPlaceholder(pattern[j])
    decreases 4 - i
  {
    if i == 4 then true
    else if pattern[i] == hex[i] || IsPlaceholder(pattern[i]) then MatchFrom(pattern, hex, i + 1)
    else false
  }

  /** The outer loop: the first row at or after `t` whose pattern fits. */
  function FindTemplate(hex: string, t: nat): (r: Option<nat>)
    requires |hex| == 4 && t <= TableSize
    ensures r.Some? ==>
              && t <= r.value < TableSize
              && Fits(Pattern(r.value), hex)
              && forall j :: t <= j < r.value ==> !Fits(Pattern(j), hex)
    ensures r.None? ==> forall j :: t <= j < TableSize ==> !Fits(Pattern(j), hex)
    decreases TableSize - t
  {
    if t == TableSize then None
    else if MatchFrom(Pattern(t), hex, 0) then Some(t)
    else FindTemplate(hex, t + 1)
  }

  // ---------------------------------------------------------------------------
  // Filling in a template

  /** The scan of `replaceChar`: the first position at or after `i` holding `c`. */
  function FirstIndex(s: string, c: char, i: nat): (r: Option<nat>)
    requires i <= |s|
    ensures r.Some? ==> i <= r.value < |s| && s[r.value] == c && forall j :: i <= j < r.value ==> s[j] != c
    ensures r.None? ==> forall j :: i <= j < |s| ==> s[j] != c
    decreases |s| - i
  {
    if i == |s| then None
    else if s[i] == c then Some(i)
    else FirstIndex(s, c, i + 1)
  }

  /** Overwrites the first occurrence of `c` in `s` with `w`; no occurrence, no change. */
  function ReplaceFirst(s: string, c: char, w: char): (r: string)
    ensures |r| == |s|
    ensures forall k :: 0 <= k < |r| ==> r[k] == s[k] || s[k] == c
  {
    match FirstIndex(s, c, 0)
    case None => s
    case Some(k) => s[k := w]
  }

  /**
   * `ReplaceFirst` changes exactly the first occurrence of `c`, to `w`, and
   * keeps every other character.
   */
  lemma ReplaceFirstChanges(s: string, c: char, w: char)
    ensures forall k :: 0 <= k < |s| ==>
              ReplaceFirst(s, c, w)[k] == if s[k] == c && c !in s[..k] then w else s[k]
  {
    var r := ReplaceFirst(s, c, w);
    forall k | 0 <= k < |s| ensures r[k] == if s[k] == c && c !in s[..k] then w else s[k] {
      match FirstIndex(s, c, 0)
      case None =>
      case Some(f) =>
        if k < f {
          assert c !in s[..k];
        } else if k > f {
          assert s[..k][f] == c;
        } else {
          assert c !in s[..k];
        }
    }
  }

  /** Step `i` of the fill: a placeholder at pattern position `i` puts digit `i` of the word over its letter. */
  function Place(mnemonic: string, pattern: string, hex: string, i: nat): (r: string)
    requires |pattern| == 4 && |hex| == 4 && i < 4
    ensures |r| == |mnemonic|
    ensures forall k :: 0 <= k < |r| ==> r[k] == mnemonic[k] || IsPlaceholder(mnemonic[k])
  {
    if IsPlaceholder(pattern[i]) then ReplaceFirst(mnemonic, pattern[i], hex[i]) else mnemonic
  }

  /** The fill: positions 0 to 3 of the pattern, in order. */
  function Fill(mnemonic: string, pattern: string, hex: string): (r: string)
    requires |pattern| == 4 && |hex| == 4
    ensures |r| == |mnemonic|
    ensures forall k :: 0 <= k < |r| ==> r[k] == mnemonic[k] || IsPlaceholder(mnemonic[k])
  {
    Place(Place(Place(Place(mnemonic, pattern, hex, 0), pattern, hex, 1), pattern, hex, 2), pattern, hex, 3)
  }

  // ---------------------------------------------------------------------------
  // The fill, stated by occurrence counts

  /** The number of occurrences of `c` in `s`. */
  function Count(s: string, c: char): (n: nat)
    ensures n <= |s|
  {
    if |s| == 0 then 0 else Count(s[..|s| - 1], c) + if s[|s| - 1] == c then 1 else 0
  }

  /** Extending a prefix by one character adds one exactly when it is `c`. */
  lemma CountStep(s: string, c: char, k: nat)
    requires k < |s|
    ensures Count(s[..k + 1], c) == Count(s[..k], c) + if s[k] == c then 1 else 0
  {
    assert s[..k + 1][..k] == s[..k];
  }

  /** Prefix counts grow, and strictly past an occurrence of `c`. */
  lemma {:induction false} CountGrows(s: string, c: char, i: nat, j: nat)
    requires i <= j <= |s|
    ensures Count(s[..i], c) <= Count(s[..j], c)
    ensures i < j && s[i] == c ==> Count(s[..i], c) < Count(s[..j], c)
    decreases j - i
  {
    if i < j {
      CountGrows(s, c, i, j - 1);
      CountStep(s, c, j - 1);
      if i == j - 1 {
        CountStep(s, c, i);
      }
    }
  }

  /** Two occurrences of `c` with the same number of `c`s before them are the same one. */
  lemma CountSeparates(s: string, c: char, k1: nat, k2: nat)
    requires k1 < |s| && k2 < |s| && s[k1] == c && s[k2] == c
    requires Count(s[..k1], c) == Count(s[..k2], c)
    ensures k1 == k2
  {
    if k1 < k2 {
      CountGrows(s, c, k1, k2);
    } else if k2 < k1 {
      CountGrows(s, c, k2, k1);
    }
  }

  /** Below a prefix holding more than `q` occurrences of `c` lies the one preceded by exactly `q`. */
  lemma {:induction false} CountReaches(s: string, c: char, q: nat, k0: nat)
    requires k0 <= |s| && q < Count(s[..k0], c)
    ensures exists k :: 0 <= k < k0 && s[k] == c && Count(s[..k], c) == q
  {
    assert k0 > 0;
    CountStep(s, c, k0 - 1);
    if q < Count(s[..k0 - 1], c) {
      CountReaches(s, c, q, k0 - 1);
    } else {
      assert s[k0 - 1] == c && Count(s[..k0 - 1], c) == q;
    }
  }

  /**
   * The state of the fill after pattern positions `..n`: the j-th occurrence
   * of a placeholder letter in the mnemonic holds the digit under the j-th
   * occurrence of that letter in `pattern[..n]`, when there is one, and its
   * letter otherwise; other characters are kept.
   */
  predicate FilledUpTo(s: string, mnemonic: string, pattern: string, hex: string, n: nat)
    requires |pattern| == 4 && |hex| == 4 && n <= 4
  {
    && |s| == |mnemonic|
    && (forall k :: 0 <= k < |s| ==> s[k] == mnemonic[k] || !IsPlaceholder(s[k]))
    && (forall k, i ::
          (&& 0 <= k < |s| && 0 <= i < n && IsPlaceholder(mnemonic[k]) && pattern[i] == mnemonic[k]
           && Count(pattern[..i], mnemonic[k]) == Count(mnemonic[..k], mnemonic[k]))
          ==> s[k] == hex[i])
    && (forall k ::
          (&& 0 <= k < |s| && IsPlaceholder(mnemonic[k])
           && Count(mnemonic[..k], mnemonic[k]) < Count(pattern[..n], mnemonic[k]))
          ==> !IsPlaceholder(s[k]))
    && (forall k ::
          (&& 0 <= k < |s|
           && (!IsPlaceholder(mnemonic[k]) || Count(pattern[..n], mnemonic[k]) <= Count(mnemonic[..k], mnemonic[k])))
          ==> s[k] == mnemonic[k])
  }

  /** A placeholder position that is not a placeholder letter in the pattern leaves the fill as it is. */
  lemma PlaceSkips(s: string, mnemonic: string, pattern: string, hex: string, n: nat)
    requires |pattern| == 4 && |hex| == 4 && n < 4 && !IsPlaceholder(pattern[n])
    requires FilledUpTo(s, mnemonic, pattern, hex, n)
    ensures FilledUpTo(Place(s, pattern, hex, n), mnemonic, pattern, hex, n + 1)
  {
    forall d: char | IsPlaceholder(d) ensures Count(pattern[..n + 1], d) == Count(pattern[..n], d) {
      CountStep(pattern, d, n);
    }
  }

  /** Placing digit `n` when no occurrence of its letter is left: nothing changes. */
  lemma PlaceNone(s: string, mnemonic: string, pattern: string, hex: string, n: nat)
    requires |pattern| == 4 && |hex| == 4 && n < 4 && IsPlaceholder(pattern[n])
    requires FilledUpTo(s, mnemonic, pattern, hex, n)
    requires FirstIndex(s, pattern[n], 0).None?
    ensures FilledUpTo(Place(s, pattern, hex, n), mnemonic, pattern, hex, n + 1)
  {
    var c := pattern[n];
    var q := Count(pattern[..n], c);
    forall d: char | IsPlaceholder(d)
      ensures Count(pattern[..n + 1], d) == Count(pattern[..n], d) + if d == c then 1 else 0
    {
      CountStep(pattern, d, n);
    }
    assert forall k :: 0 <= k < |s| && mnemonic[k] == c ==> Count(mnemonic[..k], c) < q;
  }

  /** Placing digit `n` over the first remaining occurrence `k0` of its letter. */
  lemma PlaceHit(s: string, mnemonic: string, pattern: string, hex: string, n: nat, k0: nat)
    requires |pattern| == 4 && |hex| == 4 && n < 4 && IsPlaceholder(pattern[n])
    requires forall i :: 0 <= i < 4 ==> !IsPlaceholder(hex[i])
    requires FilledUpTo(s, mnemonic, pattern, hex, n)
    requires FirstIndex(s, pattern[n], 0) == Some(k0)
    ensures FilledUpTo(Place(s, pattern, hex, n), mnemonic, pattern, hex, n + 1)
  {
    var c := pattern[n];
    var q := Count(pattern[..n], c);
    forall d: char | IsPlaceholder(d)
      ensures Count(pattern[..n + 1], d) == Count(pattern[..n], d) + if d == c then 1 else 0
    {
      CountStep(pattern, d, n);
    }
    assert mnemonic[k0] == c;
    if q < Count(mnemonic[..k0], c) {
      CountReaches(mnemonic, c, q, k0);
    }
    assert Count(mnemonic[..k0], c) == q;
    var s' := s[k0 := hex[n]];
    assert Place(s, pattern, hex, n) == s';
    forall k, i |
        && 0 <= k < |s| && 0 <= i < n + 1 && IsPlaceholder(mnemonic[k]) && pattern[i] == mnemonic[k]
        && Count(pattern[..i], mnemonic[k]) == Count(mnemonic[..k], mnemonic[k])
      ensures s'[k] == hex[i]
    {
      if k != k0 && i == n {
        CountSeparates(mnemonic, c, k, k0);
      }
    }
    forall k |
        && 0 <= k < |s| && IsPlaceholder(mnemonic[k])
        && Count(mnemonic[..k], mnemonic[k]) < Count(pattern[..n + 1], mnemonic[k])
      ensures !IsPlaceholder(s'[k])
    {
      if k != k0 && mnemonic[k] == c && Count(mnemonic[..k], c) == q {
        CountSeparates(mnemonic, c, k, k0);
      }
    }
  }

  /** One step of the fill keeps the invariant. */
  lemma PlaceKeeps(s: string, mnemonic: string, pattern: string, hex: string, n: nat)
    requires |pattern| == 4 && |hex| == 4 && n < 4
    requires forall i :: 0 <= i < 4 ==> !IsPlaceholder(hex[i])
    requires FilledUpTo(s, mnemonic, pattern, hex, n)
    ensures FilledUpTo(Place(s, pattern, hex, n), mnemonic, pattern, hex, n + 1)
  {
    if !IsPlaceholder(pattern[n]) {
      PlaceSkips(s, mnemonic, pattern, hex, n);
    } else {
      match FirstIndex(s, pattern[n], 0)
      case None => PlaceNone(s, mnemonic, pattern, hex, n);
      case Some(k0) => PlaceHit(s, mnemonic, pattern, hex, n, k0);
    }
  }

  /**
   * The fill in closed form: the j-th occurrence of a placeholder letter in
   * the mnemonic receives the digit under the j-th occurrence of the same
   * letter in the pattern, so repeated letters such as NNN and KK take the
   * word's digits in order; occurrences beyond the pattern's keep their
   * letter, and every other character is kept.
   */
  lemma FillInOrder(mnemonic: string, pattern: string, hex: string)
    requires |pattern| == 4 && |hex| == 4
    requires forall i :: 0 <= i < 4 ==> !IsPlaceholder(hex[i])
    ensures var r := Fill(mnemonic, pattern, hex);
            && |r| == |mnemonic|
            && (forall k, i ::
                  (&& 0 <= k < |r| && 0 <= i < 4 && IsPlaceholder(mnemonic[k]) && pattern[i] == mnemonic[k]
                   && Count(pattern[..i], mnemonic[k]) == Count(mnemonic[..k], mnemonic[k]))
                  ==> r[k] == hex[i])
            && (forall k ::
                  (&& 0 <= k < |r|
                   && (!IsPlaceholder(mnemonic[k]) || Count(pattern, mnemonic[k]) <= Count(mnemonic[..k], mnemonic[k])))
                  ==> r[k] == mnemonic[k])
  {
    var s0 := mnemonic;
    assert FilledUpTo(s0, mnemonic, pattern, hex, 0);
    PlaceKeeps(s0, mnemonic, pattern, hex, 0);
    var s1 := Place(s0, pattern, hex, 0);
    PlaceKeeps(s1, mnemonic, pattern, hex, 1);
    var s2 := Place(s1, pattern, hex, 1);
    PlaceKeeps(s2, mnemonic, pattern, hex, 2);
    var s3 := Place(s2, pattern, hex, 2);
    PlaceKeeps(s3, mnemonic, pattern, hex, 3);
    assert pattern[..4] == pattern;
  }

  /**
   * The disassembly of one instruction word: a word that fits no template
   * is printed as its four hex digits; otherwise the text is the first
   * fitting template's mnemonic in which the j-th occurrence of each
   * placeholder letter carries the word's digit under the j-th occurrence of
   * that letter in the pattern, and every other character is the mnemonic's.
   */
  function Disassemble(op: Word): (text: string)
    ensures |text| > 0
    ensures FindTemplate(Hex4(op), 0).None? ==> text == Hex4(op)
    ensures FindTemplate(Hex4(op), 0).Some? ==>
              var m, p, hex := Mnemonic(FindTemplate(Hex4(op), 0).value), Pattern(FindTemplate(Hex4(op), 0).value), Hex4(op);
              && |text| == |m|
              && (forall k, i ::
                    (&& 0 <= k < |text| && 0 <= i < 4 && IsPlaceholder(m[k]) && p[i] == m[k]
                     && Count(p[..i], m[k]) == Count(m[..k], m[k]))
                    ==> text[k] == hex[i])
              && (forall k ::
                    (&& 0 <= k < |text|
                     && (!IsPlaceholder(m[k]) || Count(p, m[k]) <= Count(m[..k], m[k])))
                    ==> text[k] == m[k])
  {
    var hex := Hex4(op);
    match FindTemplate(hex, 0)
    case Some(k) =>
      FillInOrder(Mnemonic(k), Pattern(k), hex);
      Fill(Mnemonic(k), Pattern(k), hex)
    case None => hex
  }
}
