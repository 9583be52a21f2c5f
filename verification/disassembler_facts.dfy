/**
 * Properties of the disassembler's table and of the text it produces.
 */
module DisassemblerFacts {
  import opened Bits
  import opened Results
  import opened Interpreter
  import opened Disassembler

  // ---------------------------------------------------------------------------
  // Where each instruction family sits in the table

  lemma ZeroRows()
    ensures forall k :: 0 <= k < TableSize && Pattern(k)[0] == '0' ==> k <= 2 || 35 <= k <= 40
    ensures forall k :: 35 <= k <= 40 ==> Pattern(k)[0] == '0'
  {
  }

  lemma OneRows()
    ensures forall k :: 0 <= k < TableSize && Pattern(k)[0] == '1' ==> k == 3
  {
  }

  lemma FiveRows()
    ensures forall k :: 0 <= k < TableSize && Pattern(k)[0] == '5' ==> k == 7 && Pattern(k)[3] == '0'
  {
  }

  lemma EightRows()
    ensures forall k :: 0 <= k < TableSize && Pattern(k)[0] == '8' ==>
              && 10 <= k <= 18
              && ('0' <= Pattern(k)[3] <= '7' || Pattern(k)[3] == 'E')
              && (k < 13 ==> '0' <= Pattern(k)[3] <= '2')
  {
  }

  lemma DRows()
    ensures forall k :: 0 <= k < TableSize && Pattern(k)[0] == 'D' ==> k == 23
  {
  }

  /** The rows the text lemmas below spell out. */
  lemma Row2()
    ensures Pattern(2) == "0NNN"
  {
  }

  lemma Row3()
    ensures Pattern(3) == "1NNN" && Mnemonic(3) == "JP NNN"
  {
  }

  lemma Row13()
    ensures Pattern(13) == "8XY3" && Mnemonic(13) == "XOR VX, VY"
  {
  }

  lemma Row23()
    ensures Pattern(23) == "DXYN" && Mnemonic(23) == "DRW VX, VY, N"
  {
  }

  /** Which words the rows spelled out above fit. */
  lemma FitsSys(hex: string)
    requires |hex| == 4 && hex[0] == '0'
    ensures Fits(Pattern(2), hex)
  {
    Row2();
  }

  lemma FitsJump(hex: string)
    requires |hex| == 4 && hex[0] == '1'
    ensures Fits(Pattern(3), hex)
  {
    Row3();
  }

  lemma FitsXor(hex: string)
    requires |hex| == 4 && hex[0] == '8' && hex[3] == '3'
    ensures Fits(Pattern(13), hex)
  {
    Row13();
  }

  lemma FitsDraw(hex: string)
    requires |hex| == 4 && hex[0] == 'D'
    ensures Fits(Pattern(23), hex)
  {
    Row23();
  }

  /**
   * The Super-CHIP screen patterns 00CN, 00FB, 00FC, 00FD, 00FE and 00FF
   * (rows 35-40) are never selected: every word they fit also fits 0NNN
   * (row 2), which comes first.
   */
  lemma SuperChipScreenShadowed(hex: string)
    requires |hex| == 4
    ensures var found := FindTemplate(hex, 0);
            found.Some? ==> !(35 <= found.value <= 40)
  {
    ZeroRows();
    forall b | 35 <= b <= 40 && Fits(Pattern(b), hex) ensures Fits(Pattern(2), hex) {
      assert hex[0] == '0';
      FitsSys(hex);
    }
  }

  /** Words of families 0-4, 6, 7 and A-D always have a mnemonic. */
  lemma FamiliesAlwaysNamed(op: Word)
    requires Family(op) in {0x0, 0x1, 0x2, 0x3, 0x4, 0x6, 0x7, 0xA, 0xB, 0xC, 0xD}
    ensures FindTemplate(Hex4(op), 0).Some?
  {
    var hex := Hex4(op);
    var f := Family(op);
    if f == 0x0 {
      FitsSys(hex);
    } else if f == 0x1 {
      assert Fits(Pattern(3), hex);
    } else if f == 0x2 {
      assert Fits(Pattern(4), hex);
    } else if f == 0x3 {
      assert Fits(Pattern(5), hex);
    } else if f == 0x4 {
      assert Fits(Pattern(6), hex);
    } else if f == 0x6 {
      assert Fits(Pattern(8), hex);
    } else if f == 0x7 {
      assert Fits(Pattern(9), hex);
    } else if f == 0xA {
      assert Fits(Pattern(20), hex);
    } else if f == 0xB {
      assert Fits(Pattern(21), hex);
    } else if f == 0xC {
      assert Fits(Pattern(22), hex);
    } else {
      assert Fits(Pattern(23), hex);
    }
  }

  /** 8XY8-8XYD and 8XYF fit no row. */
  lemma AluGapsUnmatched(hex: string)
    requires |hex| == 4 && hex[0] == '8' && ('8' <= hex[3] <= 'D' || hex[3] == 'F')
    ensures FindTemplate(hex, 0) == None
  {
    EightRows();
    forall k | 0 <= k < TableSize ensures !Fits(Pattern(k), hex) {
      if Pattern(k)[0] == '8' {
        assert Pattern(k)[3] != hex[3];
      }
    }
  }

  /** 5XY1-5XYF fit no row. */
  lemma SkipGapsUnmatched(hex: string)
    requires |hex| == 4 && hex[0] == '5' && hex[3] != '0'
    ensures FindTemplate(hex, 0) == None
  {
    FiveRows();
    forall k | 0 <= k < TableSize ensures !Fits(Pattern(k), hex) {
      if Pattern(k)[0] == '5' {
        assert Pattern(k)[3] != hex[3];
      }
    }
  }

  /** 8XY8-8XYD, 8XYF and 5XY1-5XYF print as their four hex digits. */
  lemma GapsFallBack(op: Word)
    requires || (Family(op) == 0x8 && (0x8 <= LowNibble(op) <= 0xD || LowNibble(op) == 0xF))
             || (Family(op) == 0x5 && LowNibble(op) != 0)
    ensures Disassemble(op) == Hex4(op)
  {
    if Family(op) == 0x8 {
      AluGapsUnmatched(Hex4(op));
    } else {
      SkipGapsUnmatched(Hex4(op));
    }
  }

  // ---------------------------------------------------------------------------
  // Filling in templates

  /** Where the first occurrence of `c` is known, `ReplaceFirst` overwrites it. */
  lemma ReplaceAt(s: string, c: char, w: char, k: nat)
    requires k < |s| && s[k] == c
    requires forall j :: 0 <= j < k ==> s[j] != c
    ensures ReplaceFirst(s, c, w) == s[k := w]
  {
    var found := FirstIndex(s, c, 0);
    assert found == Some(k) by {
      if found.Some? && found.value != k {
        assert found.value > k;
      }
    }
  }

  /** The word fits row `r` and no earlier row, so row `r` is chosen. */
  lemma Chosen(hex: string, r: nat)
    requires |hex| == 4 && r < TableSize
    requires Fits(Pattern(r), hex)
    requires forall j :: 0 <= j < r ==> !Fits(Pattern(j), hex)
    ensures FindTemplate(hex, 0) == Some(r)
  {
  }

  /** A word whose leading digit only row `r` carries selects row `r`, when it fits. */
  lemma OnlyRow(hex: string, r: nat)
    requires |hex| == 4 && r < TableSize && Fits(Pattern(r), hex)
    requires forall k :: 0 <= k < TableSize && Pattern(k)[0] == hex[0] ==> k == r
    ensures FindTemplate(hex, 0) == Some(r)
  {
    forall j | 0 <= j < r ensures !Fits(Pattern(j), hex) {
      assert Pattern(j)[0] != hex[0] && !IsPlaceholder(Pattern(j)[0]);
    }
    Chosen(hex, r);
  }

  /** One placeholder step of the fill, when its letter first occurs at `k`. */
  lemma PlaceAt(m: string, p: string, hex: string, i: nat, k: nat)
    requires |p| == 4 && |hex| == 4 && i < 4 && IsPlaceholder(p[i])
    requires k < |m| && m[k] == p[i] && forall j :: 0 <= j < k ==> m[j] != p[i]
    ensures Place(m, p, hex, i) == m[k := hex[i]]
  {
    ReplaceAt(m, p[i], hex[i], k);
  }

  /** 1NNN: the three address digits replace NNN in order. */
  lemma FillJump(hex: string)
    requires |hex| == 4 && forall i :: 1 <= i < 4 ==> !IsPlaceholder(hex[i])
    ensures Fill("JP NNN", "1NNN", hex) == "JP " + hex[1..]
  {
    var p, m0 := "1NNN", "JP NNN";
    PlaceAt(m0, p, hex, 1, 3);
    var m1 := m0[3 := hex[1]];
    PlaceAt(m1, p, hex, 2, 4);
    var m2 := m1[4 := hex[2]];
    PlaceAt(m2, p, hex, 3, 5);
    assert m2[5 := hex[3]] == "JP " + hex[1..];
  }

  /**
   * 8XY3: the register digit X lands on the first X of the mnemonic, which
   * is the X of XOR, so 0x8123 reads "1OR VX, V2".
   */
  lemma FillXor(hex: string)
    requires |hex| == 4 && hex[3] == '3' && forall i :: 1 <= i < 4 ==> !IsPlaceholder(hex[i])
    ensures Fill("XOR VX, VY", "8XY3", hex) == [hex[1]] + "OR VX, V" + [hex[2]]
  {
    var p, m0 := "8XY3", "XOR VX, VY";
    PlaceAt(m0, p, hex, 1, 0);
    var m1 := m0[0 := hex[1]];
    PlaceAt(m1, p, hex, 2, 9);
    assert m1[9 := hex[2]] == [hex[1]] + "OR VX, V" + [hex[2]];
  }

  /** DXYN: the register digits and the height replace X, Y and N. */
  lemma FillDraw(hex: string)
    requires |hex| == 4 && forall i :: 1 <= i < 4 ==> !IsPlaceholder(hex[i])
    ensures Fill("DRW VX, VY, N", "DXYN", hex) == "DRW V" + [hex[1]] + ", V" + [hex[2]] + ", " + [hex[3]]
  {
    var p, m0 := "DXYN", "DRW VX, VY, N";
    PlaceAt(m0, p, hex, 1, 5);
    var m1 := m0[5 := hex[1]];
    PlaceAt(m1, p, hex, 2, 9);
    var m2 := m1[9 := hex[2]];
    PlaceAt(m2, p, hex, 3, 12);
    assert m2[12 := hex[3]] == "DRW V" + [hex[1]] + ", V" + [hex[2]] + ", " + [hex[3]];
  }

  /** Once the row is known, the text is that row's mnemonic filled in. */
  lemma DisassembleRow(op: Word, r: nat)
    requires r < TableSize && FindTemplate(Hex4(op), 0) == Some(r)
    ensures Disassemble(op) == Fill(Mnemonic(r), Pattern(r), Hex4(op))
  {
  }

  /** Every word starting with 1 selects 1NNN. */
  lemma JumpRow(hex: string)
    requires |hex| == 4 && hex[0] == '1'
    ensures FindTemplate(hex, 0) == Some(3)
  {
    OneRows();
    FitsJump(hex);
    OnlyRow(hex, 3);
  }

  /** Every word 8XY3 selects 8XY3, after 8XY0, 8XY1 and 8XY2 fail on the last digit. */
  lemma XorRow(hex: string)
    requires |hex| == 4 && hex[0] == '8' && hex[3] == '3'
    ensures FindTemplate(hex, 0) == Some(13)
  {
    EightRows();
    FitsXor(hex);
    forall j | 0 <= j < 13 ensures !Fits(Pattern(j), hex) {
      if Pattern(j)[0] == '8' {
        assert Pattern(j)[3] != hex[3] && !IsPlaceholder(Pattern(j)[3]);
      } else {
        assert Pattern(j)[0] != hex[0] && !IsPlaceholder(Pattern(j)[0]);
      }
    }
    Chosen(hex, 13);
  }

  /** Every word starting with D selects DXYN. */
  lemma DrawRow(hex: string)
    requires |hex| == 4 && hex[0] == 'D'
    ensures FindTemplate(hex, 0) == Some(23)
  {
    DRows();
    FitsDraw(hex);
    OnlyRow(hex, 23);
  }

  /** 1NNN prints as JP followed by the three address digits. */
  lemma JumpText(op: Word)
    requires Family(op) == 0x1
    ensures Disassemble(op) == "JP " + Hex4(op)[1..]
  {
    var hex := Hex4(op);
    JumpRow(hex);
    DisassembleRow(op, 3);
    Row3();
    FillJump(hex);
  }

  /** 8XY3 prints with its leading X overwritten by the X register digit. */
  lemma XorText(op: Word)
    requires Family(op) == 0x8 && LowNibble(op) == 0x3
    ensures Disassemble(op) == [Hex4(op)[1]] + "OR VX, V" + [Hex4(op)[2]]
  {
    var hex := Hex4(op);
    XorRow(hex);
    DisassembleRow(op, 13);
    Row13();
    FillXor(hex);
  }

  /** DXYN prints both registers and the height. */
  lemma DrawText(op: Word)
    requires Family(op) == 0xD
    ensures Disassemble(op) == "DRW V" + [Hex4(op)[1]] + ", V" + [Hex4(op)[2]] + ", " + [Hex4(op)[3]]
  {
    var hex := Hex4(op);
    DrawRow(hex);
    DisassembleRow(op, 23);
    Row23();
    FillDraw(hex);
  }

  // ---------------------------------------------------------------------------
  // The byte-immediate rows 3XKK, 4XKK, 6XKK, 7XKK and CXKK

  lemma ByteRows()
    ensures forall k :: 0 <= k < TableSize && Pattern(k)[0] == '3' ==> k == 5
    ensures forall k :: 0 <= k < TableSize && Pattern(k)[0] == '4' ==> k == 6
    ensures forall k :: 0 <= k < TableSize && Pattern(k)[0] == '6' ==> k == 8
    ensures forall k :: 0 <= k < TableSize && Pattern(k)[0] == '7' ==> k == 9
    ensures forall k :: 0 <= k < TableSize && Pattern(k)[0] == 'C' ==> k == 22
    ensures Pattern(5) == "3XKK" && Mnemonic(5) == "SE VX, KK"
    ensures Pattern(6) == "4XKK" && Mnemonic(6) == "SNE VX, KK"
    ensures Pattern(8) == "6XKK" && Mnemonic(8) == "LD VX, KK"
    ensures Pattern(9) == "7XKK" && Mnemonic(9) == "ADD VX, KK"
    ensures Pattern(22) == "CXKK" && Mnemonic(22) == "RND VX, KK"
  {
  }

  /** XKK: the register digit replaces X and the two byte digits replace KK in order. */
  lemma FillByte(name: string, p: string, hex: string)
    requires |p| == 4 && !IsPlaceholder(p[0]) && p[1..] == "XKK"
    requires |hex| == 4 && forall i :: 1 <= i < 4 ==> !IsPlaceholder(hex[i])
    requires forall j :: 0 <= j < |name| ==> name[j] != 'X' && name[j] != 'K'
    ensures Fill(name + " VX, KK", p, hex) == name + " V" + [hex[1]] + ", " + hex[2..]
  {
    var n := |name|;
    var m0 := name + " VX, KK";
    assert p[1] == 'X' && p[2] == 'K' && p[3] == 'K';
    assert Place(m0, p, hex, 0) == m0;
    PlaceAt(m0, p, hex, 1, n + 2);
    var m1 := m0[n + 2 := hex[1]];
    PlaceAt(m1, p, hex, 2, n + 5);
    var m2 := m1[n + 5 := hex[2]];
    PlaceAt(m2, p, hex, 3, n + 6);
    var m3 := m2[n + 6 := hex[3]];
    assert m3 == name + " V" + [hex[1]] + ", " + hex[2..];
  }

  /** A byte-immediate row that is the only one with the word's leading digit. */
  lemma ByteRowText(op: Word, r: nat, name: string)
    requires r < TableSize && Pattern(r)[0] == Hex4(op)[0] && Pattern(r)[1..] == "XKK"
    requires Mnemonic(r) == name + " VX, KK"
    requires forall k :: 0 <= k < TableSize && Pattern(k)[0] == Hex4(op)[0] ==> k == r
    requires forall j :: 0 <= j < |name| ==> name[j] != 'X' && name[j] != 'K'
    ensures Disassemble(op) == name + " V" + [Hex4(op)[1]] + ", " + Hex4(op)[2..]
  {
    var hex := Hex4(op);
    assert Fits(Pattern(r), hex);
    OnlyRow(hex, r);
    DisassembleRow(op, r);
    FillByte(name, Pattern(r), hex);
  }

  /**
   * 3XKK, 4XKK, 6XKK, 7XKK and CXKK print their mnemonic, the register digit
   * and the two digits of the byte, in order.
   */
  lemma ByteText(op: Word)
    requires Family(op) in {0x3, 0x4, 0x6, 0x7, 0xC}
    ensures var hex := Hex4(op);
            var name := if Family(op) == 0x3 then "SE"
                        else if Family(op) == 0x4 then "SNE"
                        else if Family(op) == 0x6 then "LD"
                        else if Family(op) == 0x7 then "ADD"
                        else "RND";
            Disassemble(op) == name + " V" + [hex[1]] + ", " + hex[2..]
  {
    var f := Family(op);
    ByteRows();
    if f == 0x3 {
      ByteRowText(op, 5, "SE");
    } else if f == 0x4 {
      ByteRowText(op, 6, "SNE");
    } else if f == 0x6 {
      ByteRowText(op, 8, "LD");
    } else if f == 0x7 {
      ByteRowText(op, 9, "ADD");
    } else {
      ByteRowText(op, 22, "RND");
    }
  }
}
