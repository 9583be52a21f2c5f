/**
 * Properties of `Chip8AssProcessLine` and the two passes.  How far a line
 * moves pc, and whether it reports an error, depend on its text alone; the
 * functions below compute both without the assembler's state, and the
 * lemmas show the state-threading code agrees with them.  Because the
 * first pass and the second pass both start at 0x200, they then emit the
 * same number of bytes and report the same lines.
 */
module AsmLineFacts {
  import opened Bits
  import opened Results
  import opened AsmText
  import opened AsmEncode
  import opened AsmLine
  import Machine

  // ---------------------------------------------------------------------------
  // Reading a line without the state

  /** The first quote at or after `p`. */
  function QuoteFrom(line: Line, p: nat): (r: Option<nat>)
    ensures r.Some? ==> p <= r.value < |line| && line[r.value] == '\''
    decreases |line| - p
  {
    if p >= |line| then None
    else if line[p] == '\'' then Some(p)
    else QuoteFrom(line, p + 1)
  }

  /**
   * The bytes a statement takes: a `DA` string its length counted from the
   * opening character, rounded down to even; `DB` one; `DW` and every
   * instruction two.
   */
  function StatementSize(line: Line, opcode: nat, k: nat): nat
  {
    if opcode == OpDa then
      match QuoteFrom(line, k + 1)
      case None => 0
      case Some(q) => (q - k) / 2 * 2
    else if opcode == OpDb then 1
    else 2
  }

  /** Where the operands of the statement at `j` start. */
  function OperandStart(line: Line, j: nat): nat
    requires j <= |line|
  {
    SkipSpaces(line, SkipWord(line, j))
  }

  /** The bytes the mnemonic at `j` and its operands take; none for an unknown mnemonic. */
  function MnemonicSize(line: Line, j: nat): nat
    requires j <= |line|
  {
    match FindOpcode(line, j, 0)
    case None => 0
    case Some(opcode) => StatementSize(line, opcode, OperandStart(line, j))
  }

  /** How far a line moves pc, read from its text alone. */
  function LineSize(text: Line): nat
  {
    var line := Uppercase(text);
    match MnemonicStart(line)
    case None => 0
    case Some(j) => MnemonicSize(line, j)
  }

  /** A line returns true unless it has a mnemonic the table does not know. */
  predicate LineKnown(text: Line)
  {
    var line := Uppercase(text);
    MnemonicStart(line).None? || FindOpcode(line, MnemonicStart(line).value, 0).Some?
  }

  /** Memory outside `[from, to)` is the same in both. */
  predicate SameOutside(before: seq<Byte>, after: seq<Byte>, from: nat, to: nat)
  {
    |after| == |before| && forall a :: 0 <= a < |before| && !(from <= a < to) ==> after[a] == before[a]
  }

  /** The word stored big-endian at `a`, as the interpreter's fetch reads it. */
  function WordAt(memory: seq<Byte>, a: nat): int
    requires a + 1 < |memory|
  {
    memory[a] as int * 0x100 + memory[a + 1] as int
  }

  // ---------------------------------------------------------------------------
  // Statements

  /** The copy loop stops at the first quote. */
  lemma {:induction false} QuoteFound(line: Line, p: nat, q: nat)
    requires p <= q < |line| && line[q] == '\''
    requires forall k :: p <= k < q ==> line[k] != '\''
    ensures QuoteFrom(line, p) == Some(q)
    decreases q - p
  {
    if p < q {
      QuoteFound(line, p + 1, q);
    }
  }

  /**
   * `DA` stores the characters between the opening one and the first quote
   * at consecutive addresses, moves pc by its statement size, and writes
   * nothing else: when the count ends even, the byte pc skips keeps what
   * memory held there.
   */
  lemma StringAdvance(st: AsmState, line: Line, k: nat)
    requires Valid(st) && StoreString(st, line, k).Ok?
    ensures var r := StoreString(st, line, k).value;
            && r.pc == st.pc + StatementSize(line, OpDa, k)
            && SameOutside(st.memory, r.memory, st.pc, r.pc)
    ensures QuoteFrom(line, k + 1).Some?
    ensures var r := StoreString(st, line, k).value;
            var q := QuoteFrom(line, k + 1).value;
            && (forall t :: k + 1 <= t < q ==> r.memory[st.pc + (t - k - 1)] == CharByte(line[t]))
            && SameOutside(st.memory, r.memory, st.pc, st.pc + (q - k - 1))
            && ((q - k) % 2 == 0 ==> r.pc == st.pc + (q - k) && r.memory[r.pc - 1] == st.memory[r.pc - 1])
  {
    var (copied, q) := CopyQuoted(st, line, k + 1).value;
    QuoteFound(line, k + 1, q);
  }

  /** A statement moves pc by its size and changes memory only over the bytes it covers. */
  lemma StatementAdvance(st: AsmState, opcode: nat, line: Line, k: nat)
    requires Valid(st) && k <= |line| && Statement(st, opcode, line, k).Ok?
    ensures var r := Statement(st, opcode, line, k).value;
            && r.pc == st.pc + StatementSize(line, opcode, k)
            && SameOutside(st.memory, r.memory, st.pc, r.pc)
  {
    if opcode == OpDa {
      StringAdvance(st, line, k);
    }
  }

  /** The rest of a line moves pc by the mnemonic's size and returns whether the mnemonic is known. */
  lemma InstructionAdvance(st: AsmState, line: Line, j: nat)
    requires Valid(st) && j <= |line| && !IsBlank(line, j) && Instruction(st, line, j).Ok?
    ensures var r := Instruction(st, line, j).value;
            && r.state.pc == st.pc + MnemonicSize(line, j)
            && r.ok == FindOpcode(line, j, 0).Some?
            && SameOutside(st.memory, r.state.memory, st.pc, r.state.pc)
  {
    match FindOpcode(line, j, 0)
    case None =>
    case Some(opcode) =>
      StatementAdvance(st, opcode, line, OperandStart(line, j));
  }

  /** An instruction stores its word, high byte first, and moves pc past it. */
  lemma InstructionWord(st: AsmState, line: Line, j: nat, opcode: nat)
    requires Valid(st) && j <= |line| && !IsBlank(line, j) && Instruction(st, line, j).Ok?
    requires FindOpcode(line, j, 0) == Some(opcode) && opcode < OpDa
    ensures var r := Instruction(st, line, j).value;
            var code := BuildCode(opcode, line, OperandStart(line, j), st.labels);
            && code.Ok?
            && r.state.pc == st.pc + 2
            && WordAt(r.state.memory, st.pc) == code.value
  {
    var w := BuildCode(opcode, line, OperandStart(line, j), st.labels).value;
    assert w / 0x100 * 0x100 + w % 0x100 == w;
  }

  /** `DW` stores its number's low 16 bits high byte first, `DB` its low 8 bits. */
  lemma InstructionData(st: AsmState, line: Line, j: nat, opcode: nat)
    requires Valid(st) && j <= |line| && !IsBlank(line, j) && Instruction(st, line, j).Ok?
    requires FindOpcode(line, j, 0) == Some(opcode) && (opcode == OpDw || opcode == OpDb)
    ensures var r := Instruction(st, line, j).value;
            var v := ParseInt(line, OperandStart(line, j));
            && v.Ok?
            && (opcode == OpDw ==> r.state.pc == st.pc + 2 && WordAt(r.state.memory, st.pc) == Wrap16(v.value))
            && (opcode == OpDb ==> r.state.pc == st.pc + 1 && r.state.memory[st.pc] == Wrap8(v.value))
  {
    var v := ParseInt(line, OperandStart(line, j)).value;
    assert Wrap16(v) / 0x100 * 0x100 + Wrap16(v) % 0x100 == Wrap16(v);
  }

  // ---------------------------------------------------------------------------
  // Lines

  /**
   * A line moves pc by `LineSize`, returns `LineKnown`, and changes memory
   * only over the bytes it covers.
   */
  lemma LineAdvance(st: AsmState, text: Line, define: bool)
    requires Valid(st) && ProcessLine(st, text, define).Ok?
    ensures var r := ProcessLine(st, text, define).value;
            && r.state.pc == st.pc + LineSize(text)
            && r.ok == LineKnown(text)
            && SameOutside(st.memory, r.state.memory, st.pc, r.state.pc)
  {
    var line := Uppercase(text);
    if MnemonicStart(line).Some? {
      var labelled := LabelPart(st, line, define).value.0;
      InstructionAdvance(labelled, line, MnemonicStart(line).value);
    }
  }

  /** A blank line or a comment stores nothing, defines nothing and returns true. */
  lemma {:induction false} BlankLine(st: AsmState, text: Line, define: bool)
    requires Valid(st)
    requires var j := SkipSpaces(text, 0); j == |text| || text[j] == ';'
    ensures ProcessLine(st, text, define) == Ok(LineResult(st, true))
  {
    var line := Uppercase(text);
    var j := SkipSpaces(text, 0);
    SameSpaces(text, 0);
    assert j < |text| ==> line[j] == ToUpper(text[j]);
  }

  /** Upper-casing keeps the spaces where they are. */
  lemma {:induction false} SameSpaces(text: Line, i: nat)
    requires i <= |text|
    ensures SkipSpaces(Uppercase(text), i) == SkipSpaces(text, i)
    decreases |text| - i
  {
    if i < |text| {
      assert Uppercase(text)[i] == ToUpper(text[i]);
      if IsSpace(text[i]) {
        SameSpaces(text, i + 1);
      }
    }
  }

  /** A mnemonic the table does not know stores nothing and returns false. */
  lemma UnknownMnemonic(st: AsmState, text: Line, define: bool)
    requires Valid(st) && ProcessLine(st, text, define).Ok? && !LineKnown(text)
    ensures var r := ProcessLine(st, text, define).value;
            && !r.ok && r.state.pc == st.pc && r.state.memory == st.memory
  {
    LineAdvance(st, text, define);
    var r := ProcessLine(st, text, define).value;
    assert forall a :: 0 <= a < |st.memory| ==> r.state.memory[a] == st.memory[a];
  }

  /** A label entry for `name` at `pc`, or none. */
  function Bound(name: Option<string>, pc: nat): seq<Label>
  {
    match name
    case None => []
    case Some(s) => [Label(s, pc)]
  }

  /** `NAME:` is recorded at the current pc on the first pass and ignored on the second. */
  lemma {:induction false} LineLabel(st: AsmState, text: Line, define: bool)
    requires Valid(st) && ProcessLine(st, text, define).Ok?
    ensures ProcessLine(st, text, define).value.state.labels
            == st.labels + if define then Bound(LabelOf(Uppercase(text)), st.pc) else []
  {
    var labelled := LabelPart(st, Uppercase(text), define).value.0;
    assert labelled.labels == st.labels + if define then Bound(LabelOf(Uppercase(text)), st.pc) else [];
  }

  /** An instruction line stores the word `Chip8AssBuildCode` gives, high byte first, at the old pc. */
  lemma InstructionStored(st: AsmState, text: Line, define: bool, opcode: nat)
    requires Valid(st) && ProcessLine(st, text, define).Ok?
    requires var line := Uppercase(text);
             MnemonicStart(line).Some? && FindOpcode(line, MnemonicStart(line).value, 0) == Some(opcode) && opcode < OpDa
    ensures var r := ProcessLine(st, text, define).value;
            var line := Uppercase(text);
            var code := BuildCode(opcode, line, OperandStart(line, MnemonicStart(line).value), r.state.labels);
            && code.Ok?
            && r.state.pc == st.pc + 2
            && WordAt(r.state.memory, st.pc) == code.value
  {
    var line := Uppercase(text);
    var labelled := LabelPart(st, line, define).value.0;
    InstructionWord(labelled, line, MnemonicStart(line).value, opcode);
  }

  /** `DW n` stores the low 16 bits of the number, high byte first; `DB n` its low 8 bits. */
  lemma DataStored(st: AsmState, text: Line, define: bool, opcode: nat)
    requires Valid(st) && ProcessLine(st, text, define).Ok?
    requires var line := Uppercase(text);
             MnemonicStart(line).Some? && FindOpcode(line, MnemonicStart(line).value, 0) == Some(opcode)
    requires opcode == OpDw || opcode == OpDb
    ensures var r := ProcessLine(st, text, define).value;
            var line := Uppercase(text);
            var v := ParseInt(line, OperandStart(line, MnemonicStart(line).value));
            && v.Ok?
            && (opcode == OpDw ==> r.state.pc == st.pc + 2 && WordAt(r.state.memory, st.pc) == Wrap16(v.value))
            && (opcode == OpDb ==> r.state.pc == st.pc + 1 && r.state.memory[st.pc] == Wrap8(v.value))
  {
    var line := Uppercase(text);
    var labelled := LabelPart(st, line, define).value.0;
    InstructionData(labelled, line, MnemonicStart(line).value, opcode);
  }

  // ---------------------------------------------------------------------------
  // Passes

  /** What a pass needs to know of one line, read from its text alone. */
  datatype LineInfo = LineInfo(size: nat, known: bool, name: Option<string>)

  function Summary(text: Line): LineInfo
  {
    LineInfo(LineSize(text), LineKnown(text), LabelOf(Uppercase(text)))
  }

  function Summaries(lines: seq<Line>): (r: seq<LineInfo>)
    ensures |r| == |lines| && forall k :: 0 <= k < |lines| ==> r[k] == Summary(lines[k])
  {
    seq(|lines|, k requires 0 <= k < |lines| => Summary(lines[k]))
  }

  /** The bytes lines `n..` take. */
  function TotalSize(infos: seq<LineInfo>, n: nat): nat
    requires n <= |infos|
    decreases |infos| - n
  {
    if n == |infos| then 0 else infos[n].size + TotalSize(infos, n + 1)
  }

  /** The 1-based numbers of the lines from `n` on that return false, as the error report lists them. */
  function Reported(infos: seq<LineInfo>, n: nat): seq<nat>
    requires n <= |infos|
    decreases |infos| - n
  {
    if n == |infos| then [] else (if infos[n].known then [] else [n + 1]) + Reported(infos, n + 1)
  }

  /** The labels lines `n..` define on a pass that reaches line `n` at `pc`, each bound to the pc of its line. */
  function LabelsFrom(infos: seq<LineInfo>, n: nat, pc: nat): seq<Label>
    requires n <= |infos|
    decreases |infos| - n
  {
    if n == |infos| then [] else Bound(infos[n].name, pc) + LabelsFrom(infos, n + 1, pc + infos[n].size)
  }

  /** A pass moves pc by the size of its lines and reports the ones that return false, whatever the labels. */
  lemma {:induction false} PassAdvance(st: AsmState, lines: seq<Line>, define: bool, n: nat)
    requires Valid(st) && n <= |lines| && Pass(st, lines, define, n).Ok?
    ensures var r := Pass(st, lines, define, n).value;
            r.state.pc == st.pc + TotalSize(Summaries(lines), n) && r.failed == Reported(Summaries(lines), n)
    decreases |lines| - n
  {
    if n < |lines| {
      var line := ProcessLine(st, lines[n], define).value;
      LineAdvance(st, lines[n], define);
      assert Summaries(lines)[n] == Summary(lines[n]);
      PassAdvance(line.state, lines, define, n + 1);
    }
  }

  /** The report from `n` on lists exactly the numbers of the lines there that return false. */
  lemma {:induction false} ReportedLines(infos: seq<LineInfo>, n: nat)
    requires n <= |infos|
    ensures forall e :: e in Reported(infos, n) <==> n < e <= |infos| && !infos[e - 1].known
    decreases |infos| - n
  {
    if n < |infos| {
      ReportedLines(infos, n + 1);
      var head := if infos[n].known then [] else [n + 1];
      assert Reported(infos, n) == head + Reported(infos, n + 1);
    }
  }

  /** The report lists its numbers in increasing order, all past `n`. */
  lemma {:induction false} ReportedIncreasing(infos: seq<LineInfo>, n: nat)
    requires n <= |infos|
    ensures forall a :: 0 <= a < |Reported(infos, n)| ==> Reported(infos, n)[a] > n
    ensures forall a, b :: 0 <= a < b < |Reported(infos, n)| ==> Reported(infos, n)[a] < Reported(infos, n)[b]
    decreases |infos| - n
  {
    if n < |infos| {
      ReportedIncreasing(infos, n + 1);
      var rest := Reported(infos, n + 1);
      var head: seq<nat> := if infos[n].known then [] else [n + 1];
      var u := Reported(infos, n);
      assert u == head + rest;
      forall a | 0 <= a < |u| ensures u[a] > n {
        if a >= |head| {
          assert u[a] == rest[a - |head|];
        }
      }
      forall a, b | 0 <= a < b < |u| ensures u[a] < u[b] {
        assert u[b] == rest[b - |head|];
        if a >= |head| {
          assert u[a] == rest[a - |head|];
        }
      }
    }
  }

  /** One line's step of `LabelsFrom`. */
  lemma {:induction false} LabelsFromStep(infos: seq<LineInfo>, n: nat, pc: nat, next: nat)
    requires n < |infos| && next == pc + infos[n].size
    ensures LabelsFrom(infos, n, pc) == Bound(infos[n].name, pc) + LabelsFrom(infos, n + 1, next)
  {
  }

  lemma AppendAssoc<T>(a: seq<T>, b: seq<T>, c: seq<T>)
    ensures a + (b + c) == (a + b) + c
  {
  }

  /**
   * The first pass appends every label of the program, in order, bound to
   * the address its line is assembled at; the second pass adds none.
   */
  lemma {:induction false} PassLabels(st: AsmState, lines: seq<Line>, define: bool, n: nat)
    requires Valid(st) && n <= |lines| && Pass(st, lines, define, n).Ok?
    ensures Pass(st, lines, define, n).value.state.labels
            == st.labels + if define then LabelsFrom(Summaries(lines), n, st.pc) else []
    decreases |lines| - n
  {
    if n < |lines| {
      var infos := Summaries(lines);
      var line := ProcessLine(st, lines[n], define).value;
      LineLabel(st, lines[n], define);
      LineAdvance(st, lines[n], define);
      assert infos[n] == Summary(lines[n]);
      PassLabels(line.state, lines, define, n + 1);
      LabelsFromStep(infos, n, st.pc, line.state.pc);
      AppendAssoc(st.labels, Bound(infos[n].name, st.pc), LabelsFrom(infos, n + 1, line.state.pc));
    }
  }

  /**
   * `Chip8AssProcessFile`'s two passes.  Both start at 0x200 and the second
   * defines no labels, so the image the second pass leaves is exactly as
   * long as the first pass measured, the lines reported are those that
   * return false, and the second pass resolves every label, forward
   * references included, against the table the first pass built: each
   * label bound to the address of its line.
   */
  lemma Assembled(lines: seq<Line>)
    requires Assemble(lines).Ok?
    ensures var first := Pass(Initial(), lines, true, 0);
            var infos := Summaries(lines);
            && first.Ok?
            && first.value.state.pc == Machine.ProgramStart + TotalSize(infos, 0)
            && first.value.state.labels == LabelsFrom(infos, 0, Machine.ProgramStart)
            && |Assemble(lines).value.image| == TotalSize(infos, 0)
            && Assemble(lines).value.failed == Reported(infos, 0)
            && var second := Pass(first.value.state.(pc := Machine.ProgramStart), lines, false, 0);
               second.Ok? && second.value.state.labels == first.value.state.labels
  {
    var first := Pass(Initial(), lines, true, 0).value;
    var start := first.state.(pc := Machine.ProgramStart);
    PassAdvance(Initial(), lines, true, 0);
    PassLabels(Initial(), lines, true, 0);
    PassAdvance(start, lines, false, 0);
    PassLabels(start, lines, false, 0);
  }
}
