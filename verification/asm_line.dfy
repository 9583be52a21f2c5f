/**
 * `Chip8AssProcessLine` and the two passes of `Chip8AssProcessFile`.
 *
 * The assembler's globals (the 4096-byte `memory`, `pc` and the label table
 * `addressPointers`) are the explicit state `AsmState`, threaded through
 * every line.  Opening, reading and writing files is left to the caller: a
 * program is the sequence of lines `fgets` returns, and the result is the
 * bytes `fwrite` would write together with the line numbers the first pass
 * reports as errors.
 */
module AsmLine {
  import opened Bits
  import opened Results
  import opened AsmText
  import opened AsmEncode
  import Machine

  datatype AsmState = AsmState(memory: seq<Byte>, pc: nat, labels: seq<Label>)

  /** The memory array's size, pc between the load address and the end, at most 256 labels. */
  predicate Valid(st: AsmState)
  {
    && |st.memory| == Machine.MemorySize
    && Machine.ProgramStart <= st.pc <= Machine.MemorySize
    && |st.labels| <= LabelCapacity
  }

  /** The globals at program start: zeroed memory, pc at 0x200, no labels. */
  function Initial(): (st: AsmState)
    ensures Valid(st) && st.pc == Machine.ProgramStart && st.labels == []
  {
    AsmState(seq(Machine.MemorySize, _ => 0), Machine.ProgramStart, [])
  }

  /** `memory[pc++] = b`. */
  function Emit(st: AsmState, b: Byte): (r: Result<AsmState, AsmFault>)
    requires Valid(st)
    ensures r.Ok? <==> st.pc < Machine.MemorySize
    ensures r.Err? ==> r.error == MemoryFull
    ensures r.Ok? ==> Valid(r.value) && r.value == st.(memory := st.memory[st.pc := b], pc := st.pc + 1)
  {
    if st.pc < Machine.MemorySize then Ok(st.(memory := st.memory[st.pc := b], pc := st.pc + 1))
    else Err(MemoryFull)
  }

  /** The two stores of an instruction or `DW`: high byte, then low byte. */
  function EmitWord(st: AsmState, w: Word): (r: Result<AsmState, AsmFault>)
    requires Valid(st)
    ensures r.Ok? <==> st.pc + 2 <= Machine.MemorySize
    ensures r.Err? ==> r.error == MemoryFull
    ensures r.Ok? ==>
              && Valid(r.value)
              && r.value.pc == st.pc + 2
              && r.value.labels == st.labels
              && r.value.memory == st.memory[st.pc := w / 0x100][st.pc + 1 := w % 0x100]
  {
    var hi :- Emit(st, w / 0x100);
    Emit(hi, w % 0x100)
  }

  /** `(unsigned char)c`. */
  function CharByte(c: char): Byte
  {
    Wrap8(c as int)
  }

  // ---------------------------------------------------------------------------
  // Labels

  /** The longest label name the scan accepts is one less than this. */
  const LabelScan: nat := 25

  /**
   * The label test: a `:` among the first 25 characters at `i`, before any
   * space or the terminator.  Gives the name's length.
   */
  function LabelEnd(line: Line, i: nat, k: nat): (r: Option<nat>)
    requires k <= LabelScan && i + k <= |line|
    ensures r.Some? ==>
              && k <= r.value < LabelScan
              && i + r.value < |line|
              && line[i + r.value] == ':'
              && forall q :: i + k <= q < i + r.value ==> line[q] != ':' && !IsSpace(line[q])
    decreases LabelScan - k
  {
    if k == LabelScan || i + k == |line| || IsSpace(line[i + k]) then None
    else if line[i + k] == ':' then Some(k)
    else LabelEnd(line, i, k + 1)
  }

  /**
   * The label part of a line: skip `NAME:` if there is one and, on the first
   * pass, record NAME at the current pc.  Gives the position after the colon.
   */
  function DefineLabel(st: AsmState, line: Line, i: nat, define: bool): (r: Result<(AsmState, nat), AsmFault>)
    requires Valid(st) && i <= |line|
    ensures r.Err? ==> r.error == LabelTableFull && define && LabelEnd(line, i, 0).Some?
    ensures r.Ok? ==> Valid(r.value.0) && r.value.0.pc == st.pc && r.value.0.memory == st.memory && i <= r.value.1 <= |line|
    ensures r.Ok? && LabelEnd(line, i, 0).None? ==> r.value == (st, i)
    ensures r.Ok? && LabelEnd(line, i, 0).Some? ==>
              var k := LabelEnd(line, i, 0).value;
              && r.value.1 == i + k + 1
              && r.value.0.labels == if define then st.labels + [Label(line[i..i + k], st.pc)] else st.labels
  {
    match LabelEnd(line, i, 0)
    case None => Ok((st, i))
    case Some(k) =>
      if !define then Ok((st, i + k + 1))
      else if |st.labels| == LabelCapacity then Err(LabelTableFull)
      else Ok((st.(labels := st.labels + [Label(line[i..i + k], st.pc)]), i + k + 1))
  }

  // ---------------------------------------------------------------------------
  // Data directives

  /**
   * The `DA` copy loop from position `p`: every character up to the next
   * `'` is stored.  There is no end test, so a missing quote runs past the
   * terminator.  Gives the state and the quote's position.
   */
  function CopyQuoted(st: AsmState, line: Line, p: nat): (r: Result<(AsmState, nat), AsmFault>)
    requires Valid(st)
    ensures r.Ok? ==>
              && Valid(r.value.0)
              && p <= r.value.1 < |line| && line[r.value.1] == '\''
              && r.value.0.pc == st.pc + (r.value.1 - p)
              && r.value.0.labels == st.labels
              && (forall q :: p <= q < r.value.1 ==> line[q] != '\'' && r.value.0.memory[st.pc + (q - p)] == CharByte(line[q]))
              && (forall a :: 0 <= a < |st.memory| && !(st.pc <= a < r.value.0.pc) ==> r.value.0.memory[a] == st.memory[a])
    ensures r.Err? ==> r.error != LabelTableFull
    decreases |line| + 1 - p
  {
    if p > |line| then Err(ReadPastEnd)
    else if CharAt(line, p) == '\'' then Ok((st, p))
    else
      var next :- Emit(st, CharByte(CharAt(line, p)));
      CopyQuoted(next, line, p + 1)
  }

  /**
   * `DA 'text'`: the opening character is skipped unread, the text is
   * stored, and when the count `p` of the C loop ends even, pc skips one
   * more byte.  The padding statement compares instead of assigning, so
   * that byte is read and not written.
   */
  function StoreString(st: AsmState, line: Line, k: nat): (r: Result<AsmState, AsmFault>)
    requires Valid(st)
    ensures r.Ok? ==> Valid(r.value) && r.value.labels == st.labels && r.value.pc >= st.pc
    ensures r.Ok? ==> (r.value.pc - st.pc) % 2 == 0
    ensures r.Err? ==> r.error != LabelTableFull
  {
    var (copied, q) :- CopyQuoted(st, line, k + 1);
    if (q - k) % 2 == 0 then
      if copied.pc < Machine.MemorySize then Ok(copied.(pc := copied.pc + 1)) else Err(MemoryFull)
    else Ok(copied)
  }

  /** What a recognised mnemonic stores, the operands starting at `k`. */
  function Statement(st: AsmState, opcode: nat, line: Line, k: nat): (r: Result<AsmState, AsmFault>)
    requires Valid(st) && k <= |line|
    ensures r.Ok? ==> Valid(r.value) && r.value.labels == st.labels && r.value.pc >= st.pc
    ensures r.Err? ==> r.error != LabelTableFull
  {
    if opcode == OpDa then StoreString(st, line, k)
    else if opcode == OpDw then
      var v :- ParseInt(line, k);
      EmitWord(st, Wrap16(v))
    else if opcode == OpDb then
      var v :- ParseInt(line, k);
      Emit(st, Wrap8(v))
    else
      var code :- BuildCode(opcode, line, k, st.labels);
      EmitWord(st, code)
  }

  // ---------------------------------------------------------------------------
  // Lines

  /** The state after a line and the line's return value. */
  datatype LineResult = LineResult(state: AsmState, ok: bool)

  /** A blank line or a comment, once spaces are skipped. */
  predicate IsBlank(line: Line, i: nat)
    requires i <= |line|
  {
    i == |line| || line[i] == ';'
  }

  /** The rest of a line after its label: blank, an unknown mnemonic, or a statement. */
  function Instruction(st: AsmState, line: Line, j: nat): (r: Result<LineResult, AsmFault>)
    requires Valid(st) && j <= |line| && !IsBlank(line, j)
    ensures r.Ok? ==> Valid(r.value.state) && r.value.state.labels == st.labels && r.value.state.pc >= st.pc
    ensures r.Err? ==> r.error != LabelTableFull
  {
    match FindOpcode(line, j, 0)
    case None => Ok(LineResult(st, false))
    case Some(opcode) =>
      var k := SkipSpaces(line, SkipWord(line, j));
      var stored :- Statement(st, opcode, line, k);
      Ok(LineResult(stored, true))
  }

  /** Where the mnemonic of an upper-cased line starts once spaces and a label are skipped; nothing for a blank or comment rest. */
  function MnemonicStart(line: Line): (r: Option<nat>)
    ensures r.Some? ==> r.value < |line| && !IsBlank(line, r.value)
  {
    var i := SkipSpaces(line, 0);
    if IsBlank(line, i) then None
    else
      var after := match LabelEnd(line, i, 0) case None => i case Some(k) => i + k + 1;
      var j := SkipSpaces(line, after);
      if IsBlank(line, j) then None else Some(j)
  }

  /** The name a line defines: the upper-cased text before its colon. */
  function LabelOf(line: Line): Option<string>
  {
    var i := SkipSpaces(line, 0);
    if IsBlank(line, i) then None
    else match LabelEnd(line, i, 0) case None => None case Some(k) => Some(line[i..i + k])
  }

  /**
   * The label half of `Chip8AssProcessLine`: skip spaces, handle an optional
   * label, skip spaces again.  Gives the state and where the mnemonic
   * starts, or nothing when the rest is blank or a comment.
   */
  function LabelPart(st: AsmState, line: Line, define: bool): (r: Result<(AsmState, Option<nat>), AsmFault>)
    requires Valid(st)
    ensures r.Err? ==> r.error == LabelTableFull && define
    ensures r.Ok? ==> Valid(r.value.0) && r.value.0.pc == st.pc && r.value.0.memory == st.memory
    ensures r.Ok? ==> r.value.1 == MnemonicStart(line)
    ensures r.Ok? && define && LabelOf(line).Some? ==> r.value.0.labels == st.labels + [Label(LabelOf(line).value, st.pc)]
    ensures r.Ok? && (!define || LabelOf(line).None?) ==> r.value.0.labels == st.labels
  {
    var i := SkipSpaces(line, 0);
    if IsBlank(line, i) then Ok((st, None))
    else
      var (labelled, after) :- DefineLabel(st, line, i, define);
      var j := SkipSpaces(line, after);
      if IsBlank(line, j) then Ok((labelled, None)) else Ok((labelled, Some(j)))
  }

  /**
   * `Chip8AssProcessLine`.  The line is upper-cased and its label part
   * handled; a blank rest or a comment ends the line successfully.  An
   * unknown mnemonic returns false; a known one stores its bytes.
   */
  function ProcessLine(st: AsmState, text: Line, define: bool): (r: Result<LineResult, AsmFault>)
    requires Valid(st)
    ensures r.Ok? ==> Valid(r.value.state) && r.value.state.pc >= st.pc
    ensures r.Ok? && !define ==> r.value.state.labels == st.labels
    ensures r.Ok? && define ==> st.labels <= r.value.state.labels
    ensures r.Err? && !define ==> r.error != LabelTableFull
  {
    var line := Uppercase(text);
    var (labelled, start) :- LabelPart(st, line, define);
    match start
    case None => Ok(LineResult(labelled, true))
    case Some(j) => Instruction(labelled, line, j)
  }

  // ---------------------------------------------------------------------------
  // The file

  /** The state after a pass and the 1-based numbers of the lines that returned false. */
  datatype PassResult = PassResult(state: AsmState, failed: seq<nat>)

  /** One `fgets` loop over lines `n..`. */
  function Pass(st: AsmState, lines: seq<Line>, define: bool, n: nat): (r: Result<PassResult, AsmFault>)
    requires Valid(st) && n <= |lines|
    ensures r.Ok? ==> Valid(r.value.state)
    decreases |lines| - n
  {
    if n == |lines| then Ok(PassResult(st, []))
    else
      match ProcessLine(st, lines[n], define)
      case Err(e) => Err(e)
      case Ok(line) =>
        match Pass(line.state, lines, define, n + 1)
        case Err(e) => Err(e)
        case Ok(rest) => Ok(PassResult(rest.state, (if line.ok then [] else [n + 1]) + rest.failed))
  }

  /** The assembled image (`memory[0x200..pc]`) and the lines reported as errors. */
  datatype Output = Output(image: seq<Byte>, failed: seq<nat>)

  /**
   * `Chip8AssProcessFile` without the files: a first pass that records
   * labels, then pc back to 0x200 and a second pass that reuses them.
   */
  function Assemble(lines: seq<Line>): (r: Result<Output, AsmFault>)
  {
    var first :- Pass(Initial(), lines, true, 0);
    var second :- Pass(first.state.(pc := Machine.ProgramStart), lines, false, 0);
    Ok(Output(second.state.memory[Machine.ProgramStart..second.state.pc], first.failed))
  }
}
