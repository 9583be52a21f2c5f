/**
 * The assembler's instruction encoder: the mnemonic table and its
 * `OPCODE_*` indices, the label table lookup and `Chip8AssBuildCode`.
 *
 * `Chip8AssBuildCode` returns a C `int`; only its low 16 bits are ever
 * stored, so the model returns those bits as a `Word` (the `-1` of an
 * unmatched form is 0xFFFF).  The C expressions or-together register codes
 * shifted left, whatever they are, so a missing register (code 99) or a
 * named parameter such as `I` (code 16) leaks into the high nibbles exactly
 * as in the source.
 */
module AsmEncode {
  import opened Bits
  import opened Results
  import opened AsmText

  /** `opcodeCount` and the `OPCODE_*` indices. */
  const OpcodeCount: nat := 28
  const OpCls: nat := 0
  const OpRet: nat := 1
  const OpJp: nat := 2
  const OpCall: nat := 3
  const OpSe: nat := 4
  const OpSne: nat := 5
  const OpLd: nat := 6
  const OpAdd: nat := 7
  const OpOr: nat := 8
  const OpAnd: nat := 9
  const OpXor: nat := 10
  const OpSubn: nat := 11
  const OpShr: nat := 12
  const OpSub: nat := 13
  const OpShl: nat := 14
  const OpRnd: nat := 15
  const OpDrw: nat := 16
  const OpSkp: nat := 17
  const OpSknp: nat := 18
  const OpScd: nat := 19
  const OpScr: nat := 20
  const OpScl: nat := 21
  const OpExit: nat := 22
  const OpLow: nat := 23
  const OpHigh: nat := 24
  const OpDa: nat := 25
  const OpDw: nat := 26
  const OpDb: nat := 27

  /** The `opcodes` table. */
  function OpName(m: nat): (s: string)
    requires m < OpcodeCount
    ensures 2 <= |s| <= 4
  {
    match m
    case 0 => "CLS"
    case 1 => "RET"
    case 2 => "JP"
    case 3 => "CALL"
    case 4 => "SE"
    case 5 => "SNE"
    case 6 => "LD"
    case 7 => "ADD"
    case 8 => "OR"
    case 9 => "AND"
    case 10 => "XOR"
    case 11 => "SUBN"
    case 12 => "SHR"
    case 13 => "SUB"
    case 14 => "SHL"
    case 15 => "RND"
    case 16 => "DRW"
    case 17 => "SKP"
    case 18 => "SKNP"
    case 19 => "SCD"
    case 20 => "SCR"
    case 21 => "SCL"
    case 22 => "EXIT"
    case 23 => "LOW"
    case 24 => "HIGH"
    case 25 => "DA"
    case 26 => "DW"
    case _ => "DB"
  }

  /** The mnemonic loop of `Chip8AssProcessLine`: the first entry at or after `m` that prefixes the text at `i`. */
  function FindOpcode(line: Line, i: nat, m: nat): (r: Option<nat>)
    requires i <= |line| && m <= OpcodeCount
    ensures r.Some? ==>
              && m <= r.value < OpcodeCount
              && StartsAt(line, i, OpName(r.value))
              && forall q :: m <= q < r.value ==> !StartsAt(line, i, OpName(q))
    ensures r.None? ==> forall q :: m <= q < OpcodeCount ==> !StartsAt(line, i, OpName(q))
    decreases OpcodeCount - m
  {
    if m == OpcodeCount then None
    else if StartsAt(line, i, OpName(m)) then Some(m)
    else FindOpcode(line, i, m + 1)
  }

  // ---------------------------------------------------------------------------
  // Labels

  /** `Chip8AssAddressPointer`: a label's name and the pc it was defined at. */
  datatype Label = Label(name: string, address: int)

  /** The size of `addressPointers`. */
  const LabelCapacity: nat := 256

  /** The loop of `Chip8AssGetAddress`: the first label at or after `k` whose name prefixes the text at `i`. */
  function FindLabel(labels: seq<Label>, line: Line, i: nat, k: nat): (r: Option<nat>)
    requires i <= |line| && k <= |labels|
    ensures r.Some? ==>
              && k <= r.value < |labels|
              && StartsAt(line, i, labels[r.value].name)
              && forall q :: k <= q < r.value ==> !StartsAt(line, i, labels[q].name)
    ensures r.None? ==> forall q :: k <= q < |labels| ==> !StartsAt(line, i, labels[q].name)
    decreases |labels| - k
  {
    if k == |labels| then None
    else if StartsAt(line, i, labels[k].name) then Some(k)
    else FindLabel(labels, line, i, k + 1)
  }

  /**
   * `Chip8AssGetAddress`: after leading spaces, the address of the first
   * label whose name prefixes the operand, or else the operand as a number.
   */
  function GetAddress(line: Line, i: nat, labels: seq<Label>): (r: Result<int, AsmFault>)
    requires i <= |line|
    ensures var j := SkipSpaces(line, i);
            && ((exists k :: 0 <= k < |labels| && StartsAt(line, j, labels[k].name)) ==>
                  r.Ok? && r.value == labels[FindLabel(labels, line, j, 0).value].address)
            && ((forall k :: 0 <= k < |labels| ==> !StartsAt(line, j, labels[k].name)) ==>
                  r == ParseInt(line, j))
    ensures r.Err? ==> r.error == ReadPastEnd
  {
    var j := SkipSpaces(line, i);
    match FindLabel(labels, line, j, 0)
    case Some(k) => Ok(labels[k].address)
    case None => ParseInt(line, j)
  }

  // ---------------------------------------------------------------------------
  // Encoding

  /** `0x1000 | a` and the like, truncated to the 16 bits that are stored. */
  function Or3(a: int, b: int, c: int): Word
  {
    Or16(Or16(a, b), c)
  }

  /** `JP addr` (1nnn) or `JP V0, addr` (Bnnn); the address is read before the register test. */
  function EncodeJp(line: Line, i: nat, labels: seq<Label>): (r: Result<Word, AsmFault>)
    requires i <= |line|
    ensures r.Err? ==> r.error == ReadPastEnd
  {
    var address :- GetAddress(line, i, labels);
    var p1 :- GetV(line, i);
    if p1.code == ParamV0 then
      var target :- GetAddress(line, p1.next, labels);
      Ok(Or16(0xB000, target))
    else Ok(Or16(0x1000, address))
  }

  /** `SE Vx, Vy` (5xy0) when the second operand is a register, else `SE Vx, byte` (3xkk). */
  function EncodeSe(line: Line, i: nat): (r: Result<Word, AsmFault>)
    requires i <= |line|
    ensures r.Err? ==> r.error == ReadPastEnd
  {
    var p1 :- GetV(line, i);
    var p2 :- GetV(line, p1.next);
    if p2.code <= ParamVF then Ok(Or3(0x5000, p1.code * 0x100, p2.code * 0x10))
    else
      var n :- ParseInt(line, p2.next);
      Ok(Or3(0x3000, p1.code * 0x100, n))
  }

  /** `SNE Vx, byte` (4xkk) when no second parameter matches, else `SNE Vx, Vy` (9xy0). */
  function EncodeSne(line: Line, i: nat): (r: Result<Word, AsmFault>)
    requires i <= |line|
    ensures r.Err? ==> r.error == ReadPastEnd
  {
    var p1 :- GetV(line, i);
    var p2 :- GetV(line, p1.next);
    if p2.code == ParamNull then
      var n :- ParseInt(line, p2.next);
      Ok(Or3(0x4000, p1.code * 0x100, n))
    else Ok(Or3(0x9000, p1.code * 0x100, p2.code * 0x10))
  }

  /**
   * The forms of `LD`, tried in the source's order on the two parameter
   * codes.  `n` is the byte operand (only read for `LD Vx, byte`).  Every
   * other combination, `LD DT, Vx` and `LD DS, Vx` among them, is -1.
   */
  function LdForm(x: nat, y: nat, address: int, n: int): (w: Word)
  {
    if x <= ParamVF && y <= ParamVF then Or3(0x8000, x * 0x100, y * 0x10)
    else if x <= ParamVF && y == ParamDT then Or16(0xF007, x * 0x100)
    else if x <= ParamVF && y == ParamK then Or16(0xF00A, x * 0x100)
    else if x <= ParamVF && y == ParamIndirect then Or16(0xF065, x * 0x100)
    else if x <= ParamVF && y == ParamR then Or16(0xF085, x * 0x100)
    else if x <= ParamVF && y == ParamNull then Or3(0x6000, x * 0x100, n)
    else if x == ParamI then Or16(0xA000, address)
    else if x == ParamIndirect && y <= ParamVF then Or16(0xF055, y * 0x100)
    else if x == ParamF && y <= ParamVF then Or16(0xF029, y * 0x100)
    else if x == ParamB && y <= ParamVF then Or16(0xF033, y * 0x100)
    else if x == ParamHF && y <= ParamVF then Or16(0xF030, y * 0x100)
    else if x == ParamR && y <= ParamVF then Or16(0xF075, y * 0x100)
    else Wrap16(-1)
  }

  /** `LD`: the first parameter, then the address and the second parameter from the same place. */
  function EncodeLd(line: Line, i: nat, labels: seq<Label>): (r: Result<Word, AsmFault>)
    requires i <= |line|
    ensures r.Err? ==> r.error == ReadPastEnd
  {
    var p1 :- GetV(line, i);
    var address :- GetAddress(line, p1.next, labels);
    var p2 :- GetV(line, p1.next);
    if p1.code <= ParamVF && p2.code == ParamNull then
      var n :- ParseInt(line, p2.next);
      Ok(LdForm(p1.code, p2.code, address, n))
    else Ok(LdForm(p1.code, p2.code, address, 0))
  }

  /** `ADD Vx, byte` (7xkk), `ADD I, Vx` (Fx1E) or `ADD Vx, Vy` (8xy4). */
  function EncodeAdd(line: Line, i: nat): (r: Result<Word, AsmFault>)
    requires i <= |line|
    ensures r.Err? ==> r.error == ReadPastEnd
  {
    var p1 :- GetV(line, i);
    var p2 :- GetV(line, p1.next);
    if p2.code == ParamNull then
      var n :- ParseInt(line, p2.next);
      Ok(Or3(0x7000, p1.code * 0x100, n))
    else if p1.code == ParamI then Ok(Or3(0xF000, p1.code * 0x100, 0x001E))
    else Ok(Or3(0x8004, p1.code * 0x100, p2.code * 0x10))
  }

  /** Two registers into `base`: OR, AND, XOR, SUB and SUBN (8xy1, 8xy2, 8xy3, 8xy5, 8xy7). */
  function EncodeTwo(base: int, line: Line, i: nat): (r: Result<Word, AsmFault>)
    requires i <= |line|
    ensures r.Err? ==> r.error == ReadPastEnd
  {
    var p1 :- GetV(line, i);
    var p2 :- GetV(line, p1.next);
    Ok(Or3(base, p1.code * 0x100, p2.code * 0x10))
  }

  /** One register into `base` with a fixed low byte: SHR, SHL, SKP and SKNP. */
  function EncodeOne(base: int, low: int, line: Line, i: nat): (r: Result<Word, AsmFault>)
    requires i <= |line|
    ensures r.Err? ==> r.error == ReadPastEnd
  {
    var p1 :- GetV(line, i);
    Ok(Or3(base, p1.code * 0x100, low))
  }

  /** `RND Vx, byte` (Cxkk). */
  function EncodeRnd(line: Line, i: nat): (r: Result<Word, AsmFault>)
    requires i <= |line|
    ensures r.Err? ==> r.error == ReadPastEnd
  {
    var p1 :- GetV(line, i);
    var n :- ParseInt(line, p1.next);
    Ok(Or3(0xC000, p1.code * 0x100, n))
  }

  /** `DRW Vx, Vy, nibble` (Dxyn). */
  function EncodeDrw(line: Line, i: nat): (r: Result<Word, AsmFault>)
    requires i <= |line|
    ensures r.Err? ==> r.error == ReadPastEnd
  {
    var p1 :- GetV(line, i);
    var p2 :- GetV(line, p1.next);
    var n :- ParseInt(line, p2.next);
    Ok(Or16(Or3(0xD000, p1.code * 0x100, p2.code * 0x10), n))
  }

  /**
   * `Chip8AssBuildCode` for the text after the mnemonic, starting at `i`.
   * Two `Chip8AssGetV(&line)` calls in one C expression are taken left to
   * right.  Only reads past the line's end can fail.
   */
  function BuildCode(opcode: nat, line: Line, i: nat, labels: seq<Label>): (r: Result<Word, AsmFault>)
    requires i <= |line|
    ensures r.Err? ==> r.error == ReadPastEnd
  {
    if opcode == OpCls then Ok(0x00E0)
    else if opcode == OpRet then Ok(0x00EE)
    else if opcode == OpJp then EncodeJp(line, i, labels)
    else if opcode == OpCall then
      var address :- GetAddress(line, i, labels);
      Ok(Or16(0x2000, address))
    else if opcode == OpSe then EncodeSe(line, i)
    else if opcode == OpSne then EncodeSne(line, i)
    else if opcode == OpLd then EncodeLd(line, i, labels)
    else if opcode == OpAdd then EncodeAdd(line, i)
    else if opcode == OpOr then EncodeTwo(0x8001, line, i)
    else if opcode == OpAnd then EncodeTwo(0x8002, line, i)
    else if opcode == OpXor then EncodeTwo(0x8003, line, i)
    else if opcode == OpSub then EncodeTwo(0x8005, line, i)
    else if opcode == OpShr then EncodeOne(0x8000, 0x0006, line, i)
    else if opcode == OpSubn then EncodeTwo(0x8007, line, i)
    else if opcode == OpShl then EncodeOne(0x8000, 0x000E, line, i)
    else if opcode == OpRnd then EncodeRnd(line, i)
    else if opcode == OpDrw then EncodeDrw(line, i)
    else if opcode == OpSkp then EncodeOne(0xE000, 0x009E, line, i)
    else if opcode == OpSknp then EncodeOne(0xE000, 0x00A1, line, i)
    else if opcode == OpScd then
      var n :- ParseInt(line, i);
      Ok(Or16(0x00C0, n))
    else if opcode == OpScr then Ok(0x00FB)
    else if opcode == OpScl then Ok(0x00FC)
    else if opcode == OpExit then Ok(0x00FD)
    else if opcode == OpLow then Ok(0x00FE)
    else if opcode == OpHigh then Ok(0x00FF)
    else Ok(Wrap16(-1))
  }
}
