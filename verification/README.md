# Chip-8 interpreter, disassembler and assembler in Dafny

A model of the core of a small C implementation of the Chip-8 virtual
machine, with proofs about it. It has three parts:

- **The interpreter** (`Chip8.c`, `Chip8.h`) is modelled by the modules
  `Machine`, `Interpreter`, `Sprite` and `InterpreterFacts`. It covers
  reset, program loading, fetch, and the thirty-odd instruction handlers
  the two dispatch tables reach.
  - The machine is an immutable `Chip8` record. `Step` returns
    `Result<Chip8, Fault>`.
  - Every place where the C code would index outside an array becomes a
    named fault: stack overflow or underflow, a key number of 16 or more,
    memory at or past 4096, a video index at or past 8192, and fetching
    at pc 4095.
  - Instruction words are `Word` (0..0xFFFF) and registers are `Byte`
    (0..0xFF). Each C `unsigned char` or `unsigned short` assignment is
    written as an explicit wrap (`Wrap8`, `Wrap16`).
- **The disassembler** (`Chip8Disassembler.c`) is modelled by
  `Disassembler` and `DisassemblerFacts`.
  - The first template of the 44-row table that fits the `%04X` text is
    chosen, and its X/Y/K/N placeholders are filled first-occurrence-first.
  - When no template fits, the text is the four hex digits.
- **The assembler** (`Chip8Assembler.c`, `Chip8Assembler.h`) is modelled by
  `AsmText`, `AsmEncode`, `AsmLine`, their `...Facts` modules, and `RoundTrip`.
  - A line is the `fgets` buffer's contents. Reading its index `|line|`
    reads the terminating NUL. A read further than that is the fault
    `ReadPastEnd`.
  - Memory writes at pc 4096 or above fail with `MemoryFull`. The 257th
    label fails with `LabelTableFull`.
  - `BuildCode` returns the low 16 bits of the C `int`, which are all that
    is stored.
- `Bits` holds the arithmetic versions of `&`, `|` and `^` over a bit width.
- `Results` holds the `Result` and `Option` types.

The model follows the code where the code has quirks. Each quirk below is
stated by a lemma:

- The 00EX handler looks only at the low nibble. So every 0NN0 clears the
  screen and every 0NNE returns (`InterpreterFacts.ClearScreen`,
  `InterpreterFacts.ReturnFault`).
- Reset clears only the 64 x 32 part of the 128 x 64 video buffer. Memory
  above the font, the stack, `R` and the graphics mode keep their values
  (`Interpreter.Reset`).
- FX0A keeps the highest-numbered pressed key (`InterpreterFacts.WaitForKey`).
- The disassembler lists the Super-CHIP screen templates `00CN`..`00FF`
  after `0NNN`, so they are never chosen
  (`DisassemblerFacts.SuperChipScreenShadowed`). Its placeholder filling
  rewrites the X of the mnemonic `XOR` itself (`DisassemblerFacts.XorText`).
- The assembler encodes `ADD I, VX` as `F01E` whatever the register is
  (`AsmEncodeFacts.AddIndex`). `LD DT, VX` falls through to `-1`, stored as
  `FFFF` (`AsmEncodeFacts.LdDelayTimer`).
- The assembler reads plain operands with `atoi`, while the disassembler
  prints hex. So disassembled text reassembles to the same word only when
  the hex digits happen to be decimal ones (`RoundTrip.DrawRoundTrip`,
  `RoundTrip.JumpRoundTrip`).
- After a `DA` string with an odd-length count the C code pads with
  `memory[pc++] == 0x00`. That is a comparison, so pc advances and the
  padding byte keeps what memory held (`AsmLineFacts.StringAdvance`).

Where the system's own description and the code disagree, the model follows
the code:

- An opcode that no handler matches is a silent no-op after the pc
  advance, not an `UnknownInstruction` error (`InterpreterFacts.UnhandledIsNoOp`).
- Reset does not zero every field (see above).
- The comment on `Chip8AssParseInt` says a one-character operand is read
  as hex. The code reads it with `atoi`, as decimal.

## Model

| member | source | states |
|---|---|---|
| Interpreter.DecodeFields | Chip8.c:206-211 | an instruction word is its four nibbles; KK is its low two nibbles and NNN its low three |
| Interpreter.Reset | Chip8.c:150-168 | after reset pc is 0x200, sp, I, the timers, V0..VF and the keys are zero, the font occupies memory 0..79, the 64 x 32 view is blank and every other field is kept |
| Interpreter.LoadProgram | Chip8.c:177-198 | loading succeeds exactly when the program fits above 0x200 (otherwise ProgramTooLarge), and the loaded machine is well-formed |
| Interpreter.Fetch | Chip8.c:206-211 | fetching succeeds exactly when two bytes remain at pc; the opcode is the big-endian pair at pc, pc advances by 2 and nothing else changes |
| Interpreter.Step | Chip8.c:206-211 | a cycle fails with MemoryOutOfRange when pc is at the last byte, and otherwise keeps the machine well-formed |
| Interpreter.ScanKeys | Chip8.c:692-707 | the key scan finds nothing new when no key is pressed, and otherwise the highest-numbered pressed key |
| InterpreterFacts.ResetIdempotent | Chip8.c:150-168 | resetting twice is resetting once |
| InterpreterFacts.BootFetch | Chip8.c:150-211 | after reset and load, the first fetch gives the program's first two bytes as one word and moves pc to 0x202 |
| InterpreterFacts.FetchDecodes | Chip8.c:206-211 | the family, X, Y, N, KK and NNN fields of a fetched word are the nibbles of the two bytes at pc |
| InterpreterFacts.CallFault | Chip8.c:280-284 | 2NNN fails exactly when the 16-entry stack is full, with StackOverflow |
| InterpreterFacts.ReturnFault | Chip8.c:238-257 | 00EE fails exactly when the stack is empty, with StackUnderflow; otherwise pc takes the top slot, sp drops by one and nothing else changes |
| InterpreterFacts.CallThenReturn | Chip8.c:238-284 | a call jumps to NNN and pushes pc; a return that follows restores pc and sp and leaves the return address in the stack |
| InterpreterFacts.AddWithCarry | Chip8.c:430-438 | 8XY4: VF:VX is the 9-bit sum VX + VY, VF is the carry, other registers unchanged |
| InterpreterFacts.SubtractWithBorrow | Chip8.c:448-456 | 8XY5: VX is VX - VY modulo 256 and VF is 1 exactly when no borrow occurred |
| InterpreterFacts.ReverseSubtract | Chip8.c:480-488 | 8XY7: VX is VY - VX modulo 256 and VF is 1 exactly when VY >= VX |
| InterpreterFacts.ShiftRight | Chip8.c:466-470 | 8XY6: 2 * VX' + VF is the old VX, with VF the shifted-out bit |
| InterpreterFacts.ShiftLeft | Chip8.c:498-502 | 8XYE: VF:VX' is twice the old VX, with VF the shifted-out bit |
| InterpreterFacts.ShiftFlagRight | Chip8.c:466-470 | 8FY6 leaves VF zero, because the flag is written before the shift reads it back, and changes nothing else |
| InterpreterFacts.AddFlagOperand | Chip8.c:430-438 | 8XY4 with VF as an operand: as Y, VX gains the new carry, not the old VF; as X, VF ends as the carry plus VY modulo 256 (twice the carry for 8FF4); other registers and fields unchanged |
| InterpreterFacts.SubtractFlagOperand | Chip8.c:448-456 | 8XY5 with VF as an operand: as Y, VX loses the new no-borrow flag; as X, VF ends as the flag minus VY modulo 256 (zero for 8FF5); other registers and fields unchanged |
| InterpreterFacts.ReverseSubtractFlagOperand | Chip8.c:480-488 | 8XY7 with VF as an operand: as Y, VX becomes the new flag minus VX; as X, VF ends as VY minus the flag modulo 256 (zero for 8FF7); other registers and fields unchanged |
| InterpreterFacts.ShiftFlagLeft | Chip8.c:498-502 | 8FYE leaves VF at 2 when its top bit was set and 0 otherwise, because the flag is written before VF is shifted; nothing else changes |
| InterpreterFacts.ExclusiveOr | Chip8.c:416-419 | 8XY3 sets VX to VX XOR VY and changes nothing else, for every X and Y; 8XX3 clears VX and a zero VY changes nothing |
| InterpreterFacts.XorTwiceRestores | Chip8.c:416-419 | executing 8XY3 twice (X different from Y) gives back the original machine |
| InterpreterFacts.BitwiseOps | Chip8.c:386-404 | 8XY1 and 8XY2 put VX OR VY and VX AND VY into VX; OR with zero keeps VX, the AND's bits are all in VY, VF untouched |
| InterpreterFacts.Loads | Chip8.c:335-374 | 6XKK, 7XKK (modulo 256, VF untouched) and 8XY0, and likewise ANNN (Chip8.c:525-528) and FX18 (Chip8.c:728-731), change exactly the one register they name |
| InterpreterFacts.RandomMasked | Chip8.c:551-554 | CXKK sets VX to the random byte AND KK, so VX holds only bits of KK, and changes nothing else |
| InterpreterFacts.StoreDecimal | Chip8.c:771-776 | FX33 succeeds exactly when I+2 is in memory, stores three decimal digits whose value is VX, and changes nothing else |
| InterpreterFacts.StoreThenLoad | Chip8.c:785-806 | FX55 stores V0..VX at I, advances I and changes no other field or memory byte; FX65 from the same I gives those registers back, keeps the others and changes only V and I |
| InterpreterFacts.BlockTransfer | Chip8.c:785-806 | FX55 and FX65 fail with MemoryOutOfRange exactly when I + X is past memory; otherwise FX55 copies V0..VX to memory[I..I+X] and FX65 copies them back, each moving I past the block and changing nothing else |
| InterpreterFacts.AddToIndex | Chip8.c:740-748 | FX1E sets VF exactly when I + VX exceeds 0xFFF, then adds the (possibly updated) VX to I modulo 2^16; no other register or field changes |
| InterpreterFacts.FontAddress | Chip8.c:757-760 | FX29 sets I to 5 * VX for every VX, unchecked, and changes nothing else |
| InterpreterFacts.FontGlyph | Chip8.c:757-760 | with the font installed by reset (Chip8.c:37-55) and VX a digit, FX29 sets I to 5 * VX, where the digit's five-byte glyph lies, and changes nothing else |
| InterpreterFacts.DelayTimerRoundTrip | Chip8.c:680-719 | FX15 copies VX into the delay timer and changes nothing else; FX07 then copies it into VY and changes nothing else |
| InterpreterFacts.WaitForKey | Chip8.c:692-707 | FX0A with no key pressed repeats itself; with a key pressed it stores the highest pressed key and moves on |
| InterpreterFacts.SkipFamilies | Chip8.c:294-326 | 3XKK, 4XKK, 5XYN and, likewise, 9XYN (Chip8.c:512-516) skip the next instruction exactly when their comparison holds |
| InterpreterFacts.Jumps | Chip8.c:266-284 | 1NNN jumps to NNN and BNNN (Chip8.c:537-540) to NNN + V0 whatever the stack holds; 2NNN with a free slot jumps to NNN pushing the return address; nothing else changes beyond the fetched opcode |
| InterpreterFacts.KeySkips | Chip8.c:604-619 | EX9E/EXA1 fail when VX is no key number, and otherwise skip exactly when the key is / is not pressed |
| InterpreterFacts.DrawSetsCollision | Chip8.c:567-590 | DXYN succeeds exactly when every lit sprite pixel is inside the buffers; it toggles exactly the covered cells and sets VF exactly when a lit cell was covered |
| InterpreterFacts.DrawTwiceErases | Chip8.c:567-590 | drawing the same sprite twice restores the screen |
| InterpreterFacts.UnhandledIsNoOp | Chip8.c:224-227 | a sub-opcode that the 00EX, 8XYN, EXXX and FXXX handlers do not recognise reaches this no-op and leaves the machine unchanged |
| InterpreterFacts.ClearScreen | Chip8.c:238-257 | 0NN0 blanks the 64 x 32 view, keeps the rest of the buffer and requests a refresh |
| Sprite.SpriteBitIsMask | Chip8.c:579 | a sprite pixel is lit exactly when the row and-ed with `0x80 >> col` is non-zero |
| Sprite.ToggleIsXor | Chip8.c:585 | toggling a cell is `^= 1` |
| Sprite.ToggleTwice | Chip8.c:585 | toggling twice restores the cell |
| Sprite.PlotRowOk | Chip8.c:577-587 | one sprite row draws without fault exactly when all its lit pixels are inside the buffer |
| Sprite.PlotRowCells | Chip8.c:577-587 | one sprite row toggles exactly the cells its lit pixels cover |
| Sprite.PlotRowCollided | Chip8.c:579-585 | the collision flag after a row is set exactly when it was already set or a covered cell was 1 |
| Sprite.PlotRowsOk | Chip8.c:574-588 | the row loop succeeds exactly when every row's sprite byte is in memory and its lit pixels are in the buffer |
| Sprite.PlotRowsCells | Chip8.c:574-588 | the row loop toggles exactly the cells covered by some row |
| Sprite.PlotRowsCollided | Chip8.c:573-588 | the row loop reports a collision exactly when some covered cell was lit beforehand |
| Sprite.HitsClosedForm | Chip8.c:574-588 | a cell is covered by the row loop exactly when it lies in the closed-form window of some row at (x + col, y + line) |
| Sprite.DrawEffect | Chip8.c:567-590 | a draw succeeds exactly when the sprite fits; it toggles exactly the covered cells and collides exactly when a covered cell was lit |
| Sprite.DrawTwice | Chip8.c:567-590 | drawing a sprite onto its own result restores the screen |
| Disassembler.HexDigit | Chip8Disassembler.c:87 | an upper-case `%X` digit is never a placeholder letter |
| Disassembler.DigitValue | Chip8Disassembler.c:87 | reading a printed digit gives the nibble that prints as it |
| Disassembler.Hex4RoundTrip | Chip8Disassembler.c:87 | the four `%04X` digits spell the word back |
| Disassembler.MatchFrom | Chip8Disassembler.c:90-104 | the matching loop accepts a template exactly when each position equals the digit or is a placeholder |
| Disassembler.FindTemplate | Chip8Disassembler.c:30-105 | the chosen template fits the text and no earlier row fits; none is found exactly when no row fits |
| Disassembler.FirstIndex | Chip8Disassembler.c:139-152 | the position found is the first occurrence of the character |
| Disassembler.ReplaceFirst | Chip8Disassembler.c:139-152 | replacing keeps the length and changes only occurrences of the character |
| Disassembler.ReplaceFirstChanges | Chip8Disassembler.c:139-152 | exactly the first occurrence is replaced |
| Disassembler.Place | Chip8Disassembler.c:122-127 | filling one template position changes only placeholder letters of the mnemonic |
| Disassembler.Fill | Chip8Disassembler.c:119-128 | filling all template positions keeps the length and changes only placeholder letters |
| Disassembler.FillInOrder | Chip8Disassembler.c:119-128 | the j-th occurrence of a placeholder letter in the mnemonic receives the digit under the j-th occurrence of that letter in the pattern, so NNN and KK take the digits in order; occurrences beyond the pattern's keep their letter and all other characters are kept |
| Disassembler.Disassemble | Chip8Disassembler.c:84-109 | the text is the chosen mnemonic with the j-th occurrence of each placeholder letter replaced by the digit under the j-th occurrence of that letter in the pattern, or the four hex digits when no template fits |
| DisassemblerFacts.ZeroRows | Chip8Disassembler.c:31-71 | the templates starting with 0 are rows 0-2 and 35-40 |
| DisassemblerFacts.OneRows | Chip8Disassembler.c:34 | only row 3 starts with 1 |
| DisassemblerFacts.FiveRows | Chip8Disassembler.c:38 | only row 7 starts with 5, and it ends in 0 |
| DisassemblerFacts.EightRows | Chip8Disassembler.c:41-49 | the 8-rows are rows 10-18 and end in 0-7 or E |
| DisassemblerFacts.DRows | Chip8Disassembler.c:54 | only row 23 starts with D |
| DisassemblerFacts.SuperChipScreenShadowed | Chip8Disassembler.c:33-71 | rows 35-40 are never chosen because `0NNN` matches first |
| DisassemblerFacts.FamiliesAlwaysNamed | Chip8Disassembler.c:30-105 | every word of families 0, 1, 2, 3, 4, 6, 7, A, B, C and D gets a mnemonic |
| DisassemblerFacts.AluGapsUnmatched | Chip8Disassembler.c:41-49 | 8XY8..8XYD and 8XYF match no template |
| DisassemblerFacts.SkipGapsUnmatched | Chip8Disassembler.c:38 | 5XYN with N not 0 matches no template |
| DisassemblerFacts.GapsFallBack | Chip8Disassembler.c:106-108 | those unmatched words print as their four hex digits |
| DisassemblerFacts.ReplaceAt | Chip8Disassembler.c:139-152 | replacing the first occurrence at k is an update at k |
| DisassemblerFacts.Chosen | Chip8Disassembler.c:88-105 | a row that fits with no earlier fitting row is the one chosen |
| DisassemblerFacts.FillJump | Chip8Disassembler.c:119-128 | `JP NNN` filled from `1NNN` is `JP` and the three address digits |
| DisassemblerFacts.FillXor | Chip8Disassembler.c:119-128 | `XOR VX, VY` filled from `8XY3` replaces the X of XOR and leaves `VX` unfilled |
| DisassemblerFacts.FillDraw | Chip8Disassembler.c:119-128 | `DRW VX, VY, N` filled from `DXYN` names both registers and the height |
| DisassemblerFacts.JumpRow | Chip8Disassembler.c:30-105 | a word starting with 1 selects row 3 |
| DisassemblerFacts.XorRow | Chip8Disassembler.c:30-105 | a word 8XY3 selects row 13 |
| DisassemblerFacts.DrawRow | Chip8Disassembler.c:30-105 | a word starting with D selects row 23 |
| DisassemblerFacts.JumpText | Chip8Disassembler.c:84-109 | 1NNN disassembles to `JP NNN` with its digits |
| DisassemblerFacts.XorText | Chip8Disassembler.c:84-109 | 8XY3 disassembles to the X digit followed by `OR VX, V` and the Y digit |
| DisassemblerFacts.DrawText | Chip8Disassembler.c:84-109 | DXYN disassembles to `DRW VX, VY, N` with its digits |
| DisassemblerFacts.ByteRows | Chip8Disassembler.c:36-53 | 3XKK, 4XKK, 6XKK, 7XKK and CXKK are rows 5, 6, 8, 9 and 22, the only rows with those leading digits |
| DisassemblerFacts.FillByte | Chip8Disassembler.c:119-128 | a `VX, KK` mnemonic filled from an `XKK` pattern names the register digit and the two byte digits in order |
| DisassemblerFacts.ByteRowText | Chip8Disassembler.c:84-109 | a word selecting a byte-immediate row prints as that row's name, `V` and the register digit, then the two byte digits |
| DisassemblerFacts.ByteText | Chip8Disassembler.c:84-109 | 3XKK, 4XKK, 6XKK, 7XKK and CXKK print as `SE`, `SNE`, `LD`, `ADD` and `RND` followed by `VX, KK` with the word's digits in order |
| AsmText.CharAt | Chip8Assembler.c:157 | reading at the end of the line gives the terminator and nowhere else |
| AsmText.ToUpper | Chip8Assembler.c:550 | a lower-case letter becomes its capital, any other character stays |
| AsmText.Uppercase | Chip8Assembler.c:546-553 | upper-casing keeps the length and upper-cases each character |
| AsmText.SkipSpaces | Chip8Assembler.c:157-158 | the position reached is the first non-space from i, or the end |
| AsmText.SkipWord | Chip8Assembler.c:210-211 | the position reached is the first space from i, or the end |
| AsmText.ParseInt | Chip8Assembler.c:514-538 | parsing fails only on a `$` followed by fewer than seven characters (with exactly seven, the terminating NUL is read as the eighth binary character), and a `$` literal is a byte |
| AsmText.FindParam | Chip8Assembler.c:456-471 | the parameter found is the first in table order whose name starts at i |
| AsmText.GetV | Chip8Assembler.c:454-474 | with no parameter name at i nothing moves; otherwise the first matching name is returned and the position is past it, one more character and the spaces |
| AsmTextFacts.UppercaseIdempotent | Chip8Assembler.c:546-553 | upper-casing twice is upper-casing once |
| AsmTextFacts.UppercaseKeeps | Chip8Assembler.c:546-553 | a line without lower-case letters is unchanged |
| AsmTextFacts.RegisterCodes | Chip8Assembler.h:62-87 | parameter r is spelled `V` and hex digit r (Chip8Assembler.c:52-78), and the register codes are 0..15 |
| AsmTextFacts.RegisterParam | Chip8Assembler.c:454-474 | `VR` at i reads as register R and skips the separator and spaces |
| AsmTextFacts.ParseHash | Chip8Assembler.c:519-520 | `#` selects the base-16 reader |
| AsmTextFacts.ParseDollar | Chip8Assembler.c:522-533 | `$` with eight characters selects the binary reader |
| AsmTextFacts.ParseHexWord | Chip8Assembler.c:519-520 | `#` followed by a `%04X` word reads back as that word |
| AsmTextFacts.BinaryValueOf | Chip8Assembler.c:524-532 | the binary reader gives back the low n bits written as `1` and `.` |
| AsmTextFacts.ParseBinaryByte | Chip8Assembler.c:522-533 | `$` followed by a byte written in `1` and `.` reads back as the byte |
| AsmEncode.FindOpcode | Chip8Assembler.c:199-203 | the mnemonic found is the first in table order that prefixes the text |
| AsmEncode.FindLabel | Chip8Assembler.c:489-493 | the label found is the first defined one whose name prefixes the text |
| AsmEncode.GetAddress | Chip8Assembler.c:483-497 | an address operand is the first matching label's address, or the number when no label matches |
| AsmEncodeFacts.SeRegisters | Chip8Assembler.c:294-301 | `SE VX, VY` assembles to 5XY0 |
| AsmEncodeFacts.SneRegisters | Chip8Assembler.c:303-312 | `SNE VX, VY` assembles to 9XY0 |
| AsmEncodeFacts.LdRegisters | Chip8Assembler.c:314-321 | `LD VX, VY` assembles to 8XY0 |
| AsmEncodeFacts.AddRegisters | Chip8Assembler.c:360-371 | `ADD VX, VY` assembles to 8XY4 |
| AsmEncodeFacts.OrRegisters | Chip8Assembler.c:374-376 | `OR VX, VY` assembles to 8XY1 |
| AsmEncodeFacts.AndRegisters | Chip8Assembler.c:378-380 | `AND VX, VY` assembles to 8XY2 |
| AsmEncodeFacts.XorRegisters | Chip8Assembler.c:382-384 | `XOR VX, VY` assembles to 8XY3 |
| AsmEncodeFacts.SubRegisters | Chip8Assembler.c:386-388 | `SUB VX, VY` assembles to 8XY5 |
| AsmEncodeFacts.SubnRegisters | Chip8Assembler.c:394-396 | `SUBN VX, VY` assembles to 8XY7 |
| AsmEncodeFacts.ShrRegister | Chip8Assembler.c:390-392 | `SHR VX` assembles to 8X06 |
| AsmEncodeFacts.ShlRegister | Chip8Assembler.c:398-400 | `SHL VX` assembles to 8X0E |
| AsmEncodeFacts.SkpRegister | Chip8Assembler.c:410-412 | `SKP VX` assembles to EX9E |
| AsmEncodeFacts.SknpRegister | Chip8Assembler.c:414-416 | `SKNP VX` assembles to EXA1 |
| AsmEncodeFacts.SeByte | Chip8Assembler.c:294-301 | `SE VX, KK` assembles to 3XKK |
| AsmEncodeFacts.SneByte | Chip8Assembler.c:303-312 | `SNE VX, KK` assembles to 4XKK |
| AsmEncodeFacts.LdByte | Chip8Assembler.c:314-336 | `LD VX, KK` assembles to 6XKK |
| AsmEncodeFacts.AddByte | Chip8Assembler.c:360-365 | `ADD VX, KK` assembles to 7XKK |
| AsmEncodeFacts.RndByte | Chip8Assembler.c:402-404 | `RND VX, KK` assembles to CXKK |
| AsmEncodeFacts.DrwRegisters | Chip8Assembler.c:406-408 | `DRW VX, VY, N` assembles to DXYN |
| AsmEncodeFacts.LdIndex | Chip8Assembler.c:314-340 | `LD I, addr` assembles to ANNN for every operand that reads as an address, labels starting with a parameter letter included |
| AsmEncodeFacts.JpAddress | Chip8Assembler.c:280-288 | `JP addr` assembles to 1NNN for every operand that reads as an address and not as V0 |
| AsmEncodeFacts.JumpToLabel | Chip8Assembler.c:280-288 | `JP DRAW`, with the label DRAW at 0x234, assembles to 0x1234 |
| AsmEncodeFacts.JpOffset | Chip8Assembler.c:280-288 | `JP V0, NNN` assembles to BNNN |
| AsmEncodeFacts.CallAddress | Chip8Assembler.c:290-292 | `CALL NNN` assembles to 2NNN |
| AsmEncodeFacts.AddIndex | Chip8Assembler.c:360-368 | `ADD I, VX` assembles to F01E whatever X is |
| AsmEncodeFacts.LdDelayTimer | Chip8Assembler.c:314-357 | `LD DT, VX` matches no form and stores FFFF |
| AsmEncodeFacts.ScdNibble | Chip8Assembler.c:418-420 | `SCD N` assembles to 00CN |
| AsmEncodeFacts.FixedWords | Chip8Assembler.c:272-278 | `CLS` and `RET` assemble to 00E0 and 00EE |
| AsmEncodeFacts.SuperChipWords | Chip8Assembler.c:422-440 | `SCR`, `SCL`, `EXIT`, `LOW` and `HIGH` assemble to 00FB..00FF |
| AsmEncodeFacts.ParamInitials | Chip8Assembler.c:52-78 | every parameter name starts with V, I, D, B, [, H, R, K or F |
| AsmEncodeFacts.PlainOperand | Chip8Assembler.c:454-474 | an operand starting with no parameter initial reads as no parameter and does not move |
| AsmLine.Initial | Chip8Assembler.c:10-15 | assembly starts at pc 0x200 with no labels |
| AsmLine.Emit | Chip8Assembler.c:241 | storing a byte succeeds exactly while pc is in memory, writes at pc and advances pc by one |
| AsmLine.EmitWord | Chip8Assembler.c:248-249 | storing a word writes its high then its low byte and advances pc by two |
| AsmLine.LabelEnd | Chip8Assembler.c:165-167 | a label is a `:` within the first 25 characters with no space before it |
| AsmLine.DefineLabel | Chip8Assembler.c:170-185 | a label is skipped on both passes and recorded at the current pc only on the first |
| AsmLine.CopyQuoted | Chip8Assembler.c:220-224 | the DA loop stores every character up to the next quote at consecutive addresses and touches nothing else |
| AsmLine.StoreString | Chip8Assembler.c:218-229 | a DA string advances pc by an even amount and keeps the labels |
| AsmLine.LabelPart | Chip8Assembler.c:151-193 | the label half of a line finds the mnemonic start and records the label only on the first pass |
| AsmLine.ProcessLine | Chip8Assembler.c:151-254 | a line never moves pc back; the second pass never changes the labels and the first only adds |
| AsmLineFacts.StringAdvance | Chip8Assembler.c:218-229 | a DA string stores each character between the opening one and the first quote at consecutive addresses from pc, changes no other byte (the even-count padding byte keeps its old value), and advances pc by its statement size |
| AsmLineFacts.InstructionAdvance | Chip8Assembler.c:195-251 | an instruction advances pc by its size, is reported exactly when its mnemonic is unknown, and changes memory only in between |
| AsmLineFacts.InstructionWord | Chip8Assembler.c:244-251 | an instruction stores its built word big-endian at the old pc |
| AsmLineFacts.InstructionData | Chip8Assembler.c:231-243 | DW stores the operand's low 16 bits and DB its low 8 bits |
| AsmLineFacts.LineAdvance | Chip8Assembler.c:151-254 | a line advances pc by its size, its success is whether its mnemonic is known, and memory changes only in between |
| AsmLineFacts.BlankLine | Chip8Assembler.c:157-162 | an empty or comment line changes nothing and succeeds |
| AsmLineFacts.SameSpaces | Chip8Assembler.c:154-158 | upper-casing does not move the first non-space |
| AsmLineFacts.UnknownMnemonic | Chip8Assembler.c:199-207 | a line with an unknown mnemonic fails and stores nothing |
| AsmLineFacts.LineLabel | Chip8Assembler.c:164-185 | on the first pass a line adds its label at the current pc; on the second it adds nothing |
| AsmLineFacts.InstructionStored | Chip8Assembler.c:244-251 | a line with an instruction stores its built word at the old pc |
| AsmLineFacts.DataStored | Chip8Assembler.c:231-243 | a line with DW or DB stores the operand's low bits at the old pc |
| AsmLineFacts.PassAdvance | Chip8Assembler.c:105-122 | a pass advances pc by the total line size and reports exactly the failed line numbers |
| AsmLineFacts.PassLabels | Chip8Assembler.c:105-122 | the first pass records every label at its line's address; the second records none |
| AsmLineFacts.ReportedLines | Chip8Assembler.c:105-110 | a line number is reported exactly when that line's mnemonic is unknown |
| AsmLineFacts.ReportedIncreasing | Chip8Assembler.c:105-110 | reported line numbers are strictly increasing |
| AsmLineFacts.Assembled | Chip8Assembler.c:87-142 | the image is as long as the total line size, the failures are the unknown lines, the first pass records every label, and the second pass runs with those labels unchanged |
| RoundTrip.ReadNibble | Chip8Assembler.c:536-537 | `atoi` on one printed nibble gives it when below ten and zero otherwise |
| RoundTrip.ReadDecimalNibbles | Chip8Assembler.c:536-537 | `atoi` on three printed nibbles below ten reads them as decimal |
| RoundTrip.DrawOperandsRead | Chip8Assembler.c:514-538 | the printed DXYN operands read as the register pair and the height below ten, or zero |
| RoundTrip.DrawRoundTrip | Chip8Assembler.c:406-408 | the DXYN text the disassembler prints (Chip8Disassembler.c:84-109) reassembles to the same word exactly when N is below ten |
| RoundTrip.JumpRoundTrip | Chip8Assembler.c:280-288 | the 1NNN text the disassembler prints (Chip8Disassembler.c:84-109), when its digits are decimal, reassembles to their decimal reading, equal to the word only when NNN is below ten |
| Bits.Wrap8 | Chip8.h:57 | a value stored in an `unsigned char` keeps its residue modulo 256 |
| Bits.Wrap16 | Chip8.h:63-66 | a value stored in an `unsigned short` keeps its residue modulo 2^16 |
| Bits.XorTwice | Chip8.c:416-419 | xor-ing with the same value twice restores the original |
| Bits.XorSelf | Chip8.c:416-419 | xor-ing a value with itself gives zero |
| Bits.OrPack | Chip8Assembler.c:263-445 | `|` on packed nibbles is `|` nibble by nibble |
| Bits.OrNibbles | Chip8Assembler.c:263-445 | `|` on two four-nibble words is the word of the nibble-wise `|`s, which is how the encoder combines fields |

## Left out

- The GUI and front ends (`Chip8Emulator.cpp`, `Chip8Emulator.h`, `Example.cpp`): windowing, drawing, input polling and sound.
- File I/O: `fopen`/`fread`/`feof` in ROM loading is replaced by an in-memory byte sequence. The C loop also stores the last byte twice at end of file; the model loads exactly the given bytes.
- Reading and writing the assembler's files in `Chip8AssProcessFile`: the source text is a sequence of lines and the result is the image bytes.
- Saving and loading machine state, and the millisecond counters.
- The Super-CHIP handlers. The dispatch tables never reach them, so they cannot run.
- The 60 Hz timer tick and the beep flag's consumer.
- `Random` (Chip8.c:29-32) and the `rand() % 0xFF` in CXKK: the random byte is a parameter of `Step`, so the model does not capture that 0xFF itself is never drawn.
- `printf` in the unknown-opcode handler, in the assembler's error report and in its completion message.
- Overflow inside `strtol` and `atoi`: values are unbounded integers, and only their low bits are stored.
- Characters outside 0..255 in a `DA` string are stored as their code modulo 256, standing for the C cast of a byte.
- A NUL byte inside a line: a line holds no NUL, as `fgets` text seen through the C string functions does not.
- Labels and pc kept in the assembler's globals across a second `Chip8AssProcessFile` call: each assembly starts fresh.
- Writes past the assembler's 4096-byte memory and past its 256-entry label table fail as `MemoryFull` and `LabelTableFull`, where C would overwrite other data.
- The prototypes in `Chip8Disassembler.h` add no behaviour.
- `Interpreter.Execute`: its own contract states only that the machine stays well-formed. What each instruction does is stated by the `InterpreterFacts` lemmas.
- `Interpreter.ExecSystem`: a dispatch helper of `Execute` whose own contract states only well-formedness; its behaviour is stated through `Execute` by the `InterpreterFacts` lemmas.
- `Interpreter.ExecCall`: a dispatch helper of `Execute` whose own contract states only well-formedness; its behaviour is stated through `Execute` by the `InterpreterFacts` lemmas.
- `Interpreter.ExecAlu`: a dispatch helper of `Execute` whose own contract states only well-formedness; its behaviour is stated through `Execute` by the `InterpreterFacts` lemmas.
- `Interpreter.ExecDraw`: a dispatch helper of `Execute` whose own contract states only well-formedness; its behaviour is stated through `Execute` by the `InterpreterFacts` lemmas.
- `Interpreter.ExecKey`: a dispatch helper of `Execute` whose own contract states only well-formedness; its behaviour is stated through `Execute` by the `InterpreterFacts` lemmas.
- `Interpreter.ExecMisc`: a dispatch helper of `Execute` whose own contract states only well-formedness; its behaviour is stated through `Execute` by the `InterpreterFacts` lemmas.
- `Interpreter.Step`: its own contract states only the fetch fault and well-formedness. What a cycle does for given instruction bytes is stated by `SkipFamilies`, `Jumps`, `WaitForKey` and, through `Fetch` and `Execute`, the other `InterpreterFacts` lemmas.
- `AsmLine.ProcessLine`: its own contract states only that pc never moves back and how the label table may change. What a line stores is stated by `LineAdvance`, `LineLabel`, `InstructionStored`, `DataStored`, `BlankLine` and `UnknownMnemonic`.
- `AsmLine.StoreString`: its own contract states only that pc moves by an even amount and the labels are kept. The bytes it stores, the unwritten padding byte and the frame are stated by `AsmLineFacts.StringAdvance`.
- `Interpreter.Fetch`: `memory[pc++] << 8 | memory[pc++]` has unsequenced side effects in C. The model reads the bytes at pc and pc + 1 in order, as evidently intended.
- `AsmEncode.BuildCode`: its own contract states only the error kind. The words it builds are stated per instruction form by the `AsmEncodeFacts` lemmas; operand shapes that no lemma covers are modelled but have no stated property.
- `AsmEncode.EncodeJp`: a case of `BuildCode` whose own contract states only the error kind; its words are stated by the `AsmEncodeFacts` lemmas.
- `AsmEncode.EncodeSe`: a case of `BuildCode` whose own contract states only the error kind; its words are stated by the `AsmEncodeFacts` lemmas.
- `AsmEncode.EncodeSne`: a case of `BuildCode` whose own contract states only the error kind; its words are stated by the `AsmEncodeFacts` lemmas.
- `AsmEncode.EncodeLd`: a case of `BuildCode` whose own contract states only the error kind; its words are stated by the `AsmEncodeFacts` lemmas.
- `AsmEncode.EncodeAdd`: a case of `BuildCode` whose own contract states only the error kind; its words are stated by the `AsmEncodeFacts` lemmas.
- `AsmEncode.EncodeTwo`: a case of `BuildCode` whose own contract states only the error kind; its words are stated by the `AsmEncodeFacts` lemmas.
- `AsmEncode.EncodeOne`: a case of `BuildCode` whose own contract states only the error kind; its words are stated by the `AsmEncodeFacts` lemmas.
- `AsmEncode.EncodeRnd`: a case of `BuildCode` whose own contract states only the error kind; its words are stated by the `AsmEncodeFacts` lemmas.
- `AsmEncode.EncodeDrw`: a case of `BuildCode` whose own contract states only the error kind; its words are stated by the `AsmEncodeFacts` lemmas.
- `AsmLine.Pass`: its own contract states only well-formedness. Its pc, labels and reports are stated by `PassAdvance`, `PassLabels` and `ReportedLines`.
- `AsmLine.Statement` and `AsmLine.Instruction`: pieces of `ProcessLine`, described by `StatementAdvance`, `InstructionAdvance`, `InstructionWord` and `InstructionData`.
