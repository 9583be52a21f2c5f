/**
 * The Chip-8 machine state (the `Chip8CPU` record) and its memory map.
 *
 * The record is immutable: every interpreter operation returns a new state.
 * The fixed-size C arrays are sequences whose lengths `Valid` pins down.
 */
module Machine {
  import opened Bits

  /** Addressable memory; 0x000-0x1FF is reserved for the interpreter. */
  const MemorySize: nat := 4096
  /** Most programs are loaded at, and start executing from, 0x200. */
  const ProgramStart: nat := 0x200
  const RegisterCount: nat := 16
  /** VF doubles as the carry, borrow and collision flag. */
  const Flag: nat := 0xF
  const UserFlagCount: nat := 8
  const StackDepth: nat := 16
  const KeyCount: nat := 16
  /** The standard display is 64 x 32 pixels ... */
  const ScreenWidth: nat := 64
  const ScreenHeight: nat := 32
  /** ... stored row-major in a buffer sized for the 128 x 64 extended mode. */
  const VideoSize: nat := 128 * 64
  /** The built-in font: 16 glyphs of 5 bytes each, stored from address 0. */
  const FontSize: nat := 80

  datatype Chip8 = Chip8(
    opcode: Word,              // the instruction being executed
    memory: seq<Byte>,
    v: seq<Byte>,              // V0..VF
    r: seq<Byte>,              // Super-CHIP user flags R0..R7
    i: Word,                   // address register
    pc: Word,
    video: seq<Byte>,          // one cell per pixel, 0 = off, 1 = on
    extendedGraphicsMode: bool,
    delayTimer: Byte,
    soundTimer: Byte,
    stack: seq<Word>,          // return addresses
    sp: Word,                  // number of occupied stack slots
    key: seq<Byte>,            // non-zero = key pressed
    refreshScreen: bool,       // set when a redraw is needed, cleared by the display
    playBeep: bool)

  /** Every array has its C size and the stack pointer stays within the stack. */
  predicate Valid(m: Chip8)
  {
    && |m.memory| == MemorySize
    && |m.v| == RegisterCount
    && |m.r| == UserFlagCount
    && |m.video| == VideoSize
    && |m.stack| == StackDepth
    && |m.key| == KeyCount
    && m.sp <= StackDepth
  }

  /**
   * What the C code would do with an out-of-range array index, or with a
   * program that does not fit in memory, is reported as a fault instead.
   */
  datatype Fault =
    | StackOverflow       // CALL with all 16 slots in use
    | StackUnderflow      // RET with an empty stack
    | MemoryOutOfRange    // memory[pc+1], memory[I+k] past 0xFFF
    | KeyOutOfRange       // key[VX] with VX > 0xF
    | VideoOutOfRange     // a sprite pixel past the end of the video buffer
    | ProgramTooLarge     // a program that does not fit above 0x200
}
