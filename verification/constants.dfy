/** Machine-wide constants, value types and lookup tables of the CHIP-8 interpreter. */
module Constants {

  /** One cell of a Uint8Array (memory, registers). */
  type byte = b: int | 0 <= b < 0x100

  /** One cell of a Uint16Array (the call stack). */
  type word = w: int | 0 <= w < 0x1_0000

  /** A 12-bit address field of an opcode. */
  type address = a: int | 0 <= a < 0x1000

  /** A 4-bit field of an opcode: a register index or a key code. */
  type nibble = n: int | 0 <= n < 0x10

  /** What `rand(255)` can return: floor(Math.random() * 255) lies in [0, 254]. */
  type RandomByte = r: int | 0 <= r < 255

  const NUM_REGISTERS: nat := 16
  const FLAG_REGISTER: nibble := 0xF
  /** Starting value of both timers. */
  const INIT_HERTZ: byte := 60
  const HEIGHT: nat := 32
  const WIDTH: nat := 64
  const DISPLAY_SIZE: nat := WIDTH * HEIGHT
  const PROGRAM_START: nat := 0x200
  const FONTS_START: nat := 0x50
  /** Number of bytes of one font glyph. */
  const FONT_LEN: nat := 5
  const MEMORY_SIZE: nat := 0x1000
  const SPRITE_WIDTH: nat := 8
  const STACK_SIZE: nat := 16

  /** Keyboard keys to logical key codes, as written (note "3" maps to 4 and "e" to 5). */
  const INPUT_MAP: map<string, nibble> := map[
    "1" := 1, "2" := 2, "3" := 4, "4" := 0xC,
    "q" := 4, "w" := 5, "e" := 5, "r" := 0xD,
    "a" := 7, "s" := 8, "d" := 9, "f" := 0xE,
    "z" := 0xA, "x" := 0, "c" := 0xB, "v" := 0xF
  ]

  /** The 16 glyphs 0..F, five bytes each. */
  const FONT_SET: seq<byte> := [
    0xF0, 0x90, 0x90, 0x90, 0xF0, // 0
    0x20, 0x60, 0x20, 0x20, 0x70, // 1
    0xF0, 0x10, 0xF0, 0x80, 0xF0, // 2
    0xF0, 0x10, 0xF0, 0x10, 0xF0, // 3
    0x90, 0x90, 0xF0, 0x10, 0x10, // 4
    0xF0, 0x80, 0xF0, 0x10, 0xF0, // 5
    0xF0, 0x80, 0xF0, 0x90, 0xF0, // 6
    0xF0, 0x10, 0x20, 0x40, 0x40, // 7
    0xF0, 0x90, 0xF0, 0x90, 0xF0, // 8
    0xF0, 0x90, 0xF0, 0x10, 0xF0, // 9
    0xF0, 0x90, 0xF0, 0x90, 0x90, // A
    0xE0, 0x90, 0xE0, 0x90, 0xE0, // B
    0xF0, 0x80, 0x80, 0x80, 0xF0, // C
    0xE0, 0x90, 0x90, 0x90, 0xE0, // D
    0xF0, 0x80, 0xF0, 0x80, 0xF0, // E
    0xF0, 0x80, 0xF0, 0x80, 0x80  // F
  ]

  /** The value FX0A stores for a key: `INPUT_MAP[key]`, and 0 (undefined stored into a Uint8Array) for an unmapped key. */
  function KeyValue(key: string): (v: byte)
    ensures v <= 0xF
    ensures key in INPUT_MAP ==> v == INPUT_MAP[key]
    ensures key !in INPUT_MAP ==> v == 0
  {
    if key in INPUT_MAP then INPUT_MAP[key] else 0
  }
}
