/**
 * The memory map of the virtual machine: one flat store of 4096 bytes with
 * the font table at 0x050, the program image from 0x200 and the frame buffer
 * at 0xF00..0xFFF. The frame buffer is ordinary memory, so every opcode that
 * writes memory can write the display.
 */
module MemoryMap {
  import opened Bytes

  const MemorySize := 0x1000
  const FontStart := 0x050
  const ProgramStart := 0x200
  /** `load_file` reads the ROM up to, not including, this address. */
  const ProgramEnd := 0xEA0
  const FrameStart := 0xF00
  const ScreenWidth := 64
  const ScreenHeight := 32

  type Memory = m: seq<byte> | |m| == 0x1000 witness seq(0x1000, _ => 0)

  /** The register file V0..VF. */
  type Registers = v: seq<byte> | |v| == 0x10 witness seq(0x10, _ => 0)

  /** The index of a V register. */
  type Reg = r: int | 0 <= r < 0x10

  /** The flag register VF. */
  const VF: Reg := 0xF

  /** Sixteen glyphs 0..F, five rows each. */
  const Font: seq<byte> := [
    0xf0, 0x90, 0x90, 0x90, 0xf0, // 0
    0x20, 0x60, 0x20, 0x20, 0x70, // 1
    0xf0, 0x10, 0xf0, 0x80, 0xf0, // 2
    0xf0, 0x10, 0xf0, 0x10, 0xf0, // 3
    0x90, 0x90, 0xf0, 0x10, 0x10, // 4
    0xf0, 0x80, 0xf0, 0x10, 0xf0, // 5
    0xf0, 0x80, 0xf0, 0x90, 0xf0, // 6
    0xf0, 0x10, 0x20, 0x40, 0x40, // 7
    0xf0, 0x90, 0xf0, 0x90, 0xf0, // 8
    0xf0, 0x90, 0xf0, 0x10, 0xf0, // 9
    0xf0, 0x90, 0xf0, 0x90, 0x90, // a
    0xe0, 0x90, 0xe0, 0x90, 0xe0, // b
    0xf0, 0x80, 0x80, 0x80, 0xf0, // c
    0xe0, 0x90, 0x90, 0x90, 0xe0, // d
    0xf0, 0x80, 0xf0, 0x80, 0xf0, // e
    0xf0, 0x80, 0xf0, 0x80, 0x80  // f
  ]

  /**
   * The cell an address denotes. The repository indexes memory at `I + i`,
   * `I + 2` and at sprite destinations without a bounds check; this model
   * wraps every such address modulo 0x1000.
   */
  function Addr(a: int): (r: int)
    ensures 0 <= r < MemorySize
    ensures 0 <= a < MemorySize ==> r == a
  {
    a % MemorySize
  }

  /** Two addresses less than a memory size apart denote the same cell only if equal. */
  lemma AddrInjective(a: int, b: int)
    requires -MemorySize < a - b < MemorySize
    ensures Addr(a) == Addr(b) <==> a == b
  {
  }

  /** An all-zero memory. */
  function Zeros(): (m: Memory)
    ensures forall a :: 0 <= a < MemorySize ==> m[a] == 0
  {
    seq(MemorySize, _ => 0)
  }

  /** `mem` with `data` copied in at address `at`, as `std::copy` and `istream::read` do. */
  function CopyInto(mem: Memory, at: nat, data: seq<byte>): (r: Memory)
    requires at + |data| <= MemorySize
    ensures forall k :: 0 <= k < |data| ==> r[at + k] == data[k]
    ensures forall a :: 0 <= a < MemorySize && !(at <= a < at + |data|) ==> r[a] == mem[a]
  {
    var r := mem[..at] + data + mem[at + |data|..];
    assert forall k :: 0 <= k < |data| ==> r[at + k] == data[k];
    r
  }

  /** The frame-buffer byte holding pixel (`px`, `py`): rows of eight bytes, eight pixels per byte. */
  function PixelAddress(px: int, py: int): int
  {
    FrameStart + py * 8 + px / 8
  }

  /** The mask `1 << (7 - c)` selecting column `c` of a frame-buffer byte: the leftmost pixel is the most significant bit. */
  const PixelMask: seq<byte> := [0x80, 0x40, 0x20, 0x10, 0x08, 0x04, 0x02, 0x01]

  /** The mask for column `c` selects bit `7 - c`. */
  lemma PixelMaskBit(a: byte, c: int)
    requires 0 <= c < 8
    ensures Overlap(a, PixelMask[c]) == BitSet(a, 7 - c as bv8)
  {
  }

  /** Whether pixel (`px`, `py`) is lit. */
  predicate Pixel(mem: Memory, px: int, py: int)
    requires 0 <= px < ScreenWidth && 0 <= py < ScreenHeight
  {
    Overlap(mem[PixelAddress(px, py)], PixelMask[px % 8])
  }

  /** Every on-screen pixel lives in the frame buffer. */
  lemma PixelAddressInFrame(px: int, py: int)
    requires 0 <= px < ScreenWidth && 0 <= py < ScreenHeight
    ensures FrameStart <= PixelAddress(px, py) < MemorySize
  {
  }

  /**
   * Distinct on-screen pixels are distinct bits of the frame buffer: the
   * byte and the bit position together determine the pixel.
   */
  lemma PixelsDistinct(px: int, py: int, qx: int, qy: int)
    requires 0 <= px < ScreenWidth && 0 <= py < ScreenHeight
    requires 0 <= qx < ScreenWidth && 0 <= qy < ScreenHeight
    requires PixelAddress(px, py) == PixelAddress(qx, qy) && px % 8 == qx % 8
    ensures px == qx && py == qy
  {
  }
}
