/** The Micro16 instruction-set table shared by the CPU and the assembler:
    sizes of the memory, opcode bytes, and the operand-byte field layout.
    Registers, addresses and instruction words are C++ `unsigned int`s (32 bits)
    and bytes are `unsigned char`s; both are modelled as bounded integers, and
    the bit masks and shifts the source applies as the equivalent divisions and
    remainders by powers of two. */
module Isa {

  const BANK_SIZE: int := 64 * 1024
  const N_BANKS: int := 4
  const CODE_BANK: int := 0
  const MMIO_BANK: int := 1
  const IT_BANK: int := 1
  /** Base of the interrupt vector table in bank 1; timer `id` owns the word at IT_ADDR + 4 * id. */
  const IT_ADDR: int := 0x7D00

  /** An `unsigned int`: registers, addresses and instruction words. */
  type U32 = x: int | 0 <= x < 0x1_0000_0000

  /** An `unsigned char`: one memory cell, one opcode or operand byte. */
  type Byte = b: int | 0 <= b < 0x100

  // Arithmetic and logic
  const NOP_CODE: Byte := 0x00
  const ADD_CODE: Byte := 0x01
  const SUB_CODE: Byte := 0x02
  const AND_CODE: Byte := 0x03
  const OR_CODE: Byte := 0x04
  const XOR_CODE: Byte := 0x05
  const INC_CODE: Byte := 0x06
  const DEC_CODE: Byte := 0x07
  const SET_CODE: Byte := 0x08
  const CLR_CODE: Byte := 0x0A
  const NOT_CODE: Byte := 0x0B
  // Branches
  const JMP_CODE: Byte := 0x80
  const BRE_CODE: Byte := 0x82
  const BRNE_CODE: Byte := 0x83
  const BRL_CODE: Byte := 0x84
  const BRH_CODE: Byte := 0x85
  const CALL_CODE: Byte := 0x86
  const RET_CODE: Byte := 0x87
  const RETI_CODE: Byte := 0x88
  const BRNZ_CODE: Byte := 0x89
  // Memory
  const LD_CODE: Byte := 0x41
  const ST_CODE: Byte := 0x42
  const CPY_CODE: Byte := 0x43
  const PUSH_CODE: Byte := 0x48
  const POP_CODE: Byte := 0x49
  const PEEK_CODE: Byte := 0x4A
  // Control
  const DAI_CODE: Byte := 0xC0
  const EAI_CODE: Byte := 0xC1
  const DTI_CODE: Byte := 0xC2
  const ETI_CODE: Byte := 0xC3
  const SELB_CODE: Byte := 0xC4
  const BRK_CODE: Byte := 0xFE
  const HLT_CODE: Byte := 0xFF

  /** A register selector, 0..3. */
  type RegIndex = i: int | 0 <= i < 4

  /** `(instruction & 0xff00) >> 8`: the opcode is bits 15..8 of the instruction word. */
  function Opcode(instruction: U32): Byte {
    instruction / 0x100 % 0x100
  }

  /** `instruction & 0x00ff`: the operand byte is bits 7..0. */
  function Operand(instruction: U32): Byte {
    instruction % 0x100
  }

  /** Operand fields, named after the bits the decoder masks out: `aa`, `bb`, `cc`, `yy`, `xxxx`, `a`. */
  function Bits10(data: Byte): RegIndex { data % 4 }
  function Bits32(data: Byte): RegIndex { data / 4 % 4 }
  function Bits54(data: Byte): RegIndex { data / 0x10 % 4 }
  function Bits76(data: Byte): RegIndex { data / 0x40 % 4 }
  function Bits3210(data: Byte): int { data % 0x10 }
  function Bit0(data: Byte): int { data % 2 }

  /** `(hi << 8) + lo`: two bytes read as a big-endian 16-bit word. */
  function Word(hi: Byte, lo: Byte): (v: U32)
    ensures v < 0x10000
  {
    hi * 0x100 + lo
  }

  /** `(v & 0xff00) >> 8` and `(v & 0x00ff) >> 0`, each stored into a byte. */
  function HighByte(v: U32): Byte { v / 0x100 % 0x100 }
  function LowByte(v: U32): Byte { v % 0x100 }

  /** Division by a positive `d` is unique: the quotient and remainder of `q * d + r` with
      `0 <= r < d` are `q` and `r`. Every field extraction is proved through this. */
  lemma DivModUnique(a: int, d: int, q: int, r: int)
    requires d > 0 && 0 <= r < d && a == q * d + r
    ensures a / d == q && a % d == r
  {
    var q', r' := a / d, a % d;
    assert a == q' * d + r';
    assert q > q' ==> q * d >= (q' + 1) * d;
    assert q < q' ==> q' * d >= (q + 1) * d;
  }

  /** Splitting a register into its two low bytes and joining them back keeps its low 16 bits;
      joining two bytes and splitting the word gives the bytes back. */
  lemma WordBytes(v: U32, hi: Byte, lo: Byte)
    ensures Word(HighByte(v), LowByte(v)) == v % 0x10000
    ensures HighByte(Word(hi, lo)) == hi && LowByte(Word(hi, lo)) == lo
  {
  }

  /** An instruction word is its opcode byte followed by its operand byte. */
  lemma InstructionBytes(instruction: U32)
    ensures Word(Opcode(instruction), Operand(instruction)) == instruction % 0x10000
    ensures Opcode(instruction) == HighByte(instruction) && Operand(instruction) == LowByte(instruction)
  {
  }
}
