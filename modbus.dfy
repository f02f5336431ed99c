/**
 * Word reconstruction for the Modbus path: four 16-bit holding registers
 * become two 32-bit words. Each register is turned into its two bytes as
 * `BitConverter.GetBytes(ushort)` does on a little-endian host (low byte
 * first), the bytes of registers 0 and 1 (and of 2 and 3) are concatenated,
 * and `BitConverter.ToSingle` reads the four bytes as one little-endian word.
 * Only the bit pattern is modelled here, not its IEEE-754 meaning.
 */
module ModbusDecoder {

  type Byte = x: int | 0 <= x < 0x100
  /** A Modbus holding register (`ushort`). */
  type Register = x: int | 0 <= x < 0x1_0000
  /** The 32-bit pattern `BitConverter.ToSingle` interprets. */
  type Word = x: int | 0 <= x < 0x1_0000_0000

  /** The number of holding registers the service requests (unit id 1, from address 40001). */
  const RegisterCount: nat := 4

  /** The two words the register block carries: temperature first, then pressure. */
  datatype RegisterWords = RegisterWords(temperatureWord: Word, pressureWord: Word)

  /** `BitConverter.GetBytes(ushort)` on a little-endian host. */
  function GetBytes(r: Register): (b: seq<Byte>)
    ensures |b| == 2
    ensures b[0] as int + 0x100 * b[1] as int == r
  {
    [r % 0x100, r / 0x100]
  }

  /** The 32-bit word `BitConverter.ToSingle(bytes, start)` reads on a little-endian host. */
  function ToUInt32(bytes: seq<Byte>, start: nat): (w: Word)
    requires start + 4 <= |bytes|
    ensures w % 0x100 == bytes[start]
    ensures (w / 0x100) % 0x100 == bytes[start + 1]
    ensures (w / 0x1_0000) % 0x100 == bytes[start + 2]
    ensures w / 0x100_0000 == bytes[start + 3]
  {
    bytes[start] as int + 0x100 * bytes[start + 1] as int
      + 0x1_0000 * bytes[start + 2] as int + 0x100_0000 * bytes[start + 3] as int
  }

  /**
   * The word built from a register pair: the bytes of `low` followed by the
   * bytes of `high`. The first register is the low-order half.
   */
  function DecodeWord(low: Register, high: Register): (w: Word)
    ensures w == low as int + 0x1_0000 * high as int
  {
    var bytes := GetBytes(low) + GetBytes(high);
    assert bytes[0] as int + 0x100 * bytes[1] as int == low;
    assert bytes[2] as int + 0x100 * bytes[3] as int == high;
    ToUInt32(bytes, 0)
  }

  /** Decoding of the register block the service reads; it indexes registers 0 to 3. */
  function DecodeRegisters(registers: seq<Register>): (words: RegisterWords)
    requires |registers| >= RegisterCount
    ensures words.temperatureWord == registers[0] as int + 0x1_0000 * registers[1] as int
    ensures words.pressureWord == registers[2] as int + 0x1_0000 * registers[3] as int
  {
    RegisterWords(DecodeWord(registers[0], registers[1]), DecodeWord(registers[2], registers[3]))
  }

  /** The inverse of `DecodeWord`: a word's low and high 16-bit halves. */
  function SplitWord(w: Word): (halves: (Register, Register))
    ensures halves.0 as int + 0x1_0000 * halves.1 as int == w
  {
    (w % 0x1_0000, w / 0x1_0000)
  }

  /** Splitting a decoded word recovers the two registers it came from. */
  lemma SplitDecode(low: Register, high: Register)
    ensures SplitWord(DecodeWord(low, high)) == (low, high)
  {
  }

  /** Decoding the halves of a word gives the word back. */
  lemma DecodeSplit(w: Word)
    ensures DecodeWord(SplitWord(w).0, SplitWord(w).1) == w
  {
  }

  /** Decoding the register block is injective: distinct blocks give distinct words. */
  lemma DecodeRegistersInjective(a: seq<Register>, b: seq<Register>)
    requires |a| >= RegisterCount && |b| >= RegisterCount
    requires DecodeRegisters(a) == DecodeRegisters(b)
    ensures a[..RegisterCount] == b[..RegisterCount]
  {
  }
}
