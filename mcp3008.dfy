/**
 * The SPI frames exchanged with an MCP3008 analog-to-digital converter, laid
 * out as in section 6.1 of the Microchip MCP3004/3008 datasheet ("Using the
 * MCP3004/3008 with Microcontroller SPI Ports"): the host sends three bytes and
 * clocks three bytes back; the ten result bits end up in the two low bits of
 * the second reply byte and the whole third reply byte.
 */
module Mcp3008 {

  type Byte = bv8

  /** The eight single-ended inputs of the multiplexer. */
  type Channel = c: int | 0 <= c < 8

  /** The largest value a 10-bit conversion yields. */
  const MaxSample: int := 1023

  /** The three bytes clocked in while the command frame is clocked out. */
  datatype Reply = Reply(first: Byte, high: Byte, low: Byte)

  /**
   * The command frame of one conversion: the start bit alone in the first
   * byte; SGL/DIFF = 1 and D2..D0 = channel in the top nibble of the second
   * byte; a dummy third byte.
   */
  function CommandFrame(channel: Channel): (frame: seq<Byte>)
    ensures |frame| == 3 && frame[0] == 1 && frame[2] == 0
    ensures frame[1] as int == 128 + 16 * channel
  {
    [1, ((8 + channel) as Byte) << 4, 0]
  }

  /** The start bit: the last bit of the first byte clocked out. */
  predicate HasStartBit(frame: seq<Byte>)
    requires |frame| == 3
  {
    frame[0] & 0x01 == 0x01
  }

  /** The SGL/DIFF bit of the second byte: set for a single-ended conversion. */
  predicate IsSingleEnded(b: Byte) {
    b & 0x80 == 0x80
  }

  /** The D2..D0 bits of the second byte: the multiplexer address. */
  function ChannelField(b: Byte): (c: Channel) {
    ((b >> 4) & 0x07) as int
  }

  /** The value of the conversion carried in a reply. */
  function Decode(reply: Reply): (v: int)
    ensures 0 <= v <= MaxSample
  {
    (((reply.high & 0x03) as bv16) << 8) as int + reply.low as int
  }

  /**
   * What the converter clocks back for sample `v`. The first byte and bits
   * 7..3 of the second are not defined. Bit 2 of the second byte is the null
   * bit, which the converter drives low. This model lets bits 7..2 be arbitrary,
   * which also covers the real replies.
   */
  function ChipReply(v: int, undriven0: Byte, undriven1: Byte): (reply: Reply)
    requires 0 <= v <= MaxSample
  {
    Reply(undriven0, ((v / 256) as Byte) | (undriven1 & 0xFC), (v % 256) as Byte)
  }

  /** The command frame addresses exactly the requested channel, single-ended. */
  lemma CommandFrameFields(channel: Channel)
    ensures HasStartBit(CommandFrame(channel))
    ensures IsSingleEnded(CommandFrame(channel)[1])
    ensures ChannelField(CommandFrame(channel)[1]) == channel
    ensures CommandFrame(channel)[1] & 0x0F == 0
  {
  }

  /** Distinct channels are sent distinct command bytes. */
  lemma CommandFrameInjective(c1: Channel, c2: Channel)
    requires c1 != c2
    ensures CommandFrame(c1)[1] != CommandFrame(c2)[1]
  {
  }

  /** Decoding what the converter sends gives back the sample, whatever the undriven bits. */
  lemma DecodeChipReply(v: int, undriven0: Byte, undriven1: Byte)
    requires 0 <= v <= MaxSample
    ensures Decode(ChipReply(v, undriven0, undriven1)) == v
  {
    var hi: Byte := (v / 256) as Byte;
    var lo: Byte := (v % 256) as Byte;
    LowBitsKept(hi, undriven1);
    ShiftedHigh(hi);
    assert lo as int == v % 256;
    assert hi as int == v / 256;
  }

  /** OR-ing in bits 2..7 leaves the two low bits of a value below 4 intact. */
  lemma LowBitsKept(hi: Byte, undriven: Byte)
    requires hi < 4
    ensures (hi | (undriven & 0xFC)) & 0x03 == hi
  {
  }

  /** Shifting a value below 4 eight places up multiplies it by 256. */
  lemma ShiftedHigh(hi: Byte)
    requires hi < 4
    ensures ((hi as bv16) << 8) as int == 256 * hi as int
  {
  }

  /** The first reply byte and bits 2..7 of the second do not affect the decoded value. */
  lemma DecodeIgnoresUndrivenBits(reply: Reply, first: Byte, mask: Byte)
    ensures Decode(Reply(first, reply.high ^ (mask & 0xFC), reply.low)) == Decode(reply)
  {
  }
}
