/** The words exchanged with the I2C bitstream engine: command words pushed onto a
    state machine's TX FIFO and response words pulled from its RX FIFO
    (lib/nbi.h, lib/nbi.c). */
module Codec {

  type Byte = bv8
  type Word = bv32

  // The option flags of options_t; ACK is the absence of NACK.
  const STOP: Word := 0x01
  const REPLY: Word := 0x02
  const ACK: Word := 0x00
  const NACK: Word := 0x04
  const START: Word := 0x800

  /** A subset of {START, NACK, REPLY, STOP} as a caller or-s them together. */
  datatype Options = Options(start: bool, nack: bool, reply: bool, stop: bool)

  /** The options_t value built from the flags. */
  function OptionBits(o: Options): Word
  {
    (if o.start then START else 0) | (if o.nack then NACK else ACK)
      | (if o.reply then REPLY else 0) | (if o.stop then STOP else 0)
  }

  /** The record nbi_send pushes: a 12-bit field (data above three flag bits, START
      above the data) left-justified in 32 bits. */
  function Encode(data: Byte, o: Options): (w: Word)
    ensures w & 0xF_FFFF == 0
    ensures (w >> 23) & 0xFF == data as Word
    ensures (w & 0x8000_0000 != 0) == o.start
    ensures (w & 0x40_0000 != 0) == o.nack
    ensures (w & 0x20_0000 != 0) == o.reply
    ensures (w & 0x10_0000 != 0) == o.stop
  {
    ((data as Word << 3) | OptionBits(o)) << 20
  }

  datatype Command = Command(data: Byte, opts: Options)

  /** How the engine reads a command word: each field from its own bit positions. */
  function DecodeCommand(w: Word): Command
  {
    Command(((w >> 23) & 0xFF) as Byte,
            Options(w & 0x8000_0000 != 0, w & 0x40_0000 != 0, w & 0x20_0000 != 0, w & 0x10_0000 != 0))
  }

  /** The fields never overlap: the engine recovers the data and every flag. */
  lemma CommandRoundTrip(data: Byte, o: Options)
    ensures DecodeCommand(Encode(data, o)) == Command(data, o)
  {
  }

  /** Distinct (data, options) pairs give distinct command words. */
  lemma EncodeInjective(d1: Byte, o1: Options, d2: Byte, o2: Options)
    requires Encode(d1, o1) == Encode(d2, o2)
    ensures d1 == d2 && o1 == o2
  {
    CommandRoundTrip(d1, o1);
    CommandRoundTrip(d2, o2);
  }

  /** What nbi_receive makes of a response word: the byte and whether it was ACKed. */
  datatype Response = Response(data: Byte, ack: bool)

  function DecodeResponse(w: Word): (r: Response)
    ensures r.ack <==> w & 1 == 0
    ensures r.data as Word == (w >> 1) & 0xFF
  {
    Response(((w >> 1) & 0xFF) as Byte, (!w) & 1 != 0)
  }

  /** The engine's side of the response layout: the byte in bits 8..1 and the
      sampled acknowledge bit (low for ACK, per section 3.1.6 of UM10204) in bit 0. */
  function ResponseWord(data: Byte, ack: bool): Word
  {
    (data as Word << 1) | (if ack then 0 else 1)
  }

  lemma ResponseRoundTrip(data: Byte, ack: bool)
    ensures DecodeResponse(ResponseWord(data, ack)) == Response(data, ack)
  {
  }

  /** Only bits 8..0 of a response word matter. */
  lemma DecodeReadsLowNineBits(w1: Word, w2: Word)
    requires w1 & 0x1FF == w2 & 0x1FF
    ensures DecodeResponse(w1) == DecodeResponse(w2)
  {
  }

  /** rw_t of lib/nbi.h: WRITE = 0, READ = 1. */
  datatype Direction = Write | Read

  /** The first byte of a transfer: the 7-bit device address followed by the R/W
      bit (section 3.1.10 of the NXP I2C-bus specification UM10204). */
  function AddressByte(addr: nat, rw: Direction): (b: Byte)
    requires addr < 128
    ensures b >> 1 == addr as Byte
    ensures (b & 1 == 1) <==> rw == Read
  {
    (addr as Byte << 1) | (if rw == Read then 1 else 0)
  }
}
