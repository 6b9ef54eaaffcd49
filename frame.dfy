/**
 * The five-byte datagram header of the Scream audio protocol and the
 * decoder that splits a received datagram into header and payload.
 *
 *   byte 0     bit 7 selects the sample rate (1: 44100 Hz, 0: 48000 Hz);
 *              bits 0-6 are ignored
 *   byte 1     sample width in bits
 *   byte 2     channel count
 *   bytes 3-4  channel map, big-endian 16-bit
 *   bytes 5..  interleaved PCM payload
 */
module Frame {
  import opened Wrappers

  type Byte = b: int | 0 <= b < 256

  /** Datagrams of at most this many bytes are discarded. */
  const HeaderSize: nat := 5

  const Rate44100: nat := 44100
  const Rate48000: nat := 48000

  datatype Header = Header(rate: nat, width: Byte, channels: Byte, channelMap: nat)

  datatype Datagram = Datagram(header: Header, payload: seq<Byte>)

  /** The sample rate selected by header byte 0: only its high bit matters. */
  function RateOf(b0: Byte): (rate: nat)
    ensures rate == Rate44100 || rate == Rate48000
    ensures rate == Rate44100 <==> b0 / 128 == 1
  {
    if b0 >= 128 then Rate44100 else Rate48000
  }

  /**
   * The channel map assembled from bytes 3 and 4, high byte first.
   * For 8-bit inputs the shift-and-or of the Rust code is this sum, the
   * two bytes occupying disjoint bit ranges of the 16-bit result.
   */
  function ChannelMap(hi: Byte, lo: Byte): (m: nat)
    ensures m < 65536
    ensures m / 256 == hi && m % 256 == lo
  {
    hi * 256 + lo
  }

  /** A header that some datagram can carry. */
  predicate WellFormed(h: Header) {
    (h.rate == Rate44100 || h.rate == Rate48000) && h.channelMap < 65536
  }

  /** Splits a received datagram; `None` means the datagram is skipped. */
  function Decode(d: seq<Byte>): (r: Option<Datagram>)
    ensures r.None? <==> |d| <= HeaderSize
    ensures r.Some? ==> WellFormed(r.value.header) && |r.value.payload| == |d| - HeaderSize
  {
    if |d| <= HeaderSize then None
    else
      Some(Datagram(
        Header(RateOf(d[0]), d[1], d[2], ChannelMap(d[3], d[4])),
        d[HeaderSize..]))
  }

  /** The datagram a sender emits for a header and payload (the partner of Decode). */
  function Encode(h: Header, payload: seq<Byte>): (d: seq<Byte>)
    requires WellFormed(h)
    ensures |d| == HeaderSize + |payload|
  {
    [if h.rate == Rate44100 then 128 else 0, h.width, h.channels,
     h.channelMap / 256, h.channelMap % 256] + payload
  }

  /** Decoding what a sender encoded gives back its header and payload. */
  lemma DecodeEncode(h: Header, payload: seq<Byte>)
    requires WellFormed(h) && |payload| > 0
    ensures Decode(Encode(h, payload)) == Some(Datagram(h, payload))
  {
  }

  /**
   * Decoding loses exactly the seven low bits of byte 0: re-encoding a
   * decoded datagram gives it back with those bits cleared.
   */
  lemma EncodeDecode(d: seq<Byte>)
    requires |d| > HeaderSize
    ensures Decode(d).Some?
    ensures Encode(Decode(d).value.header, Decode(d).value.payload) == d[0 := d[0] / 128 * 128]
  {
  }

  /** The rate ignores the reserved low bits of byte 0. */
  lemma RateIgnoresLowBits(b: Byte, c: Byte)
    requires b / 128 == c / 128
    ensures RateOf(b) == RateOf(c)
  {
  }

  /** Two datagrams that agree on bytes 0-4 up to the reserved bits decode to the same header. */
  lemma HeaderDependsOnlyOnHeaderBytes(d: seq<Byte>, e: seq<Byte>)
    requires |d| > HeaderSize && |e| > HeaderSize
    requires d[0] / 128 == e[0] / 128 && d[1..HeaderSize] == e[1..HeaderSize]
    ensures Decode(d).value.header == Decode(e).value.header
  {
  }
}
