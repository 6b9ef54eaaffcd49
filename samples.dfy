/**
 * Reinterpretation of a datagram payload as signed integer PCM and the
 * conversion of those integers to playback samples.
 *
 * The Rust code casts the payload bytes to `i16` or `i32` in the host's
 * byte order; the target is little-endian, so each value is the
 * little-endian two's-complement reading of 2 or 4 consecutive bytes.
 * A trailing group shorter than the width is never read.
 */
module Samples {
  import opened Frame

  const I16Min: int := -0x8000
  const I16Max: int := 0x7FFF
  const I32Min: int := -0x8000_0000
  const I32Max: int := 0x7FFF_FFFF

  predicate IsI16(v: int) { I16Min <= v <= I16Max }
  predicate IsI32(v: int) { I32Min <= v <= I32Max }

  /** The little-endian two's-complement value of two bytes. */
  function Le16(b0: Byte, b1: Byte): (v: int)
    ensures IsI16(v)
    ensures (v + 0x1_0000) % 0x1_0000 == b0 + 0x100 * b1
  {
    var u := b0 + 0x100 * b1;
    if u <= I16Max then u else u - 0x1_0000
  }

  /** The little-endian two's-complement value of four bytes. */
  function Le32(b0: Byte, b1: Byte, b2: Byte, b3: Byte): (v: int)
    ensures IsI32(v)
    ensures (v + 0x1_0000_0000) % 0x1_0000_0000 == b0 + 0x100 * b1 + 0x1_0000 * b2 + 0x100_0000 * b3
  {
    var u := b0 + 0x100 * b1 + 0x1_0000 * b2 + 0x100_0000 * b3;
    if u <= I32Max then u else u - 0x1_0000_0000
  }

  /** The two bytes a little-endian sender writes for a 16-bit value. */
  function ToLe16(v: int): (b: seq<Byte>)
    requires IsI16(v)
    ensures |b| == 2
  {
    var u := if v < 0 then v + 0x1_0000 else v;
    [u % 0x100, u / 0x100]
  }

  /** The four bytes a little-endian sender writes for a 32-bit value. */
  function ToLe32(v: int): (b: seq<Byte>)
    requires IsI32(v)
    ensures |b| == 4
  {
    var u := if v < 0 then v + 0x1_0000_0000 else v;
    [u % 0x100, u / 0x100 % 0x100, u / 0x1_0000 % 0x100, u / 0x100_0000]
  }

  lemma Le16ToLe16(v: int)
    requires IsI16(v)
    ensures Le16(ToLe16(v)[0], ToLe16(v)[1]) == v
  {
  }

  lemma Le32ToLe32(v: int)
    requires IsI32(v)
    ensures Le32(ToLe32(v)[0], ToLe32(v)[1], ToLe32(v)[2], ToLe32(v)[3]) == v
  {
    var u := if v < 0 then v + 0x1_0000_0000 else v;
    assert u / 0x100 / 0x100 == u / 0x1_0000;
    assert u / 0x1_0000 / 0x100 == u / 0x100_0000;
  }

  lemma ToLe16Le16(b0: Byte, b1: Byte)
    ensures ToLe16(Le16(b0, b1)) == [b0, b1]
  {
  }

  lemma ToLe32Le32(b0: Byte, b1: Byte, b2: Byte, b3: Byte)
    ensures ToLe32(Le32(b0, b1, b2, b3)) == [b0, b1, b2, b3]
  {
    var x := b2 + 0x100 * b3;
    var w := b1 + 0x100 * x;
    var u := b0 + 0x100 * w;
    assert u == b0 + 0x100 * b1 + 0x1_0000 * b2 + 0x100_0000 * b3;
    assert u % 0x100 == b0 && u / 0x100 == w;
    assert w % 0x100 == b1 && w / 0x100 == x;
    assert x % 0x100 == b2 && x / 0x100 == b3;
    assert u / 0x1_0000 == x;
    assert u / 0x100_0000 == b3;
  }

  /** The payload read as consecutive 16-bit values; a trailing odd byte is ignored. */
  function I16s(p: seq<Byte>): (vs: seq<int>)
    ensures |vs| == |p| / 2
    ensures forall i :: 0 <= i < |vs| ==> vs[i] == Le16(p[2 * i], p[2 * i + 1])
    decreases |p|
  {
    if |p| < 2 then [] else [Le16(p[0], p[1])] + I16s(p[2..])
  }

  /** The payload read as consecutive 32-bit values; up to three trailing bytes are ignored. */
  function I32s(p: seq<Byte>): (vs: seq<int>)
    ensures |vs| == |p| / 4
    ensures forall i :: 0 <= i < |vs| ==> vs[i] == Le32(p[4 * i], p[4 * i + 1], p[4 * i + 2], p[4 * i + 3])
    decreases |p|
  {
    if |p| < 4 then [] else [Le32(p[0], p[1], p[2], p[3])] + I32s(p[4..])
  }

  /** A little-endian stream of 16-bit values, as a sender would write it. */
  function EncodeI16s(vs: seq<int>): (p: seq<Byte>)
    requires forall i :: 0 <= i < |vs| ==> IsI16(vs[i])
    ensures |p| == 2 * |vs|
  {
    if vs == [] then [] else ToLe16(vs[0]) + EncodeI16s(vs[1..])
  }

  /** A little-endian stream of 32-bit values, as a sender would write it. */
  function EncodeI32s(vs: seq<int>): (p: seq<Byte>)
    requires forall i :: 0 <= i < |vs| ==> IsI32(vs[i])
    ensures |p| == 4 * |vs|
  {
    if vs == [] then [] else ToLe32(vs[0]) + EncodeI32s(vs[1..])
  }

  lemma {:induction false} I16sEncodeI16s(vs: seq<int>)
    requires forall i :: 0 <= i < |vs| ==> IsI16(vs[i])
    ensures I16s(EncodeI16s(vs)) == vs
  {
    if vs != [] {
      var p := EncodeI16s(vs);
      assert p[2..] == EncodeI16s(vs[1..]);
      Le16ToLe16(vs[0]);
      I16sEncodeI16s(vs[1..]);
    }
  }

  lemma {:induction false} I32sEncodeI32s(vs: seq<int>)
    requires forall i :: 0 <= i < |vs| ==> IsI32(vs[i])
    ensures I32s(EncodeI32s(vs)) == vs
  {
    if vs != [] {
      var p := EncodeI32s(vs);
      assert p[4..] == EncodeI32s(vs[1..]);
      Le32ToLe32(vs[0]);
      I32sEncodeI32s(vs[1..]);
    }
  }

  /** Bytes past the last whole 16-bit group do not affect the values read. */
  lemma I16sIgnoresTail(p: seq<Byte>, tail: seq<Byte>)
    requires |p| % 2 == 0 && |tail| < 2
    ensures I16s(p + tail) == I16s(p)
  {
  }

  /** Bytes past the last whole 32-bit group do not affect the values read. */
  lemma I32sIgnoresTail(p: seq<Byte>, tail: seq<Byte>)
    requires |p| % 4 == 0 && |tail| < 4
    ensures I32s(p + tail) == I32s(p)
  {
  }

  /**
   * A 32-bit value scaled to [-1, 1]: negative values by the magnitude of
   * the minimum, the others by the maximum, so that negating the minimum
   * is never needed. Exact real arithmetic, not the f32 of the Rust code.
   */
  function Normalize32(v: int): (x: real)
    requires IsI32(v)
    ensures -1.0 <= x <= 1.0
    ensures x < 0.0 <==> v < 0
    ensures x == 0.0 <==> v == 0
    ensures x == -1.0 <==> v == I32Min
    ensures x == 1.0 <==> v == I32Max
  {
    if v < 0 then v as real / -(I32Min as real) else v as real / I32Max as real
  }

  /** Normalize32 keeps the order of the values it scales. */
  lemma Normalize32Monotonic(v: int, w: int)
    requires IsI32(v) && IsI32(w) && v <= w
    ensures Normalize32(v) <= Normalize32(w)
  {
  }

  /** The samples a payload of the given width contributes, in payload order. */
  function Decode(width: Byte, payload: seq<Byte>, from16: int -> real): (xs: seq<real>)
    ensures width == 16 ==> |xs| == |payload| / 2
    ensures width == 16 ==> forall i :: 0 <= i < |xs| ==>
      xs[i] == from16(Le16(payload[2 * i], payload[2 * i + 1]))
    ensures width == 32 ==> |xs| == |payload| / 4
    ensures width == 32 ==> forall i :: 0 <= i < |xs| ==>
      xs[i] == Normalize32(Le32(payload[4 * i], payload[4 * i + 1], payload[4 * i + 2], payload[4 * i + 3]))
    ensures width != 16 && width != 32 ==> xs == []
  {
    if width == 16 then
      var vs := I16s(payload);
      seq(|vs|, i requires 0 <= i < |vs| => from16(vs[i]))
    else if width == 32 then
      var vs := I32s(payload);
      seq(|vs|, i requires 0 <= i < |vs| => Normalize32(vs[i]))
    else
      []
  }

  /** A sender's 16-bit values come out of Decode converted one for one and in order. */
  lemma DecodeEncodeI16s(vs: seq<int>, from16: int -> real)
    requires forall i :: 0 <= i < |vs| ==> IsI16(vs[i])
    ensures var xs := Decode(16, EncodeI16s(vs), from16);
      |xs| == |vs| && forall i :: 0 <= i < |vs| ==> xs[i] == from16(vs[i])
  {
    I16sEncodeI16s(vs);
  }

  /** A sender's 32-bit values come out of Decode normalized one for one and in order. */
  lemma DecodeEncodeI32s(vs: seq<int>, from16: int -> real)
    requires forall i :: 0 <= i < |vs| ==> IsI32(vs[i])
    ensures var xs := Decode(32, EncodeI32s(vs), from16);
      |xs| == |vs| && forall i :: 0 <= i < |vs| ==> xs[i] == Normalize32(vs[i])
  {
    I32sEncodeI32s(vs);
  }
}
