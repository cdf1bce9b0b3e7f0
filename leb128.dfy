/** LEB128 variable-length integers, as defined for the WebAssembly binary
    format in section 5.2.2 of the WebAssembly Core Specification 1.0.
    Each byte carries seven payload bits, least significant group first; the
    high bit (0x80) is set on every byte except the last. The signed variant
    uses bit 0x40 of the last byte as the sign of the final group.
    The encoders follow the byte-at-a-time loop of the `leb128` crate that the
    source calls; the decoders are independent reference definitions. */
module Leb128 {
  import opened Ints
  import opened Wrappers

  /** Unsigned LEB128: low seven bits first, continuation bit on all but the
      last byte; values below 128 are a single byte equal to the value. */
  function EncodeUnsigned(x: nat): (r: seq<u8>)
    ensures 1 <= |r|
    ensures x < 0x80 ==> r == [x]
  {
    if x < 0x80 then [x] else [x % 0x80 + 0x80] + EncodeUnsigned(x / 0x80)
  }

  /** The continuation bit is set on every byte but the last. */
  lemma {:induction false} UnsignedShape(x: nat)
    ensures EncodeUnsigned(x)[|EncodeUnsigned(x)| - 1] < 0x80
    ensures forall i :: 0 <= i < |EncodeUnsigned(x)| - 1 ==> EncodeUnsigned(x)[i] >= 0x80
  {
    if x >= 0x80 {
      UnsignedShape(x / 0x80);
    }
  }

  /** Reads one unsigned LEB128 value from the front of `s`, giving the value
      and the number of bytes it occupied; None when `s` ends mid-value. */
  function DecodeUnsigned(s: seq<u8>): (r: Option<(nat, nat)>)
    ensures r.Some? ==> 1 <= r.value.1 <= |s|
  {
    if |s| == 0 then None
    else if s[0] < 0x80 then Some((s[0], 1))
    else
      match DecodeUnsigned(s[1..])
      case None => None
      case Some((v, n)) => Some((s[0] - 0x80 + 0x80 * v, n + 1))
  }

  /** Decoding an encoding gives the value back and consumes exactly the
      encoding, whatever follows it. */
  lemma {:induction false} UnsignedRoundTrip(x: nat, rest: seq<u8>)
    ensures DecodeUnsigned(EncodeUnsigned(x) + rest) == Some((x, |EncodeUnsigned(x)|))
  {
    if x >= 0x80 {
      var e := EncodeUnsigned(x);
      assert (e + rest)[1..] == EncodeUnsigned(x / 0x80) + rest;
      UnsignedRoundTrip(x / 0x80, rest);
    }
  }

  function Pow128(k: nat): (r: nat)
    ensures r >= 1
  {
    if k == 0 then 1 else 0x80 * Pow128(k - 1)
  }

  lemma {:induction false} UnsignedWidth(x: nat, k: nat)
    requires 1 <= k && x < Pow128(k)
    ensures |EncodeUnsigned(x)| <= k
  {
    if x >= 0x80 {
      assert Pow128(1) == 0x80;
      assert x / 0x80 < Pow128(k - 1);
      UnsignedWidth(x / 0x80, k - 1);
    }
  }

  /** A u32 never takes more than five bytes (ceil(32 / 7)). */
  lemma U32Width(x: u32)
    ensures |EncodeUnsigned(x)| <= 5
  {
    assert Pow128(5) == 0x8_0000_0000;
    UnsignedWidth(x, 5);
  }

  /** The encoder stops when the remaining value is all sign bits and the sign
      bit (0x40) of the current group agrees with them. */
  predicate SignedDone(x: int)
  {
    (x / 0x80 == 0 && x % 0x80 < 0x40) || (x / 0x80 == -1 && x % 0x80 >= 0x40)
  }

  function Magnitude(x: int): nat
  {
    if x < 0 then -x else x
  }

  lemma ShiftShrinks(x: int)
    requires !SignedDone(x)
    ensures Magnitude(x / 0x80) < Magnitude(x)
  {
  }

  /** Signed LEB128 of a two's-complement value: `x % 0x80` is the low seven
      bits and `x / 0x80` the arithmetic shift right by seven (Dafny's
      division by a positive constant rounds down). */
  function EncodeSigned(x: int): (r: seq<u8>)
    ensures 1 <= |r|
    ensures -0x40 <= x < 0x40 ==> r == [x % 0x80]
    decreases Magnitude(x)
  {
    if SignedDone(x) then [x % 0x80]
    else
      ShiftShrinks(x);
      [x % 0x80 + 0x80] + EncodeSigned(x / 0x80)
  }

  /** The continuation bit is set on every byte but the last. */
  lemma {:induction false} SignedShape(x: int)
    ensures EncodeSigned(x)[|EncodeSigned(x)| - 1] < 0x80
    ensures forall i :: 0 <= i < |EncodeSigned(x)| - 1 ==> EncodeSigned(x)[i] >= 0x80
    decreases Magnitude(x)
  {
    if !SignedDone(x) {
      ShiftShrinks(x);
      SignedShape(x / 0x80);
    }
  }

  /** Reads one signed LEB128 value from the front of `s`. */
  function DecodeSigned(s: seq<u8>): (r: Option<(int, nat)>)
    ensures r.Some? ==> 1 <= r.value.1 <= |s|
  {
    if |s| == 0 then None
    else if s[0] < 0x80 then Some((if s[0] < 0x40 then s[0] as int else s[0] as int - 0x80, 1))
    else
      match DecodeSigned(s[1..])
      case None => None
      case Some((v, n)) => Some((s[0] - 0x80 + 0x80 * v, n + 1))
  }

  lemma {:induction false} SignedRoundTrip(x: int, rest: seq<u8>)
    ensures DecodeSigned(EncodeSigned(x) + rest) == Some((x, |EncodeSigned(x)|))
    decreases Magnitude(x)
  {
    if !SignedDone(x) {
      ShiftShrinks(x);
      var e := EncodeSigned(x);
      assert (e + rest)[1..] == EncodeSigned(x / 0x80) + rest;
      SignedRoundTrip(x / 0x80, rest);
    }
  }
}
