/** The fixed-width values util.c puts on a channel: the native signed `long`
    of an operation frame and the native `size_t` length of a buffer frame.
    Both are W bytes wide.  Both ends of a channel are forked from one parent,
    so the byte order only has to agree with itself; it is fixed here as least
    significant byte first. */
module Codec {

  /** One byte on the channel. */
  newtype byte = b: int | 0 <= b < 256

  /** Width in bytes of `long` and of `size_t`. */
  const W: nat := 8

  /** Number of distinct W-byte words, 2^(8*W). */
  const WORD: nat := 0x1_0000_0000_0000_0000

  const SIZE_MAX: nat := WORD - 1
  const LONG_MAX: int := 0x7fff_ffff_ffff_ffff
  const LONG_MIN: int := -0x8000_0000_0000_0000

  predicate IsLong(x: int) { LONG_MIN <= x <= LONG_MAX }

  function Pow256(n: nat): nat
  {
    if n == 0 then 1 else 256 * Pow256(n - 1)
  }

  lemma WordIsPow256()
    ensures Pow256(W) == WORD
  {
  }

  /** The n least significant base-256 digits of x, least significant first. */
  function Digits(x: nat, n: nat): (s: seq<byte>)
    ensures |s| == n
  {
    if n == 0 then [] else [(x % 256) as byte] + Digits(x / 256, n - 1)
  }

  /** The number whose base-256 digits, least significant first, are s. */
  function Value(s: seq<byte>): (x: nat)
    ensures x < Pow256(|s|)
  {
    if s == [] then 0 else s[0] as nat + 256 * Value(s[1..])
  }

  lemma {:induction false} ValueOfDigits(x: nat, n: nat)
    requires x < Pow256(n)
    ensures Value(Digits(x, n)) == x
  {
    if n > 0 {
      ValueOfDigits(x / 256, n - 1);
      assert Digits(x, n)[1..] == Digits(x / 256, n - 1);
    }
  }

  lemma {:induction false} DigitsOfValue(s: seq<byte>)
    ensures Digits(Value(s), |s|) == s
  {
    if s != [] {
      DigitsOfValue(s[1..]);
      var x := Value(s);
      assert x % 256 == s[0] as int;
      assert x / 256 == Value(s[1..]);
      assert Digits(x, |s|) == [s[0]] + s[1..];
    }
  }

  /** The bytes of a `size_t` length field. */
  function EncodeSize(x: nat): (s: seq<byte>)
    requires x <= SIZE_MAX
    ensures |s| == W
  {
    Digits(x, W)
  }

  /** The `size_t` value held by W bytes. */
  function DecodeSize(s: seq<byte>): (x: nat)
    requires |s| == W
    ensures x <= SIZE_MAX
  {
    WordIsPow256();
    Value(s)
  }

  /** The bytes of a `long`, in two's complement. */
  function EncodeLong(x: int): (s: seq<byte>)
    requires IsLong(x)
    ensures |s| == W
  {
    Digits(if x < 0 then x + WORD else x, W)
  }

  /** The `long` value held by W bytes, in two's complement. */
  function DecodeLong(s: seq<byte>): (x: int)
    requires |s| == W
    ensures IsLong(x)
  {
    WordIsPow256();
    var u := Value(s);
    if u <= LONG_MAX then u else u - WORD
  }

  lemma SizeRoundTrip(x: nat)
    requires x <= SIZE_MAX
    ensures DecodeSize(EncodeSize(x)) == x
  {
    WordIsPow256();
    ValueOfDigits(x, W);
  }

  lemma SizeBytesRoundTrip(s: seq<byte>)
    requires |s| == W
    ensures EncodeSize(DecodeSize(s)) == s
  {
    DigitsOfValue(s);
  }

  lemma LongRoundTrip(x: int)
    requires IsLong(x)
    ensures DecodeLong(EncodeLong(x)) == x
  {
    WordIsPow256();
    ValueOfDigits(if x < 0 then x + WORD else x, W);
  }

  lemma LongBytesRoundTrip(s: seq<byte>)
    requires |s| == W
    ensures EncodeLong(DecodeLong(s)) == s
  {
    DigitsOfValue(s);
  }
}
