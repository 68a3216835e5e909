/**
 * The `hex` crate's `decode` and `encode`, on bytes: two hexadecimal
 * digits (either case) per byte, most significant first; an odd length or
 * a non-digit is an error.
 */
module Hex {
  import opened Common
  import CG = CoreGithub

  type byte = CG.byte

  /** The value of a hexadecimal digit: `0`-`9`, `a`-`f` or `A`-`F`. */
  function DigitValue(b: byte): (v: Option<int>)
    ensures v.Some? ==> 0 <= v.value < 16
    ensures v.Some? <==> 48 <= b <= 57 || 97 <= b <= 102 || 65 <= b <= 70
  {
    if 48 <= b <= 57 then Some(b as int - 48)
    else if 97 <= b <= 102 then Some(b as int - 87)
    else if 65 <= b <= 70 then Some(b as int - 55)
    else None
  }

  predicate IsDigit(b: byte) {
    DigitValue(b).Some?
  }

  /** `hex::decode`. */
  function Decode(s: seq<byte>): (r: Option<seq<byte>>)
    ensures r.Some? <==> |s| % 2 == 0 && forall i :: 0 <= i < |s| ==> IsDigit(s[i])
    ensures r.Some? ==> 2 * |r.value| == |s|
    decreases |s|
  {
    if |s| % 2 != 0 then None
    else if s == [] then Some([])
    else
      var hi := DigitValue(s[0]);
      var lo := DigitValue(s[1]);
      var rest := Decode(s[2..]);
      if hi.None? || lo.None? then None
      else if rest.None? then
        assert exists i :: 0 <= i < |s[2..]| && !IsDigit(s[2..][i]);
        None
      else
        var r := [(16 * hi.value + lo.value) as byte] + rest.value;
        assert forall k :: 1 <= k < |r| ==> r[k] == rest.value[k - 1];
        assert forall i :: 2 <= i < |s| ==> s[i] == s[2..][i - 2];
        Some(r)
  }

  /** The lower-case digit for `0 <= n < 16`. */
  function Digit(n: int): (b: byte)
    requires 0 <= n < 16
    ensures DigitValue(b) == Some(n)
  {
    if n < 10 then (48 + n) as byte else (87 + n) as byte
  }

  /** `hex::encode`: two lower-case digits per byte. */
  function Encode(b: seq<byte>): (s: seq<byte>)
    ensures |s| == 2 * |b|
  {
    if b == [] then []
    else [Digit(b[0] as int / 16), Digit(b[0] as int % 16)] + Encode(b[1..])
  }

  /** Decoding a digit pair followed by a decodable rest. */
  lemma DecodeCons(hi: byte, lo: byte, rest: seq<byte>)
    requires IsDigit(hi) && IsDigit(lo) && Decode(rest).Some?
    ensures Decode([hi, lo] + rest) == Some([(16 * DigitValue(hi).value + DigitValue(lo).value) as byte] + Decode(rest).value)
  {
    assert ([hi, lo] + rest)[2..] == rest;
  }

  /** Decoding what was encoded gives the bytes back. */
  lemma {:induction false} DecodeEncode(b: seq<byte>)
    ensures Decode(Encode(b)) == Some(b)
  {
    if b != [] {
      DecodeEncode(b[1..]);
      var hi, lo := b[0] as int / 16, b[0] as int % 16;
      assert Encode(b) == [Digit(hi), Digit(lo)] + Encode(b[1..]);
      assert 16 * hi + lo == b[0] as int;
      DecodeCons(Digit(hi), Digit(lo), Encode(b[1..]));
      assert [b[0]] + b[1..] == b;
    }
  }
}
