/** `Buffer.prototype.toString("hex")`: each byte becomes two lower-case
    hexadecimal digits, high nibble first. The decoder is the inverse used to
    state what the encoding preserves. */
module Hex {
  import opened Seqs

  newtype byte = x: int | 0 <= x < 256

  predicate IsHexDigit(c: char)
  {
    '0' <= c <= '9' || 'a' <= c <= 'f'
  }

  predicate IsHexString(s: string)
  {
    forall k :: 0 <= k < |s| ==> IsHexDigit(s[k])
  }

  /** The lower-case digit of a value below 16. */
  function DigitChar(d: nat): (c: char)
    requires d < 16
    ensures IsHexDigit(c)
  {
    if d < 10 then ('0' as int + d) as char else ('a' as int + d - 10) as char
  }

  /** The value of one lower-case hexadecimal digit. */
  function DigitValue(c: char): (v: Option<nat>)
    ensures v.Some? <==> IsHexDigit(c)
    ensures v.Some? ==> v.value < 16 && DigitChar(v.value) == c
  {
    if '0' <= c <= '9' then Some(c as int - '0' as int)
    else if 'a' <= c <= 'f' then Some(c as int - 'a' as int + 10)
    else None
  }

  function Encode(bytes: seq<byte>): (r: string)
    ensures |r| == 2 * |bytes|
    ensures IsHexString(r)
  {
    if bytes == [] then []
    else
      var b := bytes[0] as int;
      [DigitChar(b / 16), DigitChar(b % 16)] + Encode(bytes[1..])
  }

  /** Reads pairs of digits back into bytes; fails on an odd length or a
      character that is not a lower-case hexadecimal digit. */
  function Decode(s: string): (r: Option<seq<byte>>)
    ensures r.Some? ==> 2 * |r.value| == |s|
    decreases |s|
  {
    if |s| < 2 then (if s == [] then Some([]) else None)
    else
      var hi, lo, rest := DigitValue(s[0]), DigitValue(s[1]), Decode(s[2..]);
      if hi.Some? && lo.Some? && rest.Some?
      then Some([(hi.value * 16 + lo.value) as byte] + rest.value)
      else None
  }

  lemma ByteSplit(b: byte)
    ensures DigitValue(DigitChar(b as int / 16)) == Some(b as int / 16)
    ensures DigitValue(DigitChar(b as int % 16)) == Some(b as int % 16)
    ensures ((b as int / 16) * 16 + b as int % 16) as byte == b
  {
  }

  lemma DecodePair(s: string, hi: nat, lo: nat, rest: seq<byte>)
    requires |s| >= 2 && hi < 16 && lo < 16
    requires DigitValue(s[0]) == Some(hi) && DigitValue(s[1]) == Some(lo)
    requires Decode(s[2..]) == Some(rest)
    ensures Decode(s) == Some([(hi * 16 + lo) as byte] + rest)
  {
  }

  /** Decoding an encoding gives the bytes back. */
  lemma {:induction false} DecodeEncode(bytes: seq<byte>)
    ensures Decode(Encode(bytes)) == Some(bytes)
  {
    if bytes != [] {
      var b := bytes[0] as int;
      var hi, lo := b / 16, b % 16;
      var tail := Encode(bytes[1..]);
      var s := Encode(bytes);
      assert s == [DigitChar(hi), DigitChar(lo)] + tail;
      assert s[0] == DigitChar(hi) && s[1] == DigitChar(lo) && s[2..] == tail;
      ByteSplit(bytes[0]);
      DecodeEncode(bytes[1..]);
      DecodePair(s, hi, lo, bytes[1..]);
      assert [bytes[0]] + bytes[1..] == bytes;
    }
  }

  /** Distinct byte strings give distinct tokens. */
  lemma EncodeInjective(a: seq<byte>, b: seq<byte>)
    requires Encode(a) == Encode(b)
    ensures a == b
  {
    DecodeEncode(a);
    DecodeEncode(b);
  }
}
