/** UTF-8 (RFC 3629), encoding and strict decoding. */
module Utf8 {
  import opened Common

  type Byte = b: int | 0 <= b < 256

  function EncodeChar(c: char): (r: seq<Byte>)
    ensures 1 <= |r| <= 4
  {
    var n := c as int;
    if n < 0x80 then [n]
    else if n < 0x800 then [0xC0 + n / 64, 0x80 + n % 64]
    else if n < 0x10000 then [0xE0 + n / 4096, 0x80 + n / 64 % 64, 0x80 + n % 64]
    else [0xF0 + n / 262144, 0x80 + n / 4096 % 64, 0x80 + n / 64 % 64, 0x80 + n % 64]
  }

  function Encode(s: string): seq<Byte> {
    if s == "" then [] else EncodeChar(s[0]) + Encode(s[1..])
  }

  predicate Continues(b: Byte) {
    0x80 <= b < 0xC0
  }

  predicate IsScalar(n: int) {
    0 <= n < 0xD800 || 0xE000 <= n < 0x110000
  }

  /** The first character of `bs` and its length; overlong forms and surrogates are refused. */
  function DecodeChar(bs: seq<Byte>): (r: Option<(char, nat)>)
    ensures r.Some? ==> 1 <= r.value.1 <= |bs|
  {
    if bs == [] then None
    else
      var b: int := bs[0];
      if b < 0x80 then Some((b as char, 1))
      else if 0xC2 <= b < 0xE0 && |bs| >= 2 && Continues(bs[1]) then
        Some((Bits([b - 0xC0, bs[1] - 0x80]) as char, 2))
      else if 0xE0 <= b < 0xF0 && |bs| >= 3 && Continues(bs[1]) && Continues(bs[2]) then
        var n := Bits([b - 0xE0, bs[1] - 0x80, bs[2] - 0x80]);
        if 0x800 <= n && IsScalar(n) then Some((n as char, 3)) else None
      else if 0xF0 <= b < 0xF5 && |bs| >= 4 && Continues(bs[1]) && Continues(bs[2]) && Continues(bs[3]) then
        var n := Bits([b - 0xF0, bs[1] - 0x80, bs[2] - 0x80, bs[3] - 0x80]);
        if 0x10000 <= n && IsScalar(n) then Some((n as char, 4)) else None
      else None
  }

  /** Six bits from each part but the first. */
  function Bits(parts: seq<int>): int
    requires 2 <= |parts| <= 4
  {
    if |parts| == 2 then parts[0] * 64 + parts[1]
    else if |parts| == 3 then parts[0] * 4096 + parts[1] * 64 + parts[2]
    else parts[0] * 262144 + parts[1] * 4096 + parts[2] * 64 + parts[3]
  }

  function Decode(bs: seq<Byte>): Option<string>
    decreases |bs|
  {
    if bs == [] then Some("")
    else match DecodeChar(bs)
      case None => None
      case Some((c, n)) =>
        match Decode(bs[n..])
        case None => None
        case Some(s) => Some([c] + s)
  }

  lemma TwoBytes(n: int, bs: seq<Byte>)
    requires 0x80 <= n < 0x800 && |bs| >= 2 && bs[0] == 0xC0 + n / 64 && bs[1] == 0x80 + n % 64
    ensures DecodeChar(bs) == Some((n as char, 2))
  {
  }

  lemma ThreeBytes(n: int, bs: seq<Byte>)
    requires 0x800 <= n < 0x10000 && IsScalar(n) && |bs| >= 3
    requires bs[0] == 0xE0 + n / 4096 && bs[1] == 0x80 + n / 64 % 64 && bs[2] == 0x80 + n % 64
    ensures DecodeChar(bs) == Some((n as char, 3))
  {
    assert Bits([bs[0] - 0xE0, bs[1] - 0x80, bs[2] - 0x80]) == n;
  }

  lemma FourBytes(n: int, bs: seq<Byte>)
    requires 0x10000 <= n < 0x110000 && |bs| >= 4
    requires bs[0] == 0xF0 + n / 262144 && bs[1] == 0x80 + n / 4096 % 64 && bs[2] == 0x80 + n / 64 % 64 && bs[3] == 0x80 + n % 64
    ensures DecodeChar(bs) == Some((n as char, 4))
  {
    assert Bits([bs[0] - 0xF0, bs[1] - 0x80, bs[2] - 0x80, bs[3] - 0x80]) == n;
  }

  lemma CharRoundTrip(c: char, rest: seq<Byte>)
    ensures DecodeChar(EncodeChar(c) + rest) == Some((c, |EncodeChar(c)|))
  {
    var n := c as int;
    var bs := EncodeChar(c) + rest;
    if n < 0x80 {
      assert bs[0] == n;
    } else if n < 0x800 {
      TwoBytes(n, bs);
    } else if n < 0x10000 {
      ThreeBytes(n, bs);
    } else {
      FourBytes(n, bs);
    }
  }

  /** Decoding undoes encoding. */
  lemma {:induction false} RoundTrip(s: string)
    ensures Decode(Encode(s)) == Some(s)
  {
    if s != "" {
      var rest := Encode(s[1..]);
      CharRoundTrip(s[0], rest);
      assert (EncodeChar(s[0]) + rest)[|EncodeChar(s[0])|..] == rest;
      RoundTrip(s[1..]);
      assert [s[0]] + s[1..] == s;
    }
  }
}
