/**
 * UTF-8: the bytes of a file and the text they spell. Decoding rejects what the encoding never
 * produces: stray continuation bytes, overlong and truncated sequences, surrogates and values
 * beyond the code space. Decoding undoes encoding for every text.
 */
module Utf8 {
  import opened Wrappers

  type byte = b: int | 0 <= b < 256

  type Bytes = seq<byte>

  function EncodeChar(c: char): (bs: Bytes)
    ensures 1 <= |bs| <= 4
  {
    var x := c as int;
    if x < 0x80 then [x]
    else if x < 0x800 then [0xC0 + x / 0x40, 0x80 + x % 0x40]
    else if x < 0x1_0000 then [0xE0 + x / 0x1000, 0x80 + x / 0x40 % 0x40, 0x80 + x % 0x40]
    else [0xF0 + x / 0x4_0000, 0x80 + x / 0x1000 % 0x40, 0x80 + x / 0x40 % 0x40, 0x80 + x % 0x40]
  }

  function Encode(s: string): Bytes {
    if s == "" then [] else EncodeChar(s[0]) + Encode(s[1..])
  }

  predicate Continuation(b: byte) {
    0x80 <= b < 0xC0
  }

  /** The six payload bits of a continuation byte. */
  function Payload(b: byte): int {
    b as int - 0x80
  }

  /** The scalar value the code point stands for, unless it is a surrogate or beyond the code space. */
  function Scalar(x: int): Option<char> {
    if 0 <= x < 0xD800 || 0xE000 <= x < 0x11_0000 then Some(x as char) else None
  }

  /** The first character and its length in bytes; None on malformed, overlong or truncated input. */
  function DecodeChar(bs: Bytes): (r: Option<(char, nat)>)
    requires bs != []
    ensures r.Some? ==> 0 < r.value.1 <= |bs|
  {
    var b := bs[0];
    if b < 0x80 then Some((b as char, 1))
    else if 0xC0 <= b < 0xE0 && |bs| >= 2 && Continuation(bs[1]) then
      Checked((b as int - 0xC0) * 0x40 + Payload(bs[1]), 0x80, 2)
    else if 0xE0 <= b < 0xF0 && |bs| >= 3 && Continuation(bs[1]) && Continuation(bs[2]) then
      Checked((b as int - 0xE0) * 0x1000 + Payload(bs[1]) * 0x40 + Payload(bs[2]), 0x800, 3)
    else if 0xF0 <= b < 0xF8 && |bs| >= 4 && Continuation(bs[1]) && Continuation(bs[2]) && Continuation(bs[3]) then
      Checked((b as int - 0xF0) * 0x4_0000 + Payload(bs[1]) * 0x1000 + Payload(bs[2]) * 0x40 + Payload(bs[3]), 0x1_0000, 4)
    else None
  }

  function Checked(x: int, least: int, length: nat): (r: Option<(char, nat)>)
    ensures r.Some? ==> r.value.1 == length
  {
    if x < least || Scalar(x).None? then None else Some((Scalar(x).value, length))
  }

  function Decode(bs: Bytes): Option<string>
    decreases |bs|
  {
    if bs == [] then Some("")
    else match DecodeChar(bs)
      case None => None
      case Some((c, n)) =>
        match Decode(bs[n..])
        case None => None
        case Some(s) => Some([c] + s)
  }

  lemma {:induction false} DecodeEncodedChar(c: char, rest: Bytes)
    ensures DecodeChar(EncodeChar(c) + rest) == Some((c, |EncodeChar(c)|))
  {
    var x := c as int;
    if x < 0x80 {
    } else if x < 0x800 {
      TwoBytes(x, rest);
    } else if x < 0x1_0000 {
      ThreeBytes(x, rest);
    } else {
      FourBytes(x, rest);
    }
  }

  lemma {:induction false} TwoBytes(x: int, rest: Bytes)
    requires 0x80 <= x < 0x800
    ensures DecodeChar([0xC0 + x / 0x40, 0x80 + x % 0x40] + rest) == Some((x as char, 2))
  {
    var bs: Bytes := [0xC0 + x / 0x40, 0x80 + x % 0x40] + rest;
    assert bs[0] == 0xC0 + x / 0x40 && bs[1] == 0x80 + x % 0x40;
  }

  lemma {:induction false} ThreeBytes(x: int, rest: Bytes)
    requires 0x800 <= x < 0x1_0000 && Scalar(x).Some?
    ensures DecodeChar([0xE0 + x / 0x1000, 0x80 + x / 0x40 % 0x40, 0x80 + x % 0x40] + rest) == Some((x as char, 3))
  {
    var bs: Bytes := [0xE0 + x / 0x1000, 0x80 + x / 0x40 % 0x40, 0x80 + x % 0x40] + rest;
    assert bs[0] == 0xE0 + x / 0x1000 && bs[1] == 0x80 + x / 0x40 % 0x40 && bs[2] == 0x80 + x % 0x40;
  }

  lemma {:induction false} FourBytes(x: int, rest: Bytes)
    requires 0x1_0000 <= x < 0x11_0000
    ensures DecodeChar([0xF0 + x / 0x4_0000, 0x80 + x / 0x1000 % 0x40, 0x80 + x / 0x40 % 0x40, 0x80 + x % 0x40] + rest)
         == Some((x as char, 4))
  {
    FourPayloads(x / 0x4_0000, x / 0x1000 % 0x40, x / 0x40 % 0x40, x % 0x40, rest);
    SixBitGroups(x);
  }

  lemma {:induction false} SixBitGroups(x: int)
    requires 0 <= x
    ensures x == x / 0x4_0000 * 0x4_0000 + x / 0x1000 % 0x40 * 0x1000 + x / 0x40 % 0x40 * 0x40 + x % 0x40
  {
    assert x / 0x1000 == x / 0x40 / 0x40 && x / 0x4_0000 == x / 0x1000 / 0x40;
  }

  lemma {:induction false} FourPayloads(a: nat, b: nat, c: nat, d: nat, rest: Bytes)
    requires a < 8 && b < 0x40 && c < 0x40 && d < 0x40
    ensures DecodeChar([0xF0 + a, 0x80 + b, 0x80 + c, 0x80 + d] + rest)
         == Checked(a * 0x4_0000 + b * 0x1000 + c * 0x40 + d, 0x1_0000, 4)
  {
    var bs: Bytes := [0xF0 + a, 0x80 + b, 0x80 + c, 0x80 + d] + rest;
    assert bs[0] == 0xF0 + a && bs[1] == 0x80 + b && bs[2] == 0x80 + c && bs[3] == 0x80 + d;
  }

  /** Decoding what was encoded gives the text back. */
  lemma {:induction false} DecodeEncode(s: string)
    ensures Decode(Encode(s)) == Some(s)
  {
    if s != "" {
      DecodeEncodedChar(s[0], Encode(s[1..]));
      var n := |EncodeChar(s[0])|;
      assert Encode(s)[n..] == Encode(s[1..]);
      DecodeEncode(s[1..]);
      assert [s[0]] + s[1..] == s;
    }
  }

  lemma {:induction false} TwoBytesBack(bs: Bytes)
    requires bs != [] && DecodeChar(bs).Some? && DecodeChar(bs).value.1 == 2
    ensures bs[..2] == EncodeChar(DecodeChar(bs).value.0)
  {
    var x := DecodeChar(bs).value.0 as int;
    assert x / 0x40 == bs[0] as int - 0xC0;
  }

  lemma {:induction false} ThreeBytesBack(bs: Bytes)
    requires bs != [] && DecodeChar(bs).Some? && DecodeChar(bs).value.1 == 3
    ensures bs[..3] == EncodeChar(DecodeChar(bs).value.0)
  {
    var x := DecodeChar(bs).value.0 as int;
    assert x / 0x40 == (bs[0] as int - 0xE0) * 0x40 + Payload(bs[1]);
    assert x / 0x1000 == x / 0x40 / 0x40 == bs[0] as int - 0xE0;
  }

  lemma {:induction false} FourBytesBack(bs: Bytes)
    requires bs != [] && DecodeChar(bs).Some? && DecodeChar(bs).value.1 == 4
    ensures bs[..4] == EncodeChar(DecodeChar(bs).value.0)
  {
    var x := DecodeChar(bs).value.0 as int;
    assert x / 0x40 == (bs[0] as int - 0xF0) * 0x1000 + Payload(bs[1]) * 0x40 + Payload(bs[2]);
    assert x / 0x1000 == x / 0x40 / 0x40 == (bs[0] as int - 0xF0) * 0x40 + Payload(bs[1]);
    assert x / 0x4_0000 == x / 0x1000 / 0x40 == bs[0] as int - 0xF0;
  }

  lemma {:induction false} EncodeDecodedChar(bs: Bytes)
    requires bs != [] && DecodeChar(bs).Some?
    ensures var (c, n) := DecodeChar(bs).value;
      bs == EncodeChar(c) + bs[n..]
  {
    var (c, n) := DecodeChar(bs).value;
    if n == 1 {
      assert bs[..1] == EncodeChar(c);
    } else if n == 2 {
      TwoBytesBack(bs);
    } else if n == 3 {
      ThreeBytesBack(bs);
    } else {
      FourBytesBack(bs);
    }
    assert bs == bs[..n] + bs[n..];
  }

  /** Encoding what was decoded gives the bytes back: only the shortest form is accepted. */
  lemma {:induction false} EncodeDecode(bs: Bytes)
    requires Decode(bs).Some?
    ensures Encode(Decode(bs).value) == bs
    decreases |bs|
  {
    if bs != [] {
      var (c, n) := DecodeChar(bs).value;
      EncodeDecodedChar(bs);
      EncodeDecode(bs[n..]);
      var rest := Decode(bs[n..]).value;
      assert ([c] + rest)[1..] == rest;
    }
  }

  lemma {:induction false} EncodeConcat(a: string, b: string)
    ensures Encode(a + b) == Encode(a) + Encode(b)
  {
    if a == "" {
      assert a + b == b;
    } else {
      assert (a + b)[1..] == a[1..] + b;
      EncodeConcat(a[1..], b);
    }
  }

  predicate Ascii(s: string) {
    forall k :: 0 <= k < |s| ==> s[k] as int < 0x80
  }

  /** ASCII text is its own encoding, one byte a character. */
  lemma {:induction false} EncodeAscii(s: string)
    requires Ascii(s)
    ensures |Encode(s)| == |s|
    ensures forall k :: 0 <= k < |s| ==> Encode(s)[k] == s[k] as int
  {
    if s != "" {
      EncodeAscii(s[1..]);
    }
  }

  /** A byte below 0x80 occurs in the encoding only as the character itself. */
  lemma {:induction false} LowBytesAreChars(s: string, k: nat)
    requires k < |Encode(s)| && Encode(s)[k] < 0x80
    ensures Encode(s)[k] as char in s
  {
    var n := |EncodeChar(s[0])|;
    if k < n {
      assert Encode(s)[k] == EncodeChar(s[0])[k];
      assert s[0] as int == Encode(s)[k];
    } else {
      LowBytesAreChars(s[1..], k - n);
      assert Encode(s)[k] == Encode(s[1..])[k - n];
    }
  }
}
