/** UTF-8, the byte encoding of Rust's `String`. `str::as_bytes` exposes exactly
    these bytes; the decoder is the strict inverse (no overlong forms, no surrogates,
    nothing above U+10FFFF), as section 3 of RFC 3629 defines it. */
module Utf8 {
  import opened Wrappers

  newtype byte = b: int | 0 <= b < 0x100

  /** Bytes of the form 10xxxxxx. */
  predicate IsContinuation(b: byte) {
    0x80 <= b < 0xC0
  }

  /** The six payload bits of a continuation byte. */
  function Payload(b: byte): int
    requires IsContinuation(b)
  {
    b as int - 0x80
  }

  /** Number of bytes UTF-8 uses for the code point `n`. */
  function Width(n: int): nat {
    if n < 0x80 then 1
    else if n < 0x800 then 2
    else if n < 0x1_0000 then 3
    else 4
  }

  function EncodeChar(c: char): (r: seq<byte>)
    ensures |r| == Width(c as int)
    ensures r[0] < 0x80 <==> |r| == 1
    ensures forall i :: 1 <= i < |r| ==> IsContinuation(r[i])
  {
    var n := c as int;
    if n < 0x80 then
      [n as byte]
    else if n < 0x800 then
      [(0xC0 + n / 0x40) as byte, (0x80 + n % 0x40) as byte]
    else if n < 0x1_0000 then
      [(0xE0 + n / 0x1000) as byte, (0x80 + n / 0x40 % 0x40) as byte, (0x80 + n % 0x40) as byte]
    else
      [(0xF0 + n / 0x4_0000) as byte, (0x80 + n / 0x1000 % 0x40) as byte,
       (0x80 + n / 0x40 % 0x40) as byte, (0x80 + n % 0x40) as byte]
  }

  function EncodeString(s: string): (r: seq<byte>)
    ensures |s| <= |r| <= 4 * |s|
  {
    if s == [] then [] else EncodeChar(s[0]) + EncodeString(s[1..])
  }

  /** A two-byte sequence: 110xxxxx 10xxxxxx, at least U+0080. */
  function DecodeTwo(b: seq<byte>): (r: Option<(char, nat)>)
    requires |b| >= 1 && 0xC0 <= b[0] < 0xE0
    ensures r.Some? ==> r.value.1 == 2 <= |b|
  {
    if |b| < 2 || !IsContinuation(b[1]) then None
    else
      var n := (b[0] as int - 0xC0) * 0x40 + Payload(b[1]);
      if n < 0x80 then None else Some((n as char, 2))
  }

  /** A three-byte sequence: 1110xxxx and two continuations, at least U+0800
      and not a surrogate. */
  function DecodeThree(b: seq<byte>): (r: Option<(char, nat)>)
    requires |b| >= 1 && 0xE0 <= b[0] < 0xF0
    ensures r.Some? ==> r.value.1 == 3 <= |b|
  {
    if |b| < 3 || !IsContinuation(b[1]) || !IsContinuation(b[2]) then None
    else
      var n := (b[0] as int - 0xE0) * 0x1000 + Payload(b[1]) * 0x40 + Payload(b[2]);
      if n < 0x800 || 0xD800 <= n < 0xE000 then None else Some((n as char, 3))
  }

  /** A four-byte sequence: 11110xxx and three continuations, from U+10000 to
      U+10FFFF. */
  function DecodeFour(b: seq<byte>): (r: Option<(char, nat)>)
    requires |b| >= 1 && 0xF0 <= b[0] < 0xF8
    ensures r.Some? ==> r.value.1 == 4 <= |b|
  {
    if |b| < 4 || !IsContinuation(b[1]) || !IsContinuation(b[2]) || !IsContinuation(b[3]) then None
    else
      var n := (b[0] as int - 0xF0) * 0x4_0000 + Payload(b[1]) * 0x1000
               + Payload(b[2]) * 0x40 + Payload(b[3]);
      if n < 0x1_0000 || 0x11_0000 <= n then None else Some((n as char, 4))
  }

  /** Decodes the first character of `b`, returning it with the number of bytes it used. */
  function DecodeChar(b: seq<byte>): (r: Option<(char, nat)>)
    ensures r.Some? ==> 1 <= r.value.1 <= |b|
  {
    if |b| == 0 then None
    else if b[0] < 0x80 then Some((b[0] as int as char, 1))
    else if 0xC0 <= b[0] < 0xE0 then DecodeTwo(b)
    else if 0xE0 <= b[0] < 0xF0 then DecodeThree(b)
    else if 0xF0 <= b[0] < 0xF8 then DecodeFour(b)
    else None
  }

  function DecodeString(b: seq<byte>): (r: Option<string>)
    decreases |b|
  {
    if b == [] then Some([])
    else
      match DecodeChar(b)
      case None => None
      case Some((c, k)) =>
        match DecodeString(b[k..])
        case None => None
        case Some(s) => Some([c] + s)
  }

  /** `n` split into six-bit groups, and the nested divisions the encoder uses. */
  lemma SixBitGroups(n: nat)
    ensures n == n / 0x40 * 0x40 + n % 0x40
    ensures n / 0x40 == n / 0x40 / 0x40 * 0x40 + n / 0x40 % 0x40
    ensures n / 0x40 / 0x40 == n / 0x1000
    ensures n / 0x1000 == n / 0x1000 / 0x40 * 0x40 + n / 0x1000 % 0x40
    ensures n / 0x1000 / 0x40 == n / 0x4_0000
  {
  }

  /** Appending six payload bits below `a` can be undone by division. */
  lemma AppendSixBits(a: int, r: int)
    requires 0 <= r < 0x40
    ensures (a * 0x40 + r) / 0x40 == a
    ensures (a * 0x40 + r) % 0x40 == r
  {
  }

  lemma EncodeThenDecodeTwo(c: char, rest: seq<byte>)
    requires 0x80 <= c as int < 0x800
    ensures DecodeChar(EncodeChar(c) + rest) == Some((c, 2))
  {
    var n := c as int;
    var b := EncodeChar(c) + rest;
    SixBitGroups(n);
    assert (b[0] as int - 0xC0) * 0x40 + Payload(b[1]) == n;
  }

  lemma EncodeThenDecodeThree(c: char, rest: seq<byte>)
    requires 0x800 <= c as int < 0x1_0000
    ensures DecodeChar(EncodeChar(c) + rest) == Some((c, 3))
  {
    var n := c as int;
    var b := EncodeChar(c) + rest;
    SixBitGroups(n);
    assert (b[0] as int - 0xE0) * 0x1000 + Payload(b[1]) * 0x40 + Payload(b[2]) == n;
  }

  lemma EncodeThenDecodeFour(c: char, rest: seq<byte>)
    requires 0x1_0000 <= c as int
    ensures DecodeChar(EncodeChar(c) + rest) == Some((c, 4))
  {
    var n := c as int;
    var b := EncodeChar(c) + rest;
    SixBitGroups(n);
    assert (b[0] as int - 0xF0) * 0x4_0000 + Payload(b[1]) * 0x1000
           + Payload(b[2]) * 0x40 + Payload(b[3]) == n;
  }

  /** Decoding the encoding of a character gives it back, whatever follows it. */
  lemma EncodeThenDecodeChar(c: char, rest: seq<byte>)
    ensures DecodeChar(EncodeChar(c) + rest) == Some((c, |EncodeChar(c)|))
  {
    var n := c as int;
    if n < 0x80 {
    } else if n < 0x800 {
      EncodeThenDecodeTwo(c, rest);
    } else if n < 0x1_0000 {
      EncodeThenDecodeThree(c, rest);
    } else {
      EncodeThenDecodeFour(c, rest);
    }
  }

  lemma DecodeThenEncodeTwo(b: seq<byte>)
    requires DecodeChar(b).Some? && 0xC0 <= b[0] < 0xE0
    ensures EncodeChar(DecodeChar(b).value.0) == b[..2]
  {
    var n := (b[0] as int - 0xC0) * 0x40 + Payload(b[1]);
    AppendSixBits(b[0] as int - 0xC0, Payload(b[1]));
    assert DecodeChar(b).value.0 as int == n;
  }

  lemma DecodeThenEncodeThree(b: seq<byte>)
    requires DecodeChar(b).Some? && 0xE0 <= b[0] < 0xF0
    ensures EncodeChar(DecodeChar(b).value.0) == b[..3]
  {
    var a := b[0] as int - 0xE0;
    var n := a * 0x1000 + Payload(b[1]) * 0x40 + Payload(b[2]);
    AppendSixBits(a * 0x40 + Payload(b[1]), Payload(b[2]));
    AppendSixBits(a, Payload(b[1]));
    SixBitGroups(n);
    assert DecodeChar(b).value.0 as int == n;
  }

  lemma DecodeThenEncodeFour(b: seq<byte>)
    requires DecodeChar(b).Some? && 0xF0 <= b[0] < 0xF8
    ensures EncodeChar(DecodeChar(b).value.0) == b[..4]
  {
    var a := b[0] as int - 0xF0;
    var n := a * 0x4_0000 + Payload(b[1]) * 0x1000 + Payload(b[2]) * 0x40 + Payload(b[3]);
    AppendSixBits(a * 0x1000 + Payload(b[1]) * 0x40 + Payload(b[2]), Payload(b[3]));
    AppendSixBits(a * 0x40 + Payload(b[1]), Payload(b[2]));
    AppendSixBits(a, Payload(b[1]));
    SixBitGroups(n);
    assert DecodeChar(b).value.0 as int == n;
  }

  /** Whatever the decoder accepts as one character is that character's encoding. */
  lemma DecodeThenEncodeChar(b: seq<byte>)
    requires DecodeChar(b).Some?
    ensures EncodeChar(DecodeChar(b).value.0) == b[..DecodeChar(b).value.1]
  {
    if 0xC0 <= b[0] < 0xE0 {
      DecodeThenEncodeTwo(b);
    } else if 0xE0 <= b[0] < 0xF0 {
      DecodeThenEncodeThree(b);
    } else if 0xF0 <= b[0] < 0xF8 {
      DecodeThenEncodeFour(b);
    }
  }

  lemma {:induction false} EncodeThenDecode(s: string)
    ensures DecodeString(EncodeString(s)) == Some(s)
  {
    if s != [] {
      var e := EncodeChar(s[0]);
      EncodeThenDecodeChar(s[0], EncodeString(s[1..]));
      assert (e + EncodeString(s[1..]))[|e|..] == EncodeString(s[1..]);
      EncodeThenDecode(s[1..]);
      assert [s[0]] + s[1..] == s;
    }
  }

  /** Encoding is character by character: a character's bytes, then the rest's. */
  lemma EncodeStringCons(c: char, s: string, b: seq<byte>, k: nat)
    requires k <= |b| && EncodeChar(c) == b[..k] && EncodeString(s) == b[k..]
    ensures EncodeString([c] + s) == b
  {
    assert ([c] + s)[0] == c && ([c] + s)[1..] == s;
    assert b[..k] + b[k..] == b;
  }

  /** A successful decode is one decoded character followed by the decoding of the rest. */
  lemma DecodeStringStep(b: seq<byte>)
    requires b != [] && DecodeString(b).Some?
    ensures DecodeChar(b).Some?
    ensures DecodeString(b[DecodeChar(b).value.1..]).Some?
    ensures DecodeString(b).value == [DecodeChar(b).value.0] + DecodeString(b[DecodeChar(b).value.1..]).value
  {
  }

  lemma {:induction false} DecodeThenEncode(b: seq<byte>)
    requires DecodeString(b).Some?
    ensures EncodeString(DecodeString(b).value) == b
    decreases |b|
  {
    if b != [] {
      DecodeStringStep(b);
      var d := DecodeChar(b).value;
      var rest := b[d.1..];
      DecodeThenEncodeChar(b);
      DecodeThenEncode(rest);
      EncodeStringCons(d.0, DecodeString(rest).value, b, d.1);
    }
  }

  /** The decoder accepts exactly the encodings, and each encoding has one preimage. */
  lemma EncodingIsExactlyDecodable(s: string, b: seq<byte>)
    ensures EncodeString(s) == b <==> DecodeString(b) == Some(s)
  {
    if EncodeString(s) == b {
      EncodeThenDecode(s);
    }
    if DecodeString(b) == Some(s) {
      DecodeThenEncode(b);
    }
  }

  lemma EncodeStringInjective(s: string, t: string)
    ensures EncodeString(s) == EncodeString(t) ==> s == t
  {
    EncodeThenDecode(s);
    EncodeThenDecode(t);
  }
}
