/** UTF-8 as the Rust standard library checks it (`str::from_utf8`, `CStr::to_str`):
    a byte string is accepted exactly when it is a concatenation of well-formed
    sequences in the sense of Table 3-7 of The Unicode Standard, and the decoded
    string is the sequence of scalar values they encode. */
module Utf8 {
  import opened Base

  predicate IsCont(b: byte) {
    0x80 <= b < 0xC0
  }

  /** Second byte of a three-byte sequence: excludes overlong forms (E0) and surrogates (ED). */
  predicate SecondOfThree(b0: byte, b1: byte) {
    if b0 == 0xE0 then 0xA0 <= b1 < 0xC0
    else if b0 == 0xED then 0x80 <= b1 < 0xA0
    else IsCont(b1)
  }

  /** Second byte of a four-byte sequence: excludes overlong forms (F0) and values past U+10FFFF (F4). */
  predicate SecondOfFour(b0: byte, b1: byte) {
    if b0 == 0xF0 then 0x90 <= b1 < 0xC0
    else if b0 == 0xF4 then 0x80 <= b1 < 0x90
    else IsCont(b1)
  }

  /** Length of the well-formed sequence at the head of `s`, or 0 when there is none. */
  function HeadLength(s: Bytes): (n: nat)
    ensures n <= |s| && n <= 4
    ensures |s| > 0 && s[0] < 0x80 ==> n == 1
  {
    if |s| == 0 then 0
    else if s[0] < 0x80 then 1
    else if 0xC2 <= s[0] < 0xE0 then
      (if |s| >= 2 && IsCont(s[1]) then 2 else 0)
    else if 0xE0 <= s[0] < 0xF0 then
      (if |s| >= 3 && SecondOfThree(s[0], s[1]) && IsCont(s[2]) then 3 else 0)
    else if 0xF0 <= s[0] < 0xF5 then
      (if |s| >= 4 && SecondOfFour(s[0], s[1]) && IsCont(s[2]) && IsCont(s[3]) then 4 else 0)
    else 0
  }

  predicate IsScalar(v: int) {
    0 <= v < 0xD800 || 0xE000 <= v < 0x11_0000
  }

  /** The scalar value encoded by the well-formed sequence at the head of `s`. */
  function HeadValue(s: Bytes): (v: int)
    requires HeadLength(s) > 0
    ensures IsScalar(v)
  {
    var b0 := s[0] as int;
    match HeadLength(s)
    case 1 => b0
    case 2 => (b0 - 0xC0) * 64 + (s[1] as int - 0x80)
    case 3 => ((b0 - 0xE0) * 64 + (s[1] as int - 0x80)) * 64 + (s[2] as int - 0x80)
    case 4 => (((b0 - 0xF0) * 64 + (s[1] as int - 0x80)) * 64 + (s[2] as int - 0x80)) * 64 + (s[3] as int - 0x80)
  }

  /** Decoding: `None` exactly when `s` is not valid UTF-8. */
  function Decode(s: Bytes): (r: Option<string>)
    decreases |s|
  {
    if |s| == 0 then Some([])
    else
      var n := HeadLength(s);
      if n == 0 then None
      else
        match Decode(s[n..])
        case None => None
        case Some(rest) => Some([HeadValue(s) as char] + rest)
  }

  /** The shortest UTF-8 encoding of one scalar value: six payload bits per
      continuation byte, the rest in the lead byte. */
  function EncodeChar(c: char): (b: Bytes)
    ensures 1 <= |b| <= 4
    ensures |b| == 1 <==> (c as int) < 0x80
  {
    var v := c as int;
    var q0, r0 := v / 64, v % 64;
    var q1, r1 := q0 / 64, q0 % 64;
    var q2, r2 := q1 / 64, q1 % 64;
    if v < 0x80 then [v]
    else if v < 0x800 then [0xC0 + q0, 0x80 + r0]
    else if v < 0x1_0000 then [0xE0 + q1, 0x80 + r1, 0x80 + r0]
    else [0xF0 + q2, 0x80 + r2, 0x80 + r1, 0x80 + r0]
  }

  /** `str::as_bytes`: the UTF-8 encoding of a string. */
  function Encode(s: string): (b: Bytes)
    ensures |b| >= |s|
  {
    if |s| == 0 then [] else EncodeChar(s[0]) + Encode(s[1..])
  }

  lemma DivMod64(v: int, q: int, r: int)
    requires v == 64 * q + r && 0 <= r < 64
    ensures v / 64 == q && v % 64 == r
  {
  }

  /** The encoding of a character is recognised as one well-formed sequence
      holding that character, whatever follows it. */
  lemma EncodeCharIsHead(c: char, rest: Bytes)
    ensures HeadLength(EncodeChar(c) + rest) == |EncodeChar(c)|
    ensures HeadValue(EncodeChar(c) + rest) == c as int
  {
    var v := c as int;
    var q0, r0 := v / 64, v % 64;
    var q1, r1 := q0 / 64, q0 % 64;
    var q2, r2 := q1 / 64, q1 % 64;
    assert v == 64 * q0 + r0 && q0 == 64 * q1 + r1 && q1 == 64 * q2 + r2;
    var s := EncodeChar(c) + rest;
    if v < 0x80 {
    } else if v < 0x800 {
      assert s[0] == 0xC0 + q0 && s[1] == 0x80 + r0;
    } else if v < 0x1_0000 {
      assert s[0] == 0xE0 + q1 && s[1] == 0x80 + r1 && s[2] == 0x80 + r0;
      assert q1 == 0xD ==> r1 < 0x20;
    } else {
      assert s[0] == 0xF0 + q2 && s[1] == 0x80 + r2 && s[2] == 0x80 + r1 && s[3] == 0x80 + r0;
    }
  }

  /** A well-formed head sequence is the encoding of the character it decodes to. */
  lemma HeadIsEncodeChar(s: Bytes)
    requires HeadLength(s) > 0
    ensures EncodeChar(HeadValue(s) as char) == s[..HeadLength(s)]
  {
    var n := HeadLength(s);
    var v := HeadValue(s);
    if n == 2 {
      DivMod64(v, s[0] - 0xC0, s[1] - 0x80);
    } else if n == 3 {
      var q0: int := (s[0] as int - 0xE0) * 64 + (s[1] as int - 0x80);
      DivMod64(v, q0, s[2] - 0x80);
      DivMod64(q0, s[0] - 0xE0, s[1] - 0x80);
    } else if n == 4 {
      var q1: int := (s[0] as int - 0xF0) * 64 + (s[1] as int - 0x80);
      var q0: int := q1 * 64 + (s[2] as int - 0x80);
      DivMod64(v, q0, s[3] - 0x80);
      DivMod64(q0, q1, s[2] - 0x80);
      DivMod64(q1, s[0] - 0xF0, s[1] - 0x80);
    }
  }

  /** Every string survives a round trip through its encoding. */
  lemma {:induction false} DecodeEncode(s: string)
    ensures Decode(Encode(s)) == Some(s)
  {
    if |s| > 0 {
      var e := EncodeChar(s[0]);
      var rest := Encode(s[1..]);
      EncodeCharIsHead(s[0], rest);
      assert (e + rest)[|e|..] == rest;
      DecodeEncode(s[1..]);
      assert [s[0]] + s[1..] == s;
    }
  }

  /** Whatever decodes, decodes to the one string whose encoding it is. */
  lemma {:induction false} EncodeDecode(b: Bytes)
    requires Decode(b).Some?
    ensures Encode(Decode(b).value) == b
  {
    if |b| > 0 {
      var n := HeadLength(b);
      var c := HeadValue(b) as char;
      var tail := Decode(b[n..]).value;
      assert Decode(b).value == [c] + tail;
      calc {
        Encode([c] + tail);
        { assert ([c] + tail)[0] == c && ([c] + tail)[1..] == tail; }
        EncodeChar(c) + Encode(tail);
        { EncodeDecode(b[n..]); HeadIsEncodeChar(b); }
        b[..n] + b[n..];
        { assert b[..n] + b[n..] == b; }
        b;
      }
    }
  }

  /** `Decode` accepts a byte string exactly when it is the encoding of some string. */
  lemma {:induction false} DecodeIffEncoding(b: Bytes, s: string)
    ensures Decode(b) == Some(s) <==> Encode(s) == b
  {
    if Decode(b) == Some(s) {
      EncodeDecode(b);
    }
    if Encode(s) == b {
      DecodeEncode(s);
    }
  }

  /** The only character whose encoding holds a zero byte is U+0000. */
  lemma {:induction false} NulByteIffNulChar(s: string)
    ensures 0 in Encode(s) <==> '\0' in s
  {
    if |s| > 0 {
      NulByteIffNulChar(s[1..]);
      assert s == [s[0]] + s[1..];
      assert 0 in EncodeChar(s[0]) <==> s[0] == '\0';
    }
  }
}
