/** `encodeGId`: the base64 text (section 4 of RFC 4648) of the UTF-8 bytes of
    `gid://shopify/<type>/<id>`, which is how the service names a variant to the catalogue. */
module Gid {
  import opened JsValues

  type Byte = x: int | 0 <= x < 256

  /** The UTF-8 encoding of one Unicode scalar value (what `Buffer.from(string)` emits). */
  function Utf8Char(c: char): (r: seq<Byte>)
    ensures 1 <= |r| <= 4
    ensures |r| == 1 <==> c as int < 0x80
    ensures |r| == 1 ==> r[0] == c as int
    ensures |r| > 1 ==> 0xC0 <= r[0] && forall k :: 1 <= k < |r| ==> 0x80 <= r[k] < 0xC0
  {
    var cp := c as int;
    if cp < 0x80 then [cp]
    else if cp < 0x800 then [0xC0 + cp / 64, 0x80 + cp % 64]
    else if cp < 0x10000 then [0xE0 + cp / 4096, 0x80 + cp / 64 % 64, 0x80 + cp % 64]
    else [0xF0 + cp / 262144, 0x80 + cp / 4096 % 64, 0x80 + cp / 64 % 64, 0x80 + cp % 64]
  }

  function Utf8(s: string): (r: seq<Byte>)
    ensures |r| >= |s|
  {
    if s == [] then [] else Utf8Char(s[0]) + Utf8(s[1..])
  }

  /** On ASCII text UTF-8 is the sequence of character codes. */
  lemma {:induction false} Utf8Ascii(s: string)
    requires forall i :: 0 <= i < |s| ==> s[i] as int < 0x80
    ensures |Utf8(s)| == |s|
    ensures forall i :: 0 <= i < |s| ==> Utf8(s)[i] == s[i] as int
  {
    if s != [] {
      Utf8Ascii(s[1..]);
    }
  }

  /** The base64 alphabet of RFC 4648 section 4, Table 1. */
  function Digit(v: int): char
    requires 0 <= v < 64
  {
    if v < 26 then ('A' as int + v) as char
    else if v < 52 then ('a' as int + v - 26) as char
    else if v < 62 then ('0' as int + v - 52) as char
    else if v == 62 then '+' else '/'
  }

  /** The value of a base64 digit; `None` for any other character, the pad '=' included. */
  function DigitValue(c: char): (r: Option<int>)
    ensures r.Some? ==> 0 <= r.value < 64 && Digit(r.value) == c
  {
    if 'A' <= c <= 'Z' then Some(c as int - 'A' as int)
    else if 'a' <= c <= 'z' then Some(c as int - 'a' as int + 26)
    else if '0' <= c <= '9' then Some(c as int - '0' as int + 52)
    else if c == '+' then Some(62)
    else if c == '/' then Some(63)
    else None
  }

  lemma DigitValueOfDigit(v: int)
    requires 0 <= v < 64
    ensures DigitValue(Digit(v)) == Some(v)
  {
  }

  predicate IsBase64Char(c: char) {
    DigitValue(c).Some? || c == '='
  }

  /** Base64 with '=' padding: every 3 bytes become 4 digits, a final 1 or 2 bytes become
      2 or 3 digits followed by "==" or "=". */
  function Encode(b: seq<Byte>): (r: string)
    ensures |r| == (|b| + 2) / 3 * 4
    decreases |b|
  {
    if |b| == 0 then ""
    else if |b| == 1 then
      [Digit(b[0] / 4), Digit(b[0] % 4 * 16), '=', '=']
    else if |b| == 2 then
      [Digit(b[0] / 4), Digit(b[0] % 4 * 16 + b[1] / 16), Digit(b[1] % 16 * 4), '=']
    else Quad(b[0], b[1], b[2]) + Encode(b[3..])
  }

  /** The four digits of a full group of three bytes. */
  function Quad(b0: Byte, b1: Byte, b2: Byte): (r: string)
    ensures |r| == 4
  {
    [Digit(b0 / 4), Digit(b0 % 4 * 16 + b1 / 16), Digit(b1 % 16 * 4 + b2 / 64), Digit(b2 % 64)]
  }

  /** Every character of an encoding is a base64 digit or the pad. */
  lemma {:induction false} EncodeAlphabet(b: seq<Byte>)
    ensures forall k :: 0 <= k < |Encode(b)| ==> IsBase64Char(Encode(b)[k])
    decreases |b|
  {
    if |b| >= 3 {
      EncodeAlphabet(b[3..]);
      var q, t := Quad(b[0], b[1], b[2]), Encode(b[3..]);
      assert Encode(b) == q + t;
      forall k | 0 <= k < |q| + |t|
        ensures IsBase64Char((q + t)[k])
      {
        if k >= |q| {
          assert (q + t)[k] == t[k - |q|];
        }
      }
    }
  }

  /** Base64 decoding: each group of four characters gives three bytes, or one or two when
      the group is the last one and is padded. Malformed text gives `None`, and so does a
      padded group whose unused low bits are not zero (section 3.5 of RFC 4648), so that
      every byte sequence has exactly one accepted text. */
  function Decode(s: string): (r: Option<seq<Byte>>)
    decreases |s|
  {
    if |s| == 0 then Some([])
    else if |s| < 4 then None
    else
      var d0, d1, d2, d3 := DigitValue(s[0]), DigitValue(s[1]), DigitValue(s[2]), DigitValue(s[3]);
      if d0.None? || d1.None? then None
      else
        var b0 := d0.value * 4 + d1.value / 16;
        if s[2] == '=' then
          if s[3] == '=' && |s| == 4 && d1.value % 16 == 0 then Some([b0]) else None
        else if d2.None? then None
        else
          var b1 := d1.value % 16 * 16 + d2.value / 4;
          if s[3] == '=' then
            if |s| == 4 && d2.value % 4 == 0 then Some([b0, b1]) else None
          else if d3.None? then None
          else
            var b2 := d2.value % 4 * 64 + d3.value;
            match Decode(s[4..])
            case None => None
            case Some(rest) => Some([b0, b1, b2] + rest)
  }

  lemma QuantumRoundTrip(b0: Byte, b1: Byte, b2: Byte)
    ensures (b0 / 4) * 4 + (b0 % 4 * 16 + b1 / 16) / 16 == b0
    ensures (b0 % 4 * 16 + b1 / 16) % 16 * 16 + (b1 % 16 * 4 + b2 / 64) / 4 == b1
    ensures (b1 % 16 * 4 + b2 / 64) % 4 * 64 + b2 % 64 == b2
    ensures (b0 % 4 * 16 + b1 / 16) < 64 && (b1 % 16 * 4 + b2 / 64) < 64
  {
  }

  /** Decoding four digits that are not padding, followed by `t`. */
  lemma DecodeFull(v0: int, v1: int, v2: int, v3: int, t: string, rest: seq<Byte>)
    requires 0 <= v0 < 64 && 0 <= v1 < 64 && 0 <= v2 < 64 && 0 <= v3 < 64
    requires Decode(t) == Some(rest)
    ensures Decode([Digit(v0), Digit(v1), Digit(v2), Digit(v3)] + t)
            == Some([v0 * 4 + v1 / 16, v1 % 16 * 16 + v2 / 4, v2 % 4 * 64 + v3] + rest)
  {
    var s := [Digit(v0), Digit(v1), Digit(v2), Digit(v3)] + t;
    DigitValueOfDigit(v0);
    DigitValueOfDigit(v1);
    DigitValueOfDigit(v2);
    DigitValueOfDigit(v3);
    assert s[4..] == t;
  }

  lemma DecodeOne(b0: Byte)
    ensures Decode(Encode([b0])) == Some([b0])
  {
    var v0, v1 := b0 / 4, b0 % 4 * 16;
    DigitValueOfDigit(v0);
    DigitValueOfDigit(v1);
    assert Encode([b0]) == [Digit(v0), Digit(v1), '=', '='];
  }

  lemma DecodeTwo(b0: Byte, b1: Byte)
    ensures Decode(Encode([b0, b1])) == Some([b0, b1])
  {
    var v0, v1, v2 := b0 / 4, b0 % 4 * 16 + b1 / 16, b1 % 16 * 4;
    QuantumRoundTrip(b0, b1, 0);
    DigitValueOfDigit(v0);
    DigitValueOfDigit(v1);
    DigitValueOfDigit(v2);
    assert Encode([b0, b1]) == [Digit(v0), Digit(v1), Digit(v2), '='];
  }

  /** Encoding three or more bytes starts with the full group of the first three. */
  lemma EncodeStep(b: seq<Byte>)
    requires |b| >= 3
    ensures Encode(b) == Quad(b[0], b[1], b[2]) + Encode(b[3..])
  {
  }

  /** A full group decodes back to its three bytes, ahead of whatever `t` decodes to. */
  lemma DecodeQuad(b: seq<Byte>, t: string)
    requires |b| >= 3 && Decode(t) == Some(b[3..])
    ensures Decode(Quad(b[0], b[1], b[2]) + t) == Some(b)
  {
    var v0, v1, v2, v3 := b[0] / 4, b[0] % 4 * 16 + b[1] / 16, b[1] % 16 * 4 + b[2] / 64, b[2] % 64;
    QuantumRoundTrip(b[0], b[1], b[2]);
    assert [v0 * 4 + v1 / 16, v1 % 16 * 16 + v2 / 4, v2 % 4 * 64 + v3] + b[3..] == b;
    DecodeFull(v0, v1, v2, v3, t, b[3..]);
  }

  /** Decoding undoes encoding. */
  lemma {:induction false} DecodeEncode(b: seq<Byte>)
    ensures Decode(Encode(b)) == Some(b)
    decreases |b|
  {
    if |b| == 1 {
      assert b == [b[0]];
      DecodeOne(b[0]);
    } else if |b| == 2 {
      assert b == [b[0], b[1]];
      DecodeTwo(b[0], b[1]);
    } else if |b| >= 3 {
      DecodeEncode(b[3..]);
      EncodeStep(b);
      DecodeQuad(b, Encode(b[3..]));
    }
  }

  /** The bytes of a padded or full group, taken apart again, give back its digits. */
  lemma GroupDigits(v0: int, v1: int, v2: int, v3: int)
    requires 0 <= v0 < 64 && 0 <= v1 < 64 && 0 <= v2 < 64 && 0 <= v3 < 64
    ensures (v0 * 4 + v1 / 16) / 4 == v0
    ensures (v0 * 4 + v1 / 16) % 4 * 16 + (v1 % 16 * 16 + v2 / 4) / 16 == v1
    ensures v1 % 16 == 0 ==> (v0 * 4 + v1 / 16) % 4 * 16 == v1
    ensures (v1 % 16 * 16 + v2 / 4) % 16 * 4 + (v2 % 4 * 64 + v3) / 64 == v2
    ensures v2 % 4 == 0 ==> (v1 % 16 * 16 + v2 / 4) % 16 * 4 == v2
    ensures (v2 % 4 * 64 + v3) % 64 == v3
  {
  }

  /** A text that decodes and ends in "==" is the encoding of its one byte. */
  lemma EncodeDecodeOne(s: string, b: seq<Byte>)
    requires Decode(s) == Some(b) && |s| > 0 && s[2] == '='
    ensures Encode(b) == s
  {
    var v0, v1 := DigitValue(s[0]).value, DigitValue(s[1]).value;
    GroupDigits(v0, v1, 0, 0);
    assert b == [v0 * 4 + v1 / 16];
    assert s == [Digit(v0), Digit(v1), '=', '='];
  }

  /** A text that decodes and ends in a single '=' is the encoding of its two bytes. */
  lemma EncodeDecodeTwo(s: string, b: seq<Byte>)
    requires Decode(s) == Some(b) && |s| > 0 && s[2] != '=' && s[3] == '='
    ensures Encode(b) == s
  {
    var v0, v1, v2 := DigitValue(s[0]).value, DigitValue(s[1]).value, DigitValue(s[2]).value;
    GroupDigits(v0, v1, v2, 0);
    assert b == [v0 * 4 + v1 / 16, v1 % 16 * 16 + v2 / 4];
    assert s == [Digit(v0), Digit(v1), Digit(v2), '='];
  }

  /** The digits of a full group whose bytes are what four digits decode to. */
  lemma QuadOfDigits(b0: Byte, b1: Byte, b2: Byte, v0: int, v1: int, v2: int, v3: int)
    requires 0 <= v0 < 64 && 0 <= v1 < 64 && 0 <= v2 < 64 && 0 <= v3 < 64
    requires b0 == v0 * 4 + v1 / 16 && b1 == v1 % 16 * 16 + v2 / 4 && b2 == v2 % 4 * 64 + v3
    ensures Quad(b0, b1, b2) == [Digit(v0), Digit(v1), Digit(v2), Digit(v3)]
  {
    GroupDigits(v0, v1, v2, v3);
  }

  /** A text that decodes and whose first group is not padded has four digits there, and
      the text after that group decodes too. */
  lemma DecodeFullGroupParts(s: string)
    requires Decode(s).Some? && |s| > 0 && s[2] != '=' && s[3] != '='
    ensures DigitValue(s[0]).Some? && DigitValue(s[1]).Some? && DigitValue(s[2]).Some? && DigitValue(s[3]).Some?
    ensures Decode(s[4..]).Some?
  {
  }

  /** Decoding a text whose first group is four digits, given that the rest decodes. */
  lemma DecodeFullGroupValue(s: string, v0: int, v1: int, v2: int, v3: int, rest: seq<Byte>)
    requires |s| >= 4 && s[2] != '=' && s[3] != '='
    requires DigitValue(s[0]) == Some(v0) && DigitValue(s[1]) == Some(v1)
    requires DigitValue(s[2]) == Some(v2) && DigitValue(s[3]) == Some(v3)
    requires Decode(s[4..]) == Some(rest)
    ensures Decode(s) == Some([v0 * 4 + v1 / 16, v1 % 16 * 16 + v2 / 4, v2 % 4 * 64 + v3] + rest)
  {
  }

  /** A text that decodes and starts with a full group is that group's digits ahead of a
      text that decodes to the rest of the bytes. */
  lemma DecodeFullGroup(s: string, b: seq<Byte>)
    requires Decode(s) == Some(b) && |s| > 0 && s[2] != '=' && s[3] != '='
    ensures |b| >= 3 && Decode(s[4..]) == Some(b[3..])
    ensures s == Quad(b[0], b[1], b[2]) + s[4..]
  {
    DecodeFullGroupParts(s);
    var v0, v1, v2, v3 := DigitValue(s[0]).value, DigitValue(s[1]).value,
                          DigitValue(s[2]).value, DigitValue(s[3]).value;
    var rest := Decode(s[4..]).value;
    DecodeFullGroupValue(s, v0, v1, v2, v3, rest);
    assert b == [v0 * 4 + v1 / 16, v1 % 16 * 16 + v2 / 4, v2 % 4 * 64 + v3] + rest;
    QuadOfDigits(b[0], b[1], b[2], v0, v1, v2, v3);
    assert b[3..] == rest;
    DigitsAhead(s, v0, v1, v2, v3);
  }

  /** A text whose first four characters are digits is those digits ahead of the rest. */
  lemma DigitsAhead(s: string, v0: int, v1: int, v2: int, v3: int)
    requires |s| >= 4
    requires DigitValue(s[0]) == Some(v0) && DigitValue(s[1]) == Some(v1)
    requires DigitValue(s[2]) == Some(v2) && DigitValue(s[3]) == Some(v3)
    ensures 0 <= v0 < 64 && 0 <= v1 < 64 && 0 <= v2 < 64 && 0 <= v3 < 64
    ensures s == [Digit(v0), Digit(v1), Digit(v2), Digit(v3)] + s[4..]
  {
    assert s == [s[0], s[1], s[2], s[3]] + s[4..];
  }

  /** Decoding accepts only canonical text: whatever decodes to `b` is the encoding of `b`. */
  lemma {:induction false} EncodeDecode(s: string, b: seq<Byte>)
    requires Decode(s) == Some(b)
    ensures Encode(b) == s
    decreases |s|
  {
    if |s| > 0 {
      if s[2] == '=' {
        EncodeDecodeOne(s, b);
      } else if s[3] == '=' {
        EncodeDecodeTwo(s, b);
      } else {
        DecodeFullGroup(s, b);
        EncodeDecode(s[4..], b[3..]);
        EncodeStep(b);
      }
    }
  }

  /** The global id text `gid://shopify/<type>/<id>`. */
  function GidText(kind: string, id: string): string {
    "gid://shopify/" + kind + "/" + id
  }

  /** `encodeGId(type, id)`. */
  function EncodeGId(kind: string, id: string): (r: string)
    ensures Decode(r) == Some(Utf8(GidText(kind, id)))
    ensures forall k :: 0 <= k < |r| ==> IsBase64Char(r[k])
  {
    var bytes := Utf8(GidText(kind, id));
    DecodeEncode(bytes);
    EncodeAlphabet(bytes);
    Encode(bytes)
  }
}
