/**
 The text encodings results travel in: UTF-8 validity (RFC 3629), base64 with
 padding (section 4 of RFC 4648), and the size of a string once written as JSON.
 */
module Encodings {
  import opened Common
  import opened Digests

  const MAXIMUM_PAYLOAD := 1048576          // the payload bound of the agent's tool contract
  const MAXIMUM_BYTES := MAXIMUM_PAYLOAD / 2
  const ENVELOPE_ROOM := 349520             // what two base64 streams of MAXIMUM_BYTES leave

  // ---- UTF-8 ----

  predicate Continuation(b: byte) {
    0x80 <= b as int <= 0xbf
  }

  /** The second byte a leading byte allows. */
  predicate SecondByte(lead: byte, b: byte) {
    var low := if lead as int == 0xe0 then 0xa0 else if lead as int == 0xf0 then 0x90 else 0x80;
    var high := if lead as int == 0xed then 0x9f else if lead as int == 0xf4 then 0x8f else 0xbf;
    low <= b as int <= high
  }

  /** The length of the rune the text starts with; 0 if there is none. */
  function RuneLength(text: bytes): (n: nat)
    ensures n <= |text|
  {
    if text == [] then 0
    else
      var lead := text[0] as int;
      if lead < 0x80 then 1
      else if 0xc2 <= lead <= 0xdf then (if |text| >= 2 && SecondByte(text[0], text[1]) then 2 else 0)
      else if 0xe0 <= lead <= 0xef then
        (if |text| >= 3 && SecondByte(text[0], text[1]) && Continuation(text[2]) then 3 else 0)
      else if 0xf0 <= lead <= 0xf4 then
        (if |text| >= 4 && SecondByte(text[0], text[1]) && Continuation(text[2]) && Continuation(text[3]) then 4 else 0)
      else 0
  }

  predicate ValidUtf8(text: bytes) {
    text == [] || (RuneLength(text) > 0 && ValidUtf8(text[RuneLength(text)..]))
  }

  /** A Unicode scalar value: a code point that is not a surrogate. */
  type Scalar = r: int | 0 <= r < 0x110000 && !(0xd800 <= r < 0xe000) witness 0

  /** The encoding of one scalar value (section 3 of RFC 3629). */
  function EncodeRune(r: Scalar): (text: bytes)
    ensures 1 <= |text| <= 4
  {
    if r < 0x80 then [r as byte]
    else if r < 0x800 then [(0xc0 + r / 64) as byte, (0x80 + r % 64) as byte]
    else if r < 0x10000 then [(0xe0 + r / 4096) as byte, (0x80 + r / 64 % 64) as byte, (0x80 + r % 64) as byte]
    else [(0xf0 + r / 262144) as byte, (0x80 + r / 4096 % 64) as byte, (0x80 + r / 64 % 64) as byte, (0x80 + r % 64) as byte]
  }

  function EncodeRunes(runes: seq<Scalar>): bytes {
    if runes == [] then [] else EncodeRune(runes[0]) + EncodeRunes(runes[1..])
  }

  /** An encoded scalar value is recognised, however the text goes on. */
  lemma RuneStarts(r: Scalar, rest: bytes)
    ensures RuneLength(EncodeRune(r) + rest) == |EncodeRune(r)|
  {
    var text := EncodeRune(r) + rest;
    assert forall i :: 0 <= i < |EncodeRune(r)| ==> text[i] == EncodeRune(r)[i];
  }

  lemma Sextets(x: int, y: int, z: int)
    requires 0 <= x && 0 <= y < 64 && 0 <= z < 64
    ensures var r := (x * 64 + y) * 64 + z; r % 64 == z && r / 64 == x * 64 + y && r / 64 % 64 == y && r / 4096 == x
  {
  }

  lemma ThreeByteRune(a: int, b: int, c: int) returns (r: Scalar)
    requires 0 <= a < 16 && 0 <= b < 64 && 0 <= c < 64
    requires (a == 0 ==> b >= 0x20) && (a == 13 ==> b < 0x20)
    ensures EncodeRune(r) == [(0xe0 + a) as byte, (0x80 + b) as byte, (0x80 + c) as byte]
  {
    Sextets(a, b, c);
    r := (a * 64 + b) * 64 + c;
  }

  lemma FourByteRune(a: int, b: int, c: int, d: int) returns (r: Scalar)
    requires 0 <= a < 5 && 0 <= b < 64 && 0 <= c < 64 && 0 <= d < 64
    requires (a == 0 ==> b >= 0x10) && (a == 4 ==> b < 0x10)
    ensures EncodeRune(r) == [(0xf0 + a) as byte, (0x80 + b) as byte, (0x80 + c) as byte, (0x80 + d) as byte]
  {
    Sextets(a * 64 + b, c, d);
    Sextets(a, b, c);
    r := ((a * 64 + b) * 64 + c) * 64 + d;
    assert r / 262144 == a && r / 4096 % 64 == b;
  }

  /** What is recognised at the start of a text is an encoded scalar value. */
  lemma StartIsRune(text: bytes) returns (r: Scalar)
    requires RuneLength(text) > 0
    ensures text[..RuneLength(text)] == EncodeRune(r)
  {
    var n := RuneLength(text);
    var a := text[0] as int;
    if n == 1 {
      r := a;
    } else if n == 2 {
      r := (a - 0xc0) * 64 + (text[1] as int - 0x80);
    } else if n == 3 {
      r := ThreeByteRune(a - 0xe0, text[1] as int - 0x80, text[2] as int - 0x80);
    } else {
      r := FourByteRune(a - 0xf0, text[1] as int - 0x80, text[2] as int - 0x80, text[3] as int - 0x80);
    }
  }

  /** A text is valid if and only if it is the encoding of some sequence of Unicode scalar values. */
  lemma ValidMeansEncoded(text: bytes)
    ensures ValidUtf8(text) <==> exists runes :: EncodeRunes(runes) == text
  {
    if ValidUtf8(text) {
      var runes := RunesOf(text);
    }
    forall runes | EncodeRunes(runes) == text ensures ValidUtf8(text) {
      EncodedIsValid(runes);
    }
  }

  lemma {:induction false} RunesOf(text: bytes) returns (runes: seq<Scalar>)
    requires ValidUtf8(text)
    ensures EncodeRunes(runes) == text
    decreases |text|
  {
    if text == [] {
      runes := [];
    } else {
      var r := StartIsRune(text);
      var rest := RunesOf(text[RuneLength(text)..]);
      runes := [r] + rest;
      assert runes[1..] == rest;
    }
  }

  lemma {:induction false} EncodedIsValid(runes: seq<Scalar>)
    ensures ValidUtf8(EncodeRunes(runes))
  {
    if runes != [] {
      var first, rest := EncodeRune(runes[0]), EncodeRunes(runes[1..]);
      RuneStarts(runes[0], rest);
      EncodedIsValid(runes[1..]);
      assert (first + rest)[|first|..] == rest;
    }
  }

  ghost predicate Ascii(text: bytes) {
    forall i :: 0 <= i < |text| ==> text[i] as int < 0x80
  }

  lemma {:induction false} AsciiIsValid(text: bytes)
    requires Ascii(text)
    ensures ValidUtf8(text)
    decreases |text|
  {
    if text != [] {
      AsciiIsValid(text[1..]);
    }
  }

  // ---- base64 ----

  const PAD: byte := 61

  function Sextet(v: int): byte
    requires 0 <= v < 64
  {
    if v < 26 then (65 + v) as byte
    else if v < 52 then (97 + v - 26) as byte
    else if v < 62 then (48 + v - 52) as byte
    else if v == 62 then 43 else 47
  }

  /** The digits are those of the standard alphabet (table 1 of RFC 4648). */
  lemma StandardAlphabet(v: nat)
    requires v < 64
    ensures v < 26 ==> Sextet(v) as int == "ABCDEFGHIJKLMNOPQRSTUVWXYZ"[v] as int
    ensures 26 <= v < 52 ==> Sextet(v) as int == "abcdefghijklmnopqrstuvwxyz"[v - 26] as int
    ensures 52 <= v ==> Sextet(v) as int == "0123456789+/"[v - 52] as int
  {
  }

  function SextetValue(b: byte): (v: Option<int>)
    ensures v.Some? ==> 0 <= v.value < 64
  {
    var c := b as int;
    if 65 <= c <= 90 then Some(c - 65)
    else if 97 <= c <= 122 then Some(c - 97 + 26)
    else if 48 <= c <= 57 then Some(c - 48 + 52)
    else if c == 43 then Some(62)
    else if c == 47 then Some(63)
    else None
  }

  function Quad(a: byte, b: byte, c: byte): (q: bytes)
    ensures |q| == 4
  {
    [Sextet(a as int / 4), Sextet(a as int % 4 * 16 + b as int / 16),
     Sextet(b as int % 16 * 4 + c as int / 64), Sextet(c as int % 64)]
  }

  function Base64(data: bytes): (text: bytes) {
    if data == [] then []
    else if |data| == 1 then Quad(data[0], 0, 0)[..2] + [PAD, PAD]
    else if |data| == 2 then Quad(data[0], data[1], 0)[..3] + [PAD]
    else Quad(data[0], data[1], data[2]) + Base64(data[3..])
  }

  /** Four values put back together; the caller cuts off what padding stands for. */
  function Triple(p: int, q: int, r: int, s: int): (t: bytes)
    requires 0 <= p < 64 && 0 <= q < 64 && 0 <= r < 64 && 0 <= s < 64
    ensures |t| == 3
  {
    [(p * 4 + q / 16) as byte, (q % 16 * 16 + r / 4) as byte, (r % 4 * 64 + s) as byte]
  }

  function Unbase64(text: bytes): Option<bytes> {
    if text == [] then Some([])
    else if |text| < 4 then None
    else
      var p, q, r, s := SextetValue(text[0]), SextetValue(text[1]), SextetValue(text[2]), SextetValue(text[3]);
      if p.None? || q.None? then None
      else if |text| == 4 && text[2] == PAD && text[3] == PAD then
        (if q.value % 16 == 0 then Some(Triple(p.value, q.value, 0, 0)[..1]) else None)
      else if r.None? then None
      else if |text| == 4 && text[3] == PAD then
        (if r.value % 4 == 0 then Some(Triple(p.value, q.value, r.value, 0)[..2]) else None)
      else
        var rest := Unbase64(text[4..]);
        if s.None? || rest.None? then None
        else Some(Triple(p.value, q.value, r.value, s.value) + rest.value)
  }

  lemma SextetRoundTrip(v: int)
    requires 0 <= v < 64
    ensures SextetValue(Sextet(v)) == Some(v) && Sextet(v) != PAD
    ensures 43 <= Sextet(v) as int <= 122 && EscapedByte(Sextet(v)) == 1
  {
  }

  lemma FirstByteUnpacks(a: int, b: int)
    requires 0 <= a < 256 && 0 <= b < 256
    ensures var q := a % 4 * 16 + b / 16; 0 <= q < 64 && q / 16 == a % 4 && q % 16 == b / 16 && a / 4 * 4 + q / 16 == a
  {
  }

  lemma SecondByteUnpacks(b: int, c: int)
    requires 0 <= b < 256 && 0 <= c < 256
    ensures var r := b % 16 * 4 + c / 64; 0 <= r < 64 && r / 4 == b % 16 && r % 4 == c / 64 && b / 16 * 16 + r / 4 == b
  {
  }

  lemma QuadValues(a: byte, b: byte, c: byte)
    ensures var q := Quad(a, b, c);
            && SextetValue(q[0]) == Some(a as int / 4)
            && SextetValue(q[1]) == Some(a as int % 4 * 16 + b as int / 16)
            && SextetValue(q[2]) == Some(b as int % 16 * 4 + c as int / 64)
            && SextetValue(q[3]) == Some(c as int % 64)
  {
    SextetRoundTrip(a as int / 4);
    SextetRoundTrip(a as int % 4 * 16 + b as int / 16);
    SextetRoundTrip(b as int % 16 * 4 + c as int / 64);
    SextetRoundTrip(c as int % 64);
  }

  lemma TripleUnpacks(a: byte, b: byte, c: byte)
    ensures Triple(a as int / 4, a as int % 4 * 16 + b as int / 16, b as int % 16 * 4 + c as int / 64, c as int % 64)
            == [a, b, c]
  {
    FirstByteUnpacks(a as int, b as int);
    SecondByteUnpacks(b as int, c as int);
  }

  /** The four values of a group, put back together, are its three bytes. */
  lemma QuadRoundTrip(a: byte, b: byte, c: byte)
    ensures var q := Quad(a, b, c);
            && (forall i :: 0 <= i < 4 ==> SextetValue(q[i]).Some?)
            && Triple(SextetValue(q[0]).value, SextetValue(q[1]).value, SextetValue(q[2]).value, SextetValue(q[3]).value)
               == [a, b, c]
            && SextetValue(q[1]).value % 16 == b as int / 16
            && SextetValue(q[2]).value % 4 == c as int / 64
  {
    QuadValues(a, b, c);
    TripleUnpacks(a, b, c);
    FirstByteUnpacks(a as int, b as int);
    SecondByteUnpacks(b as int, c as int);
  }

  lemma QuadSpelling(a: byte, b: byte, c: byte)
    ensures forall i :: 0 <= i < 4 ==>
              var x := Quad(a, b, c)[i]; x != PAD && x as int < 0x80 && EscapedByte(x) == 1
  {
    SextetRoundTrip(a as int / 4);
    SextetRoundTrip(a as int % 4 * 16 + b as int / 16);
    SextetRoundTrip(b as int % 16 * 4 + c as int / 64);
    SextetRoundTrip(c as int % 64);
  }

  lemma DecodeQuad(a: byte, b: byte, c: byte, rest: bytes)
    requires Unbase64(rest).Some?
    ensures Unbase64(Quad(a, b, c) + rest) == Some([a, b, c] + Unbase64(rest).value)
  {
    var text := Quad(a, b, c) + rest;
    QuadRoundTrip(a, b, c);
    QuadSpelling(a, b, c);
    assert forall i :: 0 <= i < 4 ==> text[i] == Quad(a, b, c)[i];
    assert text[4..] == rest;
  }

  lemma DecodePadded(a: byte, b: byte)
    ensures Unbase64(Quad(a, 0, 0)[..2] + [PAD, PAD]) == Some([a])
    ensures Unbase64(Quad(a, b, 0)[..3] + [PAD]) == Some([a, b])
  {
    QuadRoundTrip(a, 0, 0);
    QuadSpelling(a, 0, 0);
    QuadRoundTrip(a, b, 0);
    QuadSpelling(a, b, 0);
    assert Triple(SextetValue(Quad(a, 0, 0)[0]).value, SextetValue(Quad(a, 0, 0)[1]).value, 0, 0)[..1] == [a];
    assert Triple(SextetValue(Quad(a, b, 0)[0]).value, SextetValue(Quad(a, b, 0)[1]).value,
                  SextetValue(Quad(a, b, 0)[2]).value, 0)[..2] == [a, b];
  }

  /** One decoding recovers the exact bytes. */
  lemma {:induction false} Base64RoundTrip(data: bytes)
    ensures Unbase64(Base64(data)) == Some(data)
    decreases |data|
  {
    if |data| == 1 {
      DecodePadded(data[0], 0);
      assert data == [data[0]];
    } else if |data| == 2 {
      DecodePadded(data[0], data[1]);
      assert data == [data[0], data[1]];
    } else if data != [] {
      Base64RoundTrip(data[3..]);
      DecodeQuad(data[0], data[1], data[2], Base64(data[3..]));
      assert data == [data[0], data[1], data[2]] + data[3..];
    }
  }

  function Base64Length(n: nat): nat {
    4 * ((n + 2) / 3)
  }

  // ---- JSON ----

  function Ascii7(text: string): (r: bytes)
    requires forall i :: 0 <= i < |text| ==> text[i] as int < 0x80
    ensures |r| == |text|
  {
    seq(|text|, i requires 0 <= i < |text| => text[i] as int as byte)
  }

  /** One ASCII byte inside a JSON string, as Go writes it. */
  function EscapeByte(b: byte): (text: bytes)
    ensures 1 <= |text| <= 6
  {
    var c := b as int;
    if c == 0x22 || c == 0x5c then [0x5c, b]
    else if c == 0x08 then Ascii7("\\b")
    else if c == 0x0c then Ascii7("\\f")
    else if c == 0x0a then Ascii7("\\n")
    else if c == 0x0d then Ascii7("\\r")
    else if c == 0x09 then Ascii7("\\t")
    else if c < 0x20 || c == 0x3c || c == 0x3e || c == 0x26 then Ascii7("\\u00") + Hex([b])
    else [b]
  }

  function EscapedByte(b: byte): nat {
    |EscapeByte(b)|
  }

  /** U+2028 and U+2029 are escaped too. */
  predicate LineSeparator(text: bytes) {
    |text| >= 3 && text[0] as int == 0xe2 && text[1] as int == 0x80 && (text[2] as int == 0xa8 || text[2] as int == 0xa9)
  }

  /** The text of a JSON string, between its quotes. */
  function JsonText(text: bytes): bytes {
    if text == [] then []
    else if LineSeparator(text) then Ascii7("\\u202") + [(text[2] as int - 0xa8 + 0x38) as byte] + JsonText(text[3..])
    else EscapeByte(text[0]) + JsonText(text[1..])
  }

  function JsonSize(text: bytes): (size: nat) {
    |JsonText(text)|
  }

  // ---- reading a JSON string back (section 7 of RFC 8259) ----

  /** The UTF-8 of a code unit written with four hexadecimal digits; surrogates are not put together here. */
  function CodeUnit(digits: bytes): Option<bytes>
    requires |digits| == 4
  {
    var value := DecodeHex(digits);
    if value.None? || |value.value| != 2 then None
    else
      var r := 256 * value.value[0] as int + value.value[1] as int;
      if 0xd800 <= r < 0xe000 then None else Some(EncodeRune(r))
  }

  /** What a backslash and this byte stand for. */
  function ShortEscape(b: byte): Option<byte> {
    var c := b as int;
    if c == 0x22 || c == 0x5c || c == 0x2f then Some(b)
    else if c == 'b' as int then Some(0x08)
    else if c == 'f' as int then Some(0x0c)
    else if c == 'n' as int then Some(0x0a)
    else if c == 'r' as int then Some(0x0d)
    else if c == 't' as int then Some(0x09)
    else None
  }

  function Prepend(front: bytes, rest: Option<bytes>): Option<bytes> {
    if rest.Some? then Some(front + rest.value) else None
  }

  function ReadJson(json: bytes): Option<bytes>
    decreases |json|
  {
    if json == [] then Some([])
    else if json[0] as int < 0x20 || json[0] as int == 0x22 then None
    else if json[0] as int != 0x5c then Prepend([json[0]], ReadJson(json[1..]))
    else if |json| >= 6 && json[1] as int == 'u' as int then
      var unit := CodeUnit(json[2..6]);
      if unit.None? then None else Prepend(unit.value, ReadJson(json[6..]))
    else if |json| >= 2 && ShortEscape(json[1]).Some? then
      Prepend([ShortEscape(json[1]).value], ReadJson(json[2..]))
    else None
  }

  lemma HexUnit(digits: bytes, high: byte, low: byte)
    requires digits == Hex([high, low]) && !(0xd8 <= high as int < 0xe0)
    ensures |digits| == 4 && CodeUnit(digits) == Some(EncodeRune(256 * high as int + low as int))
  {
    HexRoundTrip([high, low]);
  }

  /** One escaped byte is read back as itself, however the text goes on. */
  lemma EscapeReadsBack(b: byte, rest: bytes)
    ensures ReadJson(EscapeByte(b) + rest) == Prepend([b], ReadJson(rest))
  {
    var json := EscapeByte(b) + rest;
    if |EscapeByte(b)| == 6 {
      assert Hex([0, b]) == Ascii7("00") + Hex([b]) by { assert Hex([0, b][1..]) == Hex([b]); }
      assert json[2..6] == Hex([0, b]);
      HexUnit(json[2..6], 0, b);
      assert json[6..] == rest;
    } else if |EscapeByte(b)| == 2 {
      assert json[2..] == rest;
    } else {
      assert json[1..] == rest;
    }
  }

  lemma SeparatorReadsBack(b: byte, rest: bytes)
    requires b as int == 0xa8 || b as int == 0xa9
    ensures ReadJson(Ascii7("\\u202") + [(b as int - 0xa8 + 0x38) as byte] + rest) == Prepend([0xe2, 0x80, b], ReadJson(rest))
  {
    var json := Ascii7("\\u202") + [(b as int - 0xa8 + 0x38) as byte] + rest;
    var low := (b as int - 0x80) as byte;
    assert json[2..6] == Hex([0x20, low]) by { assert Hex([0x20, low][1..]) == Hex([low]); }
    HexUnit(json[2..6], 0x20, low);
    assert json[6..] == rest;
  }

  /** Reading the JSON text of a string gives the string back. */
  lemma {:induction false} JsonRoundTrip(text: bytes)
    ensures ReadJson(JsonText(text)) == Some(text)
    decreases |text|
  {
    if text != [] {
      if LineSeparator(text) {
        JsonRoundTrip(text[3..]);
        SeparatorReadsBack(text[2], JsonText(text[3..]));
        assert text == [0xe2, 0x80, text[2]] + text[3..];
      } else {
        JsonRoundTrip(text[1..]);
        EscapeReadsBack(text[0], JsonText(text[1..]));
        assert text == [text[0]] + text[1..];
      }
    }
  }

  /** Escaping never shrinks a text and at most multiplies it by six. */
  lemma {:induction false} JsonSizeBounds(text: bytes)
    ensures |text| <= JsonSize(text) <= 6 * |text|
    decreases |text|
  {
    if text != [] {
      JsonSizeBounds(if LineSeparator(text) then text[3..] else text[1..]);
    }
  }

  /** Base64 text is ASCII, needs no escaping, and has the padded length. */
  lemma {:induction false} Base64Spelling(data: bytes)
    ensures |Base64(data)| == Base64Length(|data|)
    ensures Ascii(Base64(data)) && ValidUtf8(Base64(data))
    ensures JsonSize(Base64(data)) == |Base64(data)|
    decreases |data|
  {
    Base64Plain(data);
    AsciiIsValid(Base64(data));
    PlainSize(Base64(data));
  }

  ghost predicate Plain(text: bytes) {
    forall i :: 0 <= i < |text| ==> text[i] as int < 0x80 && EscapedByte(text[i]) == 1
  }

  lemma {:induction false} PlainSize(text: bytes)
    requires Plain(text)
    ensures JsonSize(text) == |text|
    decreases |text|
  {
    if text != [] {
      PlainSize(text[1..]);
    }
  }

  lemma {:induction false} Base64Plain(data: bytes)
    ensures |Base64(data)| == Base64Length(|data|) && Plain(Base64(data))
    decreases |data|
  {
    if |data| == 1 {
      QuadSpelling(data[0], 0, 0);
    } else if |data| == 2 {
      QuadSpelling(data[0], data[1], 0);
    } else if data != [] {
      QuadSpelling(data[0], data[1], data[2]);
      Base64Plain(data[3..]);
      var q, rest := Quad(data[0], data[1], data[2]), Base64(data[3..]);
      forall i | 0 <= i < |Base64(data)| ensures Base64(data)[i] as int < 0x80 && EscapedByte(Base64(data)[i]) == 1 {
        assert Base64(data)[i] == if i < 4 then q[i] else rest[i - 4];
      }
    }
  }

  /** The bounds the base64 fallback rests on: one stream, and two that share one budget. */
  lemma FallbackFits(a: nat, b: nat)
    requires a + b <= MAXIMUM_BYTES
    ensures Base64Length(a) <= 699052
    ensures Base64Length(a) + Base64Length(b) <= 699056
    ensures Base64Length(a) + Base64Length(b) + ENVELOPE_ROOM <= MAXIMUM_PAYLOAD
  {
  }

  /** The two bounds are reached, so neither can be lowered. */
  lemma FallbackBoundsAreTight()
    ensures Base64Length(MAXIMUM_BYTES) == 699052
    ensures Base64Length(1) + Base64Length(MAXIMUM_BYTES - 1) == 699056
  {
  }

  // ---- how a byte string is carried ----

  datatype Encoding = Utf8 | Base64Text

  function Decoded(encoding: Encoding, text: bytes): Option<bytes> {
    match encoding
    case Utf8 => Some(text)
    case Base64Text => Unbase64(text)
  }

  function ChooseEncoding(data: bytes): Encoding {
    if ValidUtf8(data) then Utf8 else Base64Text
  }

  function Carried(encoding: Encoding, data: bytes): bytes {
    match encoding
    case Utf8 => data
    case Base64Text => Base64(data)
  }

  lemma CarriedDecodes(encoding: Encoding, data: bytes)
    ensures Decoded(encoding, Carried(encoding, data)) == Some(data)
    ensures encoding == Base64Text || ValidUtf8(data) ==> ValidUtf8(Carried(encoding, data))
  {
    if encoding == Base64Text {
      Base64RoundTrip(data);
      Base64Spelling(data);
    }
  }
}
