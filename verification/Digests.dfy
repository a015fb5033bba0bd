/**
 Digest texts: what hex.EncodeToString prints, and what replace mode accepts as
 expected_sha256 (replace.go). Texts are byte strings, as in Go.
 */
module Digests {
  import opened Common

  const DIGEST_SIZE := 32

  type Digest = d: bytes | |d| == DIGEST_SIZE witness seq(32, _ => 0)

  /** The lower-case hexadecimal digit of a nibble. */
  function HexDigit(nibble: int): byte
    requires 0 <= nibble < 16
  {
    if nibble < 10 then ('0' as int + nibble) as byte else ('a' as int + nibble - 10) as byte
  }

  function Hex(data: bytes): (text: bytes)
    ensures |text| == 2 * |data|
  {
    if data == [] then []
    else [HexDigit(data[0] as int / 16), HexDigit(data[0] as int % 16)] + Hex(data[1..])
  }

  /** The value of a digit in either case, as the decoder reads it. */
  function DigitValue(b: byte): (v: Option<int>)
    ensures v.Some? ==> 0 <= v.value < 16
  {
    var c := b as int;
    if '0' as int <= c <= '9' as int then Some(c - '0' as int)
    else if 'a' as int <= c <= 'f' as int then Some(c - 'a' as int + 10)
    else if 'A' as int <= c <= 'F' as int then Some(c - 'A' as int + 10)
    else None
  }

  function DecodeHex(text: bytes): (data: Option<bytes>) {
    if text == [] then Some([])
    else if |text| == 1 then None
    else
      var high, low, rest := DigitValue(text[0]), DigitValue(text[1]), DecodeHex(text[2..]);
      if high.Some? && low.Some? && rest.Some? then Some([(16 * high.value + low.value) as byte] + rest.value)
      else None
  }

  function LowerByte(b: byte): byte {
    if 'A' as int <= b as int <= 'Z' as int then (b as int + 32) as byte else b
  }

  /** strings.ToLower on the bytes that survive the decoder, which are all ASCII. */
  function ToLower(text: bytes): bytes {
    seq(|text|, i requires 0 <= i < |text| => LowerByte(text[i]))
  }

  /** What the request says: a create flag and an expected digest text. */
  datatype ModeArguments = ModeArguments(create: bool, expected: bytes)

  datatype ModeProblem = ModeAccepted | CreateWithDigest | WrongLength | NotHexadecimal | NotLowerCase

  function ValidateMode(arguments: ModeArguments): ModeProblem {
    if arguments.create then (if arguments.expected != [] then CreateWithDigest else ModeAccepted)
    else if |arguments.expected| != 2 * DIGEST_SIZE then WrongLength
    else if DecodeHex(arguments.expected).None? then NotHexadecimal
    else if arguments.expected != ToLower(arguments.expected) then NotLowerCase
    else ModeAccepted
  }

  lemma LowerCaseDigits(nibble: nat)
    requires nibble < 16
    ensures HexDigit(nibble) as int == "0123456789abcdef"[nibble] as int
  {
  }

  predicate IsHexDigit(b: byte) {
    DigitValue(b).Some?
  }

  /** A digit is one of these twenty-two characters. */
  lemma DigitsAre(b: byte)
    ensures IsHexDigit(b) <==>
              || '0' as int <= b as int <= '9' as int
              || 'a' as int <= b as int <= 'f' as int
              || 'A' as int <= b as int <= 'F' as int
  {
  }

  lemma {:induction false} DecodableMeansDigits(text: bytes)
    ensures DecodeHex(text).Some? <==> |text| % 2 == 0 && forall i :: 0 <= i < |text| ==> IsHexDigit(text[i])
  {
    if |text| >= 2 {
      DecodableMeansDigits(text[2..]);
      assert forall i :: 2 <= i < |text| ==> text[i] == text[2..][i - 2];
    }
  }

  predicate IsUpper(b: byte) {
    'A' as int <= b as int <= 'Z' as int
  }

  /** Which problem a request's digest text has, told from its length and its characters. */
  lemma ModeProblemExactly(arguments: ModeArguments)
    ensures var text, problem := arguments.expected, ValidateMode(arguments);
            && (problem == CreateWithDigest <==> arguments.create && text != [])
            && (problem == WrongLength <==> !arguments.create && |text| != 64)
            && (problem == NotHexadecimal <==>
                  !arguments.create && |text| == 64 && exists i :: 0 <= i < |text| && !IsHexDigit(text[i]))
            && (problem == NotLowerCase <==>
                  && !arguments.create && |text| == 64 && (forall i :: 0 <= i < |text| ==> IsHexDigit(text[i]))
                  && exists i :: 0 <= i < |text| && IsUpper(text[i]))
  {
    var text := arguments.expected;
    DecodableMeansDigits(text);
    if exists i :: 0 <= i < |text| && IsUpper(text[i]) {
      var i :| 0 <= i < |text| && IsUpper(text[i]);
      assert ToLower(text)[i] != text[i];
    } else {
      assert ToLower(text) == text;
    }
  }

  lemma HexByteRoundTrip(b: byte)
    ensures DigitValue(HexDigit(b as int / 16)) == Some(b as int / 16)
    ensures DigitValue(HexDigit(b as int % 16)) == Some(b as int % 16)
    ensures LowerByte(HexDigit(b as int / 16)) == HexDigit(b as int / 16)
    ensures LowerByte(HexDigit(b as int % 16)) == HexDigit(b as int % 16)
  {
  }

  lemma {:induction false} HexRoundTrip(data: bytes)
    ensures DecodeHex(Hex(data)) == Some(data)
    ensures ToLower(Hex(data)) == Hex(data)
  {
    if data != [] {
      HexByteRoundTrip(data[0]);
      HexRoundTrip(data[1..]);
      var text := Hex(data);
      assert text[2..] == Hex(data[1..]);
      assert [data[0]] + data[1..] == data;
      forall i | 0 <= i < |text| ensures ToLower(text)[i] == text[i] {
        if i >= 2 {
          assert text[i] == Hex(data[1..])[i - 2];
          assert ToLower(Hex(data[1..]))[i - 2] == Hex(data[1..])[i - 2];
        }
      }
    }
  }

  /** A lower-case text that decodes is the printed form of what it decodes to. */
  lemma {:induction false} LowerTextIsPrinted(text: bytes)
    requires DecodeHex(text).Some? && text == ToLower(text)
    ensures Hex(DecodeHex(text).value) == text
  {
    if text != [] {
      var rest := text[2..];
      forall i | 0 <= i < |rest| ensures rest[i] == ToLower(rest)[i] {
        assert text[i + 2] == ToLower(text)[i + 2];
      }
      LowerTextIsPrinted(rest);
      assert text[0] == ToLower(text)[0] && text[1] == ToLower(text)[1];
      LowerDigit(text[0]);
      LowerDigit(text[1]);
      var data := DecodeHex(text).value;
      assert data[1..] == DecodeHex(rest).value;
      assert text == [text[0], text[1]] + rest;
    }
  }

  lemma LowerDigit(b: byte)
    requires DigitValue(b).Some? && LowerByte(b) == b
    ensures 0 <= DigitValue(b).value < 16 && HexDigit(DigitValue(b).value) == b
  {
  }

  /** Replace mode accepts exactly the printed forms of 32-byte values. */
  lemma ReplaceModeAcceptsExactlyDigests(expected: bytes)
    ensures ValidateMode(ModeArguments(false, expected)) == ModeAccepted
            <==> exists d: Digest :: Hex(d) == expected
  {
    if ValidateMode(ModeArguments(false, expected)) == ModeAccepted {
      LowerTextIsPrinted(expected);
      var d: Digest := DecodeHex(expected).value;
      assert Hex(d) == expected;
    }
    if exists d: Digest :: Hex(d) == expected {
      var d: Digest :| Hex(d) == expected;
      HexRoundTrip(d);
    }
  }

  /** Two values print alike only if they are the same value. */
  lemma HexInjective(a: bytes, b: bytes)
    requires Hex(a) == Hex(b)
    ensures a == b
  {
    HexRoundTrip(a);
    HexRoundTrip(b);
  }
}
