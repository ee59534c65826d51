/**
 Lower-case base16 (section 8 of RFC 4648), the text form in which snapshot contents are stored.
 Decoding accepts both letter cases and rejects odd lengths and any other character.
 */
module Hex {
  import opened Prelude

  datatype HexError = OddLength | InvalidDigit

  function Digit(n: nat): char
    requires n < 16
  {
    if n < 10 then (n + '0' as int) as char else (n - 10 + 'a' as int) as char
  }

  function DigitValue(c: char): (value: Option<nat>)
    ensures value.Some? ==> value.value < 16
  {
    if '0' <= c <= '9' then Some(c as int - '0' as int)
    else if 'a' <= c <= 'f' then Some(c as int - 'a' as int + 10)
    else if 'A' <= c <= 'F' then Some(c as int - 'A' as int + 10)
    else None
  }

  function Encode(content: Bytes): string {
    if content == [] then "" else [Digit(content[0] / 16), Digit(content[0] % 16)] + Encode(content[1..])
  }

  function DecodePairs(text: string): Result<Bytes, HexError>
    requires |text| % 2 == 0
  {
    if text == "" then Ok([]) else
    match (DigitValue(text[0]), DigitValue(text[1]))
    case (Some(hi), Some(lo)) =>
      (match DecodePairs(text[2..])
       case Ok(rest) => Ok([16 * hi + lo] + rest)
       case Err(e) => Err(e))
    case _ => Err(InvalidDigit)
  }

  function Decode(text: string): Result<Bytes, HexError> {
    if |text| % 2 != 0 then Err(OddLength) else DecodePairs(text)
  }

  predicate IsDigit(c: char) {
    '0' <= c <= '9' || 'a' <= c <= 'f' || 'A' <= c <= 'F'
  }

  lemma {:induction false} DigitsAre(n: nat)
    requires n < 16
    ensures Digit(n) == "0123456789abcdef"[n]
  {
  }

  /** Each byte is written as its high and its low digit, in lower case. */
  lemma {:induction false} EncodedAt(content: Bytes, i: nat)
    requires i < |content|
    ensures |Encode(content)| == 2 * |content|
    ensures Encode(content)[2 * i] == "0123456789abcdef"[content[i] / 16]
    ensures Encode(content)[2 * i + 1] == "0123456789abcdef"[content[i] % 16]
  {
    EncodedLength(content[1..]);
    if i == 0 {
      DigitsAre(content[0] / 16);
      DigitsAre(content[0] % 16);
    } else {
      EncodedAt(content[1..], i - 1);
    }
  }

  lemma {:induction false} EncodedLength(content: Bytes)
    ensures |Encode(content)| == 2 * |content|
  {
    if content != [] {
      EncodedLength(content[1..]);
    }
  }

  ghost predicate IsHexText(text: string) {
    |text| % 2 == 0 && forall i | 0 <= i < |text| :: IsDigit(text[i])
  }

  function Lower(c: char): char {
    if 'A' <= c <= 'F' then (c as int - 'A' as int + 'a' as int) as char else c
  }

  function Lowered(text: string): string {
    seq(|text|, i requires 0 <= i < |text| => Lower(text[i]))
  }

  lemma {:induction false} DigitRoundTrip(n: nat)
    requires n < 16
    ensures DigitValue(Digit(n)) == Some(n)
  {
  }

  lemma {:induction false} DigitOfValue(c: char)
    requires DigitValue(c).Some?
    ensures Digit(DigitValue(c).value) == Lower(c)
  {
  }

  /** Every byte string survives being written and read back. */
  lemma {:induction false} RoundTrip(content: Bytes)
    ensures Decode(Encode(content)) == Ok(content)
  {
    if content == [] {
    } else {
      RoundTrip(content[1..]);
      DigitRoundTrip(content[0] / 16);
      DigitRoundTrip(content[0] % 16);
      assert Encode(content)[2..] == Encode(content[1..]);
      assert content == [content[0]] + content[1..];
    }
  }

  lemma {:induction false} EncodeStep(hi: nat, lo: nat, rest: Bytes)
    requires hi < 16 && lo < 16
    ensures Encode([16 * hi + lo] + rest) == [Digit(hi), Digit(lo)] + Encode(rest)
  {
    var content: Bytes := [16 * hi + lo] + rest;
    assert content[1..] == rest;
    assert content[0] / 16 == hi && content[0] % 16 == lo;
  }

  lemma {:induction false} HexTextStep(text: string)
    requires |text| >= 2
    ensures IsHexText(text) <==> DigitValue(text[0]).Some? && DigitValue(text[1]).Some? && IsHexText(text[2..])
  {
    if DigitValue(text[0]).Some? && DigitValue(text[1]).Some? && IsHexText(text[2..]) {
      forall i | 2 <= i < |text| ensures DigitValue(text[i]).Some? {
        assert text[i] == text[2..][i - 2];
      }
    }
  }

  /** Decoding succeeds on exactly the even-length hexadecimal texts, and re-encoding only lowers the letters. */
  lemma {:induction false} DecodeExactly(text: string)
    ensures Decode(text).Ok? <==> IsHexText(text)
    ensures Decode(text).Ok? ==> Encode(Decode(text).value) == Lowered(text)
  {
    if |text| < 2 {
    } else {
      DecodeExactly(text[2..]);
      HexTextStep(text);
      if Decode(text).Ok? {
        var hi, lo := DigitValue(text[0]).value, DigitValue(text[1]).value;
        DigitOfValue(text[0]);
        DigitOfValue(text[1]);
        EncodeStep(hi, lo, Decode(text[2..]).value);
        assert Lowered(text) == [Lower(text[0]), Lower(text[1])] + Lowered(text[2..]);
      }
    }
  }
}
