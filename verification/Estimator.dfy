/** Input-token estimate of a gateway request body (gateway_supervisor.py, `estimate_request_input_tokens`). */
module Estimator {

  const ASCII_CHARS_PER_TOKEN := 4

  // A Unicode scalar value; a decoded body never holds a surrogate.
  type CodePoint = c: int | 0 <= c <= 0x10FFFF && !(0xD800 <= c <= 0xDFFF)

  newtype Byte = b: int | 0 <= b < 256

  // One scalar value in UTF-8, by the bit distribution of section 3 of RFC 3629.
  function Utf8Character(c: CodePoint): (bytes: seq<Byte>)
    ensures 1 <= |bytes| <= 4
    ensures c < 0x80 <==> |bytes| == 1
  {
    if c <= 0x7F then [c as Byte]
    else if c <= 0x7FF then [(0xC0 + c / 64) as Byte, (0x80 + c % 64) as Byte]
    else if c <= 0xFFFF then
      [(0xE0 + c / 4096) as Byte, (0x80 + c / 64 % 64) as Byte, (0x80 + c % 64) as Byte]
    else
      [(0xF0 + c / 262144) as Byte, (0x80 + c / 4096 % 64) as Byte,
       (0x80 + c / 64 % 64) as Byte, (0x80 + c % 64) as Byte]
  }

  function Utf8Encode(text: seq<CodePoint>): (body: seq<Byte>)
  {
    if text == [] then [] else Utf8Encode(text[..|text| - 1]) + Utf8Character(text[|text| - 1])
  }

  function AsciiCount(text: seq<CodePoint>): nat
  {
    if text == [] then 0
    else AsciiCount(text[..|text| - 1]) + (if text[|text| - 1] < 0x80 then 1 else 0)
  }

  // Every byte of the encoded text is either an ASCII character or part of a wider one.
  function Estimate(text: seq<CodePoint>): int
  {
    var ascii := AsciiCount(text);
    var tokens := (ascii + ASCII_CHARS_PER_TOKEN - 1) / ASCII_CHARS_PER_TOKEN + (|Utf8Encode(text)| - ascii);
    if tokens < 1 then 1 else tokens
  }

  method EstimateRequestInputTokens(text: seq<CodePoint>) returns (tokens: int)
    ensures tokens == Estimate(text)
  {
    var ascii, wide := 0, 0;
    for i := 0 to |text|
      invariant ascii == AsciiCount(text[..i])
      invariant wide == |Utf8Encode(text[..i])| - ascii
    {
      assert text[..i + 1][..i] == text[..i];
      if text[i] < 0x80 {
        ascii := ascii + 1;
      } else {
        wide := wide + (if text[i] <= 0x7FF then 2 else if text[i] <= 0xFFFF then 3 else 4);
      }
    }
    assert text[..|text|] == text;
    tokens := (ascii + ASCII_CHARS_PER_TOKEN - 1) / ASCII_CHARS_PER_TOKEN + wide;
    if tokens < 1 {
      tokens := 1;
    }
  }

  lemma {:induction false} AsciiFitsInBody(text: seq<CodePoint>)
    ensures AsciiCount(text) <= |Utf8Encode(text)|
    ensures text != [] ==> |Utf8Encode(text)| >= 1
  {
    if text != [] {
      AsciiFitsInBody(text[..|text| - 1]);
    }
  }

  /** The estimate never exceeds the transport size of a nonempty body and never falls below a
      quarter of it, so a byte-for-byte reservation always covers the estimate. */
  lemma EstimateWithinBody(text: seq<CodePoint>)
    ensures 1 <= Estimate(text)
    ensures text != [] ==> Estimate(text) <= |Utf8Encode(text)|
    ensures |Utf8Encode(text)| <= 4 * Estimate(text)
  {
    AsciiFitsInBody(text);
  }

  /** Four ASCII characters count as one token, rounded up, and every other byte as one of its own. */
  lemma EstimateCounts(text: seq<CodePoint>)
    requires text != []
    ensures var others := |Utf8Encode(text)| - AsciiCount(text);
      0 <= 4 * (Estimate(text) - others) - AsciiCount(text) < 4
    ensures (forall i :: 0 <= i < |text| ==> text[i] < 128) ==>
      AsciiCount(text) == |Utf8Encode(text)| == |text| && |text| <= 4 * Estimate(text) < |text| + 4
  {
    AsciiFitsInBody(text);
    if forall i :: 0 <= i < |text| ==> text[i] < 128 {
      AsciiBody(text);
    }
  }

  lemma {:induction false} AsciiBody(text: seq<CodePoint>)
    requires forall i :: 0 <= i < |text| ==> text[i] < 128
    ensures AsciiCount(text) == |Utf8Encode(text)| == |text|
  {
    if text != [] {
      AsciiBody(text[..|text| - 1]);
    }
  }
}
