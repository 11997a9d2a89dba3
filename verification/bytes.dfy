/** Raw bytes and the byte constants the decoder compares against. */
module Bytes {

  /** One octet of the input buffer, stored unsigned. */
  newtype byte = x: int | 0 <= x < 256

  const Quote: byte := 34     // '"'
  const Comma: byte := 44     // ','
  const Zero: byte := 48      // '0'
  const Nine: byte := 57      // '9'
  const Colon: byte := 58     // ':'
  const LBracket: byte := 91  // '['
  const RBracket: byte := 93  // ']'
  const LowerF: byte := 102   // 'f'
  const LowerT: byte := 116   // 't'
  const LBrace: byte := 123   // '{'
  const RBrace: byte := 125   // '}'

  /** The value a Java `byte` holding these bits has once widened to `int` (sign extension). */
  function JavaByte(b: byte): (v: int)
    ensures -128 <= v < 128
    ensures v % 256 == b as int
    ensures b < 128 <==> v == b as int
  {
    if b < 128 then b as int else b as int - 256
  }

  /** The source's digit test: the signed byte lies in '0'..'9'. */
  predicate IsDigit(b: byte) {
    Zero as int <= JavaByte(b) <= Nine as int
  }

  predicate AllDigits(s: seq<byte>) {
    forall k :: 0 <= k < |s| ==> IsDigit(s[k])
  }

  /** True when `s` holds no double-quote byte. */
  predicate QuoteFree(s: seq<byte>) {
    forall k :: 0 <= k < |s| ==> s[k] != Quote
  }

  /** The bytes of an ASCII string literal. */
  function Ascii(s: string): (r: seq<byte>)
    ensures |r| == |s|
  {
    seq(|s|, i requires 0 <= i < |s| => (s[i] as int % 256) as byte)
  }
}
