/**
 JavaScript strings: sequences of 16-bit code units, as in the source language, so that surrogate
 pairs, lone surrogates and offsets inside a pair are part of the model.
 */
module JsStrings {
  type Unit = u: int | 0 <= u < 0x1_0000
  type Text = seq<Unit>

  const MAX_CODE_POINT := 0x10FFFF

  predicate High(u: Unit) { 0xD800 <= u < 0xDC00 }

  predicate Low(u: Unit) { 0xDC00 <= u < 0xE000 }

  /** String.fromCodePoint on a valid code point. */
  function FromCodePoint(v: nat): (t: Text)
    requires v <= MAX_CODE_POINT
    ensures |t| == 1 || (|t| == 2 && High(t[0]) && Low(t[1]))
  {
    if v < 0x1_0000 then [v]
    else [0xD800 + (v - 0x1_0000) / 0x400, 0xDC00 + (v - 0x1_0000) % 0x400]
  }
}
