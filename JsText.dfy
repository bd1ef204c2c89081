/**
 * JavaScript strings as the program sees them: sequences of UTF-16 code
 * units. `String.prototype.slice` and `.length` count code units, so a
 * character outside the Basic Multilingual Plane (every emoji prefix the
 * remixer uses) occupies two positions, a surrogate pair.
 *
 * Dafny's `char` is a Unicode scalar value and cannot hold a lone
 * surrogate, so the model keeps its own code-unit type and writes the
 * program's string literals through `Bmp` and `EncodeChar`.
 */
module JsText {

  /** One UTF-16 code unit. */
  type CodeUnit = u: int | 0 <= u < 0x1_0000

  /** A JavaScript string value. */
  type JsString = seq<CodeUnit>

  predicate IsHighSurrogate(u: CodeUnit) {
    0xD800 <= u < 0xDC00
  }

  predicate IsLowSurrogate(u: CodeUnit) {
    0xDC00 <= u < 0xE000
  }

  /** Does every character of `s` lie in the Basic Multilingual Plane? */
  predicate IsBmp(s: string) {
    forall i :: 0 <= i < |s| ==> s[i] as int < 0x1_0000
  }

  /** A literal of Basic Multilingual Plane characters, one code unit each. */
  function Bmp(s: string): (r: JsString)
    requires IsBmp(s)
    ensures |r| == |s|
    ensures forall i :: 0 <= i < |s| ==> r[i] == s[i] as int
  {
    seq(|s|, i requires 0 <= i < |s| => s[i] as int)
  }

  /** The UTF-16 encoding of one Unicode scalar value: one unit inside the
      Basic Multilingual Plane, otherwise a high and a low surrogate. */
  function EncodeChar(c: char): (r: JsString)
    ensures c as int < 0x1_0000 ==> r == [c as int]
    ensures c as int >= 0x1_0000 ==>
      |r| == 2 && IsHighSurrogate(r[0]) && IsLowSurrogate(r[1]) &&
      (r[0] as int - 0xD800) * 0x400 + (r[1] as int - 0xDC00) + 0x1_0000 == c as int
  {
    var v := c as int;
    if v < 0x1_0000 then [v]
    else
      var w := v - 0x1_0000;
      [0xD800 + w / 0x400, 0xDC00 + w % 0x400]
  }
}
