/** JavaScript strings as the action sees them: sequences of UTF-16 code units.
    `length`, `charCodeAt` and `String.fromCharCode` all work on code units,
    so a lone surrogate half is an ordinary element here. */
module Utf16 {

  /** One UTF-16 code unit. */
  type CodeUnit = x: int | 0 <= x < 0x1_0000

  /** A JavaScript string. */
  type Text = seq<CodeUnit>

  /** True when every character of `s` fits in one code unit (the Basic Multilingual Plane). */
  predicate InBmp(s: string) {
    forall i :: 0 <= i < |s| ==> s[i] as int < 0x1_0000
  }

  /** The code units of a Dafny string literal; used to write field names, messages
      and test vectors, all of which lie in the Basic Multilingual Plane, where each
      character is exactly one code unit. */
  function Units(s: string): (r: Text)
    ensures |r| == |s|
    ensures InBmp(s) ==> forall i :: 0 <= i < |s| ==> r[i] == s[i] as int
  {
    seq(|s|, i requires 0 <= i < |s| => s[i] as int % 0x1_0000)
  }

  /** Converting a concatenation converts each part. */
  lemma UnitsAppend(s: string, t: string)
    ensures Units(s + t) == Units(s) + Units(t)
  {
  }
}
