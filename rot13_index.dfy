/** The second copy of the transformer, src/rot13/index.ts: the same regular
    expression replace and the same `letter` callback, written with function
    declarations and its own `key` and `middle` constants. It is defined here on
    its own and proved to agree with `Rot13.Transform` on every text, so every
    property proved there carries over. */
module Rot13Index {
  import opened Utf16
  import Rot13

  const Key := 13
  const Middle: CodeUnit := 'M' as int

  /** The callback `letter` of this copy; it agrees with `Rot13.Letter`. */
  function Letter(c: CodeUnit): (r: CodeUnit)
    requires Rot13.IsAsciiLetter(c)
    ensures r == Rot13.Letter(c)
    ensures Rot13.IsUpper(r) == Rot13.IsUpper(c) && Rot13.IsLower(r) == Rot13.IsLower(c)
    ensures Rot13.AlphabetIndex(r) == (Rot13.AlphabetIndex(c) + 13) % 26
  {
    var rotation := if Rot13.ToUpper(c) <= Middle then Key else -Key;
    c + rotation
  }

  /** One code unit under `replace(/[A-Za-z]/g, letter)`; it agrees with `Rot13.Substitute`. */
  function Substitute(c: CodeUnit): (r: CodeUnit)
    ensures r == Rot13.Substitute(c)
  {
    if Rot13.IsAsciiLetter(c) then Letter(c) else c
  }

  /** `transform` of this copy. */
  function Transform(text: Text): (r: Text)
    ensures |r| == |text|
  {
    if text == [] then [] else [Substitute(text[0])] + Transform(text[1..])
  }

  /** Both copies of `transform` give the same result on every text. */
  lemma {:induction false} SameAsRot13(text: Text)
    ensures Transform(text) == Rot13.Transform(text)
  {
    if text != [] {
      SameAsRot13(text[1..]);
    }
  }

  /** Position by position this copy rotates ASCII letters within their case and
      leaves every other code unit alone, exactly as `Rot13.Substitute` does. */
  lemma TransformAt(text: Text, i: nat)
    requires i < |text|
    ensures Transform(text)[i] == Rot13.Substitute(text[i])
    ensures !Rot13.IsAsciiLetter(text[i]) ==> Transform(text)[i] == text[i]
    ensures Rot13.IsUpper(Transform(text)[i]) == Rot13.IsUpper(text[i])
    ensures Rot13.IsLower(Transform(text)[i]) == Rot13.IsLower(text[i])
  {
    SameAsRot13(text);
    Rot13.TransformAt(text, i);
  }

  /** Applying this copy twice returns the original text. */
  lemma TransformInvolution(text: Text)
    ensures Transform(Transform(text)) == text
  {
  }
}
