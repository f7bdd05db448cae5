/** The ROT13 transformer of src/rot13.ts: every ASCII letter matched by the
    regular expression `/[A-Za-z]/g` is replaced by the callback `letter`,
    which moves it 13 code units up or down; every other code unit is kept. */
module Rot13 {
  import opened Utf16

  /** The rotation amount (`key`). */
  const Key := 13

  /** The pivot letter (`middle`): upper-cased letters up to it move up, the rest move down. */
  const Middle: CodeUnit := 'M' as int

  predicate IsUpper(c: CodeUnit) {
    'A' as int <= c <= 'Z' as int
  }

  predicate IsLower(c: CodeUnit) {
    'a' as int <= c <= 'z' as int
  }

  /** The character class `[A-Za-z]`: the code units 65 to 90 and 97 to 122. */
  predicate IsAsciiLetter(c: CodeUnit)
    ensures IsAsciiLetter(c) <==> 65 <= c <= 90 || 97 <= c <= 122
  {
    IsUpper(c) || IsLower(c)
  }

  /** `toUpperCase` applied to a single ASCII letter. */
  function ToUpper(c: CodeUnit): (r: CodeUnit)
    requires IsAsciiLetter(c)
    ensures IsUpper(r)
    ensures AlphabetIndex(r) == AlphabetIndex(c)
    ensures IsUpper(c) ==> r == c
  {
    if IsLower(c) then c - ('a' as int - 'A' as int) else c
  }

  /** Position of a letter within its own case's alphabet: 0 for A and a, 25 for Z and z. */
  function AlphabetIndex(c: CodeUnit): (r: nat)
    requires IsAsciiLetter(c)
    ensures r < 26
  {
    if IsUpper(c) then c - 'A' as int else c - 'a' as int
  }

  /** The callback `letter`: a letter whose upper-case form is at most `Middle`
      gains `Key`, any other letter loses it. Read against the alphabet, this is
      the Caesar shift by 13 modulo 26 that keeps the letter's case. */
  function Letter(c: CodeUnit): (r: CodeUnit)
    requires IsAsciiLetter(c)
    ensures IsUpper(r) == IsUpper(c) && IsLower(r) == IsLower(c)
    ensures AlphabetIndex(r) == (AlphabetIndex(c) + 13) % 26
    ensures AlphabetIndex(c) < 13 ==> r == c + 13
    ensures AlphabetIndex(c) >= 13 ==> r == c - 13
  {
    var rotation := if ToUpper(c) <= Middle then Key else -Key;
    c + rotation
  }

  /** What the global `replace` does to one code unit: a match of `[A-Za-z]`
      goes through `Letter`, anything else is copied. */
  function Substitute(c: CodeUnit): (r: CodeUnit)
    ensures IsAsciiLetter(r) == IsAsciiLetter(c)
    ensures IsUpper(r) == IsUpper(c) && IsLower(r) == IsLower(c)
    ensures !IsAsciiLetter(c) ==> r == c
  {
    if IsAsciiLetter(c) then Letter(c) else c
  }

  /** `transform`: the replacement scans the text left to right, one code unit at a time. */
  function Transform(text: Text): (r: Text)
    ensures |r| == |text|
  {
    if text == [] then [] else [Substitute(text[0])] + Transform(text[1..])
  }

  /** Two letters of the same case at the same alphabet position are the same code unit. */
  lemma SameLetter(a: CodeUnit, b: CodeUnit)
    requires IsAsciiLetter(a) && IsAsciiLetter(b)
    requires IsUpper(a) == IsUpper(b)
    requires AlphabetIndex(a) == AlphabetIndex(b)
    ensures a == b
  {
  }

  /** Rotating a code unit twice gives it back. */
  lemma SubstituteInvolution(c: CodeUnit)
    ensures Substitute(Substitute(c)) == c
  {
  }

  /** Position `i` of the output is position `i` of the input, substituted. */
  lemma {:induction false} TransformAt(text: Text, i: nat)
    requires i < |text|
    ensures Transform(text)[i] == Substitute(text[i])
  {
    if i > 0 {
      TransformAt(text[1..], i - 1);
    }
  }

  /** The substitution is character-wise: it distributes over concatenation. */
  lemma {:induction false} TransformAppend(a: Text, b: Text)
    ensures Transform(a + b) == Transform(a) + Transform(b)
  {
    if a == [] {
      assert a + b == b;
    } else {
      assert (a + b)[1..] == a[1..] + b;
      TransformAppend(a[1..], b);
    }
  }

  /** Applying the transform twice returns the original text. */
  lemma {:induction false} TransformInvolution(text: Text)
    ensures Transform(Transform(text)) == text
  {
    if text != [] {
      TransformInvolution(text[1..]);
      SubstituteInvolution(text[0]);
    }
  }

  /** Code units outside `[A-Za-z]` stay where they are, and a text without
      ASCII letters is returned unchanged. */
  lemma TransformKeepsNonLetters(text: Text)
    ensures forall i :: 0 <= i < |text| && !IsAsciiLetter(text[i]) ==> Transform(text)[i] == text[i]
    ensures (forall i :: 0 <= i < |text| ==> !IsAsciiLetter(text[i])) ==> Transform(text) == text
  {
  }

  /** Each ASCII letter is rotated by 13 within its own case's alphabet: letters
      A-M and a-m move up by 13, letters N-Z and n-z move down by 13. */
  lemma TransformRotatesLetters(text: Text, i: nat)
    requires i < |text| && IsAsciiLetter(text[i])
    ensures IsUpper(Transform(text)[i]) == IsUpper(text[i])
    ensures IsLower(Transform(text)[i]) == IsLower(text[i])
    ensures AlphabetIndex(Transform(text)[i]) == (AlphabetIndex(text[i]) + 13) % 26
    ensures AlphabetIndex(text[i]) < 13 ==> Transform(text)[i] == text[i] + 13
    ensures AlphabetIndex(text[i]) >= 13 ==> Transform(text)[i] == text[i] - 13
  {
    TransformAt(text, i);
  }

  /** Case is preserved position by position: an upper-case letter stays upper-case,
      a lower-case letter stays lower-case, and a non-letter stays a non-letter. */
  lemma TransformPreservesCase(text: Text)
    ensures forall i :: 0 <= i < |text| ==> IsUpper(Transform(text)[i]) == IsUpper(text[i])
    ensures forall i :: 0 <= i < |text| ==> IsLower(Transform(text)[i]) == IsLower(text[i])
  {
  }

  /** The converse of `TransformAt`: a text of the same length whose every code unit is the
      substituted input code unit is the transform's output. */
  lemma TransformPointwise(text: Text, out: Text)
    requires |out| == |text|
    requires forall i :: 0 <= i < |text| ==> out[i] == Substitute(text[i])
    ensures Transform(text) == out
  {
    forall i | 0 <= i < |text| {
      TransformAt(text, i);
    }
  }

  /** The empty text and the single-letter pairs at both ends of each half of the alphabet. */
  lemma TransformLetterVectors()
    ensures Transform(Units("")) == Units("")
    ensures Transform(Units("A")) == Units("N")
    ensures Transform(Units("M")) == Units("Z")
    ensures Transform(Units("N")) == Units("A")
    ensures Transform(Units("Z")) == Units("M")
    ensures Transform(Units("a")) == Units("n")
    ensures Transform(Units("m")) == Units("z")
    ensures Transform(Units("n")) == Units("a")
    ensures Transform(Units("z")) == Units("m")
  {
  }

  /** Upper-case words, one of them with digits. */
  lemma TransformWordVectors()
    ensures Transform(Units("HELLO")) == Units("URYYB")
    ensures Transform(Units("WORLD")) == Units("JBEYQ")
    ensures Transform(Units("ROT13")) == Units("EBG13")
  {
    // Going through the pointwise form keeps the solver from unfolding Transform on each word.
    TransformPointwise(Units("HELLO"), Units("URYYB"));
    TransformPointwise(Units("WORLD"), Units("JBEYQ"));
    TransformPointwise(Units("ROT13"), Units("EBG13"));
  }

  /** Digits and punctuation come back unchanged. */
  lemma TransformSymbolVectors()
    ensures Transform(Units("123")) == Units("123")
    ensures Transform(Units("!@#$%")) == Units("!@#$%")
  {
  }

  /** Mixed case with punctuation and a space. */
  lemma TransformGreetingVector()
    ensures Transform(Units("Hello, World!")) == Units("Uryyb, Jbeyq!")
  {
    TransformPointwise(Units("Hello, World!"), Units("Uryyb, Jbeyq!"));
  }
}
