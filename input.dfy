/** The input validator of src/input.ts: `parse` checks the action's inputs
    against a strict object schema with one field, `string`, whose value must be
    a string of 1 to 1048576 code units. Like the schema library it is built on,
    it reports every violated rule, not only the first. */
module Input {
  import opened Utf16

  /** A value handed to `parse`, which accepts anything. */
  datatype Value =
    | Str(text: Text)                  // a JavaScript string
    | Obj(fields: map<Text, Value>)    // a plain object: own keys and their values
    | Other                            // number, boolean, null, undefined, array, ...

  /** One violated rule of the schema. */
  datatype Issue =
    | ExpectedObject                   // the input is not an object at all
    | ExpectedString                   // `string` is missing or not a string
    | TooSmall(message: Text)          // the `min` check failed
    | TooBig(message: Text)            // the `max` check failed
    | UnrecognizedKeys(keys: set<Text>) // keys the strict object does not know

  /** What `parse` gives back: the validated text, or the error with all its issues. */
  datatype Parsed = Ok(value: Text) | Err(issues: seq<Issue>)

  /** The only field the schema knows. */
  const FieldName: Text := Units("string")

  /** `minSize` and `maxSize`. */
  const MinSize := 1
  const MaxSize := 1024 * 1024

  /** The message of the `min` check. */
  const EmptyMessage: Text := Units("input field 'string' cannot be empty")

  /** The message of the `max` check, with `maxSize` written in decimal. */
  const TooBigMessage: Text :=
    Units("input field 'string' cannot exceed ") + Decimal(MaxSize) + Units(" characters")

  predicate IsDigit(c: CodeUnit) {
    '0' as int <= c <= '9' as int
  }

  /** The number a non-empty run of decimal digits denotes, read most significant digit first. */
  function DigitsValue(s: Text): nat
    requires forall i :: 0 <= i < |s| ==> IsDigit(s[i])
  {
    if s == [] then 0
    else
      var last := s[|s| - 1];
      assert IsDigit(last);
      10 * DigitsValue(s[..|s| - 1]) + (last - '0' as int)
  }

  /** The decimal numeral of `n`, as a template literal prints a number: digits
      only, and no leading zero unless `n` is zero. */
  function Decimal(n: nat): (s: Text)
    ensures |s| > 0
    ensures forall i :: 0 <= i < |s| ==> IsDigit(s[i])
    ensures s[0] != '0' as int || n == 0
  {
    if n < 10 then ['0' as int + n]
    else Decimal(n / 10) + ['0' as int + n % 10]
  }

  /** The numeral denotes `n`. */
  lemma {:induction false} DecimalValue(n: nat)
    ensures DigitsValue(Decimal(n)) == n
  {
    if n >= 10 {
      var s := Decimal(n);
      assert s[..|s| - 1] == Decimal(n / 10);
      DecimalValue(n / 10);
    }
  }

  /** The field schema `z.string().min(minSize, ...).max(maxSize, ...)` applied to
      the value under `string`. A missing or non-string value fails the type check,
      and then neither length check runs. */
  function StringIssues(fields: map<Text, Value>): (issues: seq<Issue>)
    ensures issues == [] <==>
      FieldName in fields && fields[FieldName].Str? && 1 <= |fields[FieldName].text| <= 1048576
    ensures |issues| <= 1
  {
    if FieldName !in fields || !fields[FieldName].Str? then [ExpectedString]
    else
      var text := fields[FieldName].text;
      (if |text| < MinSize then [TooSmall(EmptyMessage)] else [])
      + (if |text| > MaxSize then [TooBig(TooBigMessage)] else [])
  }

  /** `parse`: the strict object schema. The field is checked first, then any key
      other than `string` is reported; the input is accepted only when there is
      nothing to report, and then the text comes back unchanged. */
  function Parse(input: Value): (r: Parsed)
    ensures r.Ok? <==>
      input.Obj? && input.fields.Keys == {FieldName}
      && input.fields[FieldName].Str? && 1 <= |input.fields[FieldName].text| <= 1048576
    ensures r.Ok? ==> r.value == input.fields[FieldName].text
    ensures r.Err? ==> |r.issues| > 0
  {
    match input
    case Obj(fields) =>
      var extra := fields.Keys - {FieldName};
      var issues := StringIssues(fields) + (if extra == {} then [] else [UnrecognizedKeys(extra)]);
      if issues == [] then Ok(fields[FieldName].text) else Err(issues)
    case _ => Err([ExpectedObject])
  }

  /** `maxSize` prints as 1048576. */
  lemma DecimalMaxSize()
    ensures Decimal(MaxSize) == Units("1048576")
  {
  }

  /** The message of the `max` check reads out the limit 1048576. */
  lemma TooBigMessageText()
    ensures TooBigMessage == Units("input field 'string' cannot exceed 1048576 characters")
  {
    // The message is assembled piece by piece; without these steps the solver may run out of resource.
    DecimalMaxSize();
    UnitsAppend("input field 'string' cannot exceed ", "1048576");
    UnitsAppend("input field 'string' cannot exceed 1048576", " characters");
    assert "input field 'string' cannot exceed " + "1048576" == "input field 'string' cannot exceed 1048576";
    assert "input field 'string' cannot exceed 1048576" + " characters"
      == "input field 'string' cannot exceed 1048576 characters";
  }

  /** A `string` value that is the empty string is rejected with the `min` message;
      when it is the only key, that is the only issue. */
  lemma ParseRejectsEmpty(fields: map<Text, Value>)
    requires FieldName in fields && fields[FieldName] == Str([])
    ensures Parse(Obj(fields)).Err?
    ensures Parse(Obj(fields)).issues[0] == TooSmall(Units("input field 'string' cannot be empty"))
    ensures fields.Keys == {FieldName} ==>
      Parse(Obj(fields)) == Err([TooSmall(Units("input field 'string' cannot be empty"))])
  {
  }

  /** A `string` value longer than 1048576 code units is rejected with the `max`
      message; when it is the only key, that is the only issue. */
  lemma ParseRejectsTooLong(fields: map<Text, Value>)
    requires FieldName in fields && fields[FieldName].Str? && |fields[FieldName].text| > 1048576
    ensures Parse(Obj(fields)).Err?
    ensures Parse(Obj(fields)).issues[0] == TooBig(Units("input field 'string' cannot exceed 1048576 characters"))
    ensures fields.Keys == {FieldName} ==>
      Parse(Obj(fields)) == Err([TooBig(Units("input field 'string' cannot exceed 1048576 characters"))])
  {
    TooBigMessageText();
  }

  /** Both length bounds are inclusive: one code unit and 1048576 code units pass. */
  lemma ParseBoundsInclusive(text: Text)
    requires |text| == 1 || |text| == 1048576
    ensures Parse(Obj(map[FieldName := Str(text)])) == Ok(text)
  {
  }

  /** Any key besides `string` makes the input fail, even when `string` itself is
      valid, and the issue names exactly the unknown keys. */
  lemma ParseRejectsExtraKeys(fields: map<Text, Value>, key: Text)
    requires key in fields && key != FieldName
    ensures Parse(Obj(fields)).Err?
    ensures UnrecognizedKeys(fields.Keys - {FieldName}) in Parse(Obj(fields)).issues
  {
    var extra := fields.Keys - {FieldName};
    assert key in extra;
    var issues := StringIssues(fields) + [UnrecognizedKeys(extra)];
    assert issues[|issues| - 1] == UnrecognizedKeys(extra);
  }

  /** A missing `string` key, or a value that is not a string, is rejected by the
      type check alone: neither length check reports anything. */
  lemma ParseRejectsMissingOrNonString(fields: map<Text, Value>)
    requires FieldName !in fields || !fields[FieldName].Str?
    ensures Parse(Obj(fields)).Err?
    ensures Parse(Obj(fields)).issues[0] == ExpectedString
    ensures forall i :: 0 <= i < |Parse(Obj(fields)).issues| ==>
      !Parse(Obj(fields)).issues[i].TooSmall? && !Parse(Obj(fields)).issues[i].TooBig?
  {
  }

  /** An input that is not an object fails on its shape, before any field is looked at. */
  lemma ParseRejectsNonObject(input: Value)
    requires !input.Obj?
    ensures Parse(input) == Err([ExpectedObject])
  {
  }
}
