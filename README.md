# ROT13 action: transformer and input validator

This project models the two pieces of logic in a GitHub Action that ROT13-encodes a string input:

- **The transformer** `transform` (`src/rot13.ts`, with a twin in `src/rot13/index.ts`). It runs `text.replace(/[A-Za-z]/g, letter)`. The callback `letter` adds 13 to the code unit of a letter whose upper-case form is at most `M` and subtracts 13 from any other letter.
- **The input validator** `parse` (`src/input.ts`). It applies a zod `strictObject` schema with a single field, `string`. That field must be a string of 1 to 1048576 (`1024 * 1024`) characters, and the two length checks carry fixed messages.

Strings are JavaScript strings: sequences of UTF-16 code units (`Utf16.Text`, with elements from 0 to 65535). `length`, `charCodeAt` and `String.fromCharCode` count and produce code units, so lone surrogate halves can be represented and pass through unchanged.

Modules:

- `Utf16`: the code-unit string type. It also has a helper that turns Dafny string literals into code units, used for the field name, the two messages and the test vectors. Every such literal lies in the Basic Multilingual Plane, where one character is one code unit.
- `Rot13` (`src/rot13.ts`): `Letter`, the per-code-unit `Substitute` and `Transform`, plus their properties. These are the per-position rule, concatenation, involution, non-letter invariance, case preservation and the concrete input/output pairs.
- `Rot13Index` (`src/rot13/index.ts`): the twin, defined separately with its own constants. It is proved equal to `Rot13.Transform` on every text, and its properties follow from that.
- `Input` (`src/input.ts`): `Parse` from a `Value` (string, object or anything else) to `Ok(text)` or `Err(issues)`.

Validator design choices:

- Like zod, `Parse` reports every violated rule of the schema.
- Issues come in a fixed order: the check of the `string` field comes first, then one `UnrecognizedKeys` issue for any other keys.
- If `string` is missing or is not a string, that gives one `ExpectedString` issue, and neither length check runs.
- If the input is not an object at all, the only issue is `ExpectedObject`.
- Lengths are UTF-16 code units, as JavaScript's `length` and zod's `min`/`max` count them.
- The two messages are code-unit texts, like the field name and the inputs.

## Model

| member | source | states |
|---|---|---|
| `Rot13.IsAsciiLetter` | src/rot13.ts:5 | the regular-expression class `[A-Za-z]` holds exactly the code units 65–90 and 97–122 |
| `Rot13.ToUpper` | src/rot13.ts:8 | `toUpperCase` maps an ASCII letter to the capital at the same alphabet position and leaves upper-case letters alone |
| `Rot13.Letter` | src/rot13.ts:7-11 | the callback keeps the letter's case and moves it 13 places modulo 26 in its own alphabet; A–M/a–m gain 13 and N–Z/n–z lose 13 |
| `Rot13.Substitute` | src/rot13.ts:4-5 | one code unit under the global replace: it is a letter exactly when the input is, keeps upper/lower case, and a non-letter is returned unchanged |
| `Rot13.SubstituteInvolution` | src/rot13.ts:7-11 | substituting a code unit twice gives it back |
| `Rot13.Transform` | src/rot13.ts:4-5 | the output has as many code units as the input |
| `Rot13.TransformAt` | src/rot13.ts:4-5 | output position i is the substitution of input position i |
| `Rot13.TransformPointwise` | src/rot13.ts:4-5 | conversely, any same-length text whose every position is the substituted input is the transform's output |
| `Rot13.TransformAppend` | src/rot13.ts:4-5 | the transform of a concatenation is the concatenation of the transforms |
| `Rot13.TransformInvolution` | tests/rot13.test.ts:38-44 | applying the transform twice returns the original text |
| `Rot13.TransformKeepsNonLetters` | tests/rot13.test.ts:62-69 | code units outside `[A-Za-z]` keep their position and value; a text with no ASCII letters is returned unchanged |
| `Rot13.TransformRotatesLetters` | src/rot13.ts:7-11 | each ASCII letter in the text stays in its case's 26-letter range, moving +13 from the first half and −13 from the second |
| `Rot13.TransformPreservesCase` | tests/rot13.test.ts:46-60 | at every position the output is upper-case exactly when the input is, and lower-case exactly when the input is |
| `Rot13.TransformLetterVectors` | tests/rot13.test.ts:10-19 | "" → "", A → N, M → Z, N → A, Z → M, a → n, m → z, n → a, z → m |
| `Rot13.TransformWordVectors` | tests/rot13.test.ts:20-22 | HELLO → URYYB, WORLD → JBEYQ, ROT13 → EBG13 |
| `Rot13.TransformSymbolVectors` | tests/rot13.test.ts:23-24 | "123" and "!@#$%" are returned unchanged |
| `Rot13.TransformGreetingVector` | tests/rot13.test.ts:25 | "Hello, World!" → "Uryyb, Jbeyq!" |
| `Rot13Index.Letter` | src/rot13/index.ts:8-12 | the twin callback equals `Rot13.Letter`: same case, shifted 13 modulo 26 |
| `Rot13Index.Substitute` | src/rot13/index.ts:5 | one code unit under the twin's replace is exactly `Rot13.Substitute` of it |
| `Rot13Index.Transform` | src/rot13/index.ts:4-6 | the twin's output has as many code units as its input |
| `Rot13Index.SameAsRot13` | src/rot13/index.ts:1-12 | the twin `transform` agrees with `Rot13.Transform` on every text |
| `Rot13Index.TransformAt` | src/rot13/index.ts:4-12 | the twin rotates ASCII letters within their case, keeps non-letters and preserves upper/lower case, position by position |
| `Rot13Index.TransformInvolution` | src/rot13/index.ts:8-12 | applying the twin twice returns the original text |
| `Input.Decimal` | src/input.ts:13 | the numeral printed by the template literal is a non-empty run of decimal digits with no leading zero unless the number is 0 |
| `Input.DecimalValue` | src/input.ts:13 | the numeral, read as a decimal number, denotes exactly the printed number |
| `Input.DecimalMaxSize` | src/input.ts:7-13 | `maxSize` prints as 1048576 |
| `Input.TooBigMessageText` | src/input.ts:13 | the `max` message is "input field 'string' cannot exceed 1048576 characters" |
| `Input.StringIssues` | src/input.ts:10-13 | the field schema reports nothing exactly when `string` is present, is a string, and has 1 to 1048576 code units; it reports at most one issue |
| `Input.Parse` | src/input.ts:3-15 | succeeds exactly when the input is an object whose only key is `string`, holding a string of 1 to 1048576 code units, and then returns that string unchanged; a failure carries at least one issue |
| `Input.ParseRejectsEmpty` | src/input.ts:12 | an empty `string` fails, first with "input field 'string' cannot be empty", and with nothing else when it is the only key |
| `Input.ParseRejectsTooLong` | src/input.ts:7-13 | a `string` longer than 1048576 fails, first with "input field 'string' cannot exceed 1048576 characters", and with nothing else when it is the only key |
| `Input.ParseBoundsInclusive` | src/input.ts:6-13 | texts of exactly 1 and exactly 1048576 code units are accepted |
| `Input.ParseRejectsExtraKeys` | src/input.ts:9 | any key besides `string` makes parsing fail, even when `string` is valid, with an issue naming exactly the unknown keys |
| `Input.ParseRejectsMissingOrNonString` | src/input.ts:10-11 | a missing or non-string `string` fails the type check, and no length issue is reported |
| `Input.ParseRejectsNonObject` | src/input.ts:3-9 | an input that is not an object fails with the single shape issue |

## Left out

- Host glue is not part of this model: `src/action.ts`, `src/main.ts` and `bin/index.ts`. Reading the input through `@actions/core`, logging `"<input> -> <output>"`, setting the `result` output and `setFailed` are side effects on an external collaborator.
- `src/types.ts` holds only interface declarations, so it has no behaviour to model.
- The zod library itself is not modelled. The model leaves out the structure of `ZodError`, its JSON-formatted message, the issue paths, the `received` type named in a type error, and the order in which unknown keys are listed. Unknown keys are a set here, because the model's object has no key order.
- A key present with the value `undefined` is treated by zod like a missing key. The model's `Other` value covers it, and it still counts as a key for the strict-object check.
- Full Unicode case mapping is not modelled. `toUpperCase` is only ever applied to ASCII letters, so case preservation is stated for ASCII letters only.
- Determinism and the absence of side effects in `parse` and `transform` hold for every Dafny function, so they get no separate lemma.
