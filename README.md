# DigitalFactoryCal keypress core in Dafny

This project models the input handling of the DigitalFactoryCal calculator. The view
`CalcsButtonsView` holds two strings:

- `currentComputation`, the expression being typed;
- `mainResult`, the display.

Each button press runs `buttonPressed` once, and the switch in it decides how the two strings change. `calculateResults` rewrites the expression into the parser's syntax before evaluating it. The button tokens and the operator glyphs come from `Constants/Enumerations.swift`. The helpers `getLastChar`, `lastCharIsDigit`, `lastCharIsDigitOrPercent` and `lastCharacterIsAnOperator` come from `Helper Functions/String Helper Functions.swift`.

Files:

- `wrappers.dfy`: `Option`.
- `enumerations.dfy`: the `CalcButton` enum with its raw values, `Operators`, `EnumOperators`, and Swift's `CalcButton(rawValue:)`.
- `string_helpers.dfy`: the last-character helpers. The helpers ask Foundation's substring question (`contains`), and a lemma links that to a plain test on the last character.
- `swift_int.dfy`: Swift's failable `Int(String)` on a 64-bit platform. It accepts an optional sign, then digits, and gives nil outside `Int.min ... Int.max`.
- `calcs_buttons.dfy`: the state machine.
  - `Step` is the function one key press computes.
  - The class `CalcsButtonsView` has the two string fields. Its method `ButtonPressed` updates them in place and is proved equal to `Step`.
  - The branches that the source writes at length are separate methods, each proved against its own function: `PressEvaluate`, `PressDecimal` and `PressScientific`. The same goes for `CalculateResults` and `AppendToCurrentComputation`.
- `workings_properties.dfy`: the three replacement passes of `calculateResults` equal a one-pass rewrite of each character.
- `keypress_properties.dfy`: what each key does, and the invariant the editing keys keep. Every character stands where it may, so no two operators are ever adjacent.
- `decimal_point.dfy`: the decimal-point guard. It contains the as-written behaviour, a corrected guard, and the finding below.

Numbers are abstract. The datatype `CalcsButtons.Numerics` bundles the platform's numeric services as function-valued fields, and every operation takes it as a parameter:

- the NSExpression evaluation;
- `Double(s) ?? 0.0`;
- cos, sin and tan in degrees;
- the natural logarithm;
- `formatResult`.

`Double` is modelled as `real`.

Two behaviours of the code are worth stating plainly:

- A scientific key on an empty expression first sets it to `"0"` (CalcsButtonsView.swift:222-224). When the logarithm then fails, the early return at lines 245-246 leaves the expression as `"0"`.
- With a `.` already present, the decimal key also requires a trailing digit (line 187).

The comment at CalcsButtonsView.swift:192-194 says a point is refused when only digits follow the last one, so that no displayed number holds two points. The code does not guarantee this; see Findings.

## Model

| member | source | states |
|---|---|---|
| CalcsButtons.CalcsButtonsView.constructor | DigitalFactoryCal/DigitalFactoryCal/Views/MainCalculatorView.swift:19-22 | a new view starts with an empty expression and the display "0" |
| CalcsButtons.CalcsButtonsView.ButtonPressed | DigitalFactoryCal/DigitalFactoryCal/Views/CalcsButtonsView.swift:164-259 | the two fields after one key press are `Step` of the two fields before it |
| CalcsButtons.CalcsButtonsView.PressEvaluate | DigitalFactoryCal/DigitalFactoryCal/Views/CalcsButtonsView.swift:172-183 | equal and negate leave the fields as `Evaluate` of the old fields |
| CalcsButtons.CalcsButtonsView.PressDecimal | DigitalFactoryCal/DigitalFactoryCal/Views/CalcsButtonsView.swift:185-206 | the expression becomes `DecimalPressed` of the old one; the display is unchanged |
| CalcsButtons.CalcsButtonsView.PressScientific | DigitalFactoryCal/DigitalFactoryCal/Views/CalcsButtonsView.swift:221-254 | cos, sin, tan and log, including the early return after "Error", leave the fields as `Scientific` of the old fields |
| CalcsButtons.CalcsButtonsView.CalculateResults | DigitalFactoryCal/DigitalFactoryCal/Views/CalcsButtonsView.swift:263-274 | the value is the parser's value of `Workings(currentComputation)`, and nothing changes |
| CalcsButtons.CalcsButtonsView.AppendToCurrentComputation | DigitalFactoryCal/DigitalFactoryCal/Views/CalcsButtonsView.swift:285-287 | the key's raw value is appended to the expression; the display is unchanged |
| KeypressProperties.ClearResets | DigitalFactoryCal/DigitalFactoryCal/Views/CalcsButtonsView.swift:168-170 | clear gives "" and "0" whatever the prior state |
| KeypressProperties.DefaultBranchIsDigits | DigitalFactoryCal/DigitalFactoryCal/Views/CalcsButtonsView.swift:166-257 | a key reaches the `default` branch exactly when it is one of the ten digits |
| KeypressProperties.DigitKeyAppends | DigitalFactoryCal/DigitalFactoryCal/Views/CalcsButtonsView.swift:256-257 | a digit key appends its single-digit raw value and leaves the display alone |
| KeypressProperties.UndoRemovesLast | DigitalFactoryCal/DigitalFactoryCal/Views/CalcsButtonsView.swift:213-214 | undo removes exactly the last character, does nothing to "", and keeps the display |
| KeypressProperties.UndoAfterAppend | DigitalFactoryCal/DigitalFactoryCal/Views/CalcsButtonsView.swift:213-214 | undo right after any key that appended one character restores the prior state |
| KeypressProperties.UndoAfterDigit | DigitalFactoryCal/DigitalFactoryCal/Views/CalcsButtonsView.swift:213-214 | undo right after a digit key restores the prior state exactly |
| KeypressProperties.PercentGuard | DigitalFactoryCal/DigitalFactoryCal/Views/CalcsButtonsView.swift:208-211 | `%` is appended if and only if the expression ends in a digit; otherwise nothing changes |
| KeypressProperties.OperatorGuard | DigitalFactoryCal/DigitalFactoryCal/Views/CalcsButtonsView.swift:216-219 | `+ - × ÷` are appended if and only if the expression ends in a digit or `%`; otherwise nothing changes |
| KeypressProperties.EvaluatingKeys | DigitalFactoryCal/DigitalFactoryCal/Views/CalcsButtonsView.swift:172-183 | equal and negate do nothing on "" or after an operator; equal keeps the expression and shows the value; negate writes the negated value into both strings |
| KeypressProperties.ScientificKeys | DigitalFactoryCal/DigitalFactoryCal/Views/CalcsButtonsView.swift:221-254 | "" becomes "0"; nothing more happens without a trailing digit; log of a non-positive value shows "Error" and keeps the expression; otherwise both strings show the result |
| KeypressProperties.LogOfEmptyLeavesZero | DigitalFactoryCal/DigitalFactoryCal/Views/CalcsButtonsView.swift:221-247 | log on an empty expression whose value is not positive leaves "0" and "Error" |
| KeypressProperties.DecimalPressedShape | DigitalFactoryCal/DigitalFactoryCal/Views/CalcsButtonsView.swift:185-206 | the decimal key either changes nothing, turns "" into "0.", or appends "." after a digit |
| KeypressProperties.AppendKeyKeepsWellformed | DigitalFactoryCal/DigitalFactoryCal/Views/CalcsButtonsView.swift:208-219 | digits, operators and percent keep every character admissible where it stands |
| KeypressProperties.DecimalKeepsWellformed | DigitalFactoryCal/DigitalFactoryCal/Views/CalcsButtonsView.swift:185-206 | the decimal key keeps the expression well formed |
| KeypressProperties.StepKeepsWellformed | DigitalFactoryCal/DigitalFactoryCal/Views/CalcsButtonsView.swift:166-219 | every editing key keeps the expression well formed, and only clear touches the display |
| KeypressProperties.RunKeepsWellformed | DigitalFactoryCal/DigitalFactoryCal/Views/CalcsButtonsView.swift:164-259 | any run of editing keys keeps the expression well formed |
| KeypressProperties.WellformedNoAdjacentOperators | DigitalFactoryCal/DigitalFactoryCal/Views/CalcsButtonsView.swift:216-219 | a well-formed expression starts with a digit and has no two operators side by side |
| KeypressProperties.NoAdjacentOperatorsFromEmpty | DigitalFactoryCal/DigitalFactoryCal/Views/CalcsButtonsView.swift:208-219 | from "", digit, operator, percent, decimal, undo and clear keys never produce two adjacent operators |
| WorkingsProperties.ReplacingMembership | DigitalFactoryCal/DigitalFactoryCal/Views/CalcsButtonsView.swift:265-269 | after a replacement pass a character occurs exactly when it occurred and was not the target, or it comes from the replacement of an occurring target |
| WorkingsProperties.ThreePassesAreCanonical | DigitalFactoryCal/DigitalFactoryCal/Views/CalcsButtonsView.swift:265-269 | the three successive passes equal replacing each character by its parser glyph in one pass |
| WorkingsProperties.CanonicalHasNoGlyphs | DigitalFactoryCal/DigitalFactoryCal/Views/CalcsButtonsView.swift:265-269 | the rewrite leaves no `%`, `×` or `÷` |
| WorkingsProperties.WorkingsIsCanonical | DigitalFactoryCal/DigitalFactoryCal/Views/CalcsButtonsView.swift:263-274 | the parser's text is the one-pass rewrite plus "0" exactly when the expression ends in `.` |
| WorkingsProperties.WorkingsNeverEndsInPoint | DigitalFactoryCal/DigitalFactoryCal/Views/CalcsButtonsView.swift:263-274 | the parser's text never ends in `.` and holds no `%`, `×` or `÷` |
| WorkingsProperties.NumberWithTrailingPoint | DigitalFactoryCal/DigitalFactoryCal/Views/CalcsButtonsView.swift:271-274 | a number with a trailing point, such as "35.", reaches the parser with a "0" after the point |
| WorkingsProperties.PercentOfNumber | DigitalFactoryCal/DigitalFactoryCal/Views/CalcsButtonsView.swift:265 | a number followed by `%` reaches the parser multiplied by 0.01 |
| StringHelpers.GetLastChar | DigitalFactoryCal/DigitalFactoryCal/Views/CalcsButtonsView.swift:272 | `getLastChar` (String Helper Functions.swift:22-24), used here: "" for "" and otherwise the one-character suffix of the string |
| StringHelpers.LastCharInIsContains | DigitalFactoryCal/DigitalFactoryCal/Views/CalcsButtonsView.swift:187 | `lastCharIsDigit` and its siblings (String Helper Functions.swift:45-68) ask whether the last character, as a string, is a substring of a character set; this holds exactly when that character occurs in the set |
| StringHelpers.LastCharTests | DigitalFactoryCal/DigitalFactoryCal/Views/CalcsButtonsView.swift:174-217 | the digit, digit-or-percent and operator tests (String Helper Functions.swift:45-68) in terms of the last character; each is false on "" |
| StringHelpers.ContainsChar | DigitalFactoryCal/DigitalFactoryCal/Views/CalcsButtonsView.swift:187 | Foundation's `contains` on a one-character string, as the helpers use it, holds exactly when that character occurs |
| StringHelpers.LastIndexOf | DigitalFactoryCal/DigitalFactoryCal/Views/CalcsButtonsView.swift:186 | none exactly when the character is absent; otherwise an index holding it with no occurrence after it |
| SwiftInt.ParseInt | DigitalFactoryCal/DigitalFactoryCal/Views/CalcsButtonsView.swift:196 | a parsed value lies within `Int`'s range, and the string starts with a digit or a sign |
| SwiftInt.ParseDigits | DigitalFactoryCal/DigitalFactoryCal/Views/CalcsButtonsView.swift:196 | a digit string parses to its value exactly when that value is at most `Int.max` |
| SwiftInt.ParseRejectsNonDigit | DigitalFactoryCal/DigitalFactoryCal/Views/CalcsButtonsView.swift:196 | a string starting with a digit and holding a non-digit does not parse |
| SwiftInt.ParseFailsIff | DigitalFactoryCal/DigitalFactoryCal/Views/CalcsButtonsView.swift:196 | a string starting with a digit fails to parse exactly when it holds a non-digit or its value exceeds `Int.max` |
| SwiftInt.NineteenNinesOverflow | DigitalFactoryCal/DigitalFactoryCal/Views/CalcsButtonsView.swift:196 | nineteen nines are all digits, exceed `Int.max` and do not parse |
| DecimalPoint.DecimalGuardAsWritten | DigitalFactoryCal/DigitalFactoryCal/Views/CalcsButtonsView.swift:185-206 | on a well-formed expression the key appends "." exactly after a digit when the trailing number has no point or its fraction overflows `Int`; "" becomes "0." |
| DecimalPoint.PointAfterFractionRefused | DigitalFactoryCal/DigitalFactoryCal/Views/CalcsButtonsView.swift:185-199 | "3.5" followed by the decimal key stays "3.5" |
| DecimalPoint.PointAfterOperatorAccepted | DigitalFactoryCal/DigitalFactoryCal/Views/CalcsButtonsView.swift:185-199 | "3.5+2" followed by the decimal key becomes "3.5+2." |
| DecimalPoint.LongFractionAdmitsSecondPoint | DigitalFactoryCal/DigitalFactoryCal/Views/CalcsButtonsView.swift:196 | "0." and nineteen nines is reachable and has one point; the key as written appends a second point into that number, and the corrected key does not |
| DecimalPoint.DecimalGuardIntended | DigitalFactoryCal/DigitalFactoryCal/Views/CalcsButtonsView.swift:192-196 | the corrected key appends "." exactly after a digit when the trailing number has no point; "" becomes "0." |
| DecimalPoint.GuardsAgreeWithoutOverflow | DigitalFactoryCal/DigitalFactoryCal/Views/CalcsButtonsView.swift:192-196 | on a well-formed expression the two guards differ only when the fraction overflows `Int` |
| DecimalPoint.StepIntendedKeepsOnePoint | DigitalFactoryCal/DigitalFactoryCal/Views/CalcsButtonsView.swift:192-196 | with the corrected guard every editing key keeps the expression well formed, with at most one point per displayed number, `%` ending a number |
| DecimalPoint.IntendedRunKeepsOnePoint | DigitalFactoryCal/DigitalFactoryCal/Views/CalcsButtonsView.swift:192-196 | with the corrected guard any run of editing keys keeps at most one point per displayed number, `%` ending a number |
| DecimalPoint.PercentThenPointReachable | DigitalFactoryCal/DigitalFactoryCal/Views/CalcsButtonsView.swift:185-214 | from the initial state, the keys 5, %, 3, . type "5%3." under the guard as written and under the corrected guard |
| DecimalPoint.PercentEndsDisplayedNumber | DigitalFactoryCal/DigitalFactoryCal/Views/CalcsButtonsView.swift:192-194 | "5%3." has one point per displayed number, because `%` ends the "5" |
| WorkingsProperties.PercentThenFraction | DigitalFactoryCal/DigitalFactoryCal/Views/CalcsButtonsView.swift:263-270 | for digit strings a and b, a + "%" + b + "." reaches the parser as a + "*0.01" + b + ".0", one number with two points |
| Enumerations.RawValueRoundTrip | DigitalFactoryCal/DigitalFactoryCal/Constants/Enumerations.swift:33-65 | `CalcButton(rawValue:)` maps each case's raw value back to that case |
| Enumerations.RawValuesDistinct | DigitalFactoryCal/DigitalFactoryCal/Constants/Enumerations.swift:33-65 | no two cases share a raw value |
| Enumerations.DigitRawValues | DigitalFactoryCal/DigitalFactoryCal/Constants/Enumerations.swift:35-44 | the digit cases are exactly those whose raw value is one decimal digit, and the key for d carries d |
| Enumerations.OperatorGlyphs | DigitalFactoryCal/DigitalFactoryCal/Constants/Enumerations.swift:47-82 | `operators` is the raw values of add, subtract, multiply and divide in that order, and a one-character raw value is in it exactly for those four |
| Enumerations.PercentAndDecimalGlyphs | DigitalFactoryCal/DigitalFactoryCal/Constants/Enumerations.swift:55-56 | percent and decimal insert `%` and `.`, neither of which is an operator |
| Enumerations.ImagePrefixOnlyOnIcons | DigitalFactoryCal/DigitalFactoryCal/Constants/Enumerations.swift:33-65 | only negate and undo carry the "IMG" prefix |
| Enumerations.EnumOperatorsContents | DigitalFactoryCal/DigitalFactoryCal/Constants/Enumerations.swift:70-73 | `enumOperators` holds exactly the four arithmetic and four scientific keys, each once |

## Left out

- Evaluation of the rewritten text by NSExpression, and its force cast to `Double`, which can crash: this is a foreign parser, so it is the opaque field `Numerics.evaluate`.
- Floating point: `Double` is `real`, so signed zero, infinities and NaN are not modelled. For example, negate on "0" computes `-1.0 * 0.0 = -0.0` in the source, which NumberFormatter may show as "-0"; in the model that product is `0.0`, so negate formats the same value that equal shows. cos, sin and tan in degrees, the natural logarithm and `Double(s) ?? 0.0` are opaque `Numerics` fields. Only the `> 0` guard of the logarithm is kept.
- `formatResult` (String Helper Functions.swift:78-84): it depends on the locale and NumberFormatter, so it is the opaque field `Numerics.format`. Negate and the scientific keys write its output into the expression. That text need not use the calculator's alphabet, so the well-formedness lemmas cover the editing keys only.
- `enum Operations` (Enumerations.swift:13-28): nothing in the source uses it.
- One point per number holds only for displayed numbers, with `%` ending a number. `calculateResults` rewrites `%` to `*0.01` (CalcsButtonsView.swift:265), so digits typed after `%` join the parser's `0.01`. The keys 5, `%`, 3, `.` reach "5%3." under both guards (`DecimalPoint.PercentThenPointReachable`). That text has one point per displayed number (`DecimalPoint.PercentEndsDisplayedNumber`), yet the parser receives "5*0.013.0" (`WorkingsProperties.PercentThenFraction`). The corrected guard does not prevent this.
- `lastCharacterIsEqualTo` (String Helper Functions.swift:34-37): the core does not call it.
- Swift `Character` is a grapheme cluster; the model uses Dafny `char`. Every glyph the core handles is a single code point.
- Foundation's `String.contains` with an empty needle is taken to be false. This makes `lastCharIsDigit("")` and the other two tests false.
- The SwiftUI layout and body of CalcsButtonsView.swift (lines 36-159), and the other view files, the app entry point, colour constants and `CalculatorCore.h`: these are presentation, or an interface with no implementation.
- The corrected decimal guard of the finding below is modelled beside the as-written one (`DecimalPoint.StepIntended`, `DecimalPoint.RunIntended`); the class keeps the guard as the source writes it.

## Findings

| source | as written | input that shows it | evidently intended | confidence | as-written member | corrected member |
|---|---|---|---|---|---|---|
| DigitalFactoryCal/DigitalFactoryCal/Views/CalcsButtonsView.swift:196 | `Int(rightSubString) == nil` is taken to mean "something other than digits follows the last point", but `Int` also returns nil when an all-digit fraction exceeds `Int.max` | type `.` then nineteen `9`s, giving "0.9999999999999999999", then `.`: the second point is appended to the same number | refuse the point whenever only digits follow the last one, as the comment at lines 192-194 says, so that no displayed number (with `%` ending a number) holds two points | not executed | DecimalPoint.LongFractionAdmitsSecondPoint | DecimalPoint.IntendedRunKeepsOnePoint |
