/** The calculator's button tokens and the operator constants (Constants/Enumerations.swift). */
module Enumerations {
  import opened Wrappers

  /** One key of the calculator; Swift gives each case a String raw value. */
  datatype CalcButton =
    | Zero | One | Two | Three | Four | Five | Six | Seven | Eight | Nine
    | Add | Subtract | Multiply | Divide | Equal
    | Clear | Decimal | Percent | Negative | Undo
    | Cosine | Sine | Tangent | Logarithm

  const MultiplySymbol: string := "×"
  const DivisionSymbol: string := "÷"

  /** All basic arithmetic operator glyphs, in declaration order. */
  const Operators: string := "+-" + MultiplySymbol + DivisionSymbol

  /** The buttons the source lists as operators: arithmetic and scientific. */
  const EnumOperators: seq<CalcButton> :=
    [Add, Subtract, Multiply, Divide, Cosine, Sine, Tangent, Logarithm]

  /** The raw value Swift stores for each case. */
  function RawValue(b: CalcButton): string {
    match b
    case Zero => "0"
    case One => "1"
    case Two => "2"
    case Three => "3"
    case Four => "4"
    case Five => "5"
    case Six => "6"
    case Seven => "7"
    case Eight => "8"
    case Nine => "9"
    case Add => "+"
    case Subtract => "-"
    case Multiply => "×"
    case Divide => "÷"
    case Equal => "="
    case Clear => "AC"
    case Decimal => "."
    case Percent => "%"
    case Negative => "IMGplus.forwardslash.minus"
    case Undo => "IMGarrow.counterclockwise"
    case Cosine => "cos"
    case Sine => "sin"
    case Tangent => "tan"
    case Logarithm => "log"
  }

  /** Swift's synthesized `CalcButton(rawValue:)`: the case whose raw value is `s`, if any. */
  function FromRawValue(s: string): Option<CalcButton> {
    if s == "0" then Some(Zero)
    else if s == "1" then Some(One)
    else if s == "2" then Some(Two)
    else if s == "3" then Some(Three)
    else if s == "4" then Some(Four)
    else if s == "5" then Some(Five)
    else if s == "6" then Some(Six)
    else if s == "7" then Some(Seven)
    else if s == "8" then Some(Eight)
    else if s == "9" then Some(Nine)
    else if s == "+" then Some(Add)
    else if s == "-" then Some(Subtract)
    else if s == "×" then Some(Multiply)
    else if s == "÷" then Some(Divide)
    else if s == "=" then Some(Equal)
    else if s == "AC" then Some(Clear)
    else if s == "." then Some(Decimal)
    else if s == "%" then Some(Percent)
    else if s == "IMGplus.forwardslash.minus" then Some(Negative)
    else if s == "IMGarrow.counterclockwise" then Some(Undo)
    else if s == "cos" then Some(Cosine)
    else if s == "sin" then Some(Sine)
    else if s == "tan" then Some(Tangent)
    else if s == "log" then Some(Logarithm)
    else None
  }

  predicate IsDigitChar(c: char) {
    '0' <= c <= '9'
  }

  /** The ten number keys, in the order the source declares them. */
  predicate IsDigitButton(b: CalcButton) {
    b.Zero? || b.One? || b.Two? || b.Three? || b.Four? ||
    b.Five? || b.Six? || b.Seven? || b.Eight? || b.Nine?
  }

  predicate IsArithmeticButton(b: CalcButton) {
    b.Add? || b.Subtract? || b.Multiply? || b.Divide?
  }

  predicate IsScientificButton(b: CalcButton) {
    b.Cosine? || b.Sine? || b.Tangent? || b.Logarithm?
  }

  /** The number key for the digit `d`. */
  function DigitButton(d: nat): (b: CalcButton)
    requires d < 10
    ensures IsDigitButton(b)
  {
    [Zero, One, Two, Three, Four, Five, Six, Seven, Eight, Nine][d]
  }

  predicate HasImagePrefix(s: string) {
    |s| >= 3 && s[..3] == "IMG"
  }

  lemma DigitRoundTrip(b: CalcButton)
    requires IsDigitButton(b)
    ensures FromRawValue(RawValue(b)) == Some(b)
  {
    match b
    case Zero => case One => case Two => case Three => case Four =>
    case Five => case Six => case Seven => case Eight => case Nine =>
  }

  lemma ControlRoundTrip(b: CalcButton)
    requires IsArithmeticButton(b) || b == Equal || b == Clear || b == Decimal || b == Percent
    ensures FromRawValue(RawValue(b)) == Some(b)
  {
    match b
    case Add => case Subtract => case Multiply => case Divide => case Equal =>
    case Clear => case Decimal => case Percent =>
  }

  lemma IconRoundTrip(b: CalcButton)
    requires b == Negative || b == Undo
    ensures FromRawValue(RawValue(b)) == Some(b)
  {
    match b
    case Negative => case Undo =>
  }

  lemma ScientificRoundTrip(b: CalcButton)
    requires IsScientificButton(b)
    ensures FromRawValue(RawValue(b)) == Some(b)
  {
    match b
    case Cosine => case Sine => case Tangent => case Logarithm =>
  }

  /** Reading a raw value back gives the case it came from. */
  lemma RawValueRoundTrip(b: CalcButton)
    ensures FromRawValue(RawValue(b)) == Some(b)
  {
    if IsDigitButton(b) {
      DigitRoundTrip(b);
    } else if IsArithmeticButton(b) || b == Equal || b == Clear || b == Decimal || b == Percent {
      ControlRoundTrip(b);
    } else if b == Negative || b == Undo {
      IconRoundTrip(b);
    } else {
      ScientificRoundTrip(b);
    }
  }

  /** No two cases share a raw value. */
  lemma RawValuesDistinct(a: CalcButton, b: CalcButton)
    ensures RawValue(a) == RawValue(b) ==> a == b
  {
    RawValueRoundTrip(a);
    RawValueRoundTrip(b);
  }

  /** The number keys are exactly the cases whose raw value is one decimal digit, and
      the key for `d` carries the digit `d`. */
  lemma DigitRawValues(b: CalcButton, d: nat)
    ensures IsDigitButton(b) <==> |RawValue(b)| == 1 && IsDigitChar(RawValue(b)[0])
    ensures d < 10 ==> RawValue(DigitButton(d)) == [('0' as int + d) as char]
  {
  }

  /** The arithmetic keys carry the four glyphs of `Operators`, in its order, and
      a one-character raw value is an operator glyph only for them. */
  lemma OperatorGlyphs(b: CalcButton)
    ensures Operators == RawValue(Add) + RawValue(Subtract) + RawValue(Multiply) + RawValue(Divide)
    ensures |Operators| == 4
    ensures IsArithmeticButton(b) <==> |RawValue(b)| == 1 && RawValue(b)[0] in Operators
  {
  }

  /** Percent and decimal point insert the characters `%` and `.`. */
  lemma PercentAndDecimalGlyphs()
    ensures RawValue(Percent) == ['%'] && RawValue(Decimal) == ['.']
    ensures '%' !in Operators && '.' !in Operators
  {
  }

  /** Only negate and undo are drawn as images. */
  lemma ImagePrefixOnlyOnIcons(b: CalcButton)
    ensures HasImagePrefix(RawValue(b)) <==> b == Negative || b == Undo
  {
    var s := RawValue(b);
    if |s| >= 3 {
      assert s[..3][0] == s[0] && s[..3][1] == s[1] && s[..3][2] == s[2];
    }
  }

  /** `EnumOperators` is the four arithmetic and the four scientific keys, each once. */
  lemma EnumOperatorsContents(b: CalcButton)
    ensures b in EnumOperators <==> IsArithmeticButton(b) || IsScientificButton(b)
    ensures |EnumOperators| == 8
    ensures forall i, j :: 0 <= i < j < |EnumOperators| ==> EnumOperators[i] != EnumOperators[j]
  {
  }
}
