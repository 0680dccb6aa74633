/** The calculator's keypress handler and the textual pre-pass of its evaluator
    (Views/CalcsButtonsView.swift). */
module CalcsButtons {
  import opened Wrappers
  import opened Enumerations
  import opened StringHelpers
  import opened SwiftInt

  /** The platform's numeric services, left abstract. Double is modelled as `real`.
      - evaluate: NSExpression's value of the rewritten text
      - parseDouble: `Double(s) ?? 0.0`
      - cosDegrees, sinDegrees, tanDegrees: cos, sin and tan of an angle given in degrees
      - ln: the natural logarithm
      - format: `formatResult(val:)` */
  datatype Numerics = Numerics(
    evaluate: string -> real,
    parseDouble: string -> real,
    cosDegrees: real -> real,
    sinDegrees: real -> real,
    tanDegrees: real -> real,
    ln: real -> real,
    format: real -> string)

  /** The two strings the view is bound to: the expression being typed and the display. */
  datatype Display = Display(currentComputation: string, mainResult: string)

  /** The state the enclosing view starts with (Views/MainCalculatorView.swift). */
  const Initial: Display := Display("", "0")

  /** Foundation's `replacingOccurrences(of:with:)` for a one-character pattern. */
  function ReplacingOccurrences(s: string, target: char, replacement: string): string {
    if s == [] then []
    else (if s[0] == target then replacement else [s[0]]) + ReplacingOccurrences(s[1..], target, replacement)
  }

  /** The text `calculateResults` hands to the expression parser: percent becomes a
      multiplication by 0.01, the display glyphs for times and divide become `*` and `/`,
      and a trailing decimal point gets a `0`. */
  function Workings(visibleWorkings: string): string {
    var percentDone := ReplacingOccurrences(visibleWorkings, '%', "*0.01");
    var timesDone := ReplacingOccurrences(percentDone, '×', "*");
    var divideDone := ReplacingOccurrences(timesDone, '÷', "/");
    if GetLastChar(visibleWorkings) == "." then divideDone + "0" else divideDone
  }

  /** Swift's `String(s.dropLast())`. */
  function DropLast(s: string): string {
    if s == [] then [] else s[..|s| - 1]
  }

  /** The multiplier `buttonPressed` applies to the evaluated expression. */
  function Sign(b: CalcButton): real {
    if b == Negative then -1.0 else 1.0
  }

  /** Equal and negate evaluate only a non-empty expression that does not end in an operator. */
  predicate CanEvaluate(currentComputation: string) {
    currentComputation != [] && !LastCharacterIsAnOperator(currentComputation)
  }

  /** The expression after the decimal-point key, as the source decides it. */
  function DecimalPressed(currentComputation: string): string {
    match LastIndexOf(currentComputation, '.')
    case Some(lastOccurrenceOfDecimal) =>
      if LastCharIsDigit(currentComputation) then
        var rightSubString := currentComputation[lastOccurrenceOfDecimal + 1..];
        if ParseInt(rightSubString) == None && rightSubString != [] then currentComputation + "."
        else currentComputation
      else currentComputation
    case None =>
      if currentComputation == [] then currentComputation + "0."
      else if LastCharIsDigit(currentComputation) then currentComputation + "."
      else currentComputation
  }

  /** The value a scientific key computes from the parsed expression. */
  function ScientificValue(b: CalcButton, currentValue: real, num: Numerics): real {
    match b
    case Cosine => num.cosDegrees(currentValue)
    case Sine => num.sinDegrees(currentValue)
    case Tangent => num.tanDegrees(currentValue)
    case Logarithm => num.ln(currentValue)
    case _ => 0.0
  }

  /** The cos, sin, tan and log keys. */
  function Scientific(s: Display, b: CalcButton, num: Numerics): Display {
    var cc := if s.currentComputation == [] then "0" else s.currentComputation;
    if !LastCharIsDigit(cc) then Display(cc, s.mainResult)
    else
      var currentValue := num.parseDouble(cc);
      if b == Logarithm && !(currentValue > 0.0) then Display(cc, "Error")
      else
        var shown := num.format(ScientificValue(b, currentValue, num));
        Display(shown, shown)
  }

  /** The equal and negate keys. */
  function Evaluate(s: Display, b: CalcButton, num: Numerics): Display {
    var cc := s.currentComputation;
    if CanEvaluate(cc) then
      var shown := num.format(Sign(b) * num.evaluate(Workings(cc)));
      if b == Negative then Display(shown, shown) else Display(cc, shown)
    else s
  }

  /** The branch of the source's switch a key falls into; `DefaultBranch` is its `default`. */
  datatype Branch =
    | ClearBranch | EvaluateBranch | DecimalBranch | PercentBranch | UndoBranch
    | ArithmeticBranch | ScientificBranch | DefaultBranch

  function BranchOf(b: CalcButton): Branch {
    match b
    case Clear => ClearBranch
    case Equal => EvaluateBranch
    case Negative => EvaluateBranch
    case Decimal => DecimalBranch
    case Percent => PercentBranch
    case Undo => UndoBranch
    case Add => ArithmeticBranch
    case Subtract => ArithmeticBranch
    case Multiply => ArithmeticBranch
    case Divide => ArithmeticBranch
    case Cosine => ScientificBranch
    case Sine => ScientificBranch
    case Tangent => ScientificBranch
    case Logarithm => ScientificBranch
    case _ => DefaultBranch
  }

  /** One key press: the state `buttonPressed` leaves behind. */
  function Step(s: Display, b: CalcButton, num: Numerics): Display {
    var cc := s.currentComputation;
    match BranchOf(b)
    case ClearBranch => Display("", "0")
    case EvaluateBranch => Evaluate(s, b, num)
    case DecimalBranch => Display(DecimalPressed(cc), s.mainResult)
    case PercentBranch =>
      if LastCharIsDigit(cc) then Display(cc + RawValue(b), s.mainResult) else s
    case UndoBranch => Display(DropLast(cc), s.mainResult)
    case ArithmeticBranch =>
      if LastCharIsDigitOrPercent(cc) then Display(cc + RawValue(b), s.mainResult) else s
    case ScientificBranch => Scientific(s, b, num)
    case DefaultBranch => Display(cc + RawValue(b), s.mainResult)
  }

  /** A sequence of key presses, in order. */
  function Run(s: Display, keys: seq<CalcButton>, num: Numerics): Display
    decreases |keys|
  {
    if keys == [] then s else Run(Step(s, keys[0], num), keys[1..], num)
  }

  /** The view's state: the two strings it is bound to. */
  class CalcsButtonsView {
    var currentComputation: string
    var mainResult: string

    constructor ()
      ensures currentComputation == "" && mainResult == "0"
    {
      currentComputation := "";
      mainResult := "0";
    }

    function Current(): Display
      reads this
    {
      Display(currentComputation, mainResult)
    }

    /** Handles one key press, updating both bound strings in place. */
    method ButtonPressed(calcButton: CalcButton, num: Numerics)
      modifies this
      ensures Current() == Step(old(Current()), calcButton, num)
    {
      match BranchOf(calcButton)
      case ClearBranch =>
        currentComputation := "";
        mainResult := "0";
      case EvaluateBranch =>
        PressEvaluate(calcButton, num);
      case DecimalBranch =>
        PressDecimal();
      case PercentBranch =>
        if LastCharIsDigit(currentComputation) {
          AppendToCurrentComputation(calcButton);
        }
      case UndoBranch =>
        currentComputation := DropLast(currentComputation);
      case ArithmeticBranch =>
        if LastCharIsDigitOrPercent(currentComputation) {
          AppendToCurrentComputation(calcButton);
        }
      case ScientificBranch =>
        PressScientific(calcButton, num);
      case DefaultBranch =>
        AppendToCurrentComputation(calcButton);
    }

    /** The equal and negate branch of `ButtonPressed`. */
    method PressEvaluate(calcButton: CalcButton, num: Numerics)
      modifies this
      ensures Current() == Evaluate(old(Current()), calcButton, num)
    {
      if currentComputation != "" {
        if !LastCharacterIsAnOperator(currentComputation) {
          var sign := if calcButton == Negative then -1.0 else 1.0;
          var value := CalculateResults(num);
          mainResult := num.format(sign * value);
          if calcButton == Negative {
            currentComputation := mainResult;
          }
        }
      }
    }

    /** The decimal-point branch of `ButtonPressed`. */
    method PressDecimal()
      modifies this
      ensures currentComputation == DecimalPressed(old(currentComputation))
      ensures mainResult == old(mainResult)
    {
      var lastOccurrenceOfDecimal := LastIndexOf(currentComputation, '.');
      if lastOccurrenceOfDecimal.Some? {
        if LastCharIsDigit(currentComputation) {
          var rightSubString := currentComputation[lastOccurrenceOfDecimal.value + 1..];
          if ParseInt(rightSubString) == None && rightSubString != "" {
            currentComputation := currentComputation + ".";
          }
        }
      } else {
        if currentComputation == "" {
          currentComputation := currentComputation + "0.";
        } else if LastCharIsDigit(currentComputation) {
          currentComputation := currentComputation + ".";
        }
      }
    }

    /** The cos, sin, tan and log branch of `ButtonPressed`. */
    method PressScientific(calcButton: CalcButton, num: Numerics)
      requires BranchOf(calcButton) == ScientificBranch
      modifies this
      ensures Current() == Scientific(old(Current()), calcButton, num)
    {
      if currentComputation == "" {
        currentComputation := "0";
      }
      if LastCharIsDigit(currentComputation) {
        var currentValue := num.parseDouble(currentComputation);
        var result := 0.0;
        if calcButton == Cosine {
          result := num.cosDegrees(currentValue);
        } else if calcButton == Sine {
          result := num.sinDegrees(currentValue);
        } else if calcButton == Tangent {
          result := num.tanDegrees(currentValue);
        } else {
          if currentValue > 0.0 {
            result := num.ln(currentValue);
          } else {
            mainResult := "Error";
            return;
          }
        }
        mainResult := num.format(result);
        currentComputation := mainResult;
      }
    }

    /** Rewrites the expression for the parser and evaluates it. */
    method CalculateResults(num: Numerics) returns (value: real)
      ensures value == num.evaluate(Workings(currentComputation))
    {
      var visibleWorkings := currentComputation;
      var workings := ReplacingOccurrences(visibleWorkings, '%', "*0.01");
      workings := ReplacingOccurrences(workings, '×', "*");
      workings := ReplacingOccurrences(workings, '÷', "/");
      if GetLastChar(visibleWorkings) == "." {
        workings := workings + "0";
      }
      value := num.evaluate(workings);
    }

    method AppendToCurrentComputation(calcButton: CalcButton)
      modifies this
      ensures currentComputation == old(currentComputation) + RawValue(calcButton)
      ensures mainResult == old(mainResult)
    {
      currentComputation := currentComputation + RawValue(calcButton);
    }
  }
}
