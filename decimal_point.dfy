/** The decimal-point key: what its guard admits, the one-point-per-number rule its
    comment states, and a corrected guard that keeps that rule. */
module DecimalPoint {
  import opened Wrappers
  import opened Enumerations
  import opened StringHelpers
  import opened SwiftInt
  import opened CalcsButtons
  import opened KeypressProperties

  /** `t` is the number being typed at the end of `e`: a suffix that holds no operator
      and no `%`, and is preceded by one when shorter than `e`. */
  predicate IsTrailingNumeral(e: string, t: string) {
    |t| <= |e| && t == e[|e| - |t|..] &&
    (forall i :: 0 <= i < |t| ==> !IsSeparator(t[i])) &&
    (|t| < |e| ==> IsSeparator(e[|e| - |t| - 1]))
  }

  /** The number being typed at the end of the expression: the longest suffix that
      holds no operator and no `%`. */
  function TrailingNumeral(e: string): (r: string)
    ensures IsTrailingNumeral(e, r)
  {
    if e == [] || IsSeparator(e[|e| - 1]) then []
    else TrailingNumeral(e[..|e| - 1]) + [e[|e| - 1]]
  }

  /** No number of the expression holds two decimal points: at every point, the number
      it ends does not already hold one. */
  predicate OnePointPerNumeral(e: string) {
    forall j :: 0 <= j < |e| && e[j] == '.' ==> '.' !in TrailingNumeral(e[..j])
  }

  /** The text after the last decimal point overflows `Int`: the case in which the
      source's guard mistakes a fraction for a non-number. */
  predicate FractionOverflows(e: string) {
    match LastIndexOf(e, '.')
    case Some(i) => AllDigits(e[i + 1..]) && DigitsValue(e[i + 1..]) > IntMax
    case None => false
  }

  /** The decimal-point key as the comment at the head of that branch describes it: a
      point is refused when the text after the last point is all digits. */
  function DecimalPressedIntended(currentComputation: string): string {
    match LastIndexOf(currentComputation, '.')
    case Some(lastOccurrenceOfDecimal) =>
      if LastCharIsDigit(currentComputation) then
        var rightSubString := currentComputation[lastOccurrenceOfDecimal + 1..];
        if !AllDigits(rightSubString) then currentComputation + "."
        else currentComputation
      else currentComputation
    case None =>
      if currentComputation == [] then currentComputation + "0."
      else if LastCharIsDigit(currentComputation) then currentComputation + "."
      else currentComputation
  }

  /** One key press with the corrected decimal-point guard. */
  function StepIntended(s: Display, b: CalcButton, num: Numerics): Display {
    if b == Decimal then Display(DecimalPressedIntended(s.currentComputation), s.mainResult)
    else Step(s, b, num)
  }

  function RunIntended(s: Display, keys: seq<CalcButton>, num: Numerics): Display
    decreases |keys|
  {
    if keys == [] then s else RunIntended(StepIntended(s, keys[0], num), keys[1..], num)
  }

  // ---- The structure of a well-formed expression ----

  /** Every character of a well-formed expression is a digit, an operator, `%` or `.`. */
  lemma WellformedAlphabet(e: string, i: nat)
    requires Wellformed(e) && i < |e|
    ensures IsDigitChar(e[i]) || IsSeparator(e[i]) || e[i] == '.'
  {
    assert AdmissibleAt(e, i);
  }

  lemma PointIsNoSeparator()
    ensures !IsSeparator('.')
  {
    assert Operators == "+-×÷";
  }

  /** No character of the trailing number is a separator. */
  lemma NumeralHasNoSeparator(e: string, t: string)
    requires IsTrailingNumeral(e, t)
    ensures forall k :: |e| - |t| <= k < |e| ==> !IsSeparator(e[k])
  {
    forall k | |e| - |t| <= k < |e|
      ensures !IsSeparator(e[k])
    {
      assert e[k] == t[k - (|e| - |t|)];
    }
  }

  /** A point followed by digits only lies in the trailing number. */
  lemma PointInNumeral(e: string, i: nat, t: string)
    requires IsTrailingNumeral(e, t)
    requires i < |e| && e[i] == '.' && AllDigits(e[i + 1..])
    ensures '.' in t
  {
    var start := |e| - |t|;
    PointIsNoSeparator();
    forall q | i < q < |e|
      ensures !IsSeparator(e[q])
    {
      assert e[q] == e[i + 1..][q - (i + 1)];
    }
    assert start <= i;
    assert t[i - start] == e[i];
  }

  /** A separator after the last point cuts the point off the trailing number. */
  lemma PointOutsideNumeral(e: string, i: nat, p: nat, t: string)
    requires IsTrailingNumeral(e, t)
    requires i < p < |e| && IsSeparator(e[p]) && '.' !in e[i + 1..]
    ensures '.' !in t
  {
    var start := |e| - |t|;
    NumeralHasNoSeparator(e, t);
    assert start > p;
    forall j | 0 <= j < |t|
      ensures t[j] != '.'
    {
      assert t[j] == e[i + 1..][start + j - (i + 1)];
    }
  }

  /** In a well-formed expression ending in a digit, a point is followed by a digit. */
  lemma PointFollowedByDigit(e: string, i: nat)
    requires Wellformed(e) && i < |e| && e[i] == '.' && LastCharIsDigit(e)
    ensures i + 1 < |e| && IsDigitChar(e[i + 1])
  {
    LastCharTests(e);
    assert i + 1 < |e|;
    assert AdmissibleAt(e, i + 1);
  }

  /** In a well-formed expression, a non-digit after the last point is a separator. */
  lemma SeparatorAfterPoint(e: string, i: nat) returns (p: nat)
    requires Wellformed(e) && i < |e| && '.' !in e[i + 1..] && !AllDigits(e[i + 1..])
    ensures i < p < |e| && IsSeparator(e[p])
  {
    var right := e[i + 1..];
    var k :| 0 <= k < |right| && !IsDigitChar(right[k]);
    assert right[k] == e[i + 1 + k];
    WellformedAlphabet(e, i + 1 + k);
    p := i + 1 + k;
  }

  /** In a well-formed expression ending in a digit, the text after the last decimal
      point starts with a digit, and it is all digits exactly when the point belongs to
      the trailing number. */
  lemma AfterLastPoint(e: string, i: nat, t: string)
    requires Wellformed(e) && i < |e| && e[i] == '.' && '.' !in e[i + 1..]
    requires LastCharIsDigit(e) && IsTrailingNumeral(e, t)
    ensures i + 1 < |e| && IsDigitChar(e[i + 1])
    ensures AllDigits(e[i + 1..]) <==> '.' in t
  {
    PointFollowedByDigit(e, i);
    if AllDigits(e[i + 1..]) {
      PointInNumeral(e, i, t);
    } else {
      var p := SeparatorAfterPoint(e, i);
      PointOutsideNumeral(e, i, p, t);
    }
  }

  lemma NumeralWithoutPoint(e: string, t: string)
    requires IsTrailingNumeral(e, t) && '.' !in e
    ensures '.' !in t
  {
    forall j | 0 <= j < |t|
      ensures t[j] != '.'
    {
      assert t[j] == e[|e| - |t| + j];
    }
  }

  lemma DecimalPressedNoPoint(e: string)
    requires LastIndexOf(e, '.') == None
    ensures DecimalPressed(e) == if e == [] then "0." else if LastCharIsDigit(e) then e + "." else e
  {
  }

  lemma DecimalPressedAfterPoint(e: string, i: nat)
    requires LastIndexOf(e, '.') == Some(i) && LastCharIsDigit(e)
    ensures DecimalPressed(e) == if ParseInt(e[i + 1..]) == None && e[i + 1..] != [] then e + "." else e
  {
  }

  lemma DecimalPressedAfterNonDigit(e: string)
    requires e != [] && !LastCharIsDigit(e)
    ensures DecimalPressed(e) == e
  {
  }

  lemma FractionOverflowsAt(e: string, i: nat)
    requires LastIndexOf(e, '.') == Some(i)
    ensures FractionOverflows(e) <==> AllDigits(e[i + 1..]) && DigitsValue(e[i + 1..]) > IntMax
  {
  }

  /** After a point, on an expression ending in a digit, the source's guard appends
      exactly when the point lies outside the trailing number or the fraction overflows. */
  lemma GuardAfterPointAsWritten(e: string, i: nat, t: string)
    requires Wellformed(e) && IsTrailingNumeral(e, t)
    requires LastIndexOf(e, '.') == Some(i) && LastCharIsDigit(e)
    ensures DecimalPressed(e) == if '.' !in t || FractionOverflows(e) then e + "." else e
  {
    DecimalPressedAfterPoint(e, i);
    AfterLastPoint(e, i, t);
    var right := e[i + 1..];
    ParseFailsIff(right);
    FractionOverflowsAt(e, i);
  }

  /** The source's guard on a well-formed expression whose trailing number is `t`. */
  lemma DecimalGuardAsWrittenAt(e: string, t: string)
    requires Wellformed(e) && IsTrailingNumeral(e, t)
    ensures DecimalPressed(e) ==
      if e == [] then "0."
      else if LastCharIsDigit(e) && ('.' !in t || FractionOverflows(e)) then e + "."
      else e
  {
    var last := LastIndexOf(e, '.');
    if last == None {
      DecimalPressedNoPoint(e);
      NumeralWithoutPoint(e, t);
    } else if !LastCharIsDigit(e) {
      DecimalPressedAfterNonDigit(e);
    } else {
      GuardAfterPointAsWritten(e, last.value, t);
    }
  }

  /** On a well-formed expression the source's guard appends a point exactly when the
      expression ends in a digit and its trailing number holds no point, or holds one
      followed by a fraction too long for `Int`; "" becomes "0.". */
  lemma DecimalGuardAsWritten(e: string)
    requires Wellformed(e)
    ensures DecimalPressed(e) ==
      if e == [] then "0."
      else if LastCharIsDigit(e) && ('.' !in TrailingNumeral(e) || FractionOverflows(e)) then e + "."
      else e
  {
    DecimalGuardAsWrittenAt(e, TrailingNumeral(e));
  }

  lemma IntendedNoPoint(e: string)
    requires LastIndexOf(e, '.') == None
    ensures DecimalPressedIntended(e) == if e == [] then "0." else if LastCharIsDigit(e) then e + "." else e
  {
  }

  lemma IntendedAfterPoint(e: string, i: nat)
    requires LastIndexOf(e, '.') == Some(i) && LastCharIsDigit(e)
    ensures DecimalPressedIntended(e) == if !AllDigits(e[i + 1..]) then e + "." else e
  {
  }

  lemma IntendedAfterNonDigit(e: string)
    requires e != [] && !LastCharIsDigit(e)
    ensures DecimalPressedIntended(e) == e
  {
  }

  /** The corrected guard on a well-formed expression whose trailing number is `t`. */
  lemma DecimalGuardIntendedAt(e: string, t: string)
    requires Wellformed(e) && IsTrailingNumeral(e, t)
    ensures DecimalPressedIntended(e) ==
      if e == [] then "0."
      else if LastCharIsDigit(e) && '.' !in t then e + "."
      else e
  {
    var last := LastIndexOf(e, '.');
    if last == None {
      IntendedNoPoint(e);
      NumeralWithoutPoint(e, t);
    } else if !LastCharIsDigit(e) {
      IntendedAfterNonDigit(e);
    } else {
      var i := last.value;
      IntendedAfterPoint(e, i);
      AfterLastPoint(e, i, t);
    }
  }

  /** The corrected guard appends a point exactly when the expression ends in a digit
      and its trailing number holds no point; "" becomes "0.". */
  lemma DecimalGuardIntended(e: string)
    requires Wellformed(e)
    ensures DecimalPressedIntended(e) ==
      if e == [] then "0."
      else if LastCharIsDigit(e) && '.' !in TrailingNumeral(e) then e + "."
      else e
  {
    DecimalGuardIntendedAt(e, TrailingNumeral(e));
  }

  /** The two guards differ only on a fraction that overflows `Int`. */
  lemma GuardsAgreeWithoutOverflow(e: string)
    requires Wellformed(e) && !FractionOverflows(e)
    ensures DecimalPressed(e) == DecimalPressedIntended(e)
  {
    DecimalGuardAsWritten(e);
    DecimalGuardIntended(e);
  }

  /** "3.5" followed by the point key is refused: the fraction "5" parses. */
  lemma PointAfterFractionRefused()
    ensures DecimalPressed("3.5") == "3.5"
  {
    var e := "3.5";
    assert e[1] == '.' && e[2] != '.';
    assert LastIndexOf(e, '.') == Some(1);
    LastCharTests(e);
    DecimalPressedAfterPoint(e, 1);
    assert e[2..] == "5";
    ParseDigits("5");
  }

  lemma LastPointAt(e: string, i: nat)
    requires i < |e| && e[i] == '.' && forall k :: i < k < |e| ==> e[k] != '.'
    ensures LastIndexOf(e, '.') == Some(i)
  {
    var right := e[i + 1..];
    forall k | 0 <= k < |right|
      ensures right[k] != '.'
    {
      assert right[k] == e[i + 1 + k];
    }
  }

  /** "3.5+2" followed by the point key is accepted: "5+2" does not parse. */
  lemma PointAfterOperatorAccepted()
    ensures DecimalPressed("3.5+2") == "3.5+2."
  {
    var e := "3.5+2";
    LastPointAt(e, 1);
    LastCharTests(e);
    DecimalPressedAfterPoint(e, 1);
    assert e[2..] == "5+2";
    ParseRejectsNonDigit("5+2", 1);
  }

  // ---- The corrected key keeps one point per number ----

  lemma OnePointPrefix(e: string, k: nat)
    requires OnePointPerNumeral(e) && k <= |e|
    ensures OnePointPerNumeral(e[..k])
  {
    forall j | 0 <= j < k && e[..k][j] == '.'
      ensures '.' !in TrailingNumeral(e[..k][..j])
    {
      assert e[..k][..j] == e[..j];
    }
  }

  lemma OnePointAppend(e: string, c: char)
    requires OnePointPerNumeral(e)
    requires c == '.' ==> '.' !in TrailingNumeral(e)
    ensures OnePointPerNumeral(e + [c])
  {
    forall j | 0 <= j < |e + [c]| && (e + [c])[j] == '.'
      ensures '.' !in TrailingNumeral((e + [c])[..j])
    {
      if j < |e| {
        assert (e + [c])[j] == e[j];
        assert (e + [c])[..j] == e[..j];
      } else {
        assert (e + [c])[..j] == e;
      }
    }
  }

  lemma ZeroPointHasOnePoint()
    ensures Wellformed("0.") && OnePointPerNumeral("0.")
  {
    assert AdmissibleAt("0.", 0) && AdmissibleAt("0.", 1);
    assert "0."[..1] == "0";
    assert TrailingNumeral("0") == "0";
  }

  /** The corrected decimal-point key keeps the expression well formed and keeps one
      point per number. */
  lemma DecimalIntendedKeepsOnePoint(e: string)
    requires Wellformed(e) && OnePointPerNumeral(e)
    ensures Wellformed(DecimalPressedIntended(e)) && OnePointPerNumeral(DecimalPressedIntended(e))
  {
    DecimalGuardIntended(e);
    if e == [] {
      ZeroPointHasOnePoint();
    } else if DecimalPressedIntended(e) != e {
      LastCharTests(e);
      WellformedAppend(e, '.');
      OnePointAppend(e, '.');
    }
  }

  /** Digits, operators and percent never add a point, so they keep one point per number. */
  lemma AppendKeyKeepsOnePoint(s: Display, b: CalcButton, num: Numerics)
    requires IsDigitButton(b) || IsArithmeticButton(b) || b == Percent
    requires OnePointPerNumeral(s.currentComputation)
    ensures OnePointPerNumeral(Step(s, b, num).currentComputation)
  {
    var e := s.currentComputation;
    if IsDigitButton(b) {
      DigitKeyAppends(s, b, num);
    } else if IsArithmeticButton(b) {
      OperatorGuard(s, b, num);
      OperatorGlyphs(b);
    } else {
      PercentGuard(s, num);
      PercentAndDecimalGlyphs();
    }
    if Step(s, b, num) != s {
      assert RawValue(b) == [RawValue(b)[0]] && RawValue(b)[0] != '.';
      OnePointAppend(e, RawValue(b)[0]);
    }
  }

  /** Editing keys with the corrected guard keep the expression well formed and keep
      one point per number. */
  lemma StepIntendedKeepsOnePoint(s: Display, b: CalcButton, num: Numerics)
    requires IsEditingKey(b)
    requires Wellformed(s.currentComputation) && OnePointPerNumeral(s.currentComputation)
    ensures Wellformed(StepIntended(s, b, num).currentComputation)
    ensures OnePointPerNumeral(StepIntended(s, b, num).currentComputation)
  {
    var e := s.currentComputation;
    if b == Decimal {
      DecimalIntendedKeepsOnePoint(e);
    } else {
      assert StepIntended(s, b, num) == Step(s, b, num);
      StepKeepsWellformed(s, b, num);
      if b == Undo {
        StepUndo(s, num);
        if e != [] {
          OnePointPrefix(e, |e| - 1);
        }
      } else if b == Clear {
        ClearResets(s, num);
      } else {
        AppendKeyKeepsOnePoint(s, b, num);
      }
    }
  }

  /** From an empty expression, editing keys with the corrected guard never put two
      decimal points into one number. */
  lemma {:induction false} IntendedRunKeepsOnePoint(s: Display, keys: seq<CalcButton>, num: Numerics)
    requires Wellformed(s.currentComputation) && OnePointPerNumeral(s.currentComputation)
    requires forall i :: 0 <= i < |keys| ==> IsEditingKey(keys[i])
    decreases |keys|
    ensures Wellformed(RunIntended(s, keys, num).currentComputation)
    ensures OnePointPerNumeral(RunIntended(s, keys, num).currentComputation)
  {
    if keys != [] {
      StepIntendedKeepsOnePoint(s, keys[0], num);
      IntendedRunKeepsOnePoint(StepIntended(s, keys[0], num), keys[1..], num);
    }
  }

  // ---- The source's guard admits a second point ----

  /** A run of nine keys appends that many nines. */
  lemma {:induction false} RunNines(s: Display, n: nat, num: Numerics)
    decreases n
    ensures Run(s, seq(n, _ => Nine), num) == Display(s.currentComputation + Nines(n), s.mainResult)
  {
    var keys := seq(n, _ => Nine);
    if n > 0 {
      DigitKeyAppends(s, Nine, num);
      var t := Step(s, Nine, num);
      assert keys[0] == Nine && keys[1..] == seq(n - 1, _ => Nine);
      RunNines(t, n - 1, num);
      assert "9" + Nines(n - 1) == Nines(n);
    }
  }

  /** The expression "0." followed by nineteen nines. */
  function LongFraction(): (e: string)
    ensures |e| == 21 && e[0] == '0' && e[1] == '.'
    ensures forall k :: 2 <= k < |e| ==> e[k] == '9'
  {
    "0." + Nines(19)
  }

  /** The point key and nineteen nine keys from the initial state type `LongFraction()`. */
  lemma LongFractionReachable(num: Numerics)
    ensures Run(Initial, [Decimal] + seq(19, _ => Nine), num) == Display(LongFraction(), "0")
  {
    var keys := [Decimal] + seq(19, _ => Nine);
    StepDecimal(Initial, num);
    assert DecimalPressed("") == "0.";
    assert keys[0] == Decimal && keys[1..] == seq(19, _ => Nine);
    RunNines(Display("0.", "0"), 19, num);
  }

  lemma NumeralWithoutSeparator(e: string, t: string)
    requires IsTrailingNumeral(e, t)
    requires forall k :: 0 <= k < |e| ==> !IsSeparator(e[k])
    ensures t == e
  {
  }

  lemma LongFractionWellformed()
    ensures Wellformed(LongFraction())
  {
    var e := LongFraction();
    forall i | 0 <= i < |e|
      ensures AdmissibleAt(e, i)
    {
      if i >= 2 {
        assert e[i] == '9';
      }
    }
  }

  /** An expression with a single point, not preceded by one in its number, has one
      point per number. */
  lemma SinglePoint(e: string, p: nat)
    requires p < |e| && forall k :: 0 <= k < |e| && k != p ==> e[k] != '.'
    requires '.' !in TrailingNumeral(e[..p])
    ensures OnePointPerNumeral(e)
  {
  }

  lemma ZeroIsItsOwnNumeral()
    ensures '.' !in TrailingNumeral("0")
  {
    var z := "0";
    assert !IsSeparator(z[0]) && z[..0] == [];
    assert TrailingNumeral(z[..0]) == [];
  }

  lemma LongFractionOnePoint()
    ensures OnePointPerNumeral(LongFraction())
  {
    var e := LongFraction();
    assert e[..1] == "0";
    ZeroIsItsOwnNumeral();
    SinglePoint(e, 1);
  }

  lemma LongFractionIsOneNumber()
    ensures TrailingNumeral(LongFraction()) == LongFraction()
  {
    var e := LongFraction();
    PointIsNoSeparator();
    assert forall k :: 0 <= k < |e| ==> !IsSeparator(e[k]);
    NumeralWithoutSeparator(e, TrailingNumeral(e));
  }

  lemma LongFractionOverflows()
    ensures LastCharIsDigit(LongFraction()) && FractionOverflows(LongFraction())
  {
    var e := LongFraction();
    LastCharTests(e);
    assert '.' !in e[2..];
    assert LastIndexOf(e, '.') == Some(1);
    assert e[2..] == Nines(19);
    NineteenNinesOverflow();
  }

  /** Typing `.` and nineteen nines, then `.` again: the source's guard appends the second
      point, because the nineteen nines overflow `Int` and so do not parse, although the
      fraction is all digits. The corrected guard refuses it. */
  lemma LongFractionAdmitsSecondPoint(num: Numerics)
    ensures var e := LongFraction();
      Run(Initial, [Decimal] + seq(19, _ => Nine), num) == Display(e, "0") &&
      Wellformed(e) && OnePointPerNumeral(e) &&
      Step(Display(e, "0"), Decimal, num) == Display(e + ".", "0") &&
      !OnePointPerNumeral(e + ".") &&
      StepIntended(Display(e, "0"), Decimal, num) == Display(e, "0")
  {
    var e := LongFraction();
    LongFractionReachable(num);
    LongFractionWellformed();
    LongFractionOnePoint();
    LongFractionIsOneNumber();
    LongFractionOverflows();
    DecimalGuardAsWritten(e);
    DecimalGuardIntended(e);
    StepDecimal(Display(e, "0"), num);
    // The second point lands in a number that already holds one.
    assert (e + ".")[|e|] == '.' && (e + ".")[..|e|] == e;
    assert TrailingNumeral(e)[1] == '.';
  }

  // ---- A number the display splits and the parser does not ----

  /** The four states that keys 5, %, 3, . pass through from the initial state. */
  lemma PercentThenPointSteps(num: Numerics)
    ensures Step(Initial, Five, num) == Display("5", "0")
    ensures Step(Display("5", "0"), Percent, num) == Display("5%", "0")
    ensures Step(Display("5%", "0"), Three, num) == Display("5%3", "0")
    ensures Step(Display("5%3", "0"), Decimal, num) == Display("5%3.", "0")
    ensures StepIntended(Display("5%3", "0"), Decimal, num) == Display("5%3.", "0")
  {
    DigitKeyAppends(Initial, Five, num);
    PercentGuard(Display("5", "0"), num);
    DigitKeyAppends(Display("5%", "0"), Three, num);
    assert LastIndexOf("5%3", '.') == None;
    StepDecimal(Display("5%3", "0"), num);
  }

  /** Keys 5, %, 3, . type "5%3." under either guard. */
  lemma PercentThenPointReachable(num: Numerics)
    ensures Run(Initial, [Five, Percent, Three, Decimal], num) == Display("5%3.", "0")
    ensures RunIntended(Initial, [Five, Percent, Three, Decimal], num) == Display("5%3.", "0")
  {
    var keys := [Five, Percent, Three, Decimal];
    PercentThenPointSteps(num);
    assert keys[1..] == [Percent, Three, Decimal] && keys[2..] == [Three, Decimal] && keys[3..] == [Decimal];
  }

  /** "5%3." holds one point per displayed number, since `%` ends the "5"; yet
      `calculateResults` turns `%` into `*0.01`, so the parser receives "5*0.013.0"
      (`WorkingsProperties.PercentThenFraction`), one number with two points. */
  lemma PercentEndsDisplayedNumber()
    ensures OnePointPerNumeral("5%3.")
  {
    assert TrailingNumeral("5%3") == "3";
    forall j | 0 <= j < |"5%3."| && "5%3."[j] == '.'
      ensures '.' !in TrailingNumeral("5%3."[..j])
    {
      assert j == 3 && "5%3."[..j] == "5%3";
    }
  }
}
