/** What each key does to the two strings, and what a run of editing keys keeps true
    of the expression. */
module KeypressProperties {
  import opened Wrappers
  import opened Enumerations
  import opened StringHelpers
  import opened SwiftInt
  import opened CalcsButtons

  /** The keys that edit the expression without evaluating it. */
  predicate IsEditingKey(b: CalcButton) {
    IsDigitButton(b) || IsArithmeticButton(b) ||
    b == Percent || b == Decimal || b == Undo || b == Clear
  }

  predicate IsSeparator(c: char) {
    c in Operators || c == '%'
  }

  /** The character at `i` may follow what precedes it: a digit anywhere, an operator
      after a digit or `%`, and `%` or `.` after a digit. */
  predicate AdmissibleAt(e: string, i: nat)
    requires i < |e|
  {
    IsDigitChar(e[i]) ||
    (i > 0 &&
     ((e[i] in Operators && (IsDigitChar(e[i - 1]) || e[i - 1] == '%')) ||
      ((e[i] == '%' || e[i] == '.') && IsDigitChar(e[i - 1]))))
  }

  /** Every character of the expression is admissible where it stands. */
  predicate Wellformed(e: string) {
    forall i :: 0 <= i < |e| ==> AdmissibleAt(e, i)
  }

  predicate NoAdjacentOperators(e: string) {
    forall i :: 0 < i < |e| ==> !(e[i - 1] in Operators && e[i] in Operators)
  }

  // ---- One key at a time ----

  /** Clear resets both strings whatever they held. */
  lemma ClearResets(s: Display, num: Numerics)
    ensures Step(s, Clear, num) == Initial
    ensures Initial.currentComputation == [] && Initial.mainResult == "0"
  {
  }

  /** Only the digit keys reach the `default` of the switch. */
  lemma DefaultBranchIsDigits(b: CalcButton)
    ensures BranchOf(b) == DefaultBranch <==> IsDigitButton(b)
  {
  }

  lemma StepDefault(s: Display, b: CalcButton, num: Numerics)
    requires BranchOf(b) == DefaultBranch
    ensures Step(s, b, num) == Display(s.currentComputation + RawValue(b), s.mainResult)
  {
  }

  /** A digit key appends its single digit and leaves the display alone. */
  lemma DigitKeyAppends(s: Display, b: CalcButton, num: Numerics)
    requires IsDigitButton(b)
    ensures |RawValue(b)| == 1 && IsDigitChar(RawValue(b)[0])
    ensures Step(s, b, num) == Display(s.currentComputation + RawValue(b), s.mainResult)
  {
    DigitRawValues(b, 0);
    DefaultBranchIsDigits(b);
    StepDefault(s, b, num);
  }

  /** Undo removes exactly the last character, does nothing to "", and never touches
      the display. */
  lemma UndoRemovesLast(s: Display, num: Numerics)
    ensures Step(s, Undo, num).mainResult == s.mainResult
    ensures s.currentComputation == [] ==> Step(s, Undo, num) == s
    ensures s.currentComputation != [] ==>
      Step(s, Undo, num).currentComputation + [s.currentComputation[|s.currentComputation| - 1]]
        == s.currentComputation
  {
  }

  /** Undo takes back any key press that appended a one-character raw value. */
  lemma UndoAfterAppend(s: Display, b: CalcButton, num: Numerics)
    requires |RawValue(b)| == 1
    requires Step(s, b, num) == Display(s.currentComputation + RawValue(b), s.mainResult)
    ensures Step(Step(s, b, num), Undo, num) == s
  {
    var t := Step(s, b, num);
    assert t.currentComputation[..|t.currentComputation| - 1] == s.currentComputation;
  }

  /** Undo right after a digit restores the previous state. */
  lemma UndoAfterDigit(s: Display, d: CalcButton, num: Numerics)
    requires IsDigitButton(d)
    ensures Step(Step(s, d, num), Undo, num) == s
  {
    DigitKeyAppends(s, d, num);
    UndoAfterAppend(s, d, num);
  }

  /** Percent is appended exactly when the expression ends in a digit. */
  lemma PercentGuard(s: Display, num: Numerics)
    ensures var cc := s.currentComputation;
      Step(s, Percent, num) ==
        if cc != [] && IsDigitChar(cc[|cc| - 1]) then Display(cc + "%", s.mainResult) else s
  {
    LastCharTests(s.currentComputation);
  }

  /** An arithmetic operator is appended exactly when the expression ends in a digit or `%`. */
  lemma OperatorGuard(s: Display, b: CalcButton, num: Numerics)
    requires IsArithmeticButton(b)
    ensures var cc := s.currentComputation;
      Step(s, b, num) ==
        if cc != [] && (IsDigitChar(cc[|cc| - 1]) || cc[|cc| - 1] == '%')
        then Display(cc + RawValue(b), s.mainResult) else s
  {
    LastCharTests(s.currentComputation);
    assert b != Clear && b != Equal && b != Negative && b != Decimal && b != Percent && b != Undo;
  }

  /** Equal and negate act only on a non-empty expression not ending in an operator.
      Equal shows the value and keeps the expression; negate puts the negated value
      in both strings. */
  lemma EvaluatingKeys(s: Display, b: CalcButton, num: Numerics)
    requires b == Equal || b == Negative
    ensures var cc := s.currentComputation;
      CanEvaluate(cc) <==> cc != [] && cc[|cc| - 1] !in Operators
    ensures !CanEvaluate(s.currentComputation) ==> Step(s, b, num) == s
    ensures CanEvaluate(s.currentComputation) && b == Equal ==>
      Step(s, b, num) == Display(s.currentComputation, num.format(num.evaluate(Workings(s.currentComputation))))
    ensures CanEvaluate(s.currentComputation) && b == Negative ==>
      var shown := num.format(-num.evaluate(Workings(s.currentComputation)));
      Step(s, b, num) == Display(shown, shown)
  {
    LastCharTests(s.currentComputation);
  }

  /** Every key of the scientific branch goes to `Scientific`. */
  lemma StepScientific(s: Display, b: CalcButton, num: Numerics)
    requires BranchOf(b) == ScientificBranch
    ensures Step(s, b, num) == Scientific(s, b, num)
  {
  }

  /** cos, sin, tan and log: an empty expression becomes "0"; nothing more happens unless
      it ends in a digit; log of a non-positive value shows "Error" and keeps the
      expression; otherwise both strings show the formatted result. */
  lemma ScientificKeys(s: Display, b: CalcButton, num: Numerics)
    requires IsScientificButton(b)
    ensures var cc := if s.currentComputation == [] then "0" else s.currentComputation;
      var t := Step(s, b, num);
      var v := num.parseDouble(cc);
      (!IsDigitChar(cc[|cc| - 1]) ==> t == Display(cc, s.mainResult)) &&
      (IsDigitChar(cc[|cc| - 1]) && b == Logarithm && !(v > 0.0) ==> t == Display(cc, "Error")) &&
      (IsDigitChar(cc[|cc| - 1]) && !(b == Logarithm && !(v > 0.0)) ==>
         t.currentComputation == t.mainResult == num.format(ScientificValue(b, v, num)))
  {
    StepScientific(s, b, num);
    var cc := if s.currentComputation == [] then "0" else s.currentComputation;
    LastCharTests(cc);
  }

  /** Log of an empty expression whose value "0" is not positive leaves "0" behind. */
  lemma LogOfEmptyLeavesZero(s: Display, num: Numerics)
    requires s.currentComputation == [] && !(num.parseDouble("0") > 0.0)
    ensures Step(s, Logarithm, num) == Display("0", "Error")
  {
    StepScientific(s, Logarithm, num);
    LastCharTests("0");
  }

  // ---- The expression stays well formed under editing keys ----

  lemma WellformedPrefix(e: string, k: nat)
    requires Wellformed(e) && k <= |e|
    ensures Wellformed(e[..k])
  {
    forall i | 0 <= i < k
      ensures AdmissibleAt(e[..k], i)
    {
      assert AdmissibleAt(e, i);
    }
  }

  lemma WellformedAppend(e: string, c: char)
    requires Wellformed(e) && AdmissibleAt(e + [c], |e|)
    ensures Wellformed(e + [c])
  {
    forall i | 0 <= i < |e|
      ensures AdmissibleAt(e + [c], i)
    {
      assert AdmissibleAt(e, i);
    }
  }

  /** A well-formed expression starts with a digit and never has two operators side by side. */
  lemma WellformedNoAdjacentOperators(e: string)
    requires Wellformed(e)
    ensures NoAdjacentOperators(e)
    ensures e != [] ==> IsDigitChar(e[0])
  {
    if e != [] {
      assert AdmissibleAt(e, 0);
    }
    forall i | 0 < i < |e|
      ensures !(e[i - 1] in Operators && e[i] in Operators)
    {
      assert AdmissibleAt(e, i);
    }
  }

  /** The decimal key leaves the expression, appends "." after a digit, or turns "" into "0.". */
  lemma DecimalPressedShape(cc: string)
    ensures DecimalPressed(cc) == cc
         || (cc == [] && DecimalPressed(cc) == "0.")
         || (LastCharIsDigit(cc) && DecimalPressed(cc) == cc + ".")
  {
  }

  /** A key that appends its one-character raw value only after a character that
      may precede it keeps the expression well formed. */
  lemma AppendKeyKeepsWellformed(s: Display, b: CalcButton, num: Numerics)
    requires IsDigitButton(b) || IsArithmeticButton(b) || b == Percent
    requires Wellformed(s.currentComputation)
    ensures Wellformed(Step(s, b, num).currentComputation)
    ensures Step(s, b, num).mainResult == s.mainResult
  {
    var cc := s.currentComputation;
    LastCharTests(cc);
    DigitRawValues(b, 0);
    OperatorGlyphs(b);
    PercentAndDecimalGlyphs();
    var t := Step(s, b, num);
    if IsDigitButton(b) {
      DigitKeyAppends(s, b, num);
    } else if IsArithmeticButton(b) {
      OperatorGuard(s, b, num);
    } else {
      PercentGuard(s, num);
    }
    if t != s {
      assert t.currentComputation == cc + RawValue(b);
      assert RawValue(b) == [RawValue(b)[0]];
      WellformedAppend(cc, RawValue(b)[0]);
    }
  }

  lemma StepUndo(s: Display, num: Numerics)
    ensures Step(s, Undo, num) == Display(DropLast(s.currentComputation), s.mainResult)
  {
  }

  lemma StepDecimal(s: Display, num: Numerics)
    ensures Step(s, Decimal, num) == Display(DecimalPressed(s.currentComputation), s.mainResult)
  {
  }

  /** The decimal key keeps the expression well formed. */
  lemma DecimalKeepsWellformed(cc: string)
    requires Wellformed(cc)
    ensures Wellformed(DecimalPressed(cc))
  {
    LastCharTests(cc);
    DecimalPressedShape(cc);
    if DecimalPressed(cc) == "0." {
      assert AdmissibleAt("0.", 0) && AdmissibleAt("0.", 1);
    } else if DecimalPressed(cc) != cc {
      WellformedAppend(cc, '.');
    }
  }

  /** Editing keys keep the expression well formed, and only Clear touches the display. */
  lemma StepKeepsWellformed(s: Display, b: CalcButton, num: Numerics)
    requires IsEditingKey(b) && Wellformed(s.currentComputation)
    ensures Wellformed(Step(s, b, num).currentComputation)
    ensures b != Clear ==> Step(s, b, num).mainResult == s.mainResult
  {
    var cc := s.currentComputation;
    if b == Undo {
      StepUndo(s, num);
      if cc != [] {
        WellformedPrefix(cc, |cc| - 1);
      }
    } else if b == Decimal {
      StepDecimal(s, num);
      DecimalKeepsWellformed(cc);
    } else if b == Clear {
      ClearResets(s, num);
    } else {
      AppendKeyKeepsWellformed(s, b, num);
    }
  }

  /** A run of editing keys keeps the expression well formed. */
  lemma {:induction false} RunKeepsWellformed(s: Display, keys: seq<CalcButton>, num: Numerics)
    requires Wellformed(s.currentComputation)
    requires forall i :: 0 <= i < |keys| ==> IsEditingKey(keys[i])
    decreases |keys|
    ensures Wellformed(Run(s, keys, num).currentComputation)
  {
    if keys != [] {
      StepKeepsWellformed(s, keys[0], num);
      RunKeepsWellformed(Step(s, keys[0], num), keys[1..], num);
    }
  }

  /** From an empty expression, digits, operators, percent, decimal point, undo and clear
      never put two operators side by side. */
  lemma NoAdjacentOperatorsFromEmpty(mainResult: string, keys: seq<CalcButton>, num: Numerics)
    requires forall i :: 0 <= i < |keys| ==> IsEditingKey(keys[i])
    ensures NoAdjacentOperators(Run(Display("", mainResult), keys, num).currentComputation)
  {
    RunKeepsWellformed(Display("", mainResult), keys, num);
    WellformedNoAdjacentOperators(Run(Display("", mainResult), keys, num).currentComputation);
  }
}
