/** The character tests the keypress handler relies on (Helper Functions/String Helper Functions.swift). */
module StringHelpers {
  import opened Wrappers
  import opened Enumerations

  const DigitChars: string := "0123456789"

  /** Foundation's `String.contains(_:)` on strings: `needle` occurs as a substring of
      `hay`; the empty string is never found. */
  predicate Contains(hay: string, needle: string) {
    |needle| > 0 && exists i :: 0 <= i <= |hay| && needle <= hay[i..]
  }

  /** The last character as a one-character string, or "" for the empty string. */
  function GetLastChar(s: string): (r: string)
    ensures |r| == (if s == [] then 0 else 1)
    ensures s == s[..|s| - |r|] + r
  {
    if s == [] then "" else [s[|s| - 1]]
  }

  /** `hay.contains(getLastChar(s))`: the last character of `s` occurs in `hay`; false for "". */
  predicate LastCharIn(s: string, hay: string) {
    var last := GetLastChar(s);
    |last| == 1 && last[0] in hay
  }

  predicate LastCharIsDigit(s: string) {
    LastCharIn(s, DigitChars)
  }

  predicate LastCharIsDigitOrPercent(s: string) {
    LastCharIn(s, DigitChars + "%")
  }

  predicate LastCharacterIsAnOperator(s: string) {
    LastCharIn(s, Operators)
  }

  /** Swift's `lastIndex(of:)`: the position of the last `c` in `s`, if any. */
  function LastIndexOf(s: string, c: char): (r: Option<nat>)
    ensures r.None? <==> c !in s
    ensures r.Some? ==> r.value < |s| && s[r.value] == c && c !in s[r.value + 1..]
  {
    if s == [] then None
    else if s[|s| - 1] == c then Some(|s| - 1)
    else
      var r := LastIndexOf(s[..|s| - 1], c);
      assert s == s[..|s| - 1] + [s[|s| - 1]];
      r
  }

  /** A one-character string is contained exactly when its character occurs. */
  lemma ContainsChar(hay: string, c: char)
    ensures Contains(hay, [c]) <==> c in hay
  {
    if c in hay {
      var i :| 0 <= i < |hay| && hay[i] == c;
      assert [c] <= hay[i..];
    }
    if Contains(hay, [c]) {
      var i :| 0 <= i <= |hay| && [c] <= hay[i..];
      assert hay[i] == c;
    }
  }

  lemma DigitCharsAreDigits(c: char)
    ensures c in DigitChars <==> IsDigitChar(c)
  {
  }

  /** The helpers ask Foundation's substring question about the last character. */
  lemma LastCharInIsContains(s: string, hay: string)
    ensures LastCharIn(s, hay) <==> Contains(hay, GetLastChar(s))
  {
    if s != [] {
      ContainsChar(hay, s[|s| - 1]);
    }
  }

  /** The last-character tests in terms of the last character itself: each is false on "". */
  lemma LastCharTests(s: string)
    ensures LastCharIsDigit(s) <==> s != [] && IsDigitChar(s[|s| - 1])
    ensures LastCharIsDigitOrPercent(s) <==> s != [] && (IsDigitChar(s[|s| - 1]) || s[|s| - 1] == '%')
    ensures LastCharacterIsAnOperator(s) <==> s != [] && s[|s| - 1] in Operators
  {
    if s != [] {
      DigitCharsAreDigits(s[|s| - 1]);
    }
  }
}
