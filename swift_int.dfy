/** Swift's failable `Int(_: String)` initializer on a 64-bit platform: an optional
    leading `+` or `-`, then one or more ASCII digits, and nil when the value does
    not fit in `Int`. */
module SwiftInt {
  import opened Wrappers
  import opened Enumerations

  const IntMax: int := 0x7FFF_FFFF_FFFF_FFFF
  const IntMin: int := -0x8000_0000_0000_0000

  predicate AllDigits(s: string) {
    forall i :: 0 <= i < |s| ==> IsDigitChar(s[i])
  }

  /** The value of a string of decimal digits, most significant first. */
  function DigitsValue(s: string): nat
    requires AllDigits(s)
  {
    if s == [] then 0
    else DigitsValue(s[..|s| - 1]) * 10 + (s[|s| - 1] as int - '0' as int)
  }

  function ParseInt(s: string): (r: Option<int>)
    ensures r.Some? ==> IntMin <= r.value <= IntMax
    ensures r.Some? ==> s != [] && (IsDigitChar(s[0]) || s[0] == '+' || s[0] == '-')
  {
    var signed := |s| > 0 && (s[0] == '+' || s[0] == '-');
    var body := if signed then s[1..] else s;
    if body == [] || !AllDigits(body) then None
    else
      var v: int := if signed && s[0] == '-' then -(DigitsValue(body) as int) else DigitsValue(body);
      if IntMin <= v <= IntMax then Some(v) else None
  }

  /** A string of digits parses exactly when its value is at most `IntMax`, and then to that value. */
  lemma ParseDigits(s: string)
    requires s != [] && AllDigits(s)
    ensures ParseInt(s) == if DigitsValue(s) <= IntMax then Some(DigitsValue(s)) else None
  {
  }

  /** A string that starts with a digit and holds any other character beyond the digits
      does not parse. */
  lemma ParseRejectsNonDigit(s: string, k: nat)
    requires s != [] && IsDigitChar(s[0])
    requires k < |s| && !IsDigitChar(s[k])
    ensures ParseInt(s) == None
  {
  }

  /** A string that starts with a digit fails to parse exactly when it holds a non-digit
      or its value exceeds `IntMax`. */
  lemma ParseFailsIff(s: string)
    requires s != [] && IsDigitChar(s[0])
    ensures ParseInt(s) == None <==> !AllDigits(s) || DigitsValue(s) > IntMax
  {
    if AllDigits(s) {
      ParseDigits(s);
    } else {
      var k :| 0 <= k < |s| && !IsDigitChar(s[k]);
      ParseRejectsNonDigit(s, k);
    }
  }

  /** Nineteen nines exceed `IntMax`, so they do not parse. */
  lemma NineteenNinesOverflow()
    ensures AllDigits(Nines(19)) && DigitsValue(Nines(19)) == 9_999_999_999_999_999_999
    ensures ParseInt(Nines(19)) == None
  {
    NinesValue(19);
    Pow10Add(16, 3);
    Pow10Add(8, 8);
    Pow10Add(4, 4);
  }

  function Nines(n: nat): (r: string)
    ensures |r| == n && AllDigits(r)
  {
    seq(n, _ => '9')
  }

  function Pow10(n: nat): (r: nat)
    ensures r >= 1
  {
    if n == 0 then 1 else 10 * Pow10(n - 1)
  }

  lemma {:induction false} Pow10Add(a: nat, b: nat)
    ensures Pow10(a + b) == Pow10(a) * Pow10(b)
  {
    if a > 0 {
      Pow10Add(a - 1, b);
    }
  }

  lemma {:induction false} NinesValue(n: nat)
    ensures DigitsValue(Nines(n)) == Pow10(n) - 1
  {
    if n > 0 {
      NinesValue(n - 1);
      assert Nines(n)[..n - 1] == Nines(n - 1);
    }
  }
}
