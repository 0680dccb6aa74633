/** What `calculateResults` hands to the expression parser, stated against a
    one-pass reference rewrite of each character. */
module WorkingsProperties {
  import opened Enumerations
  import opened CalcsButtons

  /** The text a single character of the expression stands for in the parser's syntax. */
  function Glyph(c: char): string {
    if c == '%' then "*0.01"
    else if c == '×' then "*"
    else if c == '÷' then "/"
    else [c]
  }

  /** The reference rewrite: every character replaced by its glyph, in one pass. */
  function Canonical(s: string): string {
    if s == [] then [] else Glyph(s[0]) + Canonical(s[1..])
  }

  /** The three passes of `calculateResults`, without the trailing-point fix. */
  function ThreePasses(s: string): string {
    ReplacingOccurrences(ReplacingOccurrences(ReplacingOccurrences(s, '%', "*0.01"), '×', "*"), '÷', "/")
  }

  lemma {:induction false} ReplacingOccurrencesConcat(a: string, b: string, target: char, replacement: string)
    ensures ReplacingOccurrences(a + b, target, replacement)
         == ReplacingOccurrences(a, target, replacement) + ReplacingOccurrences(b, target, replacement)
  {
    if a == [] {
      assert a + b == b;
    } else {
      var ab := a + b;
      assert ab[0] == a[0] && ab[1..] == a[1..] + b;
      var head := if a[0] == target then replacement else [a[0]];
      ReplacingOccurrencesConcat(a[1..], b, target, replacement);
      calc {
        ReplacingOccurrences(ab, target, replacement);
        head + ReplacingOccurrences(a[1..] + b, target, replacement);
        head + (ReplacingOccurrences(a[1..], target, replacement) + ReplacingOccurrences(b, target, replacement));
        (head + ReplacingOccurrences(a[1..], target, replacement)) + ReplacingOccurrences(b, target, replacement);
      }
    }
  }

  lemma {:induction false} CanonicalConcat(a: string, b: string)
    ensures Canonical(a + b) == Canonical(a) + Canonical(b)
  {
    if a == [] {
      assert a + b == b;
    } else {
      var ab := a + b;
      assert ab[0] == a[0] && ab[1..] == a[1..] + b;
      CanonicalConcat(a[1..], b);
      calc {
        Canonical(ab);
        Glyph(a[0]) + Canonical(a[1..] + b);
        Glyph(a[0]) + (Canonical(a[1..]) + Canonical(b));
        (Glyph(a[0]) + Canonical(a[1..])) + Canonical(b);
      }
    }
  }

  /** The three successive replacements equal the one-pass rewrite: no pass
      disturbs what an earlier one produced. */
  lemma {:induction false} ThreePassesAreCanonical(s: string)
    ensures ThreePasses(s) == Canonical(s)
  {
    if s != [] {
      var head, tail := s[..1], s[1..];
      assert s == head + tail;
      ReplacingOccurrencesConcat(head, tail, '%', "*0.01");
      var p1h := ReplacingOccurrences(head, '%', "*0.01");
      var p1t := ReplacingOccurrences(tail, '%', "*0.01");
      ReplacingOccurrencesConcat(p1h, p1t, '×', "*");
      var p2h := ReplacingOccurrences(p1h, '×', "*");
      var p2t := ReplacingOccurrences(p1t, '×', "*");
      ReplacingOccurrencesConcat(p2h, p2t, '÷', "/");
      ThreePassesAreCanonical(tail);
      GlyphPasses(s[0]);
      assert head == [s[0]];
    }
  }

  lemma ReplacingOneChar(c: char, target: char, replacement: string)
    ensures ReplacingOccurrences([c], target, replacement) == if c == target then replacement else [c]
  {
    assert [c][0] == c && [c][1..] == [];
  }

  /** After a pass, a character occurs exactly when it occurred and was not the target,
      or the target occurred and the character is in its replacement. */
  lemma {:induction false} ReplacingMembership(s: string, target: char, replacement: string, c: char)
    ensures c in ReplacingOccurrences(s, target, replacement) <==>
      (c in s && c != target) || (target in s && c in replacement)
  {
    if s != [] {
      ReplacingMembership(s[1..], target, replacement, c);
      assert c in s <==> c == s[0] || c in s[1..];
      assert target in s <==> target == s[0] || target in s[1..];
    }
  }

  /** The one-pass rewrite leaves no display glyph behind. */
  lemma {:induction false} CanonicalHasNoGlyphs(s: string)
    ensures '%' !in Canonical(s) && '×' !in Canonical(s) && '÷' !in Canonical(s)
  {
    if s != [] {
      CanonicalHasNoGlyphs(s[1..]);
      assert Canonical(s) == Glyph(s[0]) + Canonical(s[1..]);
    }
  }

  /** A pass changes nothing in a text that does not hold its target. */
  lemma {:induction false} ReplacingAbsent(s: string, target: char, replacement: string)
    requires target !in s
    ensures ReplacingOccurrences(s, target, replacement) == s
  {
    if s != [] {
      ReplacingAbsent(s[1..], target, replacement);
      assert s == [s[0]] + s[1..];
    }
  }

  /** On one character the three passes produce its glyph. */
  lemma GlyphPasses(c: char)
    ensures ThreePasses([c]) == Glyph(c)
  {
    ReplacingOneChar(c, '%', "*0.01");
    if c == '%' {
      var p1 := "*0.01";
      ReplacingAbsent(p1, '×', "*");
      ReplacingAbsent(p1, '÷', "/");
    } else if c == '×' {
      ReplacingOneChar(c, '×', "*");
      ReplacingAbsent("*", '÷', "/");
    } else {
      ReplacingOneChar(c, '×', "*");
      ReplacingOneChar(c, '÷', "/");
    }
  }

  /** `Workings` is the one-pass rewrite, plus a `0` exactly when the expression ends in a point. */
  lemma WorkingsIsCanonical(s: string)
    ensures Workings(s) == Canonical(s) + (if s != [] && s[|s| - 1] == '.' then "0" else "")
  {
    ThreePassesAreCanonical(s);
  }

  /** The parser never sees a number with a bare trailing point, nor the display glyphs. */
  lemma WorkingsNeverEndsInPoint(s: string)
    ensures Workings(s) != [] ==> Workings(s)[|Workings(s)| - 1] != '.'
    ensures '%' !in Workings(s) && '×' !in Workings(s) && '÷' !in Workings(s)
  {
    WorkingsIsCanonical(s);
    CanonicalHasNoGlyphs(s);
    if s != [] {
      var n := |s|;
      assert s == s[..n - 1] + [s[n - 1]];
      CanonicalConcat(s[..n - 1], [s[n - 1]]);
      assert Canonical([s[n - 1]]) == Glyph(s[n - 1]);
    }
  }

  lemma CanonicalOfDigits(s: string)
    requires forall i :: 0 <= i < |s| ==> '0' <= s[i] <= '9'
    ensures Canonical(s) == s
  {
    if s != [] {
      CanonicalOfDigits(s[1..]);
    }
  }

  lemma CanonicalOfOne(c: char)
    ensures Canonical([c]) == Glyph(c)
  {
    assert [c][1..] == [];
  }

  /** A number with a trailing point, as in "35.", reaches the parser as "35.0". */
  lemma NumberWithTrailingPoint(d: string)
    requires forall i :: 0 <= i < |d| ==> '0' <= d[i] <= '9'
    ensures Workings(d + ".") == d + ".0"
  {
    var s := d + ".";
    CanonicalConcat(d, ".");
    CanonicalOfDigits(d);
    CanonicalOfOne('.');
    WorkingsIsCanonical(s);
    assert s[|s| - 1] == '.';
    assert (d + ".") + "0" == d + ".0";
  }

  /** A percentage, as in "50%", reaches the parser as "50*0.01". */
  lemma PercentOfNumber(d: string)
    requires forall i :: 0 <= i < |d| ==> '0' <= d[i] <= '9'
    ensures Workings(d + "%") == d + "*0.01"
  {
    var s := d + "%";
    CanonicalConcat(d, "%");
    CanonicalOfDigits(d);
    CanonicalOfOne('%');
    WorkingsIsCanonical(s);
    assert s[|s| - 1] == '%';
  }

  /** The rewrite of a percentage followed by a number with a trailing point. */
  lemma CanonicalOfPercentThenFraction(a: string, b: string)
    requires forall i :: 0 <= i < |a| ==> '0' <= a[i] <= '9'
    requires forall i :: 0 <= i < |b| ==> '0' <= b[i] <= '9'
    ensures Canonical((a + "%") + (b + ".")) == (a + "*0.01") + (b + ".")
  {
    CanonicalConcat(a + "%", b + ".");
    CanonicalConcat(a, "%");
    CanonicalConcat(b, ".");
    CanonicalOfDigits(a);
    CanonicalOfDigits(b);
    CanonicalOfOne('%');
    CanonicalOfOne('.');
  }

  /** Digits typed after a percentage join its factor: "5%3." reaches the parser as
      "5*0.013.0", one number holding two points. */
  lemma PercentThenFraction(a: string, b: string)
    requires forall i :: 0 <= i < |a| ==> '0' <= a[i] <= '9'
    requires forall i :: 0 <= i < |b| ==> '0' <= b[i] <= '9'
    ensures Workings((a + "%") + (b + ".")) == (a + "*0.01") + (b + ".0")
  {
    var s := (a + "%") + (b + ".");
    CanonicalOfPercentThenFraction(a, b);
    WorkingsIsCanonical(s);
    assert s[|s| - 1] == '.';
    assert (a + "*0.01") + (b + ".") + "0" == (a + "*0.01") + (b + ".0");
  }
}
