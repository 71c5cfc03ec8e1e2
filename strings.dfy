/** Text operations used by the runner and the report: substring test,
    Python's `str.replace` (all non-overlapping occurrences, left to right),
    the report's newline indentation and `%d` formatting of counters. */
module Strings {

  /** `pat` occurs in `s` starting at index `i`. */
  predicate OccursAt(s: string, pat: string, i: int)
  {
    0 <= i && i + |pat| <= |s| && s[i..i + |pat|] == pat
  }

  /** Python's `pat in s` on strings. */
  predicate Contains(s: string, pat: string)
  {
    exists i :: 0 <= i <= |s| - |pat| && OccursAt(s, pat, i)
  }

  /** Python's `s.replace(pat, rep)` for a non-empty `pat`: occurrences are
      found left to right and do not overlap. */
  function ReplaceAll(s: string, pat: string, rep: string): (r: string)
    requires pat != []
    ensures rep == pat ==> r == s
    decreases |s|
  {
    if |s| < |pat| then s
    else if s[..|pat|] == pat then rep + ReplaceAll(s[|pat|..], pat, rep)
    else [s[0]] + ReplaceAll(s[1..], pat, rep)
  }

  /** Python's `s.count(pat)` for a non-empty `pat`: the number of
      occurrences `ReplaceAll` replaces. */
  function Count(s: string, pat: string): nat
    requires pat != []
    decreases |s|
  {
    if |s| < |pat| then 0
    else if s[..|pat|] == pat then 1 + Count(s[|pat|..], pat)
    else Count(s[1..], pat)
  }

  lemma ContainsTail(s: string, pat: string)
    requires pat != [] && |s| >= |pat| && s[..|pat|] != pat
    ensures Contains(s, pat) <==> Contains(s[1..], pat)
  {
    if Contains(s, pat) {
      var i :| 0 <= i <= |s| - |pat| && OccursAt(s, pat, i);
      assert i != 0;
      assert s[1..][i - 1..i - 1 + |pat|] == s[i..i + |pat|];
      assert OccursAt(s[1..], pat, i - 1);
    }
    if Contains(s[1..], pat) {
      var i :| 0 <= i <= |s[1..]| - |pat| && OccursAt(s[1..], pat, i);
      assert s[1..][i..i + |pat|] == s[i + 1..i + 1 + |pat|];
      assert OccursAt(s, pat, i + 1);
    }
  }

  /** Some occurrence is counted exactly when the pattern occurs at all. */
  lemma {:induction false} CountPositive(s: string, pat: string)
    requires pat != []
    ensures Count(s, pat) > 0 <==> Contains(s, pat)
    decreases |s|
  {
    if |s| < |pat| {
    } else if s[..|pat|] == pat {
      assert OccursAt(s, pat, 0);
    } else {
      ContainsTail(s, pat);
      CountPositive(s[1..], pat);
    }
  }

  /** A string without the pattern is left as it is. */
  lemma {:induction false} ReplaceAbsent(s: string, pat: string, rep: string)
    requires pat != [] && !Contains(s, pat)
    ensures ReplaceAll(s, pat, rep) == s
    decreases |s|
  {
    if |s| >= |pat| {
      assert !OccursAt(s, pat, 0);
      ContainsTail(s, pat);
      ReplaceAbsent(s[1..], pat, rep);
      assert s == [s[0]] + s[1..];
    }
  }

  /** Distributing one more occurrence; the solver needs this step apart
      from the induction. */
  lemma MulSucc(n: int, d: int)
    ensures (n + 1) * d == n * d + d
  {
  }

  /** Each counted occurrence changes the length by `|rep| - |pat|`. */
  lemma {:induction false} ReplaceAllLength(s: string, pat: string, rep: string)
    requires pat != []
    ensures |ReplaceAll(s, pat, rep)| == |s| + Count(s, pat) * (|rep| - |pat|)
    decreases |s|
  {
    if |s| >= |pat| {
      var d := |rep| - |pat|;
      if s[..|pat|] == pat {
        var n := Count(s[|pat|..], pat);
        ReplaceAllLength(s[|pat|..], pat, rep);
        assert Count(s, pat) == n + 1;
        MulSucc(n, d);
        assert |ReplaceAll(s, pat, rep)| == |rep| + |s[|pat|..]| + n * d;
      } else {
        ReplaceAllLength(s[1..], pat, rep);
      }
    }
  }

  /** Where the pattern occurred, the replacement occurs afterwards. */
  lemma {:induction false} ReplaceInserts(s: string, pat: string, rep: string)
    requires pat != [] && Contains(s, pat)
    ensures Contains(ReplaceAll(s, pat, rep), rep)
    decreases |s|
  {
    var r := ReplaceAll(s, pat, rep);
    if |s| < |pat| {
      assert false;
    } else if s[..|pat|] == pat {
      assert r[..|rep|] == rep;
      assert OccursAt(r, rep, 0);
    } else {
      ContainsTail(s, pat);
      ReplaceInserts(s[1..], pat, rep);
      var t := ReplaceAll(s[1..], pat, rep);
      var j :| 0 <= j <= |t| - |rep| && OccursAt(t, rep, j);
      assert r == [s[0]] + t;
      assert r[j + 1..j + 1 + |rep|] == t[j..j + |rep|];
      assert OccursAt(r, rep, j + 1);
    }
  }

  /** The indentation the pretty report gives to a linter's output:
      `text.replace('\n', '\n\t\t\t')`. */
  function Indent(text: string): (r: string)
    ensures |r| == |text| + 3 * Count(text, "\n")
  {
    ReplaceAllLength(text, "\n", "\n\t\t\t");
    ReplaceAll(text, "\n", "\n\t\t\t")
  }

  /** Every line break in indented text is followed by three tabs, so each
      continuation line of a linter's output starts at the third level. */
  lemma {:induction false} IndentedBreaks(text: string)
    ensures forall i :: 0 <= i < |Indent(text)| && Indent(text)[i] == '\n' ==>
              i + 4 <= |Indent(text)| && Indent(text)[i + 1..i + 4] == "\t\t\t"
    decreases |text|
  {
    var r := Indent(text);
    if |text| >= 1 {
      IndentedBreaks(text[1..]);
      var t := Indent(text[1..]);
      if text[..1] == "\n" {
        assert r == "\n\t\t\t" + t;
        forall i | 0 <= i < |r| && r[i] == '\n'
          ensures i + 4 <= |r| && r[i + 1..i + 4] == "\t\t\t"
        {
          if i >= 4 {
            assert r[i] == t[i - 4];
            assert r[i + 1..i + 4] == t[i - 3..i];
          }
        }
      } else {
        assert r == [text[0]] + t;
        forall i | 0 <= i < |r| && r[i] == '\n'
          ensures i + 4 <= |r| && r[i + 1..i + 4] == "\t\t\t"
        {
          assert i != 0 by { assert r[0] == text[0]; assert text[0] != '\n'; }
          assert r[i] == t[i - 1];
          assert r[i + 1..i + 4] == t[i..i + 3];
        }
      }
    }
  }

  /** Indenting a concatenation indents each part: a line break never spans
      the seam. */
  lemma {:induction false} IndentAppend(a: string, b: string)
    ensures Indent(a + b) == Indent(a) + Indent(b)
    decreases |a|
  {
    if a == [] {
      assert a + b == b;
    } else {
      assert (a + b)[..1] == a[..1];
      assert (a + b)[1..] == a[1..] + b;
      IndentAppend(a[1..], b);
    }
  }

  /** Indenting two lines joined by a break indents the second one too. */
  lemma IndentJoin(a: string, b: string)
    ensures Indent(a + "\n" + b) == Indent(a) + "\n\t\t\t" + Indent(b)
  {
    assert Indent("\n") == "\n\t\t\t" by { assert "\n"[..1] == "\n" && "\n"[1..] == ""; }
    IndentAppend(a, "\n" + b);
    IndentAppend("\n", b);
    assert a + "\n" + b == a + ("\n" + b);
  }

  /** Removing the report's indentation: every line break followed by three
      tabs loses the tabs. */
  function Unindent(s: string): string
    decreases |s|
  {
    if |s| >= 4 && s[..4] == "\n\t\t\t" then "\n" + Unindent(s[4..])
    else if s == [] then []
    else [s[0]] + Unindent(s[1..])
  }

  /** Indentation loses nothing: unindenting gives back the original text. */
  lemma {:induction false} IndentRoundTrip(text: string)
    ensures Unindent(Indent(text)) == text
    decreases |text|
  {
    if text != [] {
      IndentRoundTrip(text[1..]);
      var t := Indent(text[1..]);
      if text[0] == '\n' {
        assert text[..1] == "\n";
        assert Indent(text) == "\n\t\t\t" + t;
        assert (Indent(text))[4..] == t;
      } else {
        assert text[..1] != "\n";
        assert Indent(text) == [text[0]] + t;
        assert (Indent(text))[1..] == t;
      }
      assert text == [text[0]] + text[1..];
    }
  }

  function DigitChar(d: nat): char
    requires d < 10
  {
    ('0' as int + d) as char
  }

  function DigitValue(c: char): nat
  {
    if '0' <= c <= '9' then (c - '0') as nat else 0
  }

  /** Python's `'%d' % n` for a non-negative counter. */
  function NatToString(n: nat): (r: string)
    ensures |r| >= 1
    ensures forall i :: 0 <= i < |r| ==> '0' <= r[i] <= '9'
    ensures r[0] == '0' ==> n == 0
  {
    if n < 10 then [DigitChar(n)] else NatToString(n / 10) + [DigitChar(n % 10)]
  }

  /** Reading a string of decimal digits back as a number. */
  function DecimalValue(s: string): nat
  {
    if s == [] then 0 else 10 * DecimalValue(s[..|s| - 1]) + DigitValue(s[|s| - 1])
  }

  /** `%d` formatting loses nothing: the printed digits read back as `n`. */
  lemma {:induction false} NatToStringRoundTrip(n: nat)
    ensures DecimalValue(NatToString(n)) == n
  {
    var s := NatToString(n);
    if n < 10 {
      assert s == [DigitChar(n)];
    } else {
      NatToStringRoundTrip(n / 10);
      assert s[..|s| - 1] == NatToString(n / 10);
      assert DigitValue(s[|s| - 1]) == n % 10;
      assert DecimalValue(s) == 10 * (n / 10) + n % 10;
    }
  }
}
