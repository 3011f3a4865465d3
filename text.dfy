/** The handful of Python `str` operations the scrapers use, over `seq<char>`. */
module Text {

  /** The characters Python's `str.isspace()` accepts; `str.strip()` without an argument removes them. */
  const Whitespace: set<char> := {
    '\t', '\n', '\U{0B}', '\U{0C}', '\r', '\U{1C}', '\U{1D}', '\U{1E}', '\U{1F}', ' ',
    '\U{85}', '\U{A0}', '\U{1680}', '\U{2000}', '\U{2001}', '\U{2002}', '\U{2003}', '\U{2004}',
    '\U{2005}', '\U{2006}', '\U{2007}', '\U{2008}', '\U{2009}', '\U{200A}', '\U{2028}', '\U{2029}',
    '\U{202F}', '\U{205F}', '\U{3000}'
  }

  /** How many leading characters of `s` belong to `cs` (what `s.lstrip(cs)` removes). */
  function Lead(s: string, cs: set<char>): (n: nat)
    ensures n <= |s|
    ensures forall k :: 0 <= k < n ==> s[k] in cs
    ensures n < |s| ==> s[n] !in cs
  {
    if |s| > 0 && s[0] in cs then 1 + Lead(s[1..], cs) else 0
  }

  /** How many trailing characters of `s` belong to `cs` (what `s.rstrip(cs)` removes). */
  function Trail(s: string, cs: set<char>): (n: nat)
    ensures n <= |s|
    ensures forall k :: |s| - n <= k < |s| ==> s[k] in cs
    ensures n < |s| ==> s[|s| - n - 1] !in cs
  {
    if |s| > 0 && s[|s| - 1] in cs then 1 + Trail(s[..|s| - 1], cs) else 0
  }

  /** `s.strip(cs)`: what is left of `s` after removing characters of `cs` from both ends. */
  function Strip(s: string, cs: set<char>): string
  {
    var l := s[Lead(s, cs)..];
    l[..|l| - Trail(l, cs)]
  }

  /**
   * The result of `strip` is the slice of `s` left after removing characters of `cs` from
   * both ends; neither end of the result is in `cs`, and the interior is untouched.
   */
  lemma {:induction false} StripShape(s: string, cs: set<char>)
    ensures Lead(s, cs) + |Strip(s, cs)| <= |s|
    ensures Strip(s, cs) == s[Lead(s, cs)..Lead(s, cs) + |Strip(s, cs)|]
    ensures forall k :: 0 <= k < Lead(s, cs) ==> s[k] in cs
    ensures forall k :: Lead(s, cs) + |Strip(s, cs)| <= k < |s| ==> s[k] in cs
    ensures Strip(s, cs) == [] || (Strip(s, cs)[0] !in cs && Strip(s, cs)[|Strip(s, cs)| - 1] !in cs)
  {
    var i := Lead(s, cs);
    var l := s[i..];
    var t := Trail(l, cs);
    assert forall k :: i + |l| - t <= k < |s| ==> s[k] == l[k - i];
    assert l[..|l| - t] == s[i..i + |l| - t];
    StripEnds(s, cs);
  }

  /** Neither end of a non-empty `strip` result is in `cs`. */
  lemma {:induction false} StripEnds(s: string, cs: set<char>)
    ensures Strip(s, cs) == [] || (Strip(s, cs)[0] !in cs && Strip(s, cs)[|Strip(s, cs)| - 1] !in cs)
  {
    var i := Lead(s, cs);
    var l := s[i..];
    var t := Trail(l, cs);
    var r := l[..|l| - t];
    if r != [] {
      assert r[0] == s[i];
      assert r[|r| - 1] == l[|l| - t - 1];
    }
  }

  /** Stripping twice removes nothing more. */
  lemma {:induction false} StripIdempotent(s: string, cs: set<char>)
    ensures Strip(Strip(s, cs), cs) == Strip(s, cs)
  {
    var r := Strip(s, cs);
    StripShape(s, cs);
    assert Lead(r, cs) == 0;
    assert r[0..] == r;
    assert Trail(r, cs) == 0;
    assert r[..|r|] == r;
  }

  /** A string strips to nothing exactly when all of its characters are in `cs`. */
  lemma {:induction false} StripEmptyIff(s: string, cs: set<char>)
    ensures Strip(s, cs) == [] <==> forall k :: 0 <= k < |s| ==> s[k] in cs
  {
    var r := Strip(s, cs);
    StripShape(s, cs);
    if r != [] {
      assert s[Lead(s, cs)] == r[0];
    }
  }

  /** `c.lower()` for ASCII letters; every other character maps to itself. */
  function LowerChar(c: char): char
  {
    if 'A' <= c <= 'Z' then (c as int + 32) as char else c
  }

  /** `s.lower()`, character by character. */
  function Lower(s: string): (r: string)
    ensures |r| == |s|
    ensures forall k :: 0 <= k < |s| ==> r[k] == LowerChar(s[k])
  {
    seq(|s|, k requires 0 <= k < |s| => LowerChar(s[k]))
  }

  /** Lower-casing keeps a character in or out of the whitespace set. */
  lemma {:induction false} LowerCharWhitespace(c: char)
    ensures LowerChar(c) in Whitespace <==> c in Whitespace
  {
  }

  /** `cs` holds a character exactly when it holds its lower-case form. */
  ghost predicate LowerClosed(cs: set<char>)
  {
    forall c :: LowerChar(c) in cs <==> c in cs
  }

  /** Whitespace is closed under lower-casing. */
  lemma {:induction false} WhitespaceLowerClosed()
    ensures LowerClosed(Whitespace)
  {
    forall c ensures LowerChar(c) in Whitespace <==> c in Whitespace {
      LowerCharWhitespace(c);
    }
  }

  /** Lower-casing keeps the number of leading characters of a closed set. */
  lemma {:induction false} LowerLead(s: string, cs: set<char>)
    requires LowerClosed(cs)
    ensures Lead(Lower(s), cs) == Lead(s, cs)
    decreases |s|
  {
    if |s| > 0 {
      assert LowerChar(s[0]) in cs <==> s[0] in cs;
      if s[0] in cs {
        assert Lower(s)[1..] == Lower(s[1..]);
        LowerLead(s[1..], cs);
      }
    }
  }

  /** Lower-casing keeps the number of trailing characters of a closed set. */
  lemma {:induction false} LowerTrail(s: string, cs: set<char>)
    requires LowerClosed(cs)
    ensures Trail(Lower(s), cs) == Trail(s, cs)
    decreases |s|
  {
    if |s| > 0 {
      var l := Lower(s);
      var c := s[|s| - 1];
      assert LowerChar(c) in cs <==> c in cs;
      assert l[|l| - 1] == LowerChar(c);
      if c in cs {
        var t := s[..|s| - 1];
        assert l[..|l| - 1] == Lower(t);
        LowerTrail(t, cs);
        assert Trail(s, cs) == 1 + Trail(t, cs);
        assert Trail(l, cs) == 1 + Trail(Lower(t), cs);
      }
    }
  }

  /** `s.lower().strip() == s.strip().lower()`. */
  lemma {:induction false} LowerStrip(s: string)
    ensures Strip(Lower(s), Whitespace) == Lower(Strip(s, Whitespace))
  {
    WhitespaceLowerClosed();
    LowerStripIn(s, Whitespace);
  }

  /** Lower-casing commutes with stripping a set closed under lower-casing. */
  lemma {:induction false} LowerStripIn(s: string, cs: set<char>)
    requires LowerClosed(cs)
    ensures Strip(Lower(s), cs) == Lower(Strip(s, cs))
  {
    var i, j := StripCut(s, cs);
    LowerSlice(s, i, j);
  }

  /** Stripping `s` and stripping its lower-cased form cut at the same two places. */
  lemma {:induction false} StripCut(s: string, cs: set<char>) returns (i: nat, j: nat)
    requires LowerClosed(cs)
    ensures i <= j <= |s|
    ensures Strip(s, cs) == s[i..j]
    ensures Strip(Lower(s), cs) == Lower(s)[i..j]
  {
    i, j := StripIs(s, cs);
    var i', j' := StripIs(Lower(s), cs);
    LowerLead(s, cs);
    LowerTrailFrom(s, i, cs);
    assert i' == i && j' == j;
  }

  /** Lower-casing keeps the trailing run of a closed set in every suffix. */
  lemma {:induction false} LowerTrailFrom(s: string, i: nat, cs: set<char>)
    requires i <= |s| && LowerClosed(cs)
    ensures Trail(Lower(s)[i..], cs) == Trail(s[i..], cs)
  {
    LowerSlice(s, i, |s|);
    assert s[i..|s|] == s[i..];
    assert Lower(s)[i..|s|] == Lower(s)[i..];
    LowerTrail(s[i..], cs);
  }

  /** `strip` keeps the slice between the leading and the trailing run of `cs`. */
  lemma {:induction false} StripIs(s: string, cs: set<char>) returns (i: nat, j: nat)
    ensures i == Lead(s, cs) && j == |s| - Trail(s[i..], cs)
    ensures i <= j <= |s|
    ensures Strip(s, cs) == s[i..j]
  {
    i := Lead(s, cs);
    j := |s| - Trail(s[i..], cs);
    assert s[i..][..j - i] == s[i..j];
  }

  /** Lower-casing commutes with slicing. */
  lemma {:induction false} LowerSlice(s: string, a: nat, b: nat)
    requires a <= b <= |s|
    ensures Lower(s[a..b]) == Lower(s)[a..b]
  {
    var x := Lower(s[a..b]);
    var y := Lower(s)[a..b];
    forall k | 0 <= k < b - a ensures x[k] == y[k] {
      assert s[a..b][k] == s[a + k];
    }
  }

  /** Stripping a lower-cased string leaves no upper-case ASCII letter. */
  lemma {:induction false} StripLowerNoUpper(s: string, cs: set<char>)
    ensures forall k :: 0 <= k < |Strip(Lower(s), cs)| ==> !('A' <= Strip(Lower(s), cs)[k] <= 'Z')
  {
    var l := Lower(s);
    var i, j := StripIs(l, cs);
    forall k | 0 <= k < |Strip(l, cs)| ensures !('A' <= Strip(l, cs)[k] <= 'Z') {
      assert Strip(l, cs)[k] == l[i + k] == LowerChar(s[i + k]);
    }
  }

  /** Lower-casing twice is lower-casing once. */
  lemma {:induction false} LowerIdempotent(s: string)
    ensures Lower(Lower(s)) == Lower(s)
  {
  }

  /** `sub` occurs in `s` starting at index `i`. */
  predicate OccursAt(s: string, sub: string, i: int)
  {
    0 <= i && i + |sub| <= |s| && s[i..i + |sub|] == sub
  }

  /** Python's `sub in s`: `sub` occurs somewhere in `s`. */
  function Contains(s: string, sub: string): (b: bool)
    ensures b <==> exists i :: OccursAt(s, sub, i)
    decreases |s|
  {
    if |s| < |sub| then false
    else if s[..|sub|] == sub then assert OccursAt(s, sub, 0); true
    else
      var b := Contains(s[1..], sub);
      assert b ==> exists i :: OccursAt(s, sub, i) by {
        if b {
          var i :| OccursAt(s[1..], sub, i);
          assert s[i + 1..i + 1 + |sub|] == s[1..][i..i + |sub|];
          assert OccursAt(s, sub, i + 1);
        }
      }
      assert (exists i :: OccursAt(s, sub, i)) ==> b by {
        if exists i :: OccursAt(s, sub, i) {
          var i :| OccursAt(s, sub, i);
          assert i != 0;
          assert s[1..][i - 1..i - 1 + |sub|] == s[i..i + |sub|];
          assert OccursAt(s[1..], sub, i - 1);
        }
      }
      b
  }

  /** `sep.join(items)`. */
  function Join(items: seq<string>, sep: string): (r: string)
  {
    if items == [] then ""
    else if |items| == 1 then items[0]
    else items[0] + sep + Join(items[1..], sep)
  }

  /** The decimal digit of a number below ten. */
  function DigitChar(d: nat): char
    requires d < 10
  {
    ('0' as int + d) as char
  }

  predicate IsDigit(c: char)
  {
    '0' <= c <= '9'
  }

  /** `str(n)` for a natural number: its decimal digits, most significant first, no leading zero. */
  function NatToDecimal(n: nat): (r: string)
    ensures |r| >= 1
    ensures forall k :: 0 <= k < |r| ==> IsDigit(r[k])
    decreases n
  {
    if n < 10 then [DigitChar(n)] else NatToDecimal(n / 10) + [DigitChar(n % 10)]
  }

  /** `str(n)` for any integer: a minus sign before the digits of a negative number. */
  function IntToDecimal(n: int): (r: string)
  {
    if n < 0 then "-" + NatToDecimal(-n) else NatToDecimal(n)
  }

  /** The value of one decimal digit (anything else counts as 0). */
  function DigitValue(c: char): nat
  {
    if IsDigit(c) then c as int - '0' as int else 0
  }

  /** The number a string of decimal digits denotes (the empty string denotes 0). */
  function DecimalValue(s: string): nat
  {
    if s == [] then 0 else DecimalValue(s[..|s| - 1]) * 10 + DigitValue(s[|s| - 1])
  }

  /** Reads back `str(n)` for an integer: an optional minus sign, then digits. */
  function DecimalToInt(s: string): int
  {
    if |s| > 0 && s[0] == '-' then -(DecimalValue(s[1..]) as int) else DecimalValue(s)
  }

  /** Reading back the digits `str(n)` writes gives `n`. */
  lemma {:induction false} DecimalRoundTrip(n: nat)
    ensures DecimalValue(NatToDecimal(n)) == n
    decreases n
  {
    if n >= 10 {
      DecimalRoundTrip(n / 10);
      var s := NatToDecimal(n);
      assert s[..|s| - 1] == NatToDecimal(n / 10);
    }
  }

  /** Reading back `str(n)` gives `n`, for every integer. */
  lemma {:induction false} IntRoundTrip(n: int)
    ensures DecimalToInt(IntToDecimal(n)) == n
  {
    if n < 0 {
      assert IntToDecimal(n)[1..] == NatToDecimal(-n);
      DecimalRoundTrip(-n);
    } else {
      assert IsDigit(IntToDecimal(n)[0]);
      DecimalRoundTrip(n);
    }
  }

  /** `str` is injective on integers. */
  lemma {:induction false} IntToDecimalInjective(m: int, n: int)
    requires IntToDecimal(m) == IntToDecimal(n)
    ensures m == n
  {
    IntRoundTrip(m);
    IntRoundTrip(n);
  }

  /** Two strings that agree around a varying middle part agree on that part too. */
  lemma {:induction false} MiddleCancel(pre: string, a: string, b: string, post: string)
    requires pre + a + post == pre + b + post
    ensures a == b
  {
    var x := pre + a + post;
    assert |a| == |b|;
    assert a == x[|pre|..|pre| + |a|];
  }
}
