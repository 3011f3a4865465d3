/** The books.toscrape.com scraper: category pages of `article.product_pod` cards. */
module Books {
  import opened Results
  import opened Text
  import opened Records
  import opened Site
  import opened Export

  const UrlPrefix: string := "https://books.toscrape.com/catalogue/category/"

  /** The slug of the "all books" listing. */
  const DefaultCategory: string := "books_1"

  /** Star-rating class tokens, case-sensitive. */
  const RatingMap: map<string, int> := map["One" := 1, "Two" := 2, "Three" := 3, "Four" := 4, "Five" := 5]

  /** The keys of every book record, in order. */
  const BookFields: seq<string> := ["title", "price", "price_float", "rating", "in_stock", "url"]

  /** The scraper's settings; nothing changes them after construction. */
  datatype BooksScraper = BooksScraper(category: string, pages: Option<int>, outputFormat: string)

  /** `BooksScraper(category, pages, output_format)`: a missing or empty category means the default slug. */
  function NewScraper(category: Option<string>, pages: Option<int>, outputFormat: string): (s: BooksScraper)
    ensures s.category != ""
    ensures category.Some? && category.value != "" ==> s.category == category.value
    ensures category.None? || category.value == "" ==> s.category == DefaultCategory
    ensures s.pages == pages && s.outputFormat == outputFormat
  {
    BooksScraper(if category.Some? && category.value != "" then category.value else DefaultCategory,
                 pages, outputFormat)
  }

  /** `build_url(page)`. */
  function BuildUrl(s: BooksScraper, page: int): string
  {
    UrlPrefix + s.category + "/page-" + IntToDecimal(page) + ".html"
  }

  /** The page URL is the category template filled in, and different pages have different URLs. */
  lemma {:induction false} BuildUrlPages(s: BooksScraper, p: int, q: int)
    ensures BuildUrl(s, p) == (UrlPrefix + s.category + "/page-") + IntToDecimal(p) + ".html"
    ensures BuildUrl(s, p) == BuildUrl(s, q) ==> p == q
  {
    if BuildUrl(s, p) == BuildUrl(s, q) {
      MiddleCancel(UrlPrefix + s.category + "/page-", IntToDecimal(p), IntToDecimal(q), ".html");
      IntToDecimalInjective(p, q);
    }
  }

  /** One `article.product_pod` card: the optional `h3 a`, `.price_color`, `.star-rating` and `.availability`. */
  datatype Article = Article(
    titleLink: Option<Element>,
    price: Option<Element>,
    rating: Option<Element>,
    availability: Option<Element>)

  // ---------------------------------------------------------------- price

  /** A character of the pattern `[\d.]`. */
  predicate PriceChar(c: char)
  {
    IsDigit(c) || c == '.'
  }

  /** The index of the first `[\d.]` character at or after `i`, or `|s|`. */
  function FirstPriceChar(s: string, i: nat): (n: nat)
    requires i <= |s|
    ensures i <= n <= |s|
    ensures forall k :: i <= k < n ==> !PriceChar(s[k])
    ensures n < |s| ==> PriceChar(s[n])
    decreases |s| - i
  {
    if i == |s| || PriceChar(s[i]) then i else FirstPriceChar(s, i + 1)
  }

  /** The end of the run of `[\d.]` characters that starts at `i`. */
  function RunEnd(s: string, i: nat): (n: nat)
    requires i <= |s|
    ensures i <= n <= |s|
    ensures forall k :: i <= k < n ==> PriceChar(s[k])
    ensures n < |s| ==> !PriceChar(s[n])
    decreases |s| - i
  {
    if i < |s| && PriceChar(s[i]) then RunEnd(s, i + 1) else i
  }

  /** `s[i..j]` is the leftmost maximal run of `[\d.]` in `s`. */
  ghost predicate LeftmostRun(s: string, i: int, j: int)
  {
    && 0 <= i < j <= |s|
    && (forall k :: 0 <= k < i ==> !PriceChar(s[k]))
    && (forall k :: i <= k < j ==> PriceChar(s[k]))
    && (j == |s| || !PriceChar(s[j]))
  }

  /** `re.search(r"[\d.]+", s)`: the leftmost maximal run of digits and dots, if there is one. */
  function PriceToken(s: string): (t: Option<string>)
    ensures t.None? <==> forall k :: 0 <= k < |s| ==> !PriceChar(s[k])
    ensures t.Some? ==> exists i, j :: LeftmostRun(s, i, j) && t.value == s[i..j]
  {
    var i := FirstPriceChar(s, 0);
    if i == |s| then None
    else
      var j := RunEnd(s, i);
      assert LeftmostRun(s, i, j);
      Some(s[i..j])
  }

  function DotCount(s: string): nat
  {
    if s == [] then 0 else DotCount(s[1..]) + (if s[0] == '.' then 1 else 0)
  }

  function HasDigit(s: string): bool
  {
    s != [] && (IsDigit(s[0]) || HasDigit(s[1..]))
  }

  /** The index of the first dot, or `|s|`. */
  function DotIndex(s: string): (d: nat)
    ensures d <= |s|
    ensures forall k :: 0 <= k < d ==> s[k] != '.'
    ensures d < |s| ==> s[d] == '.'
  {
    if s == [] || s[0] == '.' then 0 else DotIndex(s[1..]) + 1
  }

  /** `x` times ten to the `n`. */
  function Scaled(x: nat, n: nat): nat
  {
    if n == 0 then x else 10 * Scaled(x, n - 1)
  }

  /** `x` times ten to the `n`. */
  function Shift(x: real, n: nat): real
    decreases n
  {
    if n == 0 then x else Shift(10.0 * x, n - 1)
  }

  /** `x` divided by ten to the `n`. */
  function Unshift(x: real, n: nat): real
  {
    if n == 0 then x else Unshift(x, n - 1) / 10.0
  }

  /** The token with its dots left out: the digits it spells, most significant first. */
  function Undotted(s: string): string
  {
    if s == [] then [] else (if s[0] == '.' then [] else [s[0]]) + Undotted(s[1..])
  }

  /** How many characters follow the first dot (none without a dot). */
  function FracLen(s: string): nat
  {
    if s == [] then 0 else if s[0] == '.' then |s| - 1 else FracLen(s[1..])
  }

  /**
   * `float(token)` for a token of digits and dots: it converts exactly when the token has a
   * digit and at most one dot, to the exact decimal it spells (rounding to a double is left
   * out): shifted left by its number of fraction digits, it is the number its digits spell.
   * Otherwise it raises `ValueError`.
   */
  function ToFloat(token: string): (r: Result<real>)
    ensures r.Ok? <==> DotCount(token) <= 1 && HasDigit(token)
    ensures r.Ok? ==> r.value >= 0.0
    ensures r.Ok? ==> Shift(r.value, FracLen(token)) == DecimalValue(Undotted(token)) as real
    ensures r.Err? ==> r.error.ValueError?
  {
    if DotCount(token) <= 1 && HasDigit(token) then
      var d := DotIndex(token);
      var scale := if d < |token| then |token| - d - 1 else 0;
      var fraction := if d < |token| then DecimalValue(token[d + 1..]) else 0;
      ToFloatScale(token);
      Ok(DecimalValue(token[..d]) as real + Unshift(fraction as real, scale))
    else
      Err(ValueError("could not convert string to float: '" + token + "'"))
  }

  /** The value `float` gives a well-formed token, shifted by its fraction's length, is the number its digits spell. */
  lemma {:induction false} ToFloatScale(token: string)
    requires DotCount(token) <= 1
    ensures var d := DotIndex(token);
      var scale := if d < |token| then |token| - d - 1 else 0;
      var fraction := if d < |token| then DecimalValue(token[d + 1..]) else 0;
      var v := DecimalValue(token[..d]) as real + Unshift(fraction as real, scale);
      v >= 0.0 && Shift(v, FracLen(token)) == DecimalValue(Undotted(token)) as real
  {
    var d := DotIndex(token);
    var scale := if d < |token| then |token| - d - 1 else 0;
    var fraction := if d < |token| then DecimalValue(token[d + 1..]) else 0;
    var whole := DecimalValue(token[..d]);
    ScaledDigits(token);
    UnshiftNonNegative(fraction as real, scale);
    ShiftAdd(whole as real, Unshift(fraction as real, scale), scale);
    ShiftUnshift(fraction as real, scale);
    ShiftScaled(whole, scale);
  }

  lemma {:induction false} ShiftAdd(a: real, b: real, n: nat)
    ensures Shift(a + b, n) == Shift(a, n) + Shift(b, n)
    decreases n
  {
    if n > 0 {
      ShiftAdd(10.0 * a, 10.0 * b, n - 1);
    }
  }

  lemma {:induction false} ShiftUnshift(x: real, n: nat)
    ensures Shift(Unshift(x, n), n) == x
  {
    if n > 0 {
      ShiftUnshift(x, n - 1);
    }
  }

  lemma {:induction false} UnshiftNonNegative(x: real, n: nat)
    requires x >= 0.0
    ensures Unshift(x, n) >= 0.0
  {
    if n > 0 {
      UnshiftNonNegative(x, n - 1);
    }
  }

  lemma {:induction false} ShiftScaled(w: nat, n: nat)
    ensures Shift(w as real, n) == Scaled(w, n) as real
    decreases n
  {
    if n > 0 {
      ShiftScaled(10 * w, n - 1);
      ScaledTen(w, n - 1);
    }
  }

  lemma {:induction false} ScaledTen(w: nat, n: nat)
    ensures Scaled(10 * w, n) == 10 * Scaled(w, n)
  {
    if n > 0 {
      ScaledTen(w, n - 1);
    }
  }

  /** Shifting left by `n` places tells numbers apart. */
  lemma {:induction false} ShiftInjective(x: real, y: real, n: nat)
    requires Shift(x, n) == Shift(y, n)
    ensures x == y
    decreases n
  {
    if n > 0 {
      ShiftInjective(10.0 * x, 10.0 * y, n - 1);
    }
  }

  /** Digits followed by more digits: the first part's value shifts left by the second's length. */
  lemma {:induction false} DecimalAppend(a: string, b: string)
    ensures DecimalValue(a + b) == Scaled(DecimalValue(a), |b|) + DecimalValue(b)
    decreases |b|
  {
    if b == [] {
      assert a + b == a;
    } else {
      var b' := b[..|b| - 1];
      DecimalAppend(a, b');
      assert (a + b)[..|a + b| - 1] == a + b';
      assert (a + b)[|a + b| - 1] == b[|b| - 1];
      assert DecimalValue(a + b) == DecimalValue(a + b') * 10 + DigitValue(b[|b| - 1]);
      assert DecimalValue(b) == DecimalValue(b') * 10 + DigitValue(b[|b| - 1]);
    }
  }

  /** A string without dots is its own digits. */
  lemma {:induction false} NoDotUndotted(s: string)
    requires DotCount(s) == 0
    ensures Undotted(s) == s
  {
    if s != [] {
      NoDotUndotted(s[1..]);
      assert s == [s[0]] + s[1..];
    }
  }

  /** With at most one dot, the digits are the parts before and after the first dot. */
  lemma {:induction false} DotSplit(s: string)
    requires DotCount(s) <= 1
    ensures DotIndex(s) < |s| ==> Undotted(s) == s[..DotIndex(s)] + s[DotIndex(s) + 1..]
    ensures DotIndex(s) == |s| ==> Undotted(s) == s
    ensures FracLen(s) == (if DotIndex(s) < |s| then |s| - DotIndex(s) - 1 else 0)
  {
    FracLenAt(s);
    if DotIndex(s) < |s| {
      UndottedSplit(s);
    } else {
      DigitsNoDotCount(s);
      NoDotUndotted(s);
    }
  }

  /** The fraction digits are those after the first dot. */
  lemma {:induction false} FracLenAt(s: string)
    ensures FracLen(s) == (if DotIndex(s) < |s| then |s| - DotIndex(s) - 1 else 0)
  {
    if s != [] && s[0] != '.' {
      FracLenAt(s[1..]);
    }
  }

  /** A string whose first dot is past its end has no dot. */
  lemma {:induction false} DigitsNoDotCount(s: string)
    requires DotIndex(s) == |s|
    ensures DotCount(s) == 0
  {
    if s != [] {
      DigitsNoDotCount(s[1..]);
    }
  }

  lemma {:induction false} UndottedSplit(s: string)
    requires DotCount(s) <= 1 && DotIndex(s) < |s|
    ensures Undotted(s) == s[..DotIndex(s)] + s[DotIndex(s) + 1..]
  {
    if s[0] == '.' {
      NoDotUndotted(s[1..]);
    } else {
      var r := s[1..];
      var d := DotIndex(r);
      UndottedSplit(r);
      CutAfterHead(s, d);
    }
  }

  /** Cutting one character out of the tail of `s` is cutting it out of `s` one place later. */
  lemma {:induction false} CutAfterHead(s: string, d: nat)
    requires d + 1 < |s|
    ensures s[..d + 1] + s[d + 2..] == [s[0]] + (s[1..][..d] + s[1..][d + 1..])
  {
    var r := s[1..];
    assert s[..d + 1] == [s[0]] + r[..d];
    assert s[d + 2..] == r[d + 1..];
  }

  /** The number the digits spell is the whole part scaled up by the fraction's length, plus the fraction. */
  lemma {:induction false} ScaledDigits(token: string)
    requires DotCount(token) <= 1
    ensures var d := DotIndex(token);
      && FracLen(token) == (if d < |token| then |token| - d - 1 else 0)
      && DecimalValue(Undotted(token)) == Scaled(DecimalValue(token[..d]), FracLen(token))
         + (if d < |token| then DecimalValue(token[d + 1..]) else 0)
  {
    DotSplit(token);
    var d := DotIndex(token);
    if d < |token| {
      DecimalAppend(token[..d], token[d + 1..]);
    } else {
      assert token[..d] == token;
    }
  }

  /**
   * `_parse_price`: `None` for a missing or empty price and for a price without a digit or
   * dot; otherwise the number the leftmost run of digits and dots spells, or the
   * `ValueError` `float()` raises when that run is not a number.
   */
  function ParsePrice(price: Option<string>): (r: Result<Option<real>>)
    ensures price.None? || price.value == "" ==> r == Ok(None)
    ensures price.Some? ==>
      (r == Ok(None) <==> forall k :: 0 <= k < |price.value| ==> !PriceChar(price.value[k]))
    ensures r.Err? <==>
      && price.Some? && PriceToken(price.value).Some?
      && !(DotCount(PriceToken(price.value).value) <= 1 && HasDigit(PriceToken(price.value).value))
    ensures r.Ok? && r.value.Some? ==> r.value.value >= 0.0
    ensures r.Ok? && r.value.Some? ==>
      price.Some? && PriceToken(price.value).Some? && ToFloat(PriceToken(price.value).value) == Ok(r.value.value)
  {
    if price.None? || price.value == "" then Ok(None)
    else
      match PriceToken(price.value)
      case None => Ok(None)
      case Some(token) =>
        match ToFloat(token)
        case Ok(v) => Ok(Some(v))
        case Err(e) => Err(e)
  }

  /** A string of digits has no dot. */
  lemma {:induction false} DigitsNoDot(s: string)
    requires forall k :: 0 <= k < |s| ==> IsDigit(s[k])
    ensures DotCount(s) == 0
  {
    if s != [] {
      DigitsNoDot(s[1..]);
    }
  }

  lemma {:induction false} DotCountAppend(a: string, b: string)
    ensures DotCount(a + b) == DotCount(a) + DotCount(b)
  {
    if a != [] {
      DotCountAppend(a[1..], b);
      assert (a + b)[0] == a[0];
      assert (a + b)[1..] == a[1..] + b;
    } else {
      assert a + b == b;
    }
  }

  /** `float(str(n))` is `n`. */
  lemma {:induction false} ToFloatWhole(n: nat)
    ensures ToFloat(NatToDecimal(n)) == Ok(n as real)
  {
    var s := NatToDecimal(n);
    DigitsNoDot(s);
    NoDotUndotted(s);
    assert HasDigit(s);
    DotSplit(s);
    assert DotIndex(s) == |s|;
    DecimalRoundTrip(n);
  }

  /** The first dot of `s` is at `i` when `s[i]` is a dot and nothing before it is. */
  lemma {:induction false} DotIndexAt(s: string, i: nat)
    requires i < |s| && s[i] == '.'
    requires forall k :: 0 <= k < i ==> s[k] != '.'
    ensures DotIndex(s) == i
  {
  }

  /** Digits, a dot, digits: one dot, at the end of the first part. */
  lemma {:induction false} DottedParts(a: string, b: string) returns (t: string)
    requires forall k :: 0 <= k < |a| ==> IsDigit(a[k])
    requires forall k :: 0 <= k < |b| ==> IsDigit(b[k])
    ensures t == a + "." + b
    ensures DotCount(t) == 1 && DotIndex(t) == |a|
    ensures t[..|a|] == a && t[|a| + 1..] == b
  {
    t := a + "." + b;
    DigitsNoDot(a);
    DigitsNoDot(b);
    assert t == a + (['.'] + b);
    DotCountAppend(a, ['.'] + b);
    assert (['.'] + b)[1..] == b;
    forall k | 0 <= k < |a| ensures t[k] != '.' {
      assert t[k] == a[k];
    }
    DotIndexAt(t, |a|);
  }

  /**
   * `float(a + "." + b)` for digit strings `a` and `b`, not both empty: shifted left by the
   * length of `b`, it is `a` shifted left as far, plus `b`.
   */
  lemma {:induction false} ToFloatDigits(a: string, b: string) returns (v: real)
    requires forall k :: 0 <= k < |a| ==> IsDigit(a[k])
    requires forall k :: 0 <= k < |b| ==> IsDigit(b[k])
    requires a != [] || b != []
    ensures ToFloat(a + "." + b) == Ok(v)
    ensures Shift(v, |b|) == (Scaled(DecimalValue(a), |b|) + DecimalValue(b)) as real
  {
    var t := DottedParts(a, b);
    assert HasDigit(t) by {
      if a != [] {
        assert IsDigit(t[0]);
      } else {
        assert t[1..] == b && IsDigit(b[0]);
      }
    }
    DotSplit(t);
    DecimalAppend(a, b);
    v := ToFloat(t).value;
  }

  /** `float(str(w) + "." + str(f))` is `w` plus `f` divided by ten once per digit of `f`. */
  lemma {:induction false} ToFloatWholeFrac(w: nat, f: nat)
    ensures ToFloat(NatToDecimal(w) + "." + NatToDecimal(f)) == Ok(w as real + Unshift(f as real, |NatToDecimal(f)|))
  {
    var n := |NatToDecimal(f)|;
    var v := ToFloatDigits(NatToDecimal(w), NatToDecimal(f));
    DecimalRoundTrip(w);
    DecimalRoundTrip(f);
    ShiftAdd(w as real, Unshift(f as real, n), n);
    ShiftUnshift(f as real, n);
    ShiftScaled(w, n);
    ShiftInjective(v, w as real + Unshift(f as real, n), n);
  }

  /** A price as the site writes it: the pounds, a dot and two pence digits. */
  function PoundsText(pounds: nat, d1: nat, d2: nat): string
    requires d1 < 10 && d2 < 10
  {
    NatToDecimal(pounds) + "." + [DigitChar(d1), DigitChar(d2)]
  }

  /** Digits and dots after text with neither are the price token. */
  lemma {:induction false} PriceTokenAfter(pre: string, t: string)
    requires forall k :: 0 <= k < |pre| ==> !PriceChar(pre[k])
    requires t != [] && forall k :: 0 <= k < |t| ==> PriceChar(t[k])
    ensures PriceToken(pre + t) == Some(t)
  {
    var s := pre + t;
    forall k | 0 <= k < |pre| ensures !PriceChar(s[k]) {
      assert s[k] == pre[k];
    }
    forall k | |pre| <= k < |s| ensures PriceChar(s[k]) {
      assert s[k] == t[k - |pre|];
    }
    assert PriceChar(s[|pre|]);
    assert PriceToken(s).Some?;
    var i, j :| LeftmostRun(s, i, j) && PriceToken(s).value == s[i..j];
    assert PriceChar(s[i]);
    assert i == |pre|;
    assert j == |s|;
    assert s[i..j] == t;
  }

  /**
   * `_parse_price` of a site price: the pound sign, the pounds, a dot and two pence digits
   * parse to the price in pence divided by 100.
   */
  lemma {:induction false} ParsePricePence(pounds: nat, d1: nat, d2: nat)
    requires d1 < 10 && d2 < 10
    ensures ParsePrice(Some("\U{A3}" + PoundsText(pounds, d1, d2)))
      == Ok(Some((100 * pounds + 10 * d1 + d2) as real / 100.0))
  {
    PenceToken(pounds, d1, d2);
    PenceValue(pounds, d1, d2);
  }

  /** The digits and dot of a written price form its token. */
  lemma {:induction false} PenceToken(pounds: nat, d1: nat, d2: nat)
    requires d1 < 10 && d2 < 10
    ensures PriceToken("\U{A3}" + PoundsText(pounds, d1, d2)) == Some(PoundsText(pounds, d1, d2))
  {
    var a := NatToDecimal(pounds);
    var b := [DigitChar(d1), DigitChar(d2)];
    var t := PoundsText(pounds, d1, d2);
    assert t == a + "." + b;
    forall k | 0 <= k < |t| ensures PriceChar(t[k]) {
      if k < |a| {
        assert t[k] == a[k];
      } else if k > |a| {
        assert t[k] == b[k - |a| - 1];
      }
    }
    PriceTokenAfter("\U{A3}", t);
  }

  /** `float` of a written price is the pounds plus the pence over 100. */
  lemma {:induction false} PenceValue(pounds: nat, d1: nat, d2: nat)
    requires d1 < 10 && d2 < 10
    ensures ToFloat(PoundsText(pounds, d1, d2)) == Ok((100 * pounds + 10 * d1 + d2) as real / 100.0)
  {
    var a := NatToDecimal(pounds);
    var b := [DigitChar(d1), DigitChar(d2)];
    assert IsDigit(b[0]) && IsDigit(b[1]);
    var v := ToFloatDigits(a, b);
    DecimalRoundTrip(pounds);
    TwoDigits(d1, d2);
    ScaledHundred(pounds);
    var n := 100 * pounds + 10 * d1 + d2;
    assert Shift(v, 2) == n as real;
    assert Shift(n as real / 100.0, 2) == n as real;
    ShiftInjective(v, n as real / 100.0, 2);
  }

  /** Two digits spell ten times the first plus the second. */
  lemma {:induction false} TwoDigits(d1: nat, d2: nat)
    requires d1 < 10 && d2 < 10
    ensures DecimalValue([DigitChar(d1), DigitChar(d2)]) == 10 * d1 + d2
  {
    var b := [DigitChar(d1), DigitChar(d2)];
    assert b[..1] == [b[0]] && [b[0]][..0] == [];
    assert DecimalValue(b[..1]) == d1;
  }

  lemma {:induction false} ScaledHundred(x: nat)
    ensures Scaled(x, 2) == 100 * x
  {
    assert Scaled(x, 1) == 10 * x;
  }

  /** `"£51.77"` carries the token `"51.77"`. */
  lemma {:induction false} PoundToken()
    ensures PriceToken("\U{A3}51.77") == Some("51.77")
  {
    var s := "\U{A3}51.77";
    assert FirstPriceChar(s, 0) == 1;
    assert RunEnd(s, 1) == 6;
    assert s[1..6] == "51.77";
  }

  /** `float("51.77")` is 51.77. */
  lemma {:induction false} PoundValue()
    ensures ToFloat("51.77") == Ok(51.77)
  {
    assert DecimalValue("51") == 51 by { assert "51"[..1] == "5"; }
    assert DecimalValue("77") == 77 by { assert "77"[..1] == "7"; }
    var v := ToFloatDigits("51", "77");
    assert "51" + "." + "77" == "51.77";
    assert Scaled(51, 2) == 5100;
    ShiftInjective(v, 51.77, 2);
  }

  /** The worked examples of the price rule: `"£51.77"` is 51.77, `"N/A"` has no price, `"1.2.3"` raises. */
  lemma {:induction false} ParsePriceExamples()
    ensures ParsePrice(Some("\U{A3}51.77")) == Ok(Some(51.77))
    ensures ParsePrice(Some("N/A")) == Ok(None)
    ensures ParsePrice(None) == Ok(None)
    ensures ParsePrice(Some("1.2.3")).Err?
  {
    PoundToken();
    PoundValue();
    NoPriceChar();
    TwoDots();
  }

  /** `"N/A"` has no digit or dot. */
  lemma {:induction false} NoPriceChar()
    ensures PriceToken("N/A") == None
  {
    var s := "N/A";
    assert !PriceChar(s[0]) && !PriceChar(s[1]) && !PriceChar(s[2]);
  }

  /** `"1.2.3"` is one token with two dots. */
  lemma {:induction false} TwoDots()
    ensures PriceToken("1.2.3") == Some("1.2.3")
    ensures DotCount("1.2.3") == 2
  {
    var u := "1.2.3";
    assert FirstPriceChar(u, 0) == 0;
    assert RunEnd(u, 0) == 5;
    assert u[0..5] == u;
    assert DotCount(u) == 2;
  }

  // ---------------------------------------------------------------- rating and availability

  /** The first class token that names a rating, as a number. */
  function FirstRating(classes: seq<string>): (r: Option<int>)
    ensures r.Some? <==> exists i :: 0 <= i < |classes| && classes[i] in RatingMap
    ensures r.Some? ==> 1 <= r.value <= 5
    ensures r.Some? ==> exists i :: (0 <= i < |classes| && classes[i] in RatingMap
      && RatingMap[classes[i]] == r.value
      && forall j :: 0 <= j < i ==> classes[j] !in RatingMap)
  {
    if classes == [] then None
    else if classes[0] in RatingMap then Some(RatingMap[classes[0]])
    else
      var r := FirstRating(classes[1..]);
      assert forall i :: 1 <= i < |classes| ==> classes[i] == classes[1..][i - 1];
      r
  }

  /** `_parse_rating`: no element gives `None`; otherwise the first rating class, if any. */
  function ParseRating(elem: Option<Element>): (r: Option<int>)
    ensures elem.None? ==> r.None?
    ensures elem.Some? ==> r == FirstRating(elem.value.classes)
    ensures r.Some? ==> 1 <= r.value <= 5
  {
    if elem.None? then None else FirstRating(elem.value.classes)
  }

  /** `_parse_availability`: whether the lower-cased text of the element mentions "in stock". */
  function ParseAvailability(elem: Option<Element>): (b: bool)
    ensures b <==> elem.Some? && exists i :: OccursAt(Lower(elem.value.text), "in stock", i)
  {
    elem.Some? && Contains(Lower(elem.value.text), "in stock")
  }

  // ---------------------------------------------------------------- records

  /** The shape of every book record: the six keys in order, each with a value of its kind. */
  predicate IsBookRecord(r: Record)
  {
    && Keys(r) == BookFields
    && StrOrNull(r[0].val) && StrOrNull(r[1].val)
    && (r[2].val.Null? || (r[2].val.Real? && r[2].val.r >= 0.0))
    && (r[3].val.Null? || (r[3].val.Int? && 1 <= r[3].val.i <= 5))
    && r[4].val.Bool?
    && StrOrNull(r[5].val)
  }

  /** The text of the price element, when there is one. */
  function PriceText(a: Article): Option<string>
  {
    if a.price.Some? then Some(a.price.value.text) else None
  }

  /**
   * `_parse_book`: a record with exactly the book keys, or the exception the price raises.
   * Title and url both come from the `h3 a` link and are both null without it.
   */
  function ParseBook(a: Article): (r: Result<Record>)
    ensures r.Ok? <==> ParsePrice(PriceText(a)).Ok?
    ensures r.Err? ==> r == Err(ParsePrice(PriceText(a)).error)
    ensures r.Ok? ==> IsBookRecord(r.value)
    ensures r.Ok? ==> r.value[1].val == OptStr(PriceText(a))
    ensures r.Ok? ==>
      r.value[2].val == (match ParsePrice(PriceText(a)).value case Some(v) => Real(v) case None => Null)
    ensures r.Ok? ==>
      r.value[3].val == (match ParseRating(a.rating) case Some(n) => Int(n) case None => Null)
    ensures r.Ok? ==> r.value[4].val == Bool(ParseAvailability(a.availability))
    ensures r.Ok? && a.titleLink.None? ==> r.value[0].val == Null && r.value[5].val == Null
    ensures r.Ok? && a.titleLink.Some? ==>
      r.value[0].val == OptStr(Attr(a.titleLink.value, "title"))
      && r.value[5].val == OptStr(Attr(a.titleLink.value, "href"))
  {
    var title := if a.titleLink.Some? then Attr(a.titleLink.value, "title") else None;
    var url := if a.titleLink.Some? then Attr(a.titleLink.value, "href") else None;
    var price := PriceText(a);
    match ParsePrice(price)
    case Err(e) => Err(e)
    case Ok(priceFloat) =>
      var rating := ParseRating(a.rating);
      var book := [Entry("title", OptStr(title)),
                   Entry("price", OptStr(price)),
                   Entry("price_float", if priceFloat.Some? then Real(priceFloat.value) else Null),
                   Entry("rating", if rating.Some? then Int(rating.value) else Null),
                   Entry("in_stock", Bool(ParseAvailability(a.availability))),
                   Entry("url", OptStr(url))];
      SixKeys(book);
      Ok(book)
  }

  /**
   * What `parse` returns for a page's cards: one record per card in document order, or the
   * exception of a card whose price raises (the first such card, by `ParseAllFirstError`).
   */
  function ParseAll(articles: seq<Article>): (r: Result<seq<Record>>)
    ensures r.Ok? <==> forall i :: 0 <= i < |articles| ==> ParseBook(articles[i]).Ok?
    ensures r.Ok? ==> |r.value| == |articles|
  {
    if articles == [] then Ok([])
    else
      match ParseBook(articles[0])
      case Err(e) => Err(e)
      case Ok(b) =>
        var rest := ParseAll(articles[1..]);
        ParseAllCons(articles, rest.Ok?);
        Prepend([b], rest)
  }

  /** The articles after the first all parse exactly when all of them do, given the first does. */
  lemma {:induction false} ParseAllCons(articles: seq<Article>, restOk: bool)
    requires articles != [] && ParseBook(articles[0]).Ok?
    requires restOk <==> forall i :: 0 <= i < |articles| - 1 ==> ParseBook(articles[1..][i]).Ok?
    ensures restOk <==> forall i :: 0 <= i < |articles| ==> ParseBook(articles[i]).Ok?
  {
    assert forall i :: 1 <= i < |articles| ==> articles[i] == articles[1..][i - 1];
  }

  /** The records `parse` returns are the cards' records, card by card. */
  lemma {:induction false} ParseAllRecords(articles: seq<Article>)
    requires ParseAll(articles).Ok?
    ensures forall i :: 0 <= i < |articles| ==> ParseAll(articles).value[i] == ParseBook(articles[i]).value
  {
    if articles != [] {
      var t := articles[1..];
      ParseAllRecords(t);
      forall i | 1 <= i < |articles| ensures ParseAll(articles).value[i] == ParseBook(articles[i]).value {
        assert articles[i] == t[i - 1];
      }
    }
  }

  /** The exception `parse` raises is that of the first card whose price raises. */
  lemma {:induction false} ParseAllFirstError(articles: seq<Article>, i: int)
    requires 0 <= i < |articles| && ParseBook(articles[i]).Err?
    requires forall j :: 0 <= j < i ==> ParseBook(articles[j]).Ok?
    ensures ParseAll(articles) == Err(ParseBook(articles[i]).error)
    decreases i
  {
    if i > 0 {
      var t := articles[1..];
      assert ParseBook(articles[0]).Ok?;
      assert t[i - 1] == articles[i];
      forall j | 0 <= j < i - 1 ensures ParseBook(t[j]).Ok? {
        assert t[j] == articles[j + 1];
      }
      ParseAllFirstError(t, i - 1);
    }
  }

  /** `parse`: appends one record per card, in order. */
  method Parse(articles: seq<Article>) returns (r: Result<seq<Record>>)
    ensures r == ParseAll(articles)
  {
    var books: seq<Record> := [];
    assert articles[0..] == articles;
    PrependNothing(ParseAll(articles));
    for i := 0 to |articles|
      invariant ParseAll(articles) == Prepend(books, ParseAll(articles[i..]))
    {
      var book := ParseBook(articles[i]);
      assert articles[i..][1..] == articles[i + 1..];
      if book.Err? {
        return Err(book.error);
      }
      PrependTwice(books, [book.value], ParseAll(articles[i + 1..]));
      books := books + [book.value];
    }
    assert articles[|articles|..] == [];
    assert books + [] == books;
    return Ok(books);
  }

  // ---------------------------------------------------------------- pagination

  /** How a page's cards become records; `get` uses `ParseAll`. */
  type Parser = seq<Article> -> Result<seq<Record>>

  /**
   * The page loop of `get` from page `page` on: fetch, parse, stop on an empty page, extend,
   * stop at the requested page count, next page; a request error stops quietly, a parse
   * exception escapes.
   */
  function CategoryWalk(parse: Parser, site: seq<Page<Article>>, page: int, pages: Option<int>): Walk
    decreases MaxPages(pages) - page
  {
    if page > MaxPages(pages) then Walk(Ok([]), 0, PastCap)
    else
      match PageAt(site, page)
      case FetchError => Walk(Ok([]), 1, FetchFailed)
      case Fetched(articles, _) =>
        match parse(articles)
        case Err(e) => Walk(Err(e), 1, Raised)
        case Ok(books) =>
          if books == [] then Walk(Ok([]), 1, EmptyPage)
          else if Limited(pages) && page >= pages.value then Walk(Ok(books), 1, PageLimit)
          else
            var rest := CategoryWalk(parse, site, page + 1, pages);
            Walk(Prepend(books, rest.outcome), rest.fetched + 1, rest.stop)
  }

  /** One step of the page walk at `page`, case by case. */
  lemma {:induction false} WalkStep(parse: Parser, site: seq<Page<Article>>, page: int, pages: Option<int>)
    ensures page > MaxPages(pages) ==> CategoryWalk(parse, site, page, pages).outcome == Ok([])
    ensures page <= MaxPages(pages) && PageAt(site, page).FetchError? ==>
      CategoryWalk(parse, site, page, pages).outcome == Ok([])
    ensures page <= MaxPages(pages) && PageAt(site, page).Fetched? ==>
      var books := parse(PageAt(site, page).containers);
      CategoryWalk(parse, site, page, pages).outcome
        == if books.Err? || books.value == [] || (Limited(pages) && page >= pages.value) then books
           else Prepend(books.value, CategoryWalk(parse, site, page + 1, pages).outcome)
  {
  }

  /**
   * The `else` branch of `get`: walk the pages from 1 and gather their books. `parse` is
   * what `parse` does to one page's cards (`get` passes `ParseAll`).
   */
  method CollectPages(s: BooksScraper, site: seq<Page<Article>>, parse: Parser) returns (r: Result<seq<Record>>)
    ensures r == CategoryWalk(parse, site, 1, s.pages).outcome
  {
    var allBooks: seq<Record> := [];
    var page := 1;
    var maxPages := if Limited(s.pages) then s.pages.value else SafetyCap;
    ghost var whole := CategoryWalk(parse, site, 1, s.pages).outcome;
    PrependNothing(whole);
    while page <= maxPages
      invariant maxPages == MaxPages(s.pages)
      invariant 1 <= page
      invariant whole == Prepend(allBooks, CategoryWalk(parse, site, page, s.pages).outcome)
      decreases maxPages - page
    {
      ghost var here := CategoryWalk(parse, site, page, s.pages).outcome;
      WalkStep(parse, site, page, s.pages);
      var fetched := PageAt(site, page);
      if fetched.FetchError? {
        PrependEmpty(allBooks);
        return Ok(allBooks);
      }
      var books := parse(fetched.containers);
      if books.Err? {
        return Err(books.error);
      }
      if books.value == [] {
        PrependEmpty(allBooks);
        return Ok(allBooks);
      }
      ghost var before := allBooks;
      allBooks := allBooks + books.value;
      if Limited(s.pages) && page >= s.pages.value {
        return Ok(allBooks);
      }
      ghost var next := CategoryWalk(parse, site, page + 1, s.pages).outcome;
      PrependTwice(before, books.value, next);
      page := page + 1;
    }
    WalkStep(parse, site, page, s.pages);
    PrependEmpty(allBooks);
    return Ok(allBooks);
  }

  /**
   * `get(html)`: non-empty `html` is parsed with no fetching, otherwise the pages are walked;
   * the books are then exported in the scraper's format (JSON for any unknown format).
   * `html` is `None` both for Python's `None` and for the empty string.
   */
  method Get(s: BooksScraper, html: Option<seq<Article>>, site: seq<Page<Article>>) returns (r: Result<Payload>)
    ensures r == ExportOutcome(s.outputFormat,
      if html.Some? then ParseAll(html.value) else CategoryWalk(ParseAll, site, 1, s.pages).outcome)
  {
    var allBooks: Result<seq<Record>>;
    if html.Some? {
      allBooks := Parse(html.value);
    } else {
      allBooks := CollectPages(s, site, ParseAll);
    }
    if allBooks.Err? {
      return Err(allBooks.error);
    }
    r := Dispatch(s.outputFormat, allBooks.value);
  }

  // ---------------------------------------------------------------- what the page loop promises

  /** Page `p` loads and holds at least one record, and parsing it does not raise. */
  predicate GoodPage(parse: Parser, site: seq<Page<Article>>, p: int)
  {
    PageAt(site, p).Fetched? && parse(PageAt(site, p).containers).Ok? && parse(PageAt(site, p).containers).value != []
  }

  /** Page `p` ends pagination quietly: it fails to load, or holds no records. */
  predicate EndPage(parse: Parser, site: seq<Page<Article>>, p: int)
  {
    PageAt(site, p).FetchError? || parse(PageAt(site, p).containers) == Ok([])
  }

  /** The records of page `p` (none when it fails). */
  function PageBooks(parse: Parser, site: seq<Page<Article>>, p: int): seq<Record>
  {
    if PageAt(site, p).Fetched? && parse(PageAt(site, p).containers).Ok?
    then parse(PageAt(site, p).containers).value else []
  }

  /** The records of pages 1..k, page by page. */
  function BooksUpTo(parse: Parser, site: seq<Page<Article>>, k: int): seq<Record>
    decreases k
  {
    if k <= 0 then [] else BooksUpTo(parse, site, k - 1) + PageBooks(parse, site, k)
  }

  lemma {:induction false} WalkOutcomeFrom(parse: Parser, site: seq<Page<Article>>, pages: Option<int>, k: int, j: int)
    requires 1 <= j <= k + 1 && k <= MaxPages(pages)
    requires forall p :: j <= p <= k ==> GoodPage(parse, site, p)
    requires k == MaxPages(pages) || EndPage(parse, site, k + 1)
    ensures Prepend(BooksUpTo(parse, site, j - 1), CategoryWalk(parse, site, j, pages).outcome)
      == Ok(BooksUpTo(parse, site, k))
    decreases k + 1 - j
  {
    if j <= k {
      assert GoodPage(parse, site, j);
      var books := parse(PageAt(site, j).containers).value;
      assert BooksUpTo(parse, site, j) == BooksUpTo(parse, site, j - 1) + books;
      if !(Limited(pages) && j >= pages.value) {
        WalkOutcomeFrom(parse, site, pages, k, j + 1);
        var rest := CategoryWalk(parse, site, j + 1, pages).outcome;
        assert CategoryWalk(parse, site, j, pages).outcome == Prepend(books, rest);
        PrependTwice(BooksUpTo(parse, site, j - 1), books, rest);
      } else {
        assert j == k;
        assert CategoryWalk(parse, site, j, pages).outcome == Ok(books);
      }
    } else {
      assert CategoryWalk(parse, site, j, pages).outcome == Ok([]);
      PrependEmpty(BooksUpTo(parse, site, k));
    }
  }

  lemma {:induction false} WalkCountFrom(parse: Parser, site: seq<Page<Article>>, pages: Option<int>, k: int, j: int)
    requires 1 <= j <= k + 1 && k <= MaxPages(pages)
    requires forall p :: j <= p <= k ==> GoodPage(parse, site, p)
    requires k == MaxPages(pages) || EndPage(parse, site, k + 1)
    ensures CategoryWalk(parse, site, j, pages).fetched == (if k == MaxPages(pages) then k - j + 1 else k - j + 2)
    ensures k == MaxPages(pages) ==> (CategoryWalk(parse, site, j, pages).stop ==
      (if Limited(pages) && j <= k then PageLimit else PastCap))
    ensures k < MaxPages(pages) ==> (CategoryWalk(parse, site, j, pages).stop ==
      (if PageAt(site, k + 1).FetchError? then FetchFailed else EmptyPage))
    decreases k + 1 - j
  {
    if j <= k {
      assert GoodPage(parse, site, j);
      if !(Limited(pages) && j >= pages.value) {
        WalkCountFrom(parse, site, pages, k, j + 1);
      }
    }
  }

  /**
   * The page loop returns the records of pages 1..k in page order, where page k+1 is the
   * first page that fails to load or holds no records, or k is the page ceiling (the
   * requested count, or 100); it fetches pages 1..k and, below the ceiling, page k+1 too.
   */
  lemma {:induction false} BooksPagination(parse: Parser, site: seq<Page<Article>>, pages: Option<int>, k: int)
    requires 0 <= k <= MaxPages(pages)
    requires forall p :: 1 <= p <= k ==> GoodPage(parse, site, p)
    requires k == MaxPages(pages) || EndPage(parse, site, k + 1)
    ensures CategoryWalk(parse, site, 1, pages).outcome == Ok(BooksUpTo(parse, site, k))
    ensures CategoryWalk(parse, site, 1, pages).fetched == (if k == MaxPages(pages) then k else k + 1)
    ensures k == MaxPages(pages) ==> (CategoryWalk(parse, site, 1, pages).stop ==
      (if Limited(pages) then PageLimit else PastCap))
    ensures k < MaxPages(pages) ==> (CategoryWalk(parse, site, 1, pages).stop ==
      (if PageAt(site, k + 1).FetchError? then FetchFailed else EmptyPage))
  {
    WalkOutcomeFrom(parse, site, pages, k, 1);
    WalkCountFrom(parse, site, pages, k, 1);
    assert BooksUpTo(parse, site, 0) == [];
    PrependNothing(CategoryWalk(parse, site, 1, pages).outcome);
  }

  lemma {:induction false} WalkRaiseFrom(parse: Parser, site: seq<Page<Article>>, pages: Option<int>, k: int, j: int)
    requires 1 <= j <= k <= MaxPages(pages)
    requires forall p :: j <= p < k ==> GoodPage(parse, site, p)
    requires PageAt(site, k).Fetched? && parse(PageAt(site, k).containers).Err?
    ensures CategoryWalk(parse, site, j, pages).outcome == Err(parse(PageAt(site, k).containers).error)
    ensures CategoryWalk(parse, site, j, pages).stop == Raised
    decreases k - j
  {
    if j < k {
      assert GoodPage(parse, site, j);
      var books := parse(PageAt(site, j).containers).value;
      WalkRaiseFrom(parse, site, pages, k, j + 1);
      assert !(Limited(pages) && j >= pages.value);
      assert CategoryWalk(parse, site, j, pages).outcome
        == Prepend(books, CategoryWalk(parse, site, j + 1, pages).outcome);
    }
  }

  /**
   * A parse exception is not a request error: when it turns up on page k after pages
   * 1..k-1 loaded normally, it leaves `get` and the records gathered so far are lost.
   */
  lemma {:induction false} BooksParseErrorEscapes(parse: Parser, site: seq<Page<Article>>, pages: Option<int>, k: int)
    requires 1 <= k <= MaxPages(pages)
    requires forall p :: 1 <= p < k ==> GoodPage(parse, site, p)
    requires PageAt(site, k).Fetched? && parse(PageAt(site, k).containers).Err?
    ensures CategoryWalk(parse, site, 1, pages).outcome == Err(parse(PageAt(site, k).containers).error)
    ensures CategoryWalk(parse, site, 1, pages).stop == Raised
  {
    WalkRaiseFrom(parse, site, pages, k, 1);
  }

  lemma {:induction false} WalkBoundFrom(parse: Parser, site: seq<Page<Article>>, pages: Option<int>, j: int)
    ensures CategoryWalk(parse, site, j, pages).fetched
      <= (if j <= MaxPages(pages) then MaxPages(pages) - j + 1 else 0)
    decreases MaxPages(pages) - j
  {
    if j <= MaxPages(pages) {
      WalkBoundFrom(parse, site, pages, j + 1);
    }
  }

  /**
   * The page loop fetches at most the requested number of pages, never more than 100 when no
   * count (or 0) is requested, and nothing at all for a negative count.
   */
  lemma {:induction false} BooksFetchBound(parse: Parser, site: seq<Page<Article>>, pages: Option<int>)
    ensures CategoryWalk(parse, site, 1, pages).fetched <= (if MaxPages(pages) > 0 then MaxPages(pages) else 0)
    ensures !Limited(pages) ==> CategoryWalk(parse, site, 1, pages).fetched <= SafetyCap
    ensures pages.Some? && pages.value < 0 ==> CategoryWalk(parse, site, 1, pages) == Walk(Ok([]), 0, PastCap)
  {
    WalkBoundFrom(parse, site, pages, 1);
  }

  /** Every record of `rs` has the book shape. */
  predicate AllBooks(rs: seq<Record>)
  {
    forall i :: 0 <= i < |rs| ==> IsBookRecord(rs[i])
  }

  /** Every record `parse` returns for a page has the book shape. */
  lemma {:induction false} ParsedBooks(articles: seq<Article>)
    requires ParseAll(articles).Ok?
    ensures AllBooks(ParseAll(articles).value)
  {
    ParseAllRecords(articles);
  }

  lemma {:induction false} AllBooksConcat(a: seq<Record>, b: seq<Record>)
    requires AllBooks(a) && AllBooks(b)
    ensures AllBooks(a + b)
  {
    forall i | 0 <= i < |a + b| ensures IsBookRecord((a + b)[i]) {
      if i >= |a| {
        assert (a + b)[i] == b[i - |a|];
      }
    }
  }

  lemma {:induction false} WalkShapeFrom(parse: Parser, site: seq<Page<Article>>, pages: Option<int>, j: int)
    requires forall xs :: parse(xs).Ok? ==> AllBooks(parse(xs).value)
    ensures CategoryWalk(parse, site, j, pages).outcome.Ok? ==> AllBooks(CategoryWalk(parse, site, j, pages).outcome.value)
    decreases MaxPages(pages) - j
  {
    if j <= MaxPages(pages) && PageAt(site, j).Fetched? {
      var parsed := parse(PageAt(site, j).containers);
      if parsed.Ok? && parsed.value != [] && !(Limited(pages) && j >= pages.value) {
        WalkShapeFrom(parse, site, pages, j + 1);
        var rest := CategoryWalk(parse, site, j + 1, pages).outcome;
        assert CategoryWalk(parse, site, j, pages).outcome == Prepend(parsed.value, rest);
        if rest.Ok? {
          AllBooksConcat(parsed.value, rest.value);
        }
      }
    }
  }

  /**
   * Book records export to CSV without raising: no books give the empty document, and
   * otherwise the header is the six book keys and each book's row is its values, in order.
   */
  lemma {:induction false} BookRecordsCsv(books: seq<Record>)
    requires AllBooks(books)
    ensures ToCsv(books).Ok?
    ensures books == [] ==> ToCsv(books).value == EmptyCsv
    ensures books != [] ==>
      && ToCsv(books).value == Table(BookFields, ToCsv(books).value.rows)
      && forall i :: 0 <= i < |books| ==> ToCsv(books).value.rows[i] == Values(books[i])
  {
    if books != [] {
      assert IsBookRecord(books[0]);
      assert DistinctKeys(books[0]) by {
        assert Keys(books[0]) == BookFields;
        forall a, b | 0 <= a < b < |books[0]| ensures books[0][a].key != books[0][b].key {
          assert books[0][a].key == BookFields[a] && books[0][b].key == BookFields[b];
        }
      }
      assert forall i :: 0 <= i < |books| ==> Keys(books[i]) == Keys(books[0]) by {
        forall i | 0 <= i < |books| ensures Keys(books[i]) == Keys(books[0]) {
          assert IsBookRecord(books[i]);
        }
      }
      CsvRoundTrip(books);
    }
  }

  /** Whatever the books page loop returns exports to CSV as `BookRecordsCsv` describes. */
  lemma {:induction false} BooksCsvLayout(site: seq<Page<Article>>, pages: Option<int>)
    requires CategoryWalk(ParseAll, site, 1, pages).outcome.Ok?
    ensures AllBooks(CategoryWalk(ParseAll, site, 1, pages).outcome.value)
    ensures ToCsv(CategoryWalk(ParseAll, site, 1, pages).outcome.value).Ok?
  {
    forall xs | ParseAll(xs).Ok? ensures AllBooks(ParseAll(xs).value) {
      ParsedBooks(xs);
    }
    WalkShapeFrom(ParseAll, site, pages, 1);
    BookRecordsCsv(CategoryWalk(ParseAll, site, 1, pages).outcome.value);
  }
}
