/** Amounts of money as whole cents. The handlers turn the submitted text
    into a `Decimal` (app.py:226, app.py:298) and store it in a column
    declared `Numeric(10, 2)` (models/__init__.py:32): at most ten digits,
    two of them after the point. This module keeps the plain decimal
    spellings `Decimal` accepts that fit that scale: surrounding
    whitespace, an optional sign, digits with an optional point and at most
    two fraction digits. */
module Money {
  import opened Sequences
  import opened Text

  /** Ten digits, two of them fractional: the largest magnitude in cents. */
  const MAX_CENTS: int := 9_999_999_999

  predicate FitsColumn(cents: int)
  {
    -MAX_CENTS <= cents <= MAX_CENTS
  }

  /** The pieces of a decimal literal: sign, digits before and after the point. */
  datatype AmountText = AmountText(negative: bool, whole: string, fraction: string)

  predicate WellFormedText(t: AmountText)
  {
    && AllDigits(t.whole) && AllDigits(t.fraction)
    && |t.fraction| <= 2
    && (t.whole != [] || t.fraction != [])
  }

  /** Index of the first `c` in `s`, or `|s|` when there is none. */
  function IndexOf(s: string, c: char): (r: nat)
    ensures r <= |s|
    ensures r < |s| ==> s[r] == c
    ensures forall i :: 0 <= i < r ==> s[i] != c
  {
    if s == [] then 0
    else if s[0] == c then 0
    else 1 + IndexOf(s[1..], c)
  }

  /** Splits a stripped literal into sign, whole digits and fraction digits. */
  function Scan(raw: string): (r: Option<AmountText>)
    ensures r.Some? ==> WellFormedText(r.value)
  {
    ScanStripped(Strip(raw))
  }

  /** Reads an optional sign off a stripped literal. */
  function ScanStripped(t: string): (r: Option<AmountText>)
    ensures r.Some? ==> WellFormedText(r.value)
  {
    if t != [] && (t[0] == '-' || t[0] == '+') then ScanUnsigned(t[0] == '-', t[1..])
    else ScanUnsigned(false, t)
  }

  /** Splits the part after the sign at its first point. */
  function ScanUnsigned(negative: bool, body: string): (r: Option<AmountText>)
    ensures r.Some? ==> WellFormedText(r.value) && r.value.negative == negative
  {
    var dot := IndexOf(body, '.');
    var text := AmountText(negative, body[..dot], if dot < |body| then body[dot + 1..] else []);
    if WellFormedText(text) then Some(text) else None
  }

  /** Fraction digits as cents: "" is 0, "5" is 50, "05" is 5. */
  function FractionCents(f: string): (c: nat)
    requires AllDigits(f) && |f| <= 2
    ensures c < 100
  {
    if |f| == 0 then 0
    else if |f| == 1 then 10 * DigitValue(f[0])
    else 10 * DigitValue(f[0]) + DigitValue(f[1])
  }

  function Cents(t: AmountText): int
    requires WellFormedText(t)
  {
    var magnitude := DigitsValue(t.whole) * 100 + FractionCents(t.fraction);
    if t.negative then -magnitude else magnitude
  }

  /** `Decimal(raw)` scaled to cents; `None` where the handlers report
      "Please enter a valid amount." */
  function ParseAmount(raw: string): (r: Option<int>)
    ensures r.Some? <==> Scan(raw).Some?
    ensures r.Some? ==> r.value == Cents(Scan(raw).value)
  {
    match Scan(raw)
    case Some(t) => Some(Cents(t))
    case None => None
  }

  /** The canonical spelling of an amount: sign, whole part, point, two digits. */
  function FormatCents(cents: int): (s: string)
    ensures s != [] && IsDigit(s[|s| - 1])
  {
    var magnitude := if cents < 0 then -cents else cents;
    var body := NatToDecimal(magnitude / 100) + "." + TwoDigits(magnitude % 100);
    if cents < 0 then "-" + body else body
  }

  lemma {:induction false} TwoDigitsFraction(n: nat)
    requires n < 100
    ensures FractionCents(TwoDigits(n)) == n
  {
    var t := TwoDigits(n);
    assert t[..1] == [t[0]];
    assert DigitsValue(t) == DigitValue(t[0]) * 10 + DigitValue(t[1]);
  }

  /** Digits and a point: the first point is right after the digits. */
  lemma SplitAtPoint(digits: string, frac: string)
    requires AllDigits(digits)
    ensures var body := digits + "." + frac;
      && IndexOf(body, '.') == |digits|
      && body[..|digits|] == digits && body[|digits| + 1..] == frac
  {
    var body := digits + "." + frac;
    assert body[|digits|] == '.';
    assert forall i :: 0 <= i < |digits| ==> body[i] == digits[i] && body[i] != '.';
  }

  /** Digits, a point and at most two digits split at that point. */
  lemma ScanPointed(negative: bool, digits: string, frac: string)
    requires AllDigits(digits) && AllDigits(frac) && |frac| <= 2 && (digits != [] || frac != [])
    ensures ScanUnsigned(negative, digits + "." + frac) == Some(AmountText(negative, digits, frac))
  {
    SplitAtPoint(digits, frac);
  }

  /** A body with no surrounding whitespace and no leading sign is scanned unsigned. */
  lemma {:induction false} ScanPlain(body: string)
    requires body != [] && !IsSpace(body[0]) && !IsSpace(body[|body| - 1])
    requires body[0] != '-' && body[0] != '+'
    ensures Scan(body) == ScanUnsigned(false, body)
  {
    StripFixesStripped(body);
  }

  /** A minus sign in front of such a body is read as the sign. */
  lemma {:induction false} ScanNegative(body: string)
    requires body != [] && IsDigit(body[0]) && IsDigit(body[|body| - 1])
    ensures Scan("-" + body) == ScanUnsigned(true, body)
  {
    var s := "-" + body;
    assert s[|s| - 1] == body[|body| - 1];
    StripFixesStripped(s);
    assert s[1..] == body;
  }

  /** The canonical spelling scans back into its sign, whole part and cents. */
  lemma {:induction false} ScanFormatted(cents: int)
    ensures
      var magnitude := if cents < 0 then -cents else cents;
      Scan(FormatCents(cents)) == Some(AmountText(cents < 0, NatToDecimal(magnitude / 100), TwoDigits(magnitude % 100)))
  {
    var magnitude := if cents < 0 then -cents else cents;
    var digits := NatToDecimal(magnitude / 100);
    var frac := TwoDigits(magnitude % 100);
    var body := digits + "." + frac;
    assert body[0] == digits[0] && body[|body| - 1] == frac[1];
    ScanPointed(cents < 0, digits, frac);
    if cents < 0 {
      ScanNegative(body);
    } else {
      ScanPlain(body);
    }
  }

  /** The canonical spelling's parts carry the amount back. */
  lemma {:induction false} CanonicalPartsCents(cents: int)
    ensures
      var magnitude := if cents < 0 then -cents else cents;
      var t := AmountText(cents < 0, NatToDecimal(magnitude / 100), TwoDigits(magnitude % 100));
      WellFormedText(t) && Cents(t) == cents
  {
    var magnitude := if cents < 0 then -cents else cents;
    var q, m := magnitude / 100, magnitude % 100;
    DecimalRoundTrip(q);
    TwoDigitsFraction(m);
    assert q * 100 + m == magnitude;
  }

  lemma AmountRoundTrip(cents: int)
    ensures ParseAmount(FormatCents(cents)) == Some(cents)
  {
    ScanFormatted(cents);
    CanonicalPartsCents(cents);
  }

  /** A literal with at most eight digits before the point fits the column. */
  lemma ScannedAmountFits(raw: string)
    requires Scan(raw).Some? && |Scan(raw).value.whole| <= 8
    ensures ParseAmount(raw).Some? && FitsColumn(ParseAmount(raw).value)
  {
    var t := Scan(raw).value;
    DigitsValueBound(t.whole);
    PowMonotone(|t.whole|, 8);
    assert Pow10(8) == 100_000_000;
  }

  lemma {:induction false} PowMonotone(i: nat, j: nat)
    requires i <= j
    ensures Pow10(i) <= Pow10(j)
  {
    if i < j {
      PowMonotone(i, j - 1);
    }
  }

  /** `Scan` decides `ParseAmount`. */
  lemma ParseScanned(raw: string, t: AmountText)
    requires Scan(raw) == Some(t)
    ensures ParseAmount(raw) == Some(Cents(t))
  {
  }

  /** "12.5" is twelve and a half: 1250 cents. */
  lemma WholeAndFractionExample()
    ensures ParseAmount("12.5") == Some(1250)
  {
    var literal := Spelling(Unsigned, "12", true, "5");
    assert literal == "12.5" by {
      assert SignText(Unsigned) == [];
    }
    assert [] + literal + [] == literal;
    ParseSpelling([], Unsigned, "12", true, "5", []);
    assert SpelledCents(Unsigned, "12", "5") == 1250 by {
      assert DigitsValue("12") == 12 by {
        assert "12"[..1] == "1" && "1"[..0] == [];
      }
      assert FractionCents("5") == 50;
    }
  }

  /** The whole part may be left out. */
  lemma FractionOnlyExample()
    ensures ParseAmount(".5") == Some(50)
  {
    var t := AmountText(false, [], "5");
    assert Scan(".5") == Some(t) by {
      ScanPlain(".5");
      assert IndexOf(".5", '.') == 0;
      assert ".5"[..0] == [] && ".5"[1..] == "5";
    }
    assert Cents(t) == 50;
  }

  /** A third fraction digit is refused, whatever the digits. */
  lemma LongFractionRefused(digits: string, frac: string)
    requires digits != [] && AllDigits(digits) && AllDigits(frac) && |frac| > 2
    ensures ParseAmount(digits + "." + frac) == None
  {
    var body := digits + "." + frac;
    assert Scan(body) == None by {
      assert body[0] == digits[0] && body[|body| - 1] == frac[|frac| - 1];
      ScanPlain(body);
      SplitAtPoint(digits, frac);
    }
  }

  /** An exponent is refused, whatever the digits around it. */
  lemma ExponentRefused(mantissa: string, exponent: string)
    requires mantissa != [] && exponent != [] && AllDigits(mantissa) && AllDigits(exponent)
    ensures ParseAmount(mantissa + "e" + exponent) == None
  {
    var body := mantissa + "e" + exponent;
    assert body[0] == mantissa[0] && body[|body| - 1] == exponent[|exponent| - 1];
    ScanPlain(body);
    var k := |mantissa|;
    assert body[k] == 'e';
    forall i | 0 <= i < k
      ensures body[i] != '.'
    {
      assert body[i] == mantissa[i];
    }
    var dot := IndexOf(body, '.');
    assert dot > k;
    assert !IsDigit(body[..dot][k]);
  }

  /** A bare point is refused. */
  lemma BarePointRefused()
    ensures ParseAmount(".") == None
  {
    assert Scan(".") == None by {
      ScanPlain(".");
      assert IndexOf(".", '.') == 0;
      assert "."[..0] == [] && "."[1..] == [];
    }
  }

  /** How a literal may begin: no sign, a plus or a minus. */
  datatype Sign = Unsigned | Plus | Minus

  function SignText(sign: Sign): string
  {
    match sign
    case Unsigned => ""
    case Plus => "+"
    case Minus => "-"
  }

  /** A plain decimal literal: the sign, the whole digits and, when `point`
      holds, a point followed by the fraction digits. */
  function Spelling(sign: Sign, whole: string, point: bool, fraction: string): string
  {
    SignText(sign) + (whole + (if point then "." + fraction else ""))
  }

  /** The literals this model accepts: digits on both sides of an optional
      point, at most two after it, and at least one digit in all. */
  predicate ValidSpelling(whole: string, point: bool, fraction: string)
  {
    && AllDigits(whole) && AllDigits(fraction) && |fraction| <= 2
    && (whole != [] || fraction != [])
    && (point || fraction == [])
  }

  /** What such a literal is worth, in cents. */
  function SpelledCents(sign: Sign, whole: string, fraction: string): int
    requires AllDigits(whole) && AllDigits(fraction) && |fraction| <= 2
  {
    var magnitude := DigitsValue(whole) * 100 + FractionCents(fraction);
    if sign == Minus then -magnitude else magnitude
  }

  /** Leading whitespace goes, up to the first other character. */
  lemma {:induction false} TrimStartSpaces(pre: string, rest: string)
    requires AllSpace(pre) && rest != [] && !IsSpace(rest[0])
    ensures TrimStart(pre + rest) == rest
  {
    if pre == [] {
      assert pre + rest == rest;
    } else {
      assert (pre + rest)[1..] == pre[1..] + rest;
      TrimStartSpaces(pre[1..], rest);
    }
  }

  /** Trailing whitespace goes, back to the last other character. */
  lemma {:induction false} TrimEndSpaces(rest: string, post: string)
    requires AllSpace(post) && rest != [] && !IsSpace(rest[|rest| - 1])
    ensures TrimEnd(rest + post) == rest
  {
    if post == [] {
      assert rest + post == rest;
    } else {
      var s := rest + post;
      assert s[..|s| - 1] == rest + post[..|post| - 1];
      TrimEndSpaces(rest, post[..|post| - 1]);
    }
  }

  /** Stripping whitespace around a text with no whitespace at its ends gives that text. */
  lemma StripSurrounded(pre: string, core: string, post: string)
    requires AllSpace(pre) && AllSpace(post) && core != []
    requires !IsSpace(core[0]) && !IsSpace(core[|core| - 1])
    ensures Strip(pre + core + post) == core
  {
    assert pre + core + post == pre + (core + post);
    TrimStartSpaces(pre, core + post);
    TrimEndSpaces(core, post);
  }

  /** Digits contain no point. */
  lemma NoPointInDigits(digits: string)
    requires AllDigits(digits)
    ensures IndexOf(digits, '.') == |digits|
  {
    var k := IndexOf(digits, '.');
    if k < |digits| {
      assert false;
    }
  }

  /** The part after the sign splits into exactly its whole and fraction digits. */
  lemma ScanUnsignedSpelling(negative: bool, whole: string, point: bool, fraction: string)
    requires ValidSpelling(whole, point, fraction)
    ensures ScanUnsigned(negative, whole + (if point then "." + fraction else "")) ==
      Some(AmountText(negative, whole, fraction))
  {
    if point {
      assert whole + "." + fraction == whole + ("." + fraction);
      ScanPointed(negative, whole, fraction);
    } else {
      assert whole + "" == whole;
      NoPointInDigits(whole);
      assert whole[..|whole|] == whole;
    }
  }

  /** A literal's first character is a sign, a digit or the point, and its
      last a digit or the point: never whitespace. */
  lemma SpellingEnds(sign: Sign, whole: string, point: bool, fraction: string)
    requires ValidSpelling(whole, point, fraction)
    ensures var core := Spelling(sign, whole, point, fraction);
      core != [] && !IsSpace(core[0]) && !IsSpace(core[|core| - 1])
      && (core[0] == '-' || core[0] == '+' <==> sign != Unsigned)
  {
    var body := whole + (if point then "." + fraction else "");
    var core := Spelling(sign, whole, point, fraction);
    BodyEnds(whole, point, fraction);
    assert core[|core| - 1] == body[|body| - 1];
    if sign == Unsigned {
      assert core[0] == body[0];
    } else {
      assert core[0] == SignText(sign)[0];
      LiteralCharNotSpace(core[0]);
    }
  }

  /** The unsigned part of a literal is not empty, starts with a digit or
      the point, and neither starts nor ends with whitespace. */
  lemma BodyEnds(whole: string, point: bool, fraction: string)
    requires ValidSpelling(whole, point, fraction)
    ensures var body := whole + (if point then "." + fraction else "");
      body != [] && (body[0] == '.' || IsDigit(body[0])) && !IsSpace(body[0]) && !IsSpace(body[|body| - 1])
  {
    var body := whole + (if point then "." + fraction else "");
    assert body != [];
    assert body[0] == '.' || IsDigit(body[0]) by {
      if whole == [] {
        assert body[0] == '.';
      } else {
        assert body[0] == whole[0];
      }
    }
    assert body[|body| - 1] == '.' || IsDigit(body[|body| - 1]) by {
      if point && fraction != [] {
        assert body[|body| - 1] == fraction[|fraction| - 1];
      } else if !point {
        assert body[|body| - 1] == whole[|whole| - 1];
      }
    }
    LiteralCharNotSpace(body[0]);
    LiteralCharNotSpace(body[|body| - 1]);
  }

  /** Signs, digits and the point are not whitespace. */
  lemma LiteralCharNotSpace(c: char)
    requires IsDigit(c) || c == '.' || c == '-' || c == '+'
    ensures !IsSpace(c)
  {
  }

  /** A literal scans into its own sign, whole digits and fraction digits. */
  lemma ScanSpelling(sign: Sign, whole: string, point: bool, fraction: string)
    requires ValidSpelling(whole, point, fraction)
    ensures ScanStripped(Spelling(sign, whole, point, fraction)) == Some(AmountText(sign == Minus, whole, fraction))
  {
    var body := whole + (if point then "." + fraction else "");
    var core := Spelling(sign, whole, point, fraction);
    SpellingEnds(sign, whole, point, fraction);
    ScanUnsignedSpelling(sign == Minus, whole, point, fraction);
    if sign != Unsigned {
      assert core[0] == (if sign == Minus then '-' else '+');
      assert core[1..] == body;
    } else {
      assert core == body;
    }
  }

  /** The parts of a literal carry what it spells. */
  lemma CentsSpelled(t: AmountText, sign: Sign)
    requires WellFormedText(t) && (t.negative <==> sign == Minus)
    ensures Cents(t) == SpelledCents(sign, t.whole, t.fraction)
  {
  }

  /** Every literal of the accepted shape, with any whitespace around it,
      parses to what it spells. */
  lemma ParseSpelling(pre: string, sign: Sign, whole: string, point: bool, fraction: string, post: string)
    requires AllSpace(pre) && AllSpace(post) && ValidSpelling(whole, point, fraction)
    ensures ParseAmount(pre + Spelling(sign, whole, point, fraction) + post) == Some(SpelledCents(sign, whole, fraction))
  {
    var core := Spelling(sign, whole, point, fraction);
    var raw := pre + core + post;
    var t := AmountText(sign == Minus, whole, fraction);
    SpellingEnds(sign, whole, point, fraction);
    StripSurrounded(pre, core, post);
    ScanSpelling(sign, whole, point, fraction);
    assert Scan(raw) == Some(t);
    ParseScanned(raw, t);
    CentsSpelled(t, sign);
  }

  /** The part after the sign is its whole digits, then the point and the
      fraction digits when it has a point. */
  lemma UnsignedBodyShape(negative: bool, body: string)
    requires ScanUnsigned(negative, body).Some?
    ensures var t, point := ScanUnsigned(negative, body).value, IndexOf(body, '.') < |body|;
      ValidSpelling(t.whole, point, t.fraction) && body == t.whole + (if point then "." + t.fraction else "")
  {
    var dot := IndexOf(body, '.');
    var t := ScanUnsigned(negative, body).value;
    assert t.whole == body[..dot];
    if dot < |body| {
      assert t.fraction == body[dot + 1..];
      SplitAround(body, dot);
    } else {
      assert t.fraction == [];
      assert body == body[..dot] + "";
    }
  }

  /** A stripped text that scans is a literal of the accepted shape. */
  lemma StrippedIsSpelling(t: string)
    requires ScanStripped(t).Some?
    ensures var a := ScanStripped(t).value;
      exists sign, point :: && ValidSpelling(a.whole, point, a.fraction)
                            && t == Spelling(sign, a.whole, point, a.fraction)
                            && (a.negative <==> sign == Minus)
  {
    var sign, body := SignOf(t), BodyOf(t);
    SignAndBody(t);
    var a := ScanStripped(t).value;
    var point := IndexOf(body, '.') < |body|;
    UnsignedBodyShape(sign == Minus, body);
    assert t == Spelling(sign, a.whole, point, a.fraction);
  }

  /** The sign a stripped literal starts with. */
  function SignOf(t: string): Sign
  {
    if t != [] && t[0] == '-' then Minus else if t != [] && t[0] == '+' then Plus else Unsigned
  }

  /** A stripped literal without its sign. */
  function BodyOf(t: string): string
  {
    if SignOf(t) == Unsigned then t else t[1..]
  }

  /** A stripped literal is its sign followed by its body, and is scanned as such. */
  lemma SignAndBody(t: string)
    ensures t == SignText(SignOf(t)) + BodyOf(t)
    ensures ScanStripped(t) == ScanUnsigned(SignOf(t) == Minus, BodyOf(t))
  {
    if SignOf(t) != Unsigned {
      HeadAndTail(t);
      assert SignText(SignOf(t)) == [t[0]];
    }
  }

  /** Any text is its stripped self with whitespace before and after. */
  lemma StripSurroundings(raw: string)
    ensures exists pre, post :: AllSpace(pre) && AllSpace(post) && raw == pre + Strip(raw) + post
  {
    StripIsSlice(raw);
    var i, j :| 0 <= i <= j <= |raw| && Strip(raw) == raw[i..j] && AllSpace(raw[..i]) && AllSpace(raw[j..]);
    SplitThree(raw, i, j);
  }

  /** Conversely, every text that parses is whitespace around a literal of
      the accepted shape, and is worth what that literal spells. */
  lemma ParsedIsSpelling(raw: string)
    requires ParseAmount(raw).Some?
    ensures exists pre, sign, whole, point, fraction, post ::
      && raw == pre + Spelling(sign, whole, point, fraction) + post
      && AllSpace(pre) && AllSpace(post) && ValidSpelling(whole, point, fraction)
      && ParseAmount(raw) == Some(SpelledCents(sign, whole, fraction))
  {
    var t := Strip(raw);
    var a := Scan(raw).value;
    StripSurroundings(raw);
    var pre, post :| AllSpace(pre) && AllSpace(post) && raw == pre + t + post;
    StrippedIsSpelling(t);
    var sign, point :| && ValidSpelling(a.whole, point, a.fraction)
                       && t == Spelling(sign, a.whole, point, a.fraction)
                       && (a.negative <==> sign == Minus);
    CentsSpelled(a, sign);
    assert raw == pre + Spelling(sign, a.whole, point, a.fraction) + post;
  }
}
