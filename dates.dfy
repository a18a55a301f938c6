/** Calendar dates as `datetime.strptime(raw, "%Y-%m-%d").date()` accepts
    them (app.py:232 and app.py:304): CPython matches the whole string
    against the regular expressions `\d\d\d\d` for %Y, `1[0-2]|0[1-9]|[1-9]`
    for %m and `3[01]|[12]\d|0[1-9]|[1-9]| [1-9]` for %d, then builds a
    `date`, which refuses year 0 and a day past the end of its month. */
module Dates {
  import opened Sequences
  import opened Text

  datatype Date = Date(year: int, month: int, day: int)

  /** Gregorian leap years: every fourth year, except centuries not divisible by 400. */
  predicate IsLeapYear(y: int)
  {
    y % 4 == 0 && (y % 100 != 0 || y % 400 == 0)
  }

  function DaysInMonth(y: int, m: int): (n: int)
    requires 1 <= m <= 12
    ensures 28 <= n <= 31
    ensures n == 29 <==> m == 2 && IsLeapYear(y)
  {
    if m == 2 then (if IsLeapYear(y) then 29 else 28)
    else if m == 4 || m == 6 || m == 9 || m == 11 then 30
    else 31
  }

  /** A day that exists in Python's proleptic Gregorian calendar (years 1 to 9999). */
  predicate IsRealDate(d: Date)
  {
    && 1 <= d.year <= 9999
    && 1 <= d.month <= 12
    && 1 <= d.day <= DaysInMonth(d.year, d.month)
  }

  /** The `%Y` field: exactly four decimal digits. */
  function YearField(t: string): (r: Option<int>)
    ensures r.Some? ==> 0 <= r.value <= 9999
  {
    if |t| == 4 && AllDigits(t) then
      DigitsValueBound(t);
      assert Pow10(4) == 10000;
      Some(DigitsValue(t))
    else None
  }

  /** The `%m` field: `1[0-2]`, `0[1-9]` or a lone `[1-9]`. */
  function MonthField(t: string): (r: Option<int>)
    ensures r.Some? ==> 1 <= r.value <= 12
  {
    if |t| == 2 && t[0] == '1' && '0' <= t[1] <= '2' then Some(10 + DigitValue(t[1]))
    else if |t| == 2 && t[0] == '0' && '1' <= t[1] <= '9' then Some(DigitValue(t[1]))
    else if |t| == 1 && '1' <= t[0] <= '9' then Some(DigitValue(t[0]))
    else None
  }

  /** The `%d` field: `3[01]`, `[12]\d`, `0[1-9]`, a lone `[1-9]`, or a
      space followed by `[1-9]`. */
  function DayField(t: string): (r: Option<int>)
    ensures r.Some? ==> 1 <= r.value <= 31
  {
    if |t| == 2 && t[0] == '3' && '0' <= t[1] <= '1' then Some(30 + DigitValue(t[1]))
    else if |t| == 2 && '1' <= t[0] <= '2' && IsDigit(t[1]) then Some(DigitValue(t[0]) * 10 + DigitValue(t[1]))
    else if |t| == 2 && (t[0] == '0' || t[0] == ' ') && '1' <= t[1] <= '9' then Some(DigitValue(t[1]))
    else if |t| == 1 && '1' <= t[0] <= '9' then Some(DigitValue(t[0]))
    else None
  }

  /** `strptime(raw, "%Y-%m-%d").date()`; `None` where Python raises
      `ValueError`. The month field ends at the first '-' after position 5
      (neither field can contain one), the day field runs to the end of
      the string (left-over characters are "unconverted data"). */
  function ParseIsoDate(raw: string): (r: Option<Date>)
    ensures r.Some? ==> IsRealDate(r.value)
  {
    if |raw| < 7 || raw[4] != '-' then None
    else
      var k := if raw[6] == '-' then 6 else 7;
      if k >= |raw| || raw[k] != '-' then None
      else
        match (YearField(raw[..4]), MonthField(raw[5..k]), DayField(raw[k + 1..]))
        case (Some(y), Some(m), Some(d)) =>
          var date := Date(y, m, d);
          if IsRealDate(date) then Some(date) else None
        case _ => None
  }

  /** `date.isoformat()`: YYYY-MM-DD, zero-padded. */
  function FormatIsoDate(d: Date): (s: string)
    requires IsRealDate(d)
    ensures |s| == 10 && s[4] == '-' && s[7] == '-'
  {
    FourDigits(d.year) + "-" + TwoDigits(d.month) + "-" + TwoDigits(d.day)
  }

  lemma {:induction false} TwoDigitsMonth(m: int)
    requires 1 <= m <= 12
    ensures MonthField(TwoDigits(m)) == Some(m)
  {
    var t := TwoDigits(m);
    assert t[..1] == [t[0]];
    assert DigitsValue(t) == DigitValue(t[0]) * 10 + DigitValue(t[1]);
  }

  lemma {:induction false} TwoDigitsDay(d: int)
    requires 1 <= d <= 31
    ensures DayField(TwoDigits(d)) == Some(d)
  {
    var t := TwoDigits(d);
    assert t[..1] == [t[0]];
    assert DigitsValue(t) == DigitValue(t[0]) * 10 + DigitValue(t[1]);
  }

  /** Every real date survives a trip through its ISO spelling. */
  lemma IsoDateRoundTrip(d: Date)
    requires IsRealDate(d)
    ensures ParseIsoDate(FormatIsoDate(d)) == Some(d)
  {
    var s := FormatIsoDate(d);
    assert s[..4] == FourDigits(d.year);
    assert s[5..7] == TwoDigits(d.month);
    assert s[8..] == TwoDigits(d.day);
    TwoDigitsMonth(d.month);
    TwoDigitsDay(d.day);
  }

  /** The spellings `%m` accepts for month `m`: two digits, zero-padded,
      or a single digit for January to September. */
  predicate MonthText(t: string, m: int)
  {
    && 1 <= m <= 12
    && (t == TwoDigits(m) || (m <= 9 && t == [DigitChar(m)]))
  }

  /** The spellings `%d` accepts for day `d`: two digits, zero-padded, or
      for the first nine days a single digit, alone or after a space. */
  predicate DayText(t: string, d: int)
  {
    && 1 <= d <= 31
    && (t == TwoDigits(d) || (d <= 9 && (t == [DigitChar(d)] || t == [' ', DigitChar(d)])))
  }

  /** The `%Y` field accepts exactly the zero-padded four-digit spellings. */
  lemma YearFieldSpelling(t: string, y: int)
    ensures YearField(t) == Some(y) <==> 0 <= y <= 9999 && t == FourDigits(y)
  {
    if YearField(t) == Some(y) {
      DigitsValueInjective(t, FourDigits(y));
    }
  }

  /** The `%m` field accepts exactly the month spellings. */
  lemma MonthFieldSpelling(t: string, m: int)
    ensures MonthField(t) == Some(m) <==> MonthText(t, m)
  {
    if MonthText(t, m) && t == TwoDigits(m) {
      TwoDigitsMonth(m);
    }
    if MonthField(t) == Some(m) && |t| == 2 {
      DigitCharOfValue(t[1]);
      assert t == [t[0], t[1]];
      assert TwoDigits(m) == [DigitChar(m / 10), DigitChar(m % 10)];
    }
  }

  /** The `%d` field accepts exactly the day spellings. */
  lemma DayFieldSpelling(t: string, d: int)
    ensures DayField(t) == Some(d) <==> DayText(t, d)
  {
    if DayText(t, d) && t == TwoDigits(d) {
      TwoDigitsDay(d);
    }
    if DayField(t) == Some(d) && |t| == 2 {
      TwoCharDay(t, d);
    }
  }

  lemma TwoCharDay(t: string, d: int)
    requires |t| == 2 && DayField(t) == Some(d)
    ensures DayText(t, d)
  {
    assert t == [t[0], t[1]];
    DigitCharOfValue(t[1]);
    if t[0] == '3' || '1' <= t[0] <= '2' {
      var hi, lo := DigitValue(t[0]), DigitValue(t[1]);
      DigitCharOfValue(t[0]);
      assert d == hi * 10 + lo;
      assert d / 10 == hi && d % 10 == lo;
      assert TwoDigits(d) == [DigitChar(hi), DigitChar(lo)];
    } else if t[0] == '0' {
      assert TwoDigits(d) == ['0', DigitChar(d)];
    }
  }

  /** An accepted date is spelled by the grammar. */
  lemma ParsedIsoDateSpelled(raw: string, d: Date)
    requires ParseIsoDate(raw) == Some(d)
    ensures IsRealDate(d)
    ensures exists mt, dt :: MonthText(mt, d.month) && DayText(dt, d.day) && raw == FourDigits(d.year) + "-" + mt + "-" + dt
  {
    var k := if raw[6] == '-' then 6 else 7;
    var mt, dt := raw[5..k], raw[k + 1..];
    YearFieldSpelling(raw[..4], d.year);
    MonthFieldSpelling(mt, d.month);
    DayFieldSpelling(dt, d.day);
    assert raw == raw[..4] + "-" + mt + "-" + dt;
  }

  /** A real date spelled by the grammar is accepted. */
  lemma SpelledIsoDateParses(d: Date, mt: string, dt: string)
    requires IsRealDate(d) && MonthText(mt, d.month) && DayText(dt, d.day)
    ensures ParseIsoDate(FourDigits(d.year) + "-" + mt + "-" + dt) == Some(d)
  {
    var raw := FourDigits(d.year) + "-" + mt + "-" + dt;
    var k := 5 + |mt|;
    assert raw[..4] == FourDigits(d.year) && raw[4] == '-';
    assert raw[5..k] == mt && raw[k] == '-' && raw[k + 1..] == dt;
    assert raw[6] == '-' <==> k == 6;
    YearFieldSpelling(raw[..4], d.year);
    MonthFieldSpelling(mt, d.month);
    DayFieldSpelling(dt, d.day);
  }

  /** `strptime(raw, "%Y-%m-%d")` accepts exactly the real dates spelled as
      four year digits, a dash, a month spelling, a dash and a day spelling. */
  lemma ParseIsoDateExactly(raw: string, d: Date)
    ensures ParseIsoDate(raw) == Some(d) <==>
      IsRealDate(d) && exists mt, dt :: MonthText(mt, d.month) && DayText(dt, d.day) && raw == FourDigits(d.year) + "-" + mt + "-" + dt
  {
    if ParseIsoDate(raw) == Some(d) {
      ParsedIsoDateSpelled(raw, d);
    }
    if IsRealDate(d) && exists mt, dt :: MonthText(mt, d.month) && DayText(dt, d.day) && raw == FourDigits(d.year) + "-" + mt + "-" + dt {
      var mt, dt :| MonthText(mt, d.month) && DayText(dt, d.day) && raw == FourDigits(d.year) + "-" + mt + "-" + dt;
      SpelledIsoDateParses(d, mt, dt);
    }
  }

  /** What the `%Y-%m-%d` grammar and the calendar accept and refuse:
      leap days only in leap years, unpadded month and day fields, no
      trailing characters. */
  lemma {:induction false} YearFieldValue(t: string)
    requires |t| == 4 && AllDigits(t)
    ensures YearField(t) == Some(DigitValue(t[0]) * 1000 + DigitValue(t[1]) * 100 + DigitValue(t[2]) * 10 + DigitValue(t[3]))
  {
    var t3, t2, t1 := t[..3], t[..2], t[..1];
    assert t3[..2] == t2 && t2[..1] == t1 && t1[..0] == [];
    assert DigitsValue(t1) == DigitValue(t[0]);
    assert DigitsValue(t2) == DigitValue(t[0]) * 10 + DigitValue(t[1]);
    assert DigitsValue(t3) == DigitsValue(t2) * 10 + DigitValue(t[2]);
  }

  /** Leap days exist only in leap years: 2024 and 2000, not 2023 or 1900. */
  lemma LeapDayAccepted()
    ensures ParseIsoDate("2024-02-29") == Some(Date(2024, 2, 29))
    ensures ParseIsoDate("2000-02-29") == Some(Date(2000, 2, 29))
  {
    YearFieldValue("2024");
    YearFieldValue("2000");
    assert "2024-02-29"[..4] == "2024" && "2024-02-29"[5..7] == "02" && "2024-02-29"[8..] == "29";
    assert "2000-02-29"[..4] == "2000" && "2000-02-29"[5..7] == "02" && "2000-02-29"[8..] == "29";
  }

  lemma LeapDayRefused()
    ensures ParseIsoDate("2023-02-29") == None
    ensures ParseIsoDate("1900-02-29") == None
  {
    YearFieldValue("2023");
    YearFieldValue("1900");
    assert "2023-02-29"[..4] == "2023" && "2023-02-29"[5..7] == "02" && "2023-02-29"[8..] == "29";
    assert "1900-02-29"[..4] == "1900" && "1900-02-29"[5..7] == "02" && "1900-02-29"[8..] == "29";
  }

  /** `strptime` takes unpadded and space-padded fields, but no trailing
      characters and no year 0. */
  lemma FieldShapeExamples()
    ensures ParseIsoDate("2024-1-5") == Some(Date(2024, 1, 5))
    ensures ParseIsoDate("2024-01- 5") == Some(Date(2024, 1, 5))
    ensures ParseIsoDate("2024-01-05x") == None
    ensures ParseIsoDate("0000-01-01") == None
  {
    YearFieldValue("2024");
    YearFieldValue("0000");
    assert "2024-1-5"[..4] == "2024" && "2024-1-5"[5..6] == "1" && "2024-1-5"[7..] == "5";
    assert "2024-01- 5"[..4] == "2024" && "2024-01- 5"[5..7] == "01" && "2024-01- 5"[8..] == " 5";
    assert "2024-01-05x"[8..] == "05x";
    assert "0000-01-01"[..4] == "0000";
  }

  /** Chronological order, `a` strictly earlier than `b`. */
  predicate DateBefore(a: Date, b: Date)
  {
    || a.year < b.year
    || (a.year == b.year && a.month < b.month)
    || (a.year == b.year && a.month == b.month && a.day < b.day)
  }

  /** Any two dates are equal or one comes first. */
  lemma DateBeforeTrichotomy(a: Date, b: Date)
    ensures DateBefore(a, b) || a == b || DateBefore(b, a)
    ensures !(DateBefore(a, b) && DateBefore(b, a))
    ensures !DateBefore(a, a)
  {
  }

  lemma DateBeforeTransitive(a: Date, b: Date, c: Date)
    requires DateBefore(a, b) && DateBefore(b, c)
    ensures DateBefore(a, c)
  {
  }
}
