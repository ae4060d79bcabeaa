/** DateService (date_service.py): the text form of a date and the
    check-in/check-out validation rules. "Today" is a parameter. */
module DateService {
  import opened Wrappers
  import opened Calendar

  const DateFormatError := "Invalid date format. Expected YYYY-MM-DD, got: "
  const PastCheckin := "Check-in date cannot be in the past"
  const CheckoutNotAfterCheckin := "Check-out date must be after check-in date"
  const StayTooLong := "Maximum stay is 30 days"
  const MaxStayDays := 30

  predicate IsDigit(c: char) {
    '0' <= c <= '9'
  }

  function DigitValue(c: char): (n: int)
    requires IsDigit(c)
    ensures 0 <= n <= 9
  {
    c as int - '0' as int
  }

  function DigitChar(n: int): (c: char)
    requires 0 <= n <= 9
    ensures IsDigit(c) && DigitValue(c) == n
  {
    ('0' as int + n) as char
  }

  /** `n` written with exactly two digits, zero-padded. */
  function Pad2(n: int): (s: string)
    requires 0 <= n <= 99
    ensures |s| == 2 && IsDigit(s[0]) && IsDigit(s[1])
    ensures 10 * DigitValue(s[0]) + DigitValue(s[1]) == n
  {
    [DigitChar(n / 10), DigitChar(n % 10)]
  }

  /** `n` written with exactly four digits, zero-padded. */
  function Pad4(n: int): (s: string)
    requires 0 <= n <= 9999
    ensures |s| == 4 && forall i | 0 <= i < 4 :: IsDigit(s[i])
    ensures FourDigitValue(s) == n
  {
    var r := n % 1000;
    var r2 := r % 100;
    [DigitChar(n / 1000), DigitChar(r / 100), DigitChar(r2 / 10), DigitChar(r2 % 10)]
  }

  lemma DivUnique(n: int, k: int, q: int, r: int)
    requires k == 10 || k == 100 || k == 1000
    requires n == k * q + r && 0 <= r < k
    ensures n / k == q && n % k == r
  {
    if k == 10 {
      assert n == 10 * q + r;
    } else if k == 100 {
      assert n == 100 * q + r;
    } else {
      assert n == 1000 * q + r;
    }
  }

  function FourDigitValue(s: string): int
    requires |s| == 4 && forall i | 0 <= i < 4 :: IsDigit(s[i])
  {
    1000 * DigitValue(s[0]) + 100 * DigitValue(s[1]) + 10 * DigitValue(s[2]) + DigitValue(s[3])
  }

  /** `DateService.to_string`: `strftime('%Y-%m-%d')`. */
  function ToString(d: ValidDate): (s: string)
    ensures |s| == 10 && s[4] == '-' && s[7] == '-'
    ensures forall i | 0 <= i < 10 && i != 4 && i != 7 :: IsDigit(s[i])
  {
    Pad4(d.year) + "-" + Pad2(d.month) + "-" + Pad2(d.day)
  }

  /** The `%m` group of strptime's pattern, `1[0-2]|0[1-9]|[1-9]`, followed by
      the literal `-`. The regular expression backtracks over the
      alternatives until the `-` matches; the result is the month and the
      text after the `-`. */
  function MonthField(t: string): Option<(int, string)> {
    if |t| >= 3 && t[0] == '1' && '0' <= t[1] <= '2' && t[2] == '-' then
      Some((10 + DigitValue(t[1]), t[3..]))
    else if |t| >= 3 && t[0] == '0' && '1' <= t[1] <= '9' && t[2] == '-' then
      Some((DigitValue(t[1]), t[3..]))
    else if |t| >= 2 && '1' <= t[0] <= '9' && t[1] == '-' then
      Some((DigitValue(t[0]), t[2..]))
    else
      None
  }

  /** The `%d` group, `3[01]|[12]\d|0[1-9]|[1-9]| [1-9]`, matched at the
      start of `t`; the first alternative that matches wins. The result is
      the day and the number of characters consumed. */
  function DayField(t: string): Option<(int, nat)> {
    if |t| >= 2 && t[0] == '3' && '0' <= t[1] <= '1' then Some((30 + DigitValue(t[1]), 2))
    else if |t| >= 2 && '1' <= t[0] <= '2' && IsDigit(t[1]) then Some((10 * DigitValue(t[0]) + DigitValue(t[1]), 2))
    else if |t| >= 2 && t[0] == '0' && '1' <= t[1] <= '9' then Some((DigitValue(t[1]), 2))
    else if |t| >= 1 && '1' <= t[0] <= '9' then Some((DigitValue(t[0]), 1))
    else if |t| >= 2 && t[0] == ' ' && '1' <= t[1] <= '9' then Some((DigitValue(t[1]), 2))
    else None
  }

  /** `datetime.strptime(s, '%Y-%m-%d').date()`: the pattern must match,
      no text may remain after it ("unconverted data remains"), and the
      fields must make a real date (year 0 and 31 February are refused). */
  function Strptime(s: string): (r: Option<ValidDate>)
    ensures r.Some? ==> 8 <= |s| <= 10 && s[4] == '-'
    ensures r.Some? ==> (forall i | 0 <= i < 4 :: IsDigit(s[i])) && r.value.year == FourDigitValue(s[..4])
  {
    if |s| < 5 || s[4] != '-' || !(IsDigit(s[0]) && IsDigit(s[1]) && IsDigit(s[2]) && IsDigit(s[3])) then None
    else
      var year := FourDigitValue(s[..4]);
      match MonthField(s[5..])
      case None => None
      case Some((month, rest)) =>
        match DayField(rest)
        case None => None
        case Some((day, used)) =>
          if used != |rest| || !IsValid(Date(year, month, day)) then None
          else Some(Date(year, month, day))
  }

  /** `DateService.parse_date`: the `ValueError` it raises is a `Failure`. */
  function ParseDate(s: string): (r: Result<ValidDate>)
    ensures r.Failure? ==> r.error == DateFormatError + s
  {
    match Strptime(s)
    case Some(d) => Success(d)
    case None => Failure(DateFormatError + s)
  }

  /** `DateService.validate_dates`, with the clock read passed in as `today`.
      The rules are applied in order and the first failure is reported. */
  function ValidateDates(today: ValidDate, checkin: ValidDate, checkout: ValidDate): (r: (bool, string))
    ensures r.0 <==> r.1 == ""
    ensures !r.0 ==> r.1 in {PastCheckin, CheckoutNotAfterCheckin, StayTooLong}
  {
    if Before(checkin, today) then (false, PastCheckin)
    else if AtOrBefore(checkout, checkin) then (false, CheckoutNotAfterCheckin)
    else if DaysBetween(checkin, checkout) > MaxStayDays then (false, StayTooLong)
    else (true, "")
  }

  // ----- Properties -----

  /** The validation rules restated over day numbers: each failure message
      is tied to its rule, and acceptance means
      today <= check-in < check-out <= check-in + 30 days. */
  lemma ValidateDatesByDayNumber(today: ValidDate, checkin: ValidDate, checkout: ValidDate)
    ensures Ordinal(checkin) < Ordinal(today) ==>
              ValidateDates(today, checkin, checkout) == (false, PastCheckin)
    ensures Ordinal(today) <= Ordinal(checkin) && Ordinal(checkout) <= Ordinal(checkin) ==>
              ValidateDates(today, checkin, checkout) == (false, CheckoutNotAfterCheckin)
    ensures Ordinal(today) <= Ordinal(checkin) < Ordinal(checkout) && Ordinal(checkout) - Ordinal(checkin) > 30 ==>
              ValidateDates(today, checkin, checkout) == (false, StayTooLong)
    ensures ValidateDates(today, checkin, checkout).0 <==>
              Ordinal(today) <= Ordinal(checkin) < Ordinal(checkout) <= Ordinal(checkin) + 30
  {
    OrderIsOrdinalOrder(checkin, today);
    OrderIsOrdinalOrder(checkout, checkin);
  }

  /** Thirty nights are accepted, thirty-one are not. */
  lemma ThirtyNightsAccepted()
    ensures ValidateDates(Date(2024, 1, 1), Date(2024, 1, 1), Date(2024, 1, 31)) == (true, "")
    ensures ValidateDates(Date(2024, 1, 1), Date(2024, 1, 1), Date(2024, 2, 1)) == (false, StayTooLong)
  {
  }

  lemma DigitRoundTrip(c: char)
    requires IsDigit(c)
    ensures DigitChar(DigitValue(c)) == c
  {
  }

  /** Parsing the text of a date gives the date back. */
  lemma ParseToString(d: ValidDate)
    ensures ParseDate(ToString(d)) == Success(d)
  {
    var s := ToString(d);
    assert s[..4] == Pad4(d.year);
    assert s[5..] == Pad2(d.month) + "-" + Pad2(d.day);
    var m := Pad2(d.month);
    if d.month >= 10 {
      assert m[0] == '1';
    } else {
      assert m[0] == '0';
    }
    assert MonthField(s[5..]) == Some((d.month, Pad2(d.day)));
    var t := Pad2(d.day);
    assert DayField(t) == Some((d.day, 2));
  }

  /** The canonical ten-character shape `DDDD-DD-DD`. */
  predicate IsCanonical(s: string) {
    |s| == 10 && s[4] == '-' && s[7] == '-' && forall i | 0 <= i < 10 && i != 4 && i != 7 :: IsDigit(s[i])
  }

  /** The date a canonical text spells, valid or not. */
  function CanonicalFields(s: string): Date
    requires IsCanonical(s)
  {
    Date(FourDigitValue(s[..4]),
         10 * DigitValue(s[5]) + DigitValue(s[6]),
         10 * DigitValue(s[8]) + DigitValue(s[9]))
  }

  lemma Pad4Inverse(s: string)
    requires |s| == 4 && forall i | 0 <= i < 4 :: IsDigit(s[i])
    ensures Pad4(FourDigitValue(s)) == s
  {
    var n := FourDigitValue(s);
    var a, b, c, d := DigitValue(s[0]), DigitValue(s[1]), DigitValue(s[2]), DigitValue(s[3]);
    DivUnique(n, 1000, a, 100 * b + 10 * c + d);
    DivUnique(100 * b + 10 * c + d, 100, b, 10 * c + d);
    DivUnique(10 * c + d, 10, c, d);
    DigitRoundTrip(s[0]);
    DigitRoundTrip(s[1]);
    DigitRoundTrip(s[2]);
    DigitRoundTrip(s[3]);
  }

  lemma Pad2Inverse(c0: char, c1: char)
    requires IsDigit(c0) && IsDigit(c1)
    ensures Pad2(10 * DigitValue(c0) + DigitValue(c1)) == [c0, c1]
  {
    DigitRoundTrip(c0);
    DigitRoundTrip(c1);
  }

  /** On canonical text, parsing succeeds exactly when the text spells a
      real date, and the text of the result is the input: `to_string` and
      `parse_date` are inverse on this shape. */
  lemma ParseCanonical(s: string)
    requires IsCanonical(s)
    ensures ParseDate(s).Success? <==> IsValid(CanonicalFields(s))
    ensures ParseDate(s).Success? ==> ParseDate(s).value == CanonicalFields(s) && ToString(ParseDate(s).value) == s
  {
    var f := CanonicalFields(s);
    assert s[5..] == [s[5], s[6], s[7], s[8], s[9]];
    if IsValid(f) {
      assert MonthField(s[5..]) == Some((f.month, s[8..]));
      assert DayField(s[8..]) == Some((f.day, 2));
      var d: ValidDate := f;
      Pad4Inverse(s[..4]);
      Pad2Inverse(s[5], s[6]);
      Pad2Inverse(s[8], s[9]);
      assert ToString(d) == s[..4] + "-" + [s[5], s[6]] + "-" + [s[8], s[9]];
    } else {
      match MonthField(s[5..])
      case None =>
      case Some((month, rest)) =>
        assert month == f.month && rest == s[8..];
        match DayField(rest)
        case None =>
        case Some((day, used)) =>
          assert used == 2 ==> day == f.day;
    }
  }

  /** Parsing is more lenient than the canonical shape: Python's `%m` and
      `%d` accept a single digit, and `%d` a leading space. Neither text
      is what `to_string` writes for the date, "2024-01-05". */
  lemma ParseIsLenient()
    ensures ParseDate("2024-1-5") == Success(Date(2024, 1, 5))
    ensures ParseDate("2024-01- 5") == Success(Date(2024, 1, 5))
  {
    assert FourDigitValue("2024") == 2024;
    var s1, s2 := "2024-1-5", "2024-01- 5";
    assert s1[..4] == "2024" && s1[5..] == "1-5";
    assert MonthField("1-5") == Some((1, "5"));
    assert DayField("5") == Some((5, 1));
    assert s2[..4] == "2024" && s2[5..] == "01- 5";
    assert MonthField("01- 5") == Some((1, " 5"));
    assert DayField(" 5") == Some((5, 2));
  }

  /** Impossible calendar dates are refused with the `ValueError` message. */
  lemma ParseRefusesNonDates()
    ensures ParseDate("2023-02-29") == Failure(DateFormatError + "2023-02-29")
    ensures ParseDate("2024-13-01") == Failure(DateFormatError + "2024-13-01")
    ensures ParseDate("0000-01-01") == Failure(DateFormatError + "0000-01-01")
  {
    var s1, s2, s3 := "2023-02-29", "2024-13-01", "0000-01-01";
    assert s1[..4] == "2023" && s1[5..] == "02-29" && FourDigitValue("2023") == 2023;
    assert MonthField("02-29") == Some((2, "29"));
    assert DayField("29") == Some((29, 2));
    assert s2[5..] == "13-01";
    assert MonthField("13-01") == None;
    assert s3[..4] == "0000" && FourDigitValue("0000") == 0;
  }

  /** Texts that do not have the shape are refused too: text left over
      after the day, and a year of fewer than four digits. */
  lemma ParseRefusesMalformed()
    ensures ParseDate("2024-01-011") == Failure(DateFormatError + "2024-01-011")
    ensures ParseDate("24-01-01") == Failure(DateFormatError + "24-01-01")
  {
    var s1, s2 := "2024-01-011", "24-01-01";
    assert s1[5..] == "01-011";
    assert MonthField("01-011") == Some((1, "011"));
    assert DayField("011") == Some((1, 2));
    assert s2[4] == '1';
  }

  // ----- Text order -----

  /** SQLite's comparison of two texts of equal length: character by
      character, the first difference deciding. */
  predicate TextLess(a: string, b: string)
    requires |a| == |b|
  {
    |a| > 0 && (a[0] < b[0] || (a[0] == b[0] && TextLess(a[1..], b[1..])))
  }

  /** SQLite's `<=` on texts of equal length. */
  predicate TextAtMost(a: string, b: string)
    requires |a| == |b|
  {
    TextLess(a, b) || a == b
  }

  /** Comparing two joined texts: the first parts decide unless they are equal. */
  lemma {:induction false} TextLessAppend(u1: string, v1: string, u2: string, v2: string)
    requires |u1| == |u2| && |v1| == |v2|
    ensures TextLess(u1 + v1, u2 + v2) <==> TextLess(u1, u2) || (u1 == u2 && TextLess(v1, v2))
    decreases |u1|
  {
    if |u1| > 0 {
      assert (u1 + v1)[0] == u1[0] && (u2 + v2)[0] == u2[0];
      assert (u1 + v1)[1..] == u1[1..] + v1 && (u2 + v2)[1..] == u2[1..] + v2;
      TextLessAppend(u1[1..], v1, u2[1..], v2);
      assert u1 == u2 <==> u1[0] == u2[0] && u1[1..] == u2[1..] by {
        if u1[0] == u2[0] && u1[1..] == u2[1..] {
          assert u1 == [u1[0]] + u1[1..] && u2 == [u2[0]] + u2[1..];
        }
      }
    } else {
      assert u1 + v1 == v1 && u2 + v2 == v2;
    }
  }

  /** Two joined texts are equal exactly when their parts are. */
  lemma AppendEqual(u1: string, v1: string, u2: string, v2: string)
    requires |u1| == |u2|
    ensures u1 + v1 == u2 + v2 <==> u1 == u2 && v1 == v2
  {
    if u1 + v1 == u2 + v2 {
      assert u1 == (u1 + v1)[..|u1|] && u2 == (u2 + v2)[..|u1|];
      assert v1 == (u1 + v1)[|u1|..] && v2 == (u2 + v2)[|u1|..];
    }
  }

  lemma TextLessChar(x: char, y: char)
    ensures TextLess([x], [y]) <==> x < y
  {
    assert [x][1..] == [] && [y][1..] == [];
  }

  /** Digits order as their values do. */
  lemma DigitCharOrder(m: int, n: int)
    requires 0 <= m <= 9 && 0 <= n <= 9
    ensures DigitChar(m) < DigitChar(n) <==> m < n
    ensures DigitChar(m) == DigitChar(n) <==> m == n
  {
  }

  lemma Pad2Order(m: int, n: int)
    requires 0 <= m <= 99 && 0 <= n <= 99
    ensures TextLess(Pad2(m), Pad2(n)) <==> m < n
    ensures Pad2(m) == Pad2(n) <==> m == n
  {
    var a, b := DigitChar(m / 10), DigitChar(m % 10);
    var c, d := DigitChar(n / 10), DigitChar(n % 10);
    assert Pad2(m) == [a] + [b] && Pad2(n) == [c] + [d];
    TextLessAppend([a], [b], [c], [d]);
    TextLessChar(a, c);
    TextLessChar(b, d);
    DigitCharOrder(m / 10, n / 10);
    DigitCharOrder(m % 10, n % 10);
  }

  lemma Pad4Order(m: int, n: int)
    requires 0 <= m <= 9999 && 0 <= n <= 9999
    ensures TextLess(Pad4(m), Pad4(n)) <==> m < n
    ensures Pad4(m) == Pad4(n) <==> m == n
  {
    var s, t := Pad4(m), Pad4(n);
    assert s == [s[0]] + [s[1]] + [s[2]] + [s[3]];
    assert t == [t[0]] + [t[1]] + [t[2]] + [t[3]];
    TextLessAppend([s[0]] + [s[1]] + [s[2]], [s[3]], [t[0]] + [t[1]] + [t[2]], [t[3]]);
    TextLessAppend([s[0]] + [s[1]], [s[2]], [t[0]] + [t[1]], [t[2]]);
    TextLessAppend([s[0]], [s[1]], [t[0]], [t[1]]);
    TextLessChar(s[0], t[0]);
    TextLessChar(s[1], t[1]);
    TextLessChar(s[2], t[2]);
    TextLessChar(s[3], t[3]);
    DigitsOrder(s, t);
  }

  /** One place of a decimal number: the leading digit decides unless
      it is equal. */
  lemma PlaceOrder(x: int, y: int, rx: int, ry: int, p: int)
    requires p == 10 || p == 100 || p == 1000
    requires 0 <= rx < p && 0 <= ry < p
    ensures p * x + rx < p * y + ry <==> x < y || (x == y && rx < ry)
    ensures p * x + rx == p * y + ry <==> x == y && rx == ry
  {
    if p == 10 {
      assert 10 * x + rx < 10 * y + ry <==> x < y || (x == y && rx < ry);
    } else if p == 100 {
      assert 100 * x + rx < 100 * y + ry <==> x < y || (x == y && rx < ry);
    } else {
      assert 1000 * x + rx < 1000 * y + ry <==> x < y || (x == y && rx < ry);
    }
  }

  /** Four-digit texts order as their values. */
  lemma DigitsOrder(s: string, t: string)
    requires |s| == 4 && forall i | 0 <= i < 4 :: IsDigit(s[i])
    requires |t| == 4 && forall i | 0 <= i < 4 :: IsDigit(t[i])
    ensures FourDigitValue(s) < FourDigitValue(t) <==>
              || s[0] < t[0]
              || (s[0] == t[0] && s[1] < t[1])
              || (s[0] == t[0] && s[1] == t[1] && s[2] < t[2])
              || (s[0] == t[0] && s[1] == t[1] && s[2] == t[2] && s[3] < t[3])
    ensures FourDigitValue(s) == FourDigitValue(t) <==> s == t
  {
    var a0, a1, a2, a3 := DigitValue(s[0]), DigitValue(s[1]), DigitValue(s[2]), DigitValue(s[3]);
    var b0, b1, b2, b3 := DigitValue(t[0]), DigitValue(t[1]), DigitValue(t[2]), DigitValue(t[3]);
    PlaceOrder(a2, b2, a3, b3, 10);
    PlaceOrder(a1, b1, 10 * a2 + a3, 10 * b2 + b3, 100);
    PlaceOrder(a0, b0, 100 * a1 + 10 * a2 + a3, 100 * b1 + 10 * b2 + b3, 1000);
    if s[0] == t[0] && s[1] == t[1] && s[2] == t[2] && s[3] == t[3] {
      assert s == t;
    }
  }

  /** SQLite's text comparison of stored dates is Python's date order:
      `ToString(a) < ToString(b)` as text exactly when `a` is before `b`,
      and the texts are equal exactly when the dates are. */
  lemma TextOrderIsDateOrder(a: ValidDate, b: ValidDate)
    ensures TextLess(ToString(a), ToString(b)) <==> Before(a, b)
    ensures ToString(a) == ToString(b) <==> a == b
    ensures TextAtMost(ToString(a), ToString(b)) <==> AtOrBefore(a, b)
  {
    TextLessIsBefore(a, b);
    TextEqualIsSameDate(a, b);
  }

  lemma TextLessIsBefore(a: ValidDate, b: ValidDate)
    ensures TextLess(ToString(a), ToString(b)) <==> Before(a, b)
  {
    var ya, ma, da := Pad4(a.year), Pad2(a.month), Pad2(a.day);
    var yb, mb, db := Pad4(b.year), Pad2(b.month), Pad2(b.day);
    assert ToString(a) == ya + "-" + ma + "-" + da;
    assert ToString(b) == yb + "-" + mb + "-" + db;
    Pad4Order(a.year, b.year);
    Pad2Order(a.month, b.month);
    Pad2Order(a.day, b.day);
    TextLessAppend(ya + "-" + ma + "-", da, yb + "-" + mb + "-", db);
    TextLessAppend(ya + "-" + ma, "-", yb + "-" + mb, "-");
    TextLessAppend(ya + "-", ma, yb + "-", mb);
    TextLessAppend(ya, "-", yb, "-");
    TextLessChar('-', '-');
    AppendEqual(ya + "-" + ma, "-", yb + "-" + mb, "-");
    AppendEqual(ya + "-", ma, yb + "-", mb);
    AppendEqual(ya, "-", yb, "-");
  }

  lemma TextEqualIsSameDate(a: ValidDate, b: ValidDate)
    ensures ToString(a) == ToString(b) <==> a == b
  {
    if ToString(a) == ToString(b) {
      var s := ToString(a);
      assert s[..4] == Pad4(a.year) && s[5..7] == Pad2(a.month) && s[8..] == Pad2(a.day);
      assert s[..4] == Pad4(b.year) && s[5..7] == Pad2(b.month) && s[8..] == Pad2(b.day);
      Pad4Order(a.year, b.year);
      Pad2Order(a.month, b.month);
      Pad2Order(a.day, b.day);
    }
  }
}
