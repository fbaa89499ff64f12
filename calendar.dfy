/** The part of `System.DateTime` the model needs: proleptic Gregorian
    dates between the years 1 and 9999, a time of day, ordering,
    `AddYears`, and the exact `dd/MM/yyyy` parse and format.  Time zones
    and `DateTimeKind` play no part in any comparison the core makes. */
module Calendar {
  import opened Text

  const TicksPerDay: int := 864_000_000_000

  datatype Date = Date(year: int, month: int, day: int)

  /** A `DateTime`: a date and the ticks (100 ns) elapsed since midnight. */
  datatype DateTime = DateTime(date: Date, ticks: int)

  predicate IsLeapYear(y: int)
  {
    y % 4 == 0 && (y % 100 != 0 || y % 400 == 0)
  }

  function DaysInMonth(y: int, m: int): (n: int)
    requires 1 <= m <= 12
    ensures 28 <= n <= 31
    ensures n == 29 <==> m == 2 && IsLeapYear(y)
  {
    if m == 2 then (if IsLeapYear(y) then 29 else 28)
    else if m == 4 || m == 6 || m == 9 || m == 11 then 30
    else 31
  }

  predicate ValidDate(d: Date)
  {
    1 <= d.year <= 9999 && 1 <= d.month <= 12 && 1 <= d.day <= DaysInMonth(d.year, d.month)
  }

  predicate ValidDateTime(t: DateTime)
  {
    ValidDate(t.date) && 0 <= t.ticks < TicksPerDay
  }

  /** Midnight of a date, which is what `DateTime.Today` returns. */
  function Midnight(d: Date): DateTime { DateTime(d, 0) }

  predicate DateBefore(a: Date, b: Date)
  {
    || a.year < b.year
    || (a.year == b.year && a.month < b.month)
    || (a.year == b.year && a.month == b.month && a.day < b.day)
  }

  /** `a <= b` on `DateTime`. */
  predicate AtOrBefore(a: DateTime, b: DateTime)
  {
    DateBefore(a.date, b.date) || (a.date == b.date && a.ticks <= b.ticks)
  }

  lemma AtOrBeforeIsTotalOrder(a: DateTime, b: DateTime, c: DateTime)
    ensures AtOrBefore(a, a)
    ensures AtOrBefore(a, b) || AtOrBefore(b, a)
    ensures AtOrBefore(a, b) && AtOrBefore(b, a) ==> a == b
    ensures AtOrBefore(a, b) && AtOrBefore(b, c) ==> AtOrBefore(a, c)
  {
  }

  /** `DateTime.AddYears(n)`: the same month, day and time `n` years on;
      29 February becomes 28 February in a common year.  `Null` stands
      for the `ArgumentOutOfRangeException` thrown when the resulting year
      leaves 1..9999. */
  function AddYears(t: DateTime, n: int): (r: Option<DateTime>)
    requires ValidDateTime(t)
    ensures r.Some? <==> 1 <= t.date.year + n <= 9999
    ensures r.Some? ==> ValidDateTime(r.value) && r.value.date.year == t.date.year + n
    ensures r.Some? ==> r.value.date.month == t.date.month && r.value.ticks == t.ticks
    ensures r.Some? && !(t.date.month == 2 && t.date.day == 29) ==> r.value.date.day == t.date.day
    ensures r.Some? && t.date.month == 2 && t.date.day == 29 ==>
      r.value.date.day == (if IsLeapYear(t.date.year + n) then 29 else 28)
  {
    var y := t.date.year + n;
    if y < 1 || y > 9999 then Null
    else
      var dim := DaysInMonth(y, t.date.month);
      Some(DateTime(Date(y, t.date.month, if t.date.day <= dim then t.date.day else dim), t.ticks))
  }

  /** Moving forward a positive number of years moves strictly later. */
  lemma AddYearsIsLater(t: DateTime, n: int)
    requires ValidDateTime(t) && n > 0 && t.date.year + n <= 9999
    ensures AtOrBefore(t, AddYears(t, n).value) && AddYears(t, n).value != t
  {
  }

  function DigitValue(c: char): (v: int)
    requires IsAsciiDigit(c)
    ensures 0 <= v <= 9
  {
    c as int - '0' as int
  }

  function DigitChar(v: int): (c: char)
    requires 0 <= v <= 9
    ensures IsAsciiDigit(c) && DigitValue(c) == v
  {
    ('0' as int + v) as char
  }

  predicate AllDigits(s: string)
  {
    forall k :: 0 <= k < |s| ==> IsAsciiDigit(s[k])
  }

  /** The value of a string of decimal digits. */
  function Number(s: string): (v: nat)
    requires AllDigits(s)
  {
    if s == [] then 0 else Number(s[..|s| - 1]) * 10 + DigitValue(s[|s| - 1])
  }

  /** `DateTime.TryParseExact(t, "dd/MM/yyyy", InvariantCulture,
      DateTimeStyles.None)`: exactly two day digits, two month digits and
      four year digits, separated by '/', naming a real calendar date. */
  function ParseDdMmYyyy(t: string): (r: Option<Date>)
    ensures r.Some? ==> ValidDate(r.value)
    ensures r.Some? ==> |t| == 10 && t[2] == '/' && t[5] == '/'
    ensures r.Some? ==> AllDigits(t[..2]) && AllDigits(t[3..5]) && AllDigits(t[6..])
  {
    if |t| == 10 && t[2] == '/' && t[5] == '/'
       && AllDigits(t[..2]) && AllDigits(t[3..5]) && AllDigits(t[6..])
    then
      var d := Date(Number(t[6..]), Number(t[3..5]), Number(t[..2]));
      if ValidDate(d) then Some(d) else Null
    else Null
  }

  /** Two-digit, zero-padded rendering of 0..99. */
  function Pad2(n: int): (s: string)
    requires 0 <= n < 100
    ensures |s| == 2 && AllDigits(s) && Number(s) == n
  {
    var s := [DigitChar(n / 10), DigitChar(n % 10)];
    assert s[..1][..0] == [];
    assert Number(s[..1]) == n / 10;
    s
  }

  /** Four-digit, zero-padded rendering of 0..9999. */
  function Pad4(n: int): (s: string)
    requires 0 <= n < 10000
    ensures |s| == 4 && AllDigits(s) && Number(s) == n
  {
    var s := Pad2(n / 100) + Pad2(n % 100);
    assert s[..3] == Pad2(n / 100) + [s[2]];
    assert s[..2] == Pad2(n / 100);
    s
  }

  /** `date.ToString("dd/MM/yyyy")`, the form the replies print dates in. */
  function FormatDdMmYyyy(d: Date): (s: string)
    requires ValidDate(d)
    ensures |s| == 10
  {
    Pad2(d.day) + "/" + Pad2(d.month) + "/" + Pad4(d.year)
  }

  /** The printed date is two digits, a slash, two digits, a slash and
      four digits. */
  lemma FormatShape(d: Date)
    requires ValidDate(d)
    ensures var s := FormatDdMmYyyy(d);
      && s[2] == '/' && s[5] == '/'
      && IsAsciiDigit(s[0]) && IsAsciiDigit(s[1]) && IsAsciiDigit(s[3]) && IsAsciiDigit(s[4])
      && forall k :: 6 <= k < 10 ==> IsAsciiDigit(s[k])
  {
    var a, b, c := Pad2(d.day), Pad2(d.month), Pad4(d.year);
    assert FormatDdMmYyyy(d) == a + "/" + b + "/" + c;
  }

  /** Parsing reads back exactly the date that formatting printed. */
  lemma ParseFormatRoundTrip(d: Date)
    requires ValidDate(d)
    ensures ParseDdMmYyyy(FormatDdMmYyyy(d)) == Some(d)
  {
    var s := FormatDdMmYyyy(d);
    assert s[..2] == Pad2(d.day);
    assert s[3..5] == Pad2(d.month);
    assert s[6..] == Pad4(d.year);
  }

  lemma NumberOfTwo(s: string)
    requires |s| == 2 && AllDigits(s)
    ensures Number(s) == DigitValue(s[0]) * 10 + DigitValue(s[1])
    ensures Pad2(Number(s)) == s
  {
    var one := s[..1];
    assert one[..0] == [] && one[0] == s[0];
    assert Number(one) == DigitValue(s[0]);
    assert Number(s) == Number(one) * 10 + DigitValue(s[1]);
  }

  lemma NumberOfFour(s: string)
    requires |s| == 4 && AllDigits(s)
    ensures Number(s) == Number(s[..2]) * 100 + Number(s[2..]) < 10000
    ensures Pad4(Number(s)) == s
  {
    var hi, lo, three := s[..2], s[2..], s[..3];
    NumberOfTwo(hi);
    NumberOfTwo(lo);
    var a, b := Number(hi), Number(lo);
    assert three[..2] == hi && three[2] == s[2];
    assert Number(three) == a * 10 + DigitValue(s[2]);
    assert Number(s) == Number(three) * 10 + DigitValue(s[3]);
    assert b == DigitValue(s[2]) * 10 + DigitValue(s[3]) by {
      assert lo[0] == s[2] && lo[1] == s[3];
    }
    var n := a * 100 + b;
    assert Number(s) == n;
    assert n / 100 == a && n % 100 == b by {
      assert 0 <= b < 100;
    }
    assert s == hi + lo;
  }

  /** Formatting prints back exactly the text that parsed: the day,
      month and year fields have fixed widths. */
  lemma FormatOfParse(t: string)
    ensures ParseDdMmYyyy(t).Some? ==> FormatDdMmYyyy(ParseDdMmYyyy(t).value) == t
  {
    if ParseDdMmYyyy(t).Some? {
      NumberOfTwo(t[..2]);
      NumberOfTwo(t[3..5]);
      NumberOfFour(t[6..]);
      assert t == t[..2] + "/" + t[3..5] + "/" + t[6..];
    }
  }
}
