/** Instants, Gregorian dates, and the fixed-width UTC text that the table stores
    (date-time of RFC 3339 section 5.6 with six fraction digits and "Z"). */
module Time {
  import opened Text

  const MICROS_PER_DAY: int := 86_400_000_000
  const DAYS: int := 3_652_059 // 0001-01-01 up to and including 9999-12-31

  /** Microseconds since 0001-01-01T00:00:00Z. */
  type Instant = i: int | 0 <= i < DAYS * MICROS_PER_DAY

  datatype Fields = Fields(year: nat, month: nat, day: nat, hour: nat, minute: nat, second: nat, micro: nat)

  /** A timezone-aware date and time: wall-clock fields and their distance from UTC in microseconds. */
  datatype DateTime = DateTime(local: Fields, offset: int)

  // ----- the Gregorian calendar

  predicate IsLeap(y: nat) {
    y % 4 == 0 && (y % 100 != 0 || y % 400 == 0)
  }

  function DaysInYear(y: nat): nat {
    if IsLeap(y) then 366 else 365
  }

  function DaysInMonth(y: nat, m: nat): nat
    requires 1 <= m <= 12
  {
    if m == 2 then (if IsLeap(y) then 29 else 28)
    else if m == 4 || m == 6 || m == 9 || m == 11 then 30
    else 31
  }

  function DaysBeforeYear(y: nat): nat
    requires y >= 1
  {
    var p := y - 1;
    365 * p + p / 4 - p / 100 + p / 400
  }

  /** Days of year y before month m; month 13 stands for the end of the year. */
  function DaysBeforeMonth(y: nat, m: nat): nat
    requires 1 <= m <= 13
  {
    if m == 1 then 0 else DaysBeforeMonth(y, m - 1) + DaysInMonth(y, m - 1)
  }

  predicate ValidDate(y: nat, m: nat, d: nat) {
    1 <= y <= 9999 && 1 <= m <= 12 && 1 <= d <= DaysInMonth(y, m)
  }

  predicate ValidFields(f: Fields) {
    ValidDate(f.year, f.month, f.day) && f.hour < 24 && f.minute < 60 && f.second < 60 && f.micro < 1_000_000
  }

  function DayNumber(y: nat, m: nat, d: nat): nat
    requires y >= 1 && 1 <= m <= 12 && d >= 1
  {
    DaysBeforeYear(y) + DaysBeforeMonth(y, m) + d - 1
  }

  /** The Gregorian calendar: which years are leap years and how long the months are. */
  lemma Calendar(y: nat)
    ensures DaysInYear(y) == if (y % 4 == 0 && y % 100 != 0) || y % 400 == 0 then 366 else 365
    ensures seq(12, m requires 0 <= m < 12 => DaysInMonth(y, m + 1)) ==
            [31, if DaysInYear(y) == 366 then 29 else 28, 31, 30, 31, 30, 31, 31, 30, 31, 30, 31]
  {
    LeapDivisors(y);
  }

  lemma FoursStep(p: nat)
    ensures (p + 1) / 4 == p / 4 + (if (p + 1) % 4 == 0 then 1 else 0)
  {
  }

  lemma CenturiesStep(p: nat)
    ensures (p + 1) / 100 == p / 100 + (if (p + 1) % 100 == 0 then 1 else 0)
    ensures (p + 1) / 400 == p / 400 + (if (p + 1) % 400 == 0 then 1 else 0)
  {
  }

  lemma LeapDivisors(y: nat)
    ensures y % 100 == 0 ==> y % 4 == 0
    ensures y % 400 == 0 ==> y % 100 == 0
  {
    if y % 100 == 0 {
      assert y == 4 * (25 * (y / 100));
    }
    if y % 400 == 0 {
      assert y == 100 * (4 * (y / 400));
    }
  }

  lemma YearStep(y: nat)
    requires y >= 1
    ensures DaysBeforeYear(y + 1) == DaysBeforeYear(y) + DaysInYear(y)
  {
    FoursStep(y - 1);
    CenturiesStep(y - 1);
    LeapDivisors(y);
  }

  lemma {:induction false} YearsMonotone(y: nat, z: nat)
    requires 1 <= y < z
    ensures DaysBeforeYear(y) + DaysInYear(y) <= DaysBeforeYear(z)
  {
    YearStep(z - 1);
    if y < z - 1 {
      YearsMonotone(y, z - 1);
    }
  }

  lemma {:induction false} MonthsMonotone(y: nat, m: nat, n: nat)
    requires 1 <= m < n <= 13
    ensures DaysBeforeMonth(y, m) + DaysInMonth(y, m) <= DaysBeforeMonth(y, n)
  {
    if m < n - 1 {
      MonthsMonotone(y, m, n - 1);
    }
  }

  lemma MonthsFillYear(y: nat)
    ensures DaysBeforeMonth(y, 13) == DaysInYear(y)
  {
    assert DaysBeforeMonth(y, 2) == 31;
    assert DaysBeforeMonth(y, 3) == 31 + DaysInMonth(y, 2);
    assert DaysBeforeMonth(y, 5) == DaysBeforeMonth(y, 3) + 61;
    assert DaysBeforeMonth(y, 7) == DaysBeforeMonth(y, 5) + 61;
    assert DaysBeforeMonth(y, 9) == DaysBeforeMonth(y, 7) + 62;
    assert DaysBeforeMonth(y, 11) == DaysBeforeMonth(y, 9) + 61;
    assert DaysBeforeMonth(y, 13) == DaysBeforeMonth(y, 11) + 61;
  }

  /** Day numbers follow the calendar order of dates. */
  lemma DayNumberOrder(y: nat, m: nat, d: nat, z: nat, n: nat, e: nat)
    requires ValidDate(y, m, d) && ValidDate(z, n, e)
    requires y < z || (y == z && (m < n || (m == n && d < e)))
    ensures DayNumber(y, m, d) < DayNumber(z, n, e)
  {
    if y < z {
      YearsMonotone(y, z);
      MonthsMonotone(y, m, 13);
      MonthsFillYear(y);
    } else if m < n {
      MonthsMonotone(y, m, n);
    }
  }

  lemma DayNumberBound(y: nat, m: nat, d: nat)
    requires ValidDate(y, m, d)
    ensures DayNumber(y, m, d) < DAYS
  {
    if !(y == 9999 && m == 12 && d == 31) {
      DayNumberOrder(y, m, d, 9999, 12, 31);
    }
    MonthsFillYear(9999);
    assert DaysBeforeMonth(9999, 13) == DaysBeforeMonth(9999, 12) + 31;
  }

  // ----- fields and instants

  function MicroOfDay(f: Fields): nat {
    ((f.hour * 60 + f.minute) * 60 + f.second) * 1_000_000 + f.micro
  }

  function ToMicros(f: Fields): int
    requires ValidFields(f)
  {
    DayNumber(f.year, f.month, f.day) * MICROS_PER_DAY + MicroOfDay(f)
  }

  lemma ToMicrosInRange(f: Fields)
    requires ValidFields(f)
    ensures 0 <= ToMicros(f) < DAYS * MICROS_PER_DAY
  {
    DayNumberBound(f.year, f.month, f.day);
    assert MicroOfDay(f) < MICROS_PER_DAY;
  }

  function FieldValues(f: Fields): seq<nat> {
    [f.year, f.month, f.day, f.hour, f.minute, f.second, f.micro]
  }

  predicate FieldsLess(f: Fields, g: Fields) {
    f.year < g.year || (f.year == g.year && (
    f.month < g.month || (f.month == g.month && (
    f.day < g.day || (f.day == g.day && (
    f.hour < g.hour || (f.hour == g.hour && (
    f.minute < g.minute || (f.minute == g.minute && (
    f.second < g.second || (f.second == g.second &&
    f.micro < g.micro)))))))))))
  }

  /** Earlier in the calendar means earlier in time. */
  lemma FieldsOrder(f: Fields, g: Fields)
    requires ValidFields(f) && ValidFields(g)
    ensures FieldsLess(f, g) <==> ToMicros(f) < ToMicros(g)
    ensures f == g <==> ToMicros(f) == ToMicros(g)
  {
    if FieldsLess(f, g) {
      FieldsOrderOneWay(f, g);
    } else if FieldsLess(g, f) {
      FieldsOrderOneWay(g, f);
    } else {
      assert f == g;
    }
  }

  lemma FieldsOrderOneWay(f: Fields, g: Fields)
    requires ValidFields(f) && ValidFields(g) && FieldsLess(f, g)
    ensures ToMicros(f) < ToMicros(g)
  {
    if f.year == g.year && f.month == g.month && f.day == g.day {
      assert MicroOfDay(f) < MicroOfDay(g);
    } else {
      DayNumberOrder(f.year, f.month, f.day, g.year, g.month, g.day);
      assert MicroOfDay(f) < MICROS_PER_DAY;
    }
  }

  lemma YearsInRange(y: nat)
    requires y >= 1
    ensures y > 9999 ==> DaysBeforeYear(y) >= DAYS
  {
    if y > 10000 {
      YearsMonotone(10000, y);
    }
  }

  function FindYear(n: nat, y: nat): (r: nat)
    requires y >= 1 && DaysBeforeYear(y) <= n
    ensures r >= y && DaysBeforeYear(r) <= n < DaysBeforeYear(r + 1)
    decreases n - DaysBeforeYear(y)
  {
    YearStep(y);
    if n < DaysBeforeYear(y + 1) then y else FindYear(n, y + 1)
  }

  function FindMonth(y: nat, n: nat, m: nat): (r: nat)
    requires 1 <= m <= 12 && DaysBeforeMonth(y, m) <= n < DaysBeforeMonth(y, 13)
    ensures m <= r <= 12 && DaysBeforeMonth(y, r) <= n < DaysBeforeMonth(y, r + 1)
    decreases 12 - m
  {
    if n < DaysBeforeMonth(y, m + 1) then m else FindMonth(y, n, m + 1)
  }

  /** Midnight of a day, by its number. */
  function ToDate(day: nat): (f: Fields)
    requires day < DAYS
    ensures ValidDate(f.year, f.month, f.day) && DayNumber(f.year, f.month, f.day) == day
  {
    var year := FindYear(day, 1);
    YearsInRange(year);
    YearStep(year);
    MonthsFillYear(year);
    var inYear := day - DaysBeforeYear(year);
    var month := FindMonth(year, inYear, 1);
    Fields(year, month, inYear - DaysBeforeMonth(year, month) + 1, 0, 0, 0, 0)
  }

  /** The UTC wall-clock fields of an instant. */
  function ToFields(i: Instant): (f: Fields)
    ensures ValidFields(f) && ToMicros(f) == i
  {
    var date, t := ToDate(i / MICROS_PER_DAY), i % MICROS_PER_DAY;
    AtTime(date, t);
    WithTime(date, t)
  }

  function WithTime(date: Fields, t: nat): Fields {
    var s := t / 1_000_000;
    date.(hour := s / 60 / 60, minute := s / 60 % 60, second := s % 60, micro := t % 1_000_000)
  }

  lemma Parts(n: nat, k: nat)
    requires k > 0
    ensures n == n / k * k + n % k && n % k < k
  {
  }

  lemma AtTime(date: Fields, t: nat)
    requires ValidDate(date.year, date.month, date.day) && t < MICROS_PER_DAY
    ensures ValidFields(WithTime(date, t))
    ensures ToMicros(WithTime(date, t)) == DayNumber(date.year, date.month, date.day) * MICROS_PER_DAY + t
  {
    hide DayNumber, ValidDate;
    var s := t / 1_000_000;
    Parts(t, 1_000_000);
    Parts(s, 60);
    Parts(s / 60, 60);
  }

  /** Calendar fields and instants are two names for the same thing. */
  lemma FieldsRoundTrip(f: Fields)
    requires ValidFields(f)
    ensures 0 <= ToMicros(f) < DAYS * MICROS_PER_DAY && ToFields(ToMicros(f)) == f
  {
    ToMicrosInRange(f);
    FieldsOrder(ToFields(ToMicros(f)), f);
  }

  // ----- text

  const LAYOUT: Layout := [Field(4, "-"), Field(2, "-"), Field(2, "T"), Field(2, ":"), Field(2, ":"), Field(2, "."),
                           Field(6, "Z")]

  lemma FieldsFit(f: Fields)
    requires ValidFields(f)
    ensures Fits(FieldValues(f), LAYOUT, Decimal)
  {
    HasDigitsBelow(f.year, 4, Decimal);
    HasDigitsBelow(f.month, 2, Decimal);
    HasDigitsBelow(f.day, 2, Decimal);
    HasDigitsBelow(f.hour, 2, Decimal);
    HasDigitsBelow(f.minute, 2, Decimal);
    HasDigitsBelow(f.second, 2, Decimal);
    HasDigitsBelow(f.micro, 6, Decimal);
    assert Pow(Decimal, 2) == 100;
    assert Pow(Decimal, 4) == 10_000;
    assert Pow(Decimal, 6) == 100 * Pow(Decimal, 4);
  }

  function FormatInstant(i: Instant): string {
    Render(FieldValues(ToFields(i)), LAYOUT, Decimal)
  }

  function TwoDigits(n: nat): string {
    Numeral(n, 2, Decimal)
  }

  lemma RenderFirst(first: nat, rest: seq<nat>, field: Field, layout: Layout)
    requires |rest| == |layout|
    ensures Render([first] + rest, [field] + layout, Decimal)
            == Numeral(first, field.width, Decimal) + (field.separator + Render(rest, layout, Decimal))
  {
    hide Numeral;
    assert ([first] + rest)[1..] == rest && ([field] + layout)[1..] == layout;
  }

  lemma ClockForm(hour: nat, minute: nat, second: nat, micro: nat)
    ensures Render([hour, minute, second, micro], [Field(2, ":"), Field(2, ":"), Field(2, "."), Field(6, "Z")], Decimal)
            == TwoDigits(hour) + (":" + (TwoDigits(minute) + (":" + (TwoDigits(second) + ("." +
               (Numeral(micro, 6, Decimal) + "Z"))))))
  {
    hide Render, Numeral;
    var fields := [Field(2, ":"), Field(2, ":"), Field(2, "."), Field(6, "Z")];
    assert fields == [fields[0]] + fields[1..] && fields[1..] == [fields[1]] + fields[2..];
    assert fields[2..] == [fields[2]] + fields[3..] && fields[3..] == [fields[3]] + [];
    assert [hour, minute, second, micro] == [hour] + [minute, second, micro];
    assert [minute, second, micro] == [minute] + [second, micro] && [second, micro] == [second] + [micro];
    assert [micro] == [micro] + [];
    RenderFirst(hour, [minute, second, micro], fields[0], fields[1..]);
    RenderFirst(minute, [second, micro], fields[1], fields[2..]);
    RenderFirst(second, [micro], fields[2], fields[3..]);
    RenderFirst(micro, [], fields[3], []);
    RenderNone();
  }

  lemma RenderNone()
    ensures Render([], [], Decimal) == ""
  {
  }

  /** The stored form of an instant: its UTC fields with four, two and six digits between fixed separators. */
  lemma StoredForm(i: Instant)
    ensures var f := ToFields(i);
            && ValidFields(f) && ToMicros(f) == i
            && FormatInstant(i) == Numeral(f.year, 4, Decimal) + ("-" + (TwoDigits(f.month) + ("-" + (TwoDigits(f.day)
                                   + ("T" + (TwoDigits(f.hour) + (":" + (TwoDigits(f.minute) + (":" +
                                   (TwoDigits(f.second) + ("." + (Numeral(f.micro, 6, Decimal) + "Z"))))))))))))
  {
    hide Render, Numeral, ToFields, ToMicros, ValidFields;
    var f := ToFields(i);
    var clock := [f.hour, f.minute, f.second, f.micro];
    var fields := [Field(2, ":"), Field(2, ":"), Field(2, "."), Field(6, "Z")];
    assert FieldValues(f) == [f.year] + ([f.month] + ([f.day] + clock));
    assert LAYOUT == [Field(4, "-")] + ([Field(2, "-")] + ([Field(2, "T")] + fields));
    RenderFirst(f.year, [f.month] + ([f.day] + clock), Field(4, "-"), [Field(2, "-")] + ([Field(2, "T")] + fields));
    RenderFirst(f.month, [f.day] + clock, Field(2, "-"), [Field(2, "T")] + fields);
    RenderFirst(f.day, clock, Field(2, "T"), fields);
    ClockForm(f.hour, f.minute, f.second, f.micro);
  }

  lemma EpochDay()
    ensures DayNumber(1970, 1, 1) == 719162
  {
  }

  const DECIMALS := "0123456789"

  /** The digits of the fields, most significant first. */
  lemma FieldDigits(n: nat)
    ensures n < 100 ==> TwoDigits(n) == [DECIMALS[n / 10], DECIMALS[n % 10]]
    ensures n < 10_000 ==> Numeral(n, 4, Decimal) == TwoDigits(n / 100) + TwoDigits(n % 100)
    ensures n < 1_000_000 ==>
              Numeral(n, 6, Decimal) == TwoDigits(n / 10_000) + TwoDigits(n / 100 % 100) + TwoDigits(n % 100)
  {
    PairOfDigits(n, 2);
    PairOfDigits(n, 4);
    PairOfDigits(n, 6);
    PairOfDigits(n / 100, 4);
    Quotients(n);
    hide Numeral;
  }

  lemma Quotients(n: nat)
    ensures n / 100 / 100 == n / 10_000
    ensures n < 100 ==> n / 100 == 0 && n / 10 % 10 == n / 10
  {
  }

  /** The last two digits. */
  lemma PairOfDigits(n: nat, w: nat)
    requires w >= 2
    ensures Numeral(n, w, Decimal) == Numeral(n / 100, w - 2, Decimal) + TwoDigits(n % 100)
    ensures TwoDigits(n % 100) == [DECIMALS[n / 10 % 10], DECIMALS[n % 10]]
    ensures Numeral(n, 0, Decimal) == []
  {
    DigitsInOrder(n / 10 % 10);
    DigitsInOrder(n % 10);
    LastDigits(n);
    assert Numeral(n, w, Decimal) == Numeral(n / 10, w - 1, Decimal) + [DigitChar(n % 10)];
    assert Numeral(n / 10, w - 1, Decimal) == Numeral(n / 10 / 10, w - 2, Decimal) + [DigitChar(n / 10 % 10)];
    var r := n % 100;
    assert Numeral(r / 10, 1, Decimal) == [] + [DigitChar(r / 10 % 10)];
    assert Numeral(r, 2, Decimal) == Numeral(r / 10, 1, Decimal) + [DigitChar(r % 10)];
  }

  lemma LastDigits(n: nat)
    ensures n / 10 / 10 == n / 100 && n % 100 / 10 % 10 == n / 10 % 10 && n % 100 % 10 == n % 10
  {
  }

  function InstantOf(d: DateTime): int
    requires ValidFields(d.local)
  {
    ToMicros(d.local) - d.offset
  }

  /** The stored text of an aware date and time; None when its UTC form leaves the years 1 to 9999. */
  function FormatDateTime(d: DateTime): Option<string>
    requires ValidFields(d.local)
  {
    var i := InstantOf(d);
    if 0 <= i < DAYS * MICROS_PER_DAY then Some(FormatInstant(i)) else None
  }

  function ParseInstant(text: string): Option<Instant> {
    var scanned := Scan(text, LAYOUT, Decimal);
    if scanned.None? then None
    else
      var v := scanned.value;
      var f := Fields(v[0], v[1], v[2], v[3], v[4], v[5], v[6]);
      if !ValidFields(f) then None
      else
        FieldsRoundTrip(f);
        Some(ToMicros(f))
  }

  lemma SeqLessIsFieldsLess(f: Fields, g: Fields)
    ensures SeqLess(FieldValues(f), FieldValues(g)) <==> FieldsLess(f, g)
  {
    var u, v := FieldValues(f), FieldValues(g);
    assert u[1..][1..] == u[2..] && v[1..][1..] == v[2..];
    assert u[2..][1..] == u[3..] && v[2..][1..] == v[3..];
    assert u[3..][1..] == u[4..] && v[3..][1..] == v[4..];
    assert u[4..][1..] == u[5..] && v[4..][1..] == v[5..];
    assert u[5..][1..] == u[6..] && v[5..][1..] == v[6..];
    assert u[6..][1..] == [] && v[6..][1..] == [];
    assert SeqLess(u[6..], v[6..]) <==> u[6] < v[6];
    assert SeqLess(u[5..], v[5..]) <==> u[5] < v[5] || (u[5] == v[5] && SeqLess(u[6..], v[6..]));
    assert SeqLess(u[4..], v[4..]) <==> u[4] < v[4] || (u[4] == v[4] && SeqLess(u[5..], v[5..]));
    assert SeqLess(u[3..], v[3..]) <==> u[3] < v[3] || (u[3] == v[3] && SeqLess(u[4..], v[4..]));
    assert SeqLess(u[2..], v[2..]) <==> u[2] < v[2] || (u[2] == v[2] && SeqLess(u[3..], v[3..]));
    assert SeqLess(u[1..], v[1..]) <==> u[1] < v[1] || (u[1] == v[1] && SeqLess(u[2..], v[2..]));
  }

  /** Stored times sort as text exactly as they sort in time. */
  lemma TextOrderIsTimeOrder(i: Instant, j: Instant)
    ensures |FormatInstant(i)| == |FormatInstant(j)|
    ensures LexLess(FormatInstant(i), FormatInstant(j)) <==> i < j
    ensures FormatInstant(i) == FormatInstant(j) <==> i == j
  {
    var f, g := ToFields(i), ToFields(j);
    FieldsFit(f);
    FieldsFit(g);
    RenderOrder(FieldValues(f), FieldValues(g), LAYOUT, Decimal);
    SeqLessIsFieldsLess(f, g);
    FieldsOrder(f, g);
    assert FieldValues(f) == FieldValues(g) ==> f == g by {
      var u, v := FieldValues(f), FieldValues(g);
      assert u == v ==>
               u[0] == v[0] && u[1] == v[1] && u[2] == v[2] && u[3] == v[3] && u[4] == v[4] && u[5] == v[5] &&
                 u[6] == v[6];
    }
  }

  /** Reading a stored time gives back the instant that was written. */
  lemma ParseFormat(i: Instant)
    ensures ParseInstant(FormatInstant(i)) == Some(i)
  {
    var f := ToFields(i);
    FieldsFit(f);
    ScanRender(FieldValues(f), LAYOUT, Decimal);
  }

  /** The offset of an aware date and time is normalised away: two of them are stored alike
      exactly when they denote the same instant. */
  lemma OffsetsNormalisedAway(d: DateTime, e: DateTime)
    requires ValidFields(d.local) && ValidFields(e.local)
    requires FormatDateTime(d).Some? && FormatDateTime(e).Some?
    ensures FormatDateTime(d) == FormatDateTime(e) <==> InstantOf(d) == InstantOf(e)
    ensures ParseInstant(FormatDateTime(d).value) == Some(InstantOf(d))
  {
    TextOrderIsTimeOrder(InstantOf(d), InstantOf(e));
    ParseFormat(InstantOf(d));
  }
}
