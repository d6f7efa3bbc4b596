/** Wire timestamps: RFC 3339 in UTC with exactly three fractional digits. Their text order
    is the order of time, which ranking, outbox order and the record tie-break rest on. */
module WireTime {
  import opened Base

  // ----- The calendar ------------------------------------------------------------------------

  /** Instants are nanoseconds since the start of year 0 of the Gregorian calendar. */
  type Instant = int

  const NS_PER_MS := 1_000_000
  const MS_PER_DAY := 86_400_000

  function Ms(t: Instant): int { t / NS_PER_MS }

  predicate Leap(y: int) { y % 4 == 0 && (y % 100 != 0 || y % 400 == 0) }

  function YearLength(y: int): int { if Leap(y) then 366 else 365 }

  function MonthLength(y: int, m: int): int {
    if m == 2 then (if Leap(y) then 29 else 28)
    else if m == 4 || m == 6 || m == 9 || m == 11 then 30
    else 31
  }

  function DaysBeforeYear(y: nat): nat {
    if y == 0 then 0 else DaysBeforeYear(y - 1) + YearLength(y - 1)
  }

  function DaysBeforeMonth(y: int, m: int): int
    requires 1 <= m <= 13
  {
    if m == 1 then 0 else DaysBeforeMonth(y, m - 1) + MonthLength(y, m - 1)
  }

  datatype Civil = Civil(year: nat, month: nat, day: nat, hour: nat, minute: nat, second: nat, ms: nat) {
    predicate Valid() {
      && year <= 9999 && 1 <= month <= 12 && 1 <= day <= MonthLength(year, month)
      && hour < 24 && minute < 60 && second < 60 && ms < 1000
    }

    function Days(): nat
      requires Valid()
    {
      DaysMonthBounds(year, month);
      DaysBeforeYear(year) + DaysBeforeMonth(year, month) + day - 1
    }

    function OfDay(): nat { ((hour * 60 + minute) * 60 + second) * 1000 + ms }

    /** Milliseconds since the start of year 0. */
    function ToMs(): nat
      requires Valid()
    {
      Days() * MS_PER_DAY + OfDay()
    }
  }

  lemma {:induction false} DaysMonthBounds(y: int, m: int)
    requires 1 <= m <= 13
    ensures 28 * (m - 1) <= DaysBeforeMonth(y, m)
  {
    if m > 1 {
      DaysMonthBounds(y, m - 1);
    }
  }

  /** The months of a year fill it. */
  lemma MonthsFillTheYear(y: nat)
    ensures DaysBeforeMonth(y, 13) == YearLength(y)
  {
    hide DaysBeforeMonth;
    CalendarStarts(y);
    MonthEnds(y, 1);
    MonthEnds(y, 2);
    MonthEnds(y, 3);
    MonthEnds(y, 4);
    MonthEnds(y, 5);
    MonthEnds(y, 6);
    MonthEnds(y, 7);
    MonthEnds(y, 8);
    MonthEnds(y, 9);
    MonthEnds(y, 10);
    MonthEnds(y, 11);
    MonthEnds(y, 12);
  }

  /** The first day of each month, counted from the start of the year. */
  lemma MonthsStart(y: nat)
    ensures var leap := if Leap(y) then 1 else 0;
      && DaysBeforeMonth(y, 2) == 31 && DaysBeforeMonth(y, 3) == 59 + leap
      && DaysBeforeMonth(y, 4) == 90 + leap && DaysBeforeMonth(y, 5) == 120 + leap
      && DaysBeforeMonth(y, 6) == 151 + leap && DaysBeforeMonth(y, 7) == 181 + leap
      && DaysBeforeMonth(y, 8) == 212 + leap && DaysBeforeMonth(y, 9) == 243 + leap
      && DaysBeforeMonth(y, 10) == 273 + leap && DaysBeforeMonth(y, 11) == 304 + leap
      && DaysBeforeMonth(y, 12) == 334 + leap && DaysBeforeMonth(y, 13) == 365 + leap
  {
    hide DaysBeforeMonth, Leap;
    CalendarStarts(y);
    MonthEnds(y, 1);
    MonthEnds(y, 2);
    MonthEnds(y, 3);
    MonthEnds(y, 4);
    MonthEnds(y, 5);
    MonthEnds(y, 6);
    MonthEnds(y, 7);
    MonthEnds(y, 8);
    MonthEnds(y, 9);
    MonthEnds(y, 10);
    MonthEnds(y, 11);
    MonthEnds(y, 12);
  }

  /** The recurrence is the usual closed form of the Gregorian calendar. */
  lemma {:induction false} DaysBeforeYearClosedForm(y: nat)
    ensures DaysBeforeYear(y) == 365 * y + LeapsBefore(y)
  {
    if y > 0 {
      DaysBeforeYearClosedForm(y - 1);
      NextLeaps(y - 1);
    }
  }

  function LeapsBefore(y: nat): int { (y + 3) / 4 - (y + 99) / 100 + (y + 399) / 400 }

  lemma NextLeaps(y: nat)
    ensures LeapsBefore(y + 1) == LeapsBefore(y) + if Leap(y) then 1 else 0
  {
    NextFour(y);
    NextCentury(y);
    Multiples(y);
    assert (y + 400) / 400 == (y + 399) / 400 + if y % 400 == 0 then 1 else 0;
  }

  lemma NextFour(y: nat)
    ensures (y + 4) / 4 == (y + 3) / 4 + if y % 4 == 0 then 1 else 0
  {
  }

  lemma NextCentury(y: nat)
    ensures (y + 100) / 100 == (y + 99) / 100 + if y % 100 == 0 then 1 else 0
  {
  }

  lemma Multiples(y: nat)
    ensures y % 400 == 0 ==> y % 100 == 0
    ensures y % 100 == 0 ==> y % 4 == 0
  {
    if y % 400 == 0 {
      assert y == 100 * (4 * (y / 400));
    }
    if y % 100 == 0 {
      assert y == 4 * (25 * (y / 100));
    }
  }

  // ----- From an instant to the calendar and back --------------------------------------------------

  function YearFrom(day: nat, y: nat): (r: nat)
    requires DaysBeforeYear(y) <= day
    ensures DaysBeforeYear(r) <= day < DaysBeforeYear(r + 1)
    decreases day - DaysBeforeYear(y)
  {
    if day < DaysBeforeYear(y + 1) then y else YearFrom(day, y + 1)
  }

  function MonthFrom(y: nat, doy: nat, m: nat): (r: nat)
    requires 1 <= m <= 12 && DaysBeforeMonth(y, m) <= doy < DaysBeforeMonth(y, 13)
    ensures 1 <= r <= 12 && DaysBeforeMonth(y, r) <= doy < DaysBeforeMonth(y, r + 1)
    decreases 12 - m
  {
    if m == 12 || doy < DaysBeforeMonth(y, m + 1) then m else MonthFrom(y, doy, m + 1)
  }

  /** The years the format can hold. */
  predicate InRange(t: Instant) {
    t >= 0 && YearFrom(Ms(t) / MS_PER_DAY, 0) <= 9999
  }

  function CivilOf(ms: nat): (c: Civil)
    requires YearFrom(ms / MS_PER_DAY, 0) <= 9999
  {
    var day, rest := ms / MS_PER_DAY, ms % MS_PER_DAY;
    var y := YearFrom(day, 0);
    var doy := day - DaysBeforeYear(y);
    MonthsFillTheYear(y);
    var m := MonthFrom(y, doy, 1);
    Civil(y, m, doy - DaysBeforeMonth(y, m) + 1, rest / 3_600_000, rest / 60_000 % 60, rest / 1000 % 60, rest % 1000)
  }

  lemma TimeParts(rest: nat)
    requires rest < MS_PER_DAY
    ensures rest / 3_600_000 < 24
    ensures rest == ((rest / 3_600_000 * 60 + rest / 60_000 % 60) * 60 + rest / 1000 % 60) * 1000 + rest % 1000
  {
    assert rest / 60_000 / 60 == rest / 3_600_000;
    assert rest / 1000 / 60 == rest / 60_000;
  }

  /** The calendar fields of a millisecond are in range and say exactly that millisecond. */
  lemma CivilOfIsExact(ms: nat)
    requires YearFrom(ms / MS_PER_DAY, 0) <= 9999
    ensures CivilOf(ms).Valid() && CivilOf(ms).ToMs() == ms
  {
    hide DaysBeforeYear, DaysBeforeMonth, MonthLength, MonthFrom;
    CalendarStarts(0);
    var day, rest := ms / MS_PER_DAY, ms % MS_PER_DAY;
    TimeParts(rest);
    var c, y := CivilOf(ms), YearFrom(day, 0);
    MonthsFillTheYear(y);
    CalendarStarts(y);
    MonthEnds(y, c.month);
    assert c.OfDay() == rest;
    assert c.Days() == day;
  }

  lemma MonthEnds(y: int, m: int)
    requires 1 <= m <= 12
    ensures DaysBeforeMonth(y, m + 1) == DaysBeforeMonth(y, m) + MonthLength(y, m)
  {
  }

  lemma CalendarStarts(y: nat)
    ensures DaysBeforeYear(0) == 0 && DaysBeforeMonth(y, 1) == 0
    ensures DaysBeforeYear(y + 1) == DaysBeforeYear(y) + YearLength(y)
  {
  }

  /** Calendar order, field by field. */
  predicate Earlier(a: Civil, b: Civil) {
    FieldsLess(Fields(a), Fields(b))
  }

  lemma {:induction false} YearsAscend(a: nat, b: nat)
    requires a < b
    ensures DaysBeforeYear(a) + YearLength(a) <= DaysBeforeYear(b)
  {
    if a + 1 < b {
      YearsAscend(a, b - 1);
    }
  }

  lemma {:induction false} MonthsAscend(y: int, m: int, n: int)
    requires 1 <= m < n <= 13
    ensures DaysBeforeMonth(y, m) + MonthLength(y, m) <= DaysBeforeMonth(y, n)
  {
    if m + 1 < n {
      MonthsAscend(y, m, n - 1);
    }
  }

  lemma EarlierDay(a: Civil, b: Civil)
    requires a.Valid() && b.Valid()
    requires a.year < b.year || (a.year == b.year && (a.month < b.month || (a.month == b.month && a.day < b.day)))
    ensures a.Days() < b.Days()
  {
    DaysMonthBounds(b.year, b.month);
    if a.year < b.year {
      YearsAscend(a.year, b.year);
      MonthsAscend(a.year, a.month, 13);
      MonthsFillTheYear(a.year);
    } else if a.month < b.month {
      MonthsAscend(a.year, a.month, b.month);
    }
  }

  lemma EarlierIsLess(a: Civil, b: Civil)
    requires a.Valid() && b.Valid() && Earlier(a, b)
    ensures a.ToMs() < b.ToMs()
  {
    FieldsOrder(a, b);
    assert a.OfDay() < MS_PER_DAY && b.OfDay() < MS_PER_DAY;
    if a.year == b.year && a.month == b.month && a.day == b.day {
      assert a.OfDay() < b.OfDay();
    } else {
      EarlierDay(a, b);
    }
  }

  lemma EarlierTotal(a: Civil, b: Civil)
    ensures a == b || Earlier(a, b) || Earlier(b, a)
  {
    FieldsOrder(a, b);
    FieldsOrder(b, a);
  }

  /** The calendar's order is the order of time. */
  lemma CalendarOrder(a: Civil, b: Civil)
    requires a.Valid() && b.Valid()
    ensures Earlier(a, b) <==> a.ToMs() < b.ToMs()
    ensures a == b <==> a.ToMs() == b.ToMs()
  {
    EarlierTotal(a, b);
    if Earlier(a, b) { EarlierIsLess(a, b); }
    if Earlier(b, a) { EarlierIsLess(b, a); }
  }

  // ----- Fixed-width text ----------------------------------------------------------------------

  function Digit(n: nat): (c: char)
    requires n < 10
  {
    ['0', '1', '2', '3', '4', '5', '6', '7', '8', '9'][n]
  }

  function Pow10(w: nat): nat { if w == 0 then 1 else 10 * Pow10(w - 1) }

  function Pad(n: nat, w: nat): (s: string)
    ensures |s| == w
  {
    if w == 0 then "" else Pad(n / 10, w - 1) + [Digit(n % 10)]
  }

  predicate IsDigits(s: string) { forall i | 0 <= i < |s| :: '0' <= s[i] <= '9' }

  function Num(s: string): nat
    requires IsDigits(s)
  {
    if s == "" then 0 else 10 * Num(s[..|s| - 1]) + (s[|s| - 1] as int - '0' as int)
  }

  lemma DigitValue(n: nat)
    requires n < 10
    ensures '0' <= Digit(n) <= '9' && Digit(n) as int - '0' as int == n
  {
  }

  lemma {:induction false} NumOfPad(n: nat, w: nat)
    requires n < Pow10(w)
    ensures IsDigits(Pad(n, w)) && Num(Pad(n, w)) == n
  {
    if w > 0 {
      NumOfPad(n / 10, w - 1);
      DigitValue(n % 10);
      assert Pad(n, w)[..w - 1] == Pad(n / 10, w - 1);
    }
  }

  lemma {:induction false} PadOfNum(s: string)
    requires IsDigits(s)
    ensures Num(s) < Pow10(|s|) && Pad(Num(s), |s|) == s
  {
    if s != "" {
      var front, d := s[..|s| - 1], s[|s| - 1] as int - '0' as int;
      PadOfNum(front);
      DigitValue(d);
      assert Num(s) / 10 == Num(front) && Num(s) % 10 == d;
      assert s == front + [s[|s| - 1]];
      assert Digit(d) == s[|s| - 1];
    }
  }

  /** Text with equally long beginnings compares by the beginnings first. */
  lemma {:induction false} LexSplit(x: string, u: string, y: string, v: string)
    requires |x| == |y|
    ensures Lex(x + u, y + v) <==> Lex(x, y) || (x == y && Lex(u, v))
  {
    if x == "" {
      assert x + u == u && y + v == v;
    } else {
      LexSplit(x[1..], u, y[1..], v);
      assert (x + u)[1..] == x[1..] + u && (y + v)[1..] == y[1..] + v;
      assert x == [x[0]] + x[1..] && y == [y[0]] + y[1..];
    }
  }

  lemma {:induction false} PadOrder(a: nat, b: nat, w: nat)
    requires a < Pow10(w) && b < Pow10(w)
    ensures Lex(Pad(a, w), Pad(b, w)) <==> a < b
  {
    hide Lex, Num, Digit;
    if w == 0 {
      LexTotal("", "");
    } else {
      var p, q, x, y := a / 10, b / 10, a % 10, b % 10;
      PadOrder(p, q, w - 1);
      LexSplit(Pad(p, w - 1), [Digit(x)], Pad(q, w - 1), [Digit(y)]);
      OneDigit(x, y);
      NumOfPad(p, w - 1);
      NumOfPad(q, w - 1);
      Tens(a, b);
    }
  }

  lemma Tens(a: nat, b: nat)
    ensures a < b <==> a / 10 < b / 10 || (a / 10 == b / 10 && a % 10 < b % 10)
  {
  }

  lemma OneDigit(a: nat, b: nat)
    requires a < 10 && b < 10
    ensures Lex([Digit(a)], [Digit(b)]) <==> a < b
  {
    DigitValue(a);
    DigitValue(b);
    assert [Digit(a)][1..] == "" && [Digit(b)][1..] == "";
  }

  /** A fixed-width number followed by its separator. */
  datatype Field = Field(value: nat, width: nat, mark: char)

  function Text(fs: seq<Field>): (s: string) {
    if fs == [] then "" else Pad(fs[0].value, fs[0].width) + [fs[0].mark] + Text(fs[1..])
  }

  predicate FieldsLess(fs: seq<Field>, gs: seq<Field>) {
    fs != [] && gs != [] &&
    (fs[0].value < gs[0].value || (fs[0].value == gs[0].value && FieldsLess(fs[1..], gs[1..])))
  }

  predicate SameLayout(fs: seq<Field>, gs: seq<Field>) {
    |fs| == |gs| && forall i | 0 <= i < |fs| ::
      && fs[i].width == gs[i].width && fs[i].mark == gs[i].mark
      && fs[i].value < Pow10(fs[i].width) && gs[i].value < Pow10(gs[i].width)
  }

  /** Text in one layout compares like its numbers, field by field. */
  lemma {:induction false} TextOrder(fs: seq<Field>, gs: seq<Field>)
    requires SameLayout(fs, gs)
    ensures Lex(Text(fs), Text(gs)) <==> FieldsLess(fs, gs)
  {
    hide Lex, Pad, Num;
    if fs != [] {
      var f, g := fs[0], gs[0];
      TextOrder(fs[1..], gs[1..]);
      PadOrder(f.value, g.value, f.width);
      NumOfPad(f.value, f.width);
      NumOfPad(g.value, g.width);
      var x, y := Pad(f.value, f.width), Pad(g.value, g.width);
      LexSplit(x, [f.mark] + Text(fs[1..]), y, [f.mark] + Text(gs[1..]));
      LexSplit([f.mark], Text(fs[1..]), [f.mark], Text(gs[1..]));
      LexTotal([f.mark], [f.mark]);
      assert Text(fs) == x + ([f.mark] + Text(fs[1..])) && Text(gs) == y + ([f.mark] + Text(gs[1..]));
    } else {
      LexTotal("", "");
    }
  }

  function Fields(c: Civil): seq<Field> {
    [Field(c.year, 4, '-'), Field(c.month, 2, '-'), Field(c.day, 2, 'T'),
     Field(c.hour, 2, ':'), Field(c.minute, 2, ':'), Field(c.second, 2, '.'), Field(c.ms, 3, 'Z')]
  }

  lemma FieldsOrder(a: Civil, b: Civil)
    ensures FieldsLess(Fields(a), Fields(b)) <==>
      (a.year < b.year || (a.year == b.year &&
      (a.month < b.month || (a.month == b.month &&
      (a.day < b.day || (a.day == b.day &&
      (a.hour < b.hour || (a.hour == b.hour &&
      (a.minute < b.minute || (a.minute == b.minute &&
      (a.second < b.second || (a.second == b.second && a.ms < b.ms))))))))))))
  {
    var fs, gs := Fields(a), Fields(b);
    LessFrom(fs, gs, 0);
    LessFrom(fs, gs, 1);
    LessFrom(fs, gs, 2);
    LessFrom(fs, gs, 3);
    LessFrom(fs, gs, 4);
    LessFrom(fs, gs, 5);
    LessFrom(fs, gs, 6);
    assert fs[0..] == fs && gs[0..] == gs;
    assert fs[7..] == [] && gs[7..] == [];
  }

  lemma LessFrom(fs: seq<Field>, gs: seq<Field>, i: nat)
    requires i < |fs| && i < |gs|
    ensures FieldsLess(fs[i..], gs[i..]) <==>
      (fs[i].value < gs[i].value || (fs[i].value == gs[i].value && FieldsLess(fs[i + 1..], gs[i + 1..])))
  {
    assert fs[i..][1..] == fs[i + 1..] && gs[i..][1..] == gs[i + 1..];
  }

  // ----- Format and parse ------------------------------------------------------------------------

  function FormatWireTime(t: Instant): string
    requires InRange(t)
  {
    Text(Fields(CivilOf(Ms(t))))
  }

  lemma Layouts(a: Civil, b: Civil)
    requires a.Valid() && b.Valid()
    ensures SameLayout(Fields(a), Fields(b))
  {
    assert Pow10(0) == 1;
    assert Pow10(1) == 10;
    assert Pow10(2) == 100;
    assert Pow10(3) == 1000;
    assert Pow10(4) == 10000;
  }

  /** Main theorem: for all instants of the years 0000 to 9999 the order of the strings is
      the order of time at millisecond precision. */
  lemma TextOrderIsTimeOrder(a: Instant, b: Instant)
    requires InRange(a) && InRange(b)
    ensures Lex(FormatWireTime(a), FormatWireTime(b)) <==> Ms(a) < Ms(b)
    ensures FormatWireTime(a) == FormatWireTime(b) <==> Ms(a) == Ms(b)
  {
    hide Lex, Text;
    var x, y := CivilOf(Ms(a)), CivilOf(Ms(b));
    CivilOfIsExact(Ms(a));
    CivilOfIsExact(Ms(b));
    Layouts(x, y);
    Layouts(y, x);
    TextOrder(Fields(x), Fields(y));
    TextOrder(Fields(y), Fields(x));
    CalendarOrder(x, y);
    CalendarOrder(y, x);
    LexTotal(FormatWireTime(a), FormatWireTime(b));
  }

  /** Digits and separators of the layout up to the milliseconds. */
  predicate Stamped(s: string) {
    && |s| >= 23
    && s[4] == '-' && s[7] == '-' && s[10] == 'T' && s[13] == ':' && s[16] == ':' && s[19] == '.'
    && IsDigits(s[0..4]) && IsDigits(s[5..7]) && IsDigits(s[8..10])
    && IsDigits(s[11..13]) && IsDigits(s[14..16]) && IsDigits(s[17..19]) && IsDigits(s[20..23])
  }

  /** The wire format: a literal Z and nothing after it. */
  predicate Canonical(s: string) { |s| == 24 && Stamped(s) && s[23] == 'Z' }

  /** The zone the layout also accepts: a sign, two digits, a colon, two digits. */
  predicate IsNumericOffset(x: string) {
    && |x| == 6 && (x[0] == '+' || x[0] == '-') && x[3] == ':' && IsDigits(x[1..3]) && IsDigits(x[4..6])
    && Num(x[1..3]) <= 24 && Num(x[4..6]) <= 60
  }

  function OffsetMinutes(x: string): int
    requires IsNumericOffset(x)
  {
    var m := Num(x[1..3]) * 60 + Num(x[4..6]);
    if x[0] == '-' then -m else m
  }

  function Zone(x: string): Option<int> {
    if x == "Z" then Some(0) else if IsNumericOffset(x) then Some(OffsetMinutes(x)) else None
  }

  function Scan(s: string): Civil
    requires Stamped(s)
  {
    Civil(Num(s[0..4]), Num(s[5..7]), Num(s[8..10]), Num(s[11..13]), Num(s[14..16]), Num(s[17..19]), Num(s[20..23]))
  }

  const NS_PER_MINUTE := 60_000 * NS_PER_MS

  /** A field out of its range (a 30 February, a 24th hour) is an error, and so is any suffix
      that is neither Z nor a numeric offset. */
  function ParseWireTime(s: string): Option<Instant>
    requires Stamped(s)
  {
    var c, zone := Scan(s), Zone(s[23..]);
    if c.Valid() && zone.Some? then Some(c.ToMs() * NS_PER_MS - zone.value * NS_PER_MINUTE) else None
  }

  lemma TextParts(c: Civil)
    ensures Text(Fields(c)) ==
      Pad(c.year, 4) + ['-'] + (Pad(c.month, 2) + ['-'] + (Pad(c.day, 2) + ['T'] + (Pad(c.hour, 2) + [':'] +
        (Pad(c.minute, 2) + [':'] + (Pad(c.second, 2) + ['.'] + (Pad(c.ms, 3) + ['Z']))))))
  {
    var fs := Fields(c);
    assert Text(fs[7..]) == "";
    TextFrom(fs, 6);
    TextFrom(fs, 5);
    TextFrom(fs, 4);
    TextFrom(fs, 3);
    TextFrom(fs, 2);
    TextFrom(fs, 1);
    TextFrom(fs, 0);
    assert fs[0..] == fs;
  }

  lemma TextFrom(fs: seq<Field>, i: nat)
    requires i < |fs|
    ensures Text(fs[i..]) == Pad(fs[i].value, fs[i].width) + [fs[i].mark] + Text(fs[i + 1..])
  {
    assert fs[i..][1..] == fs[i + 1..];
  }

  lemma ScanOfText(c: Civil)
    requires c.Valid()
    ensures Canonical(Text(Fields(c))) && Scan(Text(Fields(c))) == c
  {
    hide Pad, Num;
    Layouts(c, c);
    var fs := Fields(c);
    forall i | 0 <= i < 7
      ensures IsDigits(Pad(fs[i].value, fs[i].width)) && Num(Pad(fs[i].value, fs[i].width)) == fs[i].value
    {
      NumOfPad(fs[i].value, fs[i].width);
    }
    assert fs[0].value == c.year && fs[1].value == c.month && fs[2].value == c.day && fs[3].value == c.hour;
    assert fs[4].value == c.minute && fs[5].value == c.second && fs[6].value == c.ms;
    TextParts(c);
    var s := Text(fs);
    assert s[0..4] == Pad(c.year, 4);
    assert s[5..7] == Pad(c.month, 2);
    assert s[8..10] == Pad(c.day, 2);
    assert s[11..13] == Pad(c.hour, 2);
    assert s[14..16] == Pad(c.minute, 2);
    assert s[17..19] == Pad(c.second, 2);
    assert s[20..23] == Pad(c.ms, 3);
  }

  lemma TextOfScan(s: string)
    requires Canonical(s)
    ensures Text(Fields(Scan(s))) == s
  {
    hide Pad, Num;
    var c := Scan(s);
    TextParts(c);
    PadOfNum(s[0..4]);
    PadOfNum(s[5..7]);
    PadOfNum(s[8..10]);
    PadOfNum(s[11..13]);
    PadOfNum(s[14..16]);
    PadOfNum(s[17..19]);
    PadOfNum(s[20..23]);
    assert s == s[0..4] + [s[4]] + (s[5..7] + [s[7]] + (s[8..10] + [s[10]] + (s[11..13] + [s[13]] +
      (s[14..16] + [s[16]] + (s[17..19] + [s[19]] + (s[20..23] + [s[23]]))))));
  }

  lemma FormatIsCanonical(t: Instant)
    requires InRange(t)
    ensures var s := FormatWireTime(t); Canonical(s) && s[23..] == "Z" && Scan(s) == CivilOf(Ms(t))
  {
    hide Text, Scan, Fields, CivilOf, YearFrom, Num;
    CivilOfIsExact(Ms(t));
    ScanOfText(CivilOf(Ms(t)));
  }

  /** Parsing a formatted instant gives it back, truncated to the millisecond. */
  lemma ParseOfFormat(t: Instant)
    requires InRange(t)
    ensures Canonical(FormatWireTime(t)) && ParseWireTime(FormatWireTime(t)) == Some(t - t % NS_PER_MS)
  {
    hide FormatWireTime, Canonical, Scan, CivilOf, YearFrom, IsNumericOffset;
    CanonicalIsStamped(FormatWireTime(t));
    FormatIsCanonical(t);
    CanonicalIsStamped(FormatWireTime(t));
    CivilOfIsExact(Ms(t));
  }

  lemma CanonicalIsStamped(s: string)
    ensures Canonical(s) ==> Stamped(s) && s[23..] == "Z"
  {
  }

  /** The same body with a numeric offset is accepted too, as an instant that much earlier. */
  lemma OffsetIsAccepted(t: Instant, x: string)
    requires InRange(t) && IsNumericOffset(x)
    ensures var s := FormatWireTime(t);
      |s| == 24 && Stamped(s[..23] + x)
      && ParseWireTime(s[..23] + x) == Some(t - t % NS_PER_MS - OffsetMinutes(x) * NS_PER_MINUTE)
  {
    hide FormatWireTime, CivilOf, YearFrom, IsNumericOffset, Num, IsDigits;
    FormatIsCanonical(t);
    CivilOfIsExact(Ms(t));
    var s := FormatWireTime(t);
    SameStamp(s, s[..23] + x);
    assert (s[..23] + x)[23..] == x;
    NotZulu(x);
  }

  lemma NotZulu(x: string)
    requires IsNumericOffset(x)
    ensures x != "Z"
  {
  }

  lemma SameStamp(s: string, u: string)
    requires Stamped(s) && |u| >= 23 && u[..23] == s[..23]
    ensures Stamped(u) && Scan(u) == Scan(s)
  {
    hide IsDigits, Num;
    assert forall i | 0 <= i < 23 :: u[i] == s[i] by {
      forall i | 0 <= i < 23 ensures u[i] == s[i] {
        assert u[..23][i] == s[..23][i];
      }
    }
    assert u[0..4] == s[0..4] && u[5..7] == s[5..7] && u[8..10] == s[8..10] && u[11..13] == s[11..13];
    assert u[14..16] == s[14..16] && u[17..19] == s[17..19] && u[20..23] == s[20..23];
  }

  /** A string of the layout's shape is accepted exactly when its fields are in range and its
      suffix is Z or a numeric offset; only with Z is it the text of its instant. */
  lemma AcceptedExactly(s: string)
    requires Stamped(s)
    ensures ParseWireTime(s).Some? <==> Scan(s).Valid() && (s[23..] == "Z" || IsNumericOffset(s[23..]))
    ensures ParseWireTime(s).Some? && InRange(ParseWireTime(s).value) ==>
      (FormatWireTime(ParseWireTime(s).value) == s <==> Canonical(s))
  {
    hide Scan, Num, IsDigits, FormatWireTime, InRange;
    if ParseWireTime(s).Some? && InRange(ParseWireTime(s).value) {
      FormatIsCanonical(ParseWireTime(s).value);
      if Canonical(s) {
        FormatOfParse(s);
      }
    }
  }

  /** With offsets text order is not time order: behind every formatted instant, the same body
      at -01:00 sorts before it and lies an hour after it. */
  lemma OffsetPartsTextFromTime(t: Instant)
    requires InRange(t)
    ensures |FormatWireTime(t)| == 24
    ensures var z := FormatWireTime(t);
      var behind := z[..23] + "-01:00";
      && Stamped(z) && Stamped(behind) && Lex(behind, z)
      && ParseWireTime(z).Some? && ParseWireTime(behind) == Some(ParseWireTime(z).value + 60 * NS_PER_MINUTE)
  {
    hide FormatWireTime, CivilOf, YearFrom, Scan;
    var z, x := FormatWireTime(t), "-01:00";
    HourBehind();
    ParseOfFormat(t);
    OffsetIsAccepted(t, x);
    FormatIsCanonical(t);
    assert z == z[..23] + z[23..];
    LexTotal(z[..23], z[..23]);
    LexSplit(z[..23], x, z[..23], "Z");
    assert Lex(x, "Z");
  }

  lemma HourBehind()
    ensures IsNumericOffset("-01:00") && OffsetMinutes("-01:00") == -60
  {
    var x := "-01:00";
    assert x[1..3] == "01" && x[4..6] == "00";
    TwoDigits("01");
    TwoDigits("00");
  }

  lemma TwoDigits(x: string)
    requires |x| == 2 && IsDigits(x)
    ensures Num(x) == 10 * (x[0] as int - '0' as int) + (x[1] as int - '0' as int)
  {
    assert x[..1][..0] == "" && x[..1][0] == x[0];
    assert Num(x[..1]) == x[0] as int - '0' as int;
  }

  /** Formatting a parsed canonical string gives it back, so parsing is one to one. */
  lemma FormatOfParse(s: string)
    requires Canonical(s) && ParseWireTime(s).Some?
    ensures var t := ParseWireTime(s).value; InRange(t) && FormatWireTime(t) == s
  {
    hide Text, Canonical, Scan, Fields, CivilOf, YearFrom, IsNumericOffset;
    CanonicalIsStamped(s);
    TextOfScan(s);
    var c, t := Scan(s), ParseWireTime(s).value;
    assert t == c.ToMs() * NS_PER_MS;
    YearOfCivil(c);
    assert Ms(t) == c.ToMs();
    CivilOfIsExact(Ms(t));
    CalendarOrder(c, CivilOf(Ms(t)));
  }

  lemma YearOfCivil(c: Civil)
    requires c.Valid()
    ensures YearFrom(c.ToMs() / MS_PER_DAY, 0) == c.year
  {
    assert c.OfDay() < MS_PER_DAY;
    assert c.ToMs() / MS_PER_DAY == c.Days();
    var y := YearFrom(c.Days(), 0);
    DaysMonthBounds(c.year, c.month);
    MonthsAscend(c.year, c.month, 13);
    MonthsFillTheYear(c.year);
    if y < c.year {
      YearsAscend(y, c.year);
    } else if c.year < y {
      YearsAscend(c.year, y);
    }
  }
}
