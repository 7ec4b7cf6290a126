/**
 Timestamps as the store keeps them: the isoformat() text of a UTC datetime.

 The store compares these strings byte by byte. Their fraction is left out when it is zero, so
 they are not all equally long; section 5.1 of RFC 3339 promises nothing for such a mix. For
 UTC datetimes string order is still time order, because '+' sorts before '.'.
 */
module IsoTime {

  datatype DateTime = DateTime(year: int, month: int, day: int, hour: int, minute: int, second: int, micro: int)

  predicate IsLeap(year: int) {
    year % 4 == 0 && (year % 100 != 0 || year % 400 == 0)
  }

  function DaysInMonth(year: int, month: int): int {
    if month == 2 then (if IsLeap(year) then 29 else 28)
    else if month in {4, 6, 9, 11} then 30
    else 31
  }

  predicate Valid(t: DateTime) {
    && 1 <= t.year <= 9999 && 1 <= t.month <= 12 && 1 <= t.day <= DaysInMonth(t.year, t.month)
    && 0 <= t.hour < 24 && 0 <= t.minute < 60 && 0 <= t.second < 60 && 0 <= t.micro < 1_000_000
  }

  // ---- chronology: microseconds in the proleptic Gregorian calendar

  function DaysBeforeYear(year: int): int {
    var y := year - 1;
    365 * y + y / 4 - y / 100 + y / 400
  }

  function DaysBeforeMonth(year: int, month: int): int
    requires month >= 1
    decreases month
  {
    if month == 1 then 0 else DaysBeforeMonth(year, month - 1) + DaysInMonth(year, month - 1)
  }

  function Ordinal(t: DateTime): int
    requires t.month >= 1
  {
    DaysBeforeYear(t.year) + DaysBeforeMonth(t.year, t.month) + t.day
  }

  function Micros(t: DateTime): int
    requires t.month >= 1
  {
    (((Ordinal(t) * 24 + t.hour) * 60 + t.minute) * 60 + t.second) * 1_000_000 + t.micro
  }

  lemma {:induction false} MonthsAddUp(year: int, m: int, n: int)
    requires 1 <= m < n
    ensures DaysBeforeMonth(year, m) + DaysInMonth(year, m) <= DaysBeforeMonth(year, n)
    decreases n
  {
    if m < n - 1 {
      MonthsAddUp(year, m, n - 1);
    }
  }

  lemma WholeYear(year: int)
    ensures DaysBeforeMonth(year, 12) + DaysInMonth(year, 12) == if IsLeap(year) then 366 else 365
  {
    assert DaysBeforeMonth(year, 4) == DaysBeforeMonth(year, 3) + 31;
    assert DaysBeforeMonth(year, 7) == DaysBeforeMonth(year, 4) + 91;
    assert DaysBeforeMonth(year, 10) == DaysBeforeMonth(year, 7) + 92;
  }

  lemma Quarters(y: int)
    ensures y / 4 == (y - 1) / 4 + if y % 4 == 0 then 1 else 0
  {
  }

  lemma Centuries(y: int)
    ensures y / 100 == (y - 1) / 100 + if y % 100 == 0 then 1 else 0
    ensures y % 100 == 0 ==> y % 4 == 0
  {
  }

  lemma Cycles(y: int)
    ensures y / 400 == (y - 1) / 400 + if y % 400 == 0 then 1 else 0
    ensures y % 400 == 0 ==> y % 100 == 0
  {
  }

  lemma OneYear(year: int)
    ensures DaysBeforeYear(year + 1) == DaysBeforeYear(year) + if IsLeap(year) then 366 else 365
  {
    Quarters(year);
    Centuries(year);
    Cycles(year);
  }

  lemma {:induction false} YearsAddUp(y: int, z: int)
    requires y < z
    ensures DaysBeforeYear(y) + (if IsLeap(y) then 366 else 365) <= DaysBeforeYear(z)
    decreases z - y
  {
    OneYear(z - 1);
    if y < z - 1 {
      YearsAddUp(y, z - 1);
    }
  }

  predicate EarlierDay(a: DateTime, b: DateTime) {
    a.year < b.year || (a.year == b.year && (a.month < b.month || (a.month == b.month && a.day < b.day)))
  }

  lemma EarlierDayHasSmallerOrdinal(a: DateTime, b: DateTime)
    requires Valid(a) && Valid(b) && EarlierDay(a, b)
    ensures Ordinal(a) < Ordinal(b)
  {
    if a.year < b.year {
      YearsAddUp(a.year, b.year);
      WholeYear(a.year);
      if a.month < 12 {
        MonthsAddUp(a.year, a.month, 12);
      }
      if b.month > 1 {
        MonthsAddUp(b.year, 1, b.month);
      }
    } else if a.month < b.month {
      MonthsAddUp(a.year, a.month, b.month);
    }
  }

  // ---- text

  /** Byte order of ASCII strings, a proper prefix first. */
  predicate Less(a: string, b: string) {
    b != "" && (a == "" || a[0] < b[0] || (a[0] == b[0] && Less(a[1..], b[1..])))
  }

  function Digit(d: int): char
    requires 0 <= d < 10
  {
    '0' + d as char
  }

  /** The last `width` decimal digits of n. */
  function Digits(n: int, width: nat): (s: string)
    requires n >= 0
    ensures |s| == width
  {
    if width == 0 then "" else Digits(n / 10, width - 1) + [Digit(n % 10)]
  }

  function Pow10(n: nat): nat {
    if n == 0 then 1 else 10 * Pow10(n - 1)
  }

  /** A number of fixed width and the separator after it. */
  datatype Field = Field(value: int, width: nat, sep: string)

  predicate Fits(f: Field) {
    0 <= f.value < Pow10(f.width)
  }

  function Render(fields: seq<Field>): string
    requires forall k :: 0 <= k < |fields| ==> Fits(fields[k])
  {
    if fields == [] then ""
    else
      assert Fits(fields[0]);
      Digits(fields[0].value, fields[0].width) + (fields[0].sep + Render(fields[1..]))
  }

  predicate SameLayout(a: seq<Field>, b: seq<Field>) {
    && |a| == |b|
    && forall k :: 0 <= k < |a| ==> Fits(a[k]) && Fits(b[k]) && a[k].width == b[k].width && a[k].sep == b[k].sep
  }

  predicate LexLess(a: seq<Field>, b: seq<Field>)
    requires |a| == |b|
  {
    a != [] && (a[0].value < b[0].value || (a[0].value == b[0].value && LexLess(a[1..], b[1..])))
  }

  function Fraction(micro: int): string
    requires 0 <= micro
  {
    if micro == 0 then "" else "." + Digits(micro, 6)
  }

  function Fields(t: DateTime): seq<Field> {
    [Field(t.year, 4, "-"), Field(t.month, 2, "-"), Field(t.day, 2, "T"),
     Field(t.hour, 2, ":"), Field(t.minute, 2, ":"), Field(t.second, 2, "")]
  }

  lemma FieldsFit(t: DateTime)
    requires Valid(t)
    ensures forall k :: 0 <= k < |Fields(t)| ==> Fits(Fields(t)[k])
  {
    assert Pow10(2) == 100 && Pow10(4) == 10000;
  }

  const OFFSET := "+00:00"

  function IsoFormat(t: DateTime): string
    requires Valid(t)
  {
    FieldsFit(t);
    Render(Fields(t)) + (Fraction(t.micro) + OFFSET)
  }

  lemma {:induction false} LessConcat(a: string, b: string, c: string, d: string)
    requires |a| == |b|
    ensures Less(a + c, b + d) <==> Less(a, b) || (a == b && Less(c, d))
    ensures a + c == b + d <==> a == b && c == d
    decreases |a|
  {
    if a == "" {
      assert a + c == c && b + d == d;
    } else {
      assert (a + c)[1..] == a[1..] + c && (b + d)[1..] == b[1..] + d;
      assert a == [a[0]] + a[1..] && b == [b[0]] + b[1..];
      assert a + c == [a[0]] + (a[1..] + c) && b + d == [b[0]] + (b[1..] + d);
      LessConcat(a[1..], b[1..], c, d);
    }
  }

  lemma {:induction false} DigitsCompareAsNumbers(m: int, n: int, width: nat)
    requires 0 <= m < Pow10(width) && 0 <= n < Pow10(width)
    ensures Less(Digits(m, width), Digits(n, width)) <==> m < n
    ensures Digits(m, width) == Digits(n, width) <==> m == n
  {
    if width > 0 {
      DigitsCompareAsNumbers(m / 10, n / 10, width - 1);
      LessConcat(Digits(m / 10, width - 1), Digits(n / 10, width - 1), [Digit(m % 10)], [Digit(n % 10)]);
    }
  }

  lemma {:induction false} NotLessItself(s: string)
    ensures !Less(s, s)
  {
    if s != "" {
      NotLessItself(s[1..]);
    }
  }

  /** Two numbers of the same width and separator compare first, what follows them next. */
  lemma NumberCompares(m: int, n: int, width: nat, sep: string, p: string, q: string)
    requires 0 <= m < Pow10(width) && 0 <= n < Pow10(width)
    ensures var x, y := Digits(m, width) + (sep + p), Digits(n, width) + (sep + q);
            (Less(x, y) <==> m < n || (m == n && Less(p, q))) && (x == y <==> m == n && p == q)
  {
    DigitsCompareAsNumbers(m, n, width);
    LessConcat(Digits(m, width), Digits(n, width), sep + p, sep + q);
    LessConcat(sep, sep, p, q);
    NotLessItself(sep);
  }

  lemma Reassociate(x: string, y: string, z: string, c: string)
    ensures (x + (y + z)) + c == x + (y + (z + c))
  {
  }

  lemma RenderStep(a: seq<Field>, c: string)
    requires a != [] && forall k :: 0 <= k < |a| ==> Fits(a[k])
    ensures Fits(a[0])
    ensures Render(a) + c == Digits(a[0].value, a[0].width) + (a[0].sep + (Render(a[1..]) + c))
  {
    assert Fits(a[0]);
    Reassociate(Digits(a[0].value, a[0].width), a[0].sep, Render(a[1..]), c);
  }

  lemma EqualByHead(a: seq<Field>, b: seq<Field>)
    requires a != [] && b != []
    ensures a == b <==> a[0] == b[0] && a[1..] == b[1..]
  {
    assert a == [a[0]] + a[1..] && b == [b[0]] + b[1..];
  }

  /** Equally laid out fields compare as text like their values, first difference first. */
  lemma {:induction false} RenderCompares(a: seq<Field>, b: seq<Field>, c: string, d: string)
    requires SameLayout(a, b)
    ensures Less(Render(a) + c, Render(b) + d) <==> LexLess(a, b) || (a == b && Less(c, d))
    ensures Render(a) + c == Render(b) + d <==> a == b && c == d
    decreases |a|
  {
    if a == [] {
      assert Render(a) + c == c && Render(b) + d == d;
    } else {
      RenderStep(a, c);
      RenderStep(b, d);
      NumberCompares(a[0].value, b[0].value, a[0].width, a[0].sep, Render(a[1..]) + c, Render(b[1..]) + d);
      RenderCompares(a[1..], b[1..], c, d);
      EqualByHead(a, b);
      assert a[0] == b[0] <==> a[0].value == b[0].value;
    }
  }

  lemma SixDigits()
    ensures Pow10(6) == 1_000_000
  {
    assert Pow10(3) == 1000;
    assert Pow10(6) == 1000 * Pow10(3);
  }

  lemma FractionStartsWithDot(m: int)
    requires 0 < m < 1_000_000
    ensures Fraction(m) + OFFSET == "." + (Digits(m, 6) + (OFFSET + ""))
  {
  }

  /** The optional fraction with the offset after it compares like the microseconds. */
  lemma TailCompares(m: int, n: int)
    requires 0 <= m < 1_000_000 && 0 <= n < 1_000_000
    ensures Less(Fraction(m) + OFFSET, Fraction(n) + OFFSET) <==> m < n
    ensures Fraction(m) + OFFSET == Fraction(n) + OFFSET <==> m == n
  {
    if m == 0 {
      assert Fraction(m) + OFFSET == OFFSET;
    } else {
      FractionStartsWithDot(m);
    }
    if n == 0 {
      assert Fraction(n) + OFFSET == OFFSET;
    } else {
      FractionStartsWithDot(n);
    }
    NotLessItself(OFFSET);
    assert OFFSET[0] == '+' && '+' < '.';
    if m != 0 && n != 0 {
      SixDigits();
      NumberCompares(m, n, 6, OFFSET, "", "");
      NotLessItself(".");
      LessConcat(".", ".", Digits(m, 6) + (OFFSET + ""), Digits(n, 6) + (OFFSET + ""));
    }
  }

  lemma LexLessUnfolds(a: DateTime, b: DateTime)
    ensures LexLess(Fields(a), Fields(b)) <==>
            (EarlierDay(a, b)
             || (a.year == b.year && a.month == b.month && a.day == b.day
                 && (a.hour < b.hour || (a.hour == b.hour
                 && (a.minute < b.minute || (a.minute == b.minute && a.second < b.second))))))
  {
    var f, g := Fields(a), Fields(b);
    assert f[5..][1..] == [] && g[5..][1..] == [];
    assert LexLess(f[5..], g[5..]) <==> a.second < b.second;
    assert f[4..][1..] == f[5..] && g[4..][1..] == g[5..];
    assert f[3..][1..] == f[4..] && g[3..][1..] == g[4..];
    assert f[2..][1..] == f[3..] && g[2..][1..] == g[3..];
    assert f[1..][1..] == f[2..] && g[1..][1..] == g[2..];
    assert LexLess(f[4..], g[4..]) <==> a.minute < b.minute || (a.minute == b.minute && LexLess(f[5..], g[5..]));
    assert LexLess(f[3..], g[3..]) <==> a.hour < b.hour || (a.hour == b.hour && LexLess(f[4..], g[4..]));
    assert LexLess(f[2..], g[2..]) <==> a.day < b.day || (a.day == b.day && LexLess(f[3..], g[3..]));
    assert LexLess(f[1..], g[1..]) <==> a.month < b.month || (a.month == b.month && LexLess(f[2..], g[2..]));
  }

  lemma LexOrderIsTimeOrder(a: DateTime, b: DateTime)
    requires Valid(a) && Valid(b)
    requires LexLess(Fields(a), Fields(b)) || (Fields(a) == Fields(b) && a.micro < b.micro)
    ensures Micros(a) < Micros(b)
  {
    LexLessUnfolds(a, b);
    if EarlierDay(a, b) {
      EarlierDayHasSmallerOrdinal(a, b);
    } else if Fields(a) == Fields(b) {
      SameFields(a, b);
    }
  }

  lemma SameFields(a: DateTime, b: DateTime)
    ensures Fields(a) == Fields(b) <==> a == b.(micro := a.micro)
  {
    if Fields(a) == Fields(b) {
      forall k | 0 <= k < 6 ensures Fields(a)[k] == Fields(b)[k] {}
      assert Fields(a)[0] == Fields(b)[0] && Fields(a)[1] == Fields(b)[1] && Fields(a)[2] == Fields(b)[2];
      assert Fields(a)[3] == Fields(b)[3] && Fields(a)[4] == Fields(b)[4] && Fields(a)[5] == Fields(b)[5];
    }
  }

  lemma {:induction false} LexTotal(a: seq<Field>, b: seq<Field>)
    requires SameLayout(a, b)
    ensures a == b || LexLess(a, b) || LexLess(b, a)
    decreases |a|
  {
    if a != [] {
      LexTotal(a[1..], b[1..]);
      assert a == [a[0]] + a[1..] && b == [b[0]] + b[1..];
    }
  }

  lemma IsoCompares(a: DateTime, b: DateTime)
    requires Valid(a) && Valid(b)
    ensures Less(IsoFormat(a), IsoFormat(b)) <==>
            LexLess(Fields(a), Fields(b)) || (Fields(a) == Fields(b) && a.micro < b.micro)
    ensures IsoFormat(a) == IsoFormat(b) <==> Fields(a) == Fields(b) && a.micro == b.micro
  {
    FieldsFit(a);
    FieldsFit(b);
    RenderCompares(Fields(a), Fields(b), Fraction(a.micro) + OFFSET, Fraction(b.micro) + OFFSET);
    TailCompares(a.micro, b.micro);
  }

  /** Comparing two stored timestamps as text is comparing the instants they stand for. */
  lemma StringOrderIsTimeOrder(a: DateTime, b: DateTime)
    requires Valid(a) && Valid(b)
    ensures Less(IsoFormat(a), IsoFormat(b)) <==> Micros(a) < Micros(b)
    ensures IsoFormat(a) == IsoFormat(b) <==> Micros(a) == Micros(b)
    ensures IsoFormat(a) == IsoFormat(b) <==> a == b
  {
    IsoCompares(a, b);
    SameFields(a, b);
    FieldsFit(a);
    FieldsFit(b);
    LexTotal(Fields(a), Fields(b));
    if LexLess(Fields(a), Fields(b)) || (Fields(a) == Fields(b) && a.micro < b.micro) {
      LexOrderIsTimeOrder(a, b);
    } else if LexLess(Fields(b), Fields(a)) || (Fields(a) == Fields(b) && b.micro < a.micro) {
      LexOrderIsTimeOrder(b, a);
    } else {
      assert a == b;
    }
  }

  // ---- the scheduler's idempotency keys

  function SlotKey(schedule: string, minute: DateTime): string
    requires Valid(minute)
  {
    schedule + ":" + IsoFormat(minute)
  }

  predicate IsWholeMinute(t: DateTime) {
    Valid(t) && t.second == 0 && t.micro == 0
  }

  lemma WholeMinuteLength(t: DateTime)
    requires IsWholeMinute(t)
    ensures |IsoFormat(t)| == 25
  {
    FieldsFit(t);
    var f := Fields(t);
    assert |Render(f[6..])| == 0;
    assert |Render(f[5..])| == 2 + |Render(f[6..])| by { assert f[5..][1..] == f[6..]; }
    assert |Render(f[4..])| == 3 + |Render(f[5..])| by { assert f[4..][1..] == f[5..]; }
    assert |Render(f[3..])| == 3 + |Render(f[4..])| by { assert f[3..][1..] == f[4..]; }
    assert |Render(f[2..])| == 3 + |Render(f[3..])| by { assert f[2..][1..] == f[3..]; }
    assert |Render(f[1..])| == 3 + |Render(f[2..])| by { assert f[1..][1..] == f[2..]; }
  }

  /** Whatever a schedule's id contains, its key tells the schedule and the minute apart from all others. */
  lemma SlotKeyInjective(s: string, m: DateTime, t: string, n: DateTime)
    requires IsWholeMinute(m) && IsWholeMinute(n)
    requires SlotKey(s, m) == SlotKey(t, n)
    ensures s == t && m == n
  {
    WholeMinuteLength(m);
    WholeMinuteLength(n);
    LessConcat(s + ":", t + ":", IsoFormat(m), IsoFormat(n));
    LessConcat(s, t, ":", ":");
    StringOrderIsTimeOrder(m, n);
  }
}
