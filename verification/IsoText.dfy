/** What the timestamps say: read back number by number they give the datetime, and minutes count on. */
module IsoText {
  import opened IsoTime
  import opened Scheduler

  /** A decimal number, as read from left to right. */
  function Read(s: string): int {
    if s == "" then 0 else 10 * Read(s[..|s| - 1]) + (s[|s| - 1] as int - '0' as int)
  }

  lemma {:induction false} DigitsRead(n: int, width: nat)
    requires 0 <= n < Pow10(width)
    ensures Read(Digits(n, width)) == n
    ensures forall k :: 0 <= k < width ==> '0' <= Digits(n, width)[k] <= '9'
  {
    if width > 0 {
      DigitsRead(n / 10, width - 1);
      var s := Digits(n, width);
      assert s[..width - 1] == Digits(n / 10, width - 1) && s[width - 1] == Digit(n % 10);
    }
  }

  /** The number that s begins with, its separator, and what follows. */
  predicate Begins(s: string, width: nat, value: int, sep: string, rest: string) {
    width + |sep| <= |s| && Read(s[..width]) == value && s[width..width + |sep|] == sep && s[width + |sep|..] == rest
    && forall k :: 0 <= k < width ==> '0' <= s[k] <= '9'
  }

  lemma FieldBegins(f: Field, rest: string)
    requires Fits(f)
    ensures Begins(Digits(f.value, f.width) + (f.sep + rest), f.width, f.value, f.sep, rest)
  {
    var s, x := Digits(f.value, f.width) + (f.sep + rest), Digits(f.value, f.width);
    DigitsRead(f.value, f.width);
    assert s[..f.width] == x && s[f.width..f.width + |f.sep|] == f.sep && s[f.width + |f.sep|..] == rest;
    assert forall k :: 0 <= k < f.width ==> s[k] == x[k];
  }

  lemma RenderBegins(fields: seq<Field>, tail: string)
    requires fields != [] && forall k :: 0 <= k < |fields| ==> Fits(fields[k])
    ensures Begins(Render(fields) + tail, fields[0].width, fields[0].value, fields[0].sep, Render(fields[1..]) + tail)
  {
    RenderStep(fields, tail);
    FieldBegins(fields[0], Render(fields[1..]) + tail);
  }

  /** The text after the n-th field. */
  function From(t: DateTime, n: nat): string
    requires Valid(t) && n <= 6
  {
    FieldsFit(t);
    Render(Fields(t)[n..]) + (Fraction(t.micro) + OFFSET)
  }

  lemma FieldReads(t: DateTime, n: nat)
    requires Valid(t) && n < 6
    ensures var f := Fields(t)[n]; Begins(From(t, n), f.width, f.value, f.sep, From(t, n + 1))
  {
    FieldsFit(t);
    RenderBegins(Fields(t)[n..], Fraction(t.micro) + OFFSET);
    assert Fields(t)[n..][1..] == Fields(t)[n + 1..];
  }

  lemma TailReads(t: DateTime)
    requires Valid(t)
    ensures From(t, 6) == if t.micro == 0 then "+00:00" else "." + (Digits(t.micro, 6) + "+00:00")
    ensures Read(Digits(t.micro, 6)) == t.micro
  {
    SixDigits();
    DigitsRead(t.micro, 6);
    assert Render([]) + (Fraction(t.micro) + OFFSET) == Fraction(t.micro) + OFFSET;
  }

  /** YYYY-MM-DDTHH:MM:SS, a fraction of six digits unless it is zero, and the offset. */
  lemma IsoReadsBack(t: DateTime)
    returns (month: string, day: string, hour: string, minute: string, second: string, tail: string)
    requires Valid(t)
    ensures Begins(IsoFormat(t), 4, t.year, "-", month) && Begins(month, 2, t.month, "-", day)
    ensures Begins(day, 2, t.day, "T", hour) && Begins(hour, 2, t.hour, ":", minute)
    ensures Begins(minute, 2, t.minute, ":", second) && Begins(second, 2, t.second, "", tail)
    ensures if t.micro == 0 then tail == "+00:00"
            else tail != "" && tail[0] == '.' && Begins(tail[1..], 6, t.micro, "+00:00", "")
  {
    month, day, hour, minute, second, tail := From(t, 1), From(t, 2), From(t, 3), From(t, 4), From(t, 5), From(t, 6);
    DateReads(t);
    TimeReads(t);
    TailIs(t, tail);
  }

  lemma DateReads(t: DateTime)
    requires Valid(t)
    ensures Begins(IsoFormat(t), 4, t.year, "-", From(t, 1))
    ensures Begins(From(t, 1), 2, t.month, "-", From(t, 2)) && Begins(From(t, 2), 2, t.day, "T", From(t, 3))
  {
    assert Fields(t)[0..] == Fields(t);
    FieldReads(t, 0);
    FieldReads(t, 1);
    FieldReads(t, 2);
  }

  lemma TimeReads(t: DateTime)
    requires Valid(t)
    ensures Begins(From(t, 3), 2, t.hour, ":", From(t, 4)) && Begins(From(t, 4), 2, t.minute, ":", From(t, 5))
    ensures Begins(From(t, 5), 2, t.second, "", From(t, 6))
  {
    FieldReads(t, 3);
    FieldReads(t, 4);
    FieldReads(t, 5);
  }

  lemma TailIs(t: DateTime, tail: string)
    requires Valid(t) && tail == From(t, 6)
    ensures if t.micro == 0 then tail == "+00:00"
            else tail != "" && tail[0] == '.' && Begins(tail[1..], 6, t.micro, "+00:00", "")
  {
    TailReads(t);
    if t.micro != 0 {
      SixDigits();
      FieldBegins(Field(t.micro, 6, "+00:00"), "");
      assert tail[1..] == Digits(t.micro, 6) + ("+00:00" + "");
    }
  }

  // ---- the calendar

  /** The calendar's next minute. */
  predicate IsNextMinute(t: DateTime, u: DateTime) {
    IsWholeMinute(t) && IsWholeMinute(u)
    && if t.minute < 59 then u == t.(minute := t.minute + 1)
       else if t.hour < 23 then u == t.(minute := 0, hour := t.hour + 1)
       else if t.day < LastDay(t.year, t.month) then u == t.(minute := 0, hour := 0, day := t.day + 1)
       else if t.month < 12 then u == t.(minute := 0, hour := 0, day := 1, month := t.month + 1)
       else u == t.(minute := 0, hour := 0, day := 1, month := 1, year := t.year + 1)
  }

  /** Thirty days have September, April, June and November. */
  function LastDay(year: int, month: int): int {
    match month
    case 9 => 30
    case 4 => 30
    case 6 => 30
    case 11 => 30
    case 2 => if year % 400 == 0 then 29 else if year % 100 == 0 then 28 else if year % 4 == 0 then 29 else 28
    case _ => 31
  }

  lemma LastDayIsValid(year: int, month: int)
    requires 1 <= month <= 12
    ensures LastDay(year, month) == DaysInMonth(year, month)
  {
    Centuries(year);
    Cycles(year);
  }

  lemma TwelveMonths(year: int)
    ensures DaysBeforeMonth(year, 12) == if IsLeap(year) then 335 else 334
  {
    assert DaysBeforeMonth(year, 4) == if IsLeap(year) then 91 else 90;
    assert DaysBeforeMonth(year, 8) == DaysBeforeMonth(year, 4) + 122;
    assert DaysBeforeMonth(year, 12) == DaysBeforeMonth(year, 8) + 122;
  }

  /** The scheduler's minutes are numbered one after the other, through every month and leap year. */
  lemma NextMinuteIsNextNumber(t: DateTime, u: DateTime)
    requires IsNextMinute(t, u)
    ensures MinuteOf(u) == MinuteOf(t) + 1
  {
    LastDayIsValid(t.year, t.month);
    if t.month == 12 {
      TwelveMonths(t.year);
      OneYear(t.year);
    }
  }
}
