/** The one storage format for an instant, and the order of its strings: _time.py. */
module Stamp {
  import opened Wrappers
  import opened Text

  /** An instant in UTC, as a calendar and a clock show it. */
  datatype Instant = Instant(year: nat, month: nat, day: nat, hour: nat, minute: nat, second: nat, micro: nat) {
    predicate Valid() {
      && 1 <= year <= 9999 && 1 <= month <= 12 && 1 <= day <= DaysInMonth(year, month)
      && hour < 24 && minute < 60 && second < 60 && micro < 1_000_000
    }
  }

  predicate IsLeap(year: nat) {
    year % 4 == 0 && (year % 100 != 0 || year % 400 == 0)
  }

  function DaysInMonth(year: nat, month: nat): nat
    requires 1 <= month <= 12
  {
    if month == 2 then (if IsLeap(year) then 29 else 28)
    else if month == 4 || month == 6 || month == 9 || month == 11 then 30
    else 31
  }

  function DaysBeforeMonth(year: nat, month: nat): nat
    requires 1 <= month <= 12
  {
    if month == 1 then 0 else DaysBeforeMonth(year, month - 1) + DaysInMonth(year, month - 1)
  }

  function DaysBeforeYear(year: nat): int
    requires year >= 1
  {
    365 * (year - 1) + (year - 1) / 4 - (year - 1) / 100 + (year - 1) / 400
  }

  /** The day's number in the calendar, counted from 1 January of year 1. */
  function DayNumber(i: Instant): int
    requires i.Valid()
  {
    DaysBeforeYear(i.year) + DaysBeforeMonth(i.year, i.month) + i.day
  }

  function SecondOfDay(i: Instant): nat {
    (i.hour * 60 + i.minute) * 60 + i.second
  }

  /** The instant on the line of time, in microseconds. */
  function Micros(i: Instant): int
    requires i.Valid()
  {
    (DayNumber(i) * 86_400 + SecondOfDay(i)) * 1_000_000 + i.micro
  }

  // ----- The format ----------------------------------------------------------------------------

  function Digit(n: nat): char
    requires n < 10
  {
    '0' + n as char
  }

  function Power(width: nat): nat {
    if width == 0 then 1 else 10 * Power(width - 1)
  }

  /** `n`, in decimal, in a fixed width. */
  function Digits(n: nat, width: nat): (s: string)
    ensures |s| == width
  {
    if width == 0 then "" else Digits(n / 10, width - 1) + [Digit(n % 10)]
  }

  /** The one part of variable width: absent on a whole second. */
  function Fraction(i: Instant): string {
    if i.micro == 0 then "+00:00" else "." + (Digits(i.micro, 6) + "+00:00")
  }

  function FromSecond(i: Instant): string { Digits(i.second, 2) + Fraction(i) }

  function FromMinute(i: Instant): string { Digits(i.minute, 2) + (":" + FromSecond(i)) }

  function FromHour(i: Instant): string { Digits(i.hour, 2) + (":" + FromMinute(i)) }

  function FromDay(i: Instant): string { Digits(i.day, 2) + ("T" + FromHour(i)) }

  function FromMonth(i: Instant): string { Digits(i.month, 2) + ("-" + FromDay(i)) }

  /** `stamp`: `isoformat` of an instant in UTC. */
  function Stamp(i: Instant): string { Digits(i.year, 4) + ("-" + FromMonth(i)) }

  // ----- The order of the strings --------------------------------------------------------------

  lemma {:induction false} DigitsDiffer(x: nat, y: nat, width: nat) returns (n: nat)
    requires x < y < Power(width)
    ensures n < width && Digits(x, width)[..n] == Digits(y, width)[..n] && Digits(x, width)[n] < Digits(y, width)[n]
  {
    var a, b := Digits(x / 10, width - 1), Digits(y / 10, width - 1);
    if x / 10 == y / 10 {
      n := width - 1;
    } else {
      n := DigitsDiffer(x / 10, y / 10, width - 1);
      assert Digits(x, width)[..n] == a[..n] && Digits(y, width)[..n] == b[..n];
    }
  }

  lemma {:induction false} CommonPrefix(p: string, s: string, t: string)
    ensures SortsBefore(p + s, p + t) <==> SortsBefore(s, t)
  {
    if p == "" {
      assert p + s == s && p + t == t;
    } else {
      assert (p + s)[1..] == p[1..] + s && (p + t)[1..] == p[1..] + t;
      CommonPrefix(p[1..], s, t);
    }
  }

  lemma SmallerFieldFirst(x: nat, y: nat, width: nat, s: string, t: string)
    requires x < y < Power(width)
    ensures SortsBefore(Digits(x, width) + s, Digits(y, width) + t)
  {
    var n := DigitsDiffer(x, y, width);
    var a, b := Digits(x, width) + s, Digits(y, width) + t;
    assert a[..n] == Digits(x, width)[..n] && b[..n] == Digits(y, width)[..n];
    FirstDifference(a, b, n);
  }

  /** A field of fixed width decides the order, unless it is the same. */
  lemma FieldOrder(x: nat, y: nat, width: nat, s: string, t: string)
    requires x < Power(width) && y < Power(width)
    ensures SortsBefore(Digits(x, width) + s, Digits(y, width) + t) <==> x < y || (x == y && SortsBefore(s, t))
  {
    if x < y {
      SmallerFieldFirst(x, y, width, s, t);
    } else if y < x {
      SmallerFieldFirst(y, x, width, t, s);
      BeforeIsTotal(Digits(x, width) + s, Digits(y, width) + t);
    } else {
      CommonPrefix(Digits(x, width), s, t);
    }
  }

  lemma Powers()
    ensures Power(2) == 100 && Power(4) == 10_000 && Power(6) == 1_000_000
  {
    assert Power(1) == 10 && Power(3) == 1_000 && Power(5) == 100_000;
  }

  /** A whole second sorts before the same second with a fraction, because `+` sorts before `.`. */
  lemma FractionOrder(a: Instant, b: Instant)
    requires a.Valid() && b.Valid()
    ensures SortsBefore(Fraction(a), Fraction(b)) <==> a.micro < b.micro
  {
    Powers();
    if a.micro == 0 && b.micro == 0 {
      BeforeIsTotal(Fraction(a), Fraction(b));
    } else if a.micro > 0 && b.micro > 0 {
      var s, t := Digits(a.micro, 6) + "+00:00", Digits(b.micro, 6) + "+00:00";
      CommonPrefix(".", s, t);
      FieldOrder(a.micro, b.micro, 6, "+00:00", "+00:00");
      BeforeIsTotal("+00:00", "+00:00");
    }
  }

  /** Later by the clock, of two instants. */
  predicate ClockBefore(a: Instant, b: Instant) {
    a.hour < b.hour || (a.hour == b.hour &&
    (a.minute < b.minute || (a.minute == b.minute &&
    (a.second < b.second || (a.second == b.second && a.micro < b.micro)))))
  }

  predicate DateBefore(a: Instant, b: Instant) {
    a.year < b.year || (a.year == b.year && (a.month < b.month || (a.month == b.month && a.day < b.day)))
  }

  predicate SameDate(a: Instant, b: Instant) {
    a.year == b.year && a.month == b.month && a.day == b.day
  }

  lemma ClockOrder(a: Instant, b: Instant)
    requires a.Valid() && b.Valid()
    ensures SortsBefore(FromHour(a), FromHour(b)) <==> ClockBefore(a, b)
  {
    Powers();
    FractionOrder(a, b);
    FieldOrder(a.second, b.second, 2, Fraction(a), Fraction(b));
    CommonPrefix(":", FromSecond(a), FromSecond(b));
    FieldOrder(a.minute, b.minute, 2, ":" + FromSecond(a), ":" + FromSecond(b));
    CommonPrefix(":", FromMinute(a), FromMinute(b));
    FieldOrder(a.hour, b.hour, 2, ":" + FromMinute(a), ":" + FromMinute(b));
  }

  lemma StampOrder(a: Instant, b: Instant)
    requires a.Valid() && b.Valid()
    ensures SortsBefore(Stamp(a), Stamp(b)) <==> DateBefore(a, b) || (SameDate(a, b) && ClockBefore(a, b))
  {
    Powers();
    ClockOrder(a, b);
    CommonPrefix("T", FromHour(a), FromHour(b));
    FieldOrder(a.day, b.day, 2, "T" + FromHour(a), "T" + FromHour(b));
    CommonPrefix("-", FromDay(a), FromDay(b));
    FieldOrder(a.month, b.month, 2, "-" + FromDay(a), "-" + FromDay(b));
    CommonPrefix("-", FromMonth(a), FromMonth(b));
    FieldOrder(a.year, b.year, 4, "-" + FromMonth(a), "-" + FromMonth(b));
  }

  // ----- The order of the instants -------------------------------------------------------------

  lemma {:induction false} MonthsInOrder(year: nat, m: nat, n: nat)
    requires 1 <= m < n <= 12
    ensures DaysBeforeMonth(year, m) + DaysInMonth(year, m) <= DaysBeforeMonth(year, n)
  {
    if m < n - 1 {
      MonthsInOrder(year, m, n - 1);
    }
  }

  lemma YearLength(year: nat)
    requires year >= 1
    ensures DaysBeforeMonth(year, 12) + 31 == if IsLeap(year) then 366 else 365
    ensures DaysBeforeYear(year + 1) == DaysBeforeYear(year) + if IsLeap(year) then 366 else 365
  {
    assert DaysBeforeMonth(year, 2) == 31;
    assert DaysBeforeMonth(year, 3) == if IsLeap(year) then 60 else 59;
    assert DaysBeforeMonth(year, 5) == DaysBeforeMonth(year, 3) + 61;
    assert DaysBeforeMonth(year, 7) == DaysBeforeMonth(year, 5) + 61;
    assert DaysBeforeMonth(year, 9) == DaysBeforeMonth(year, 7) + 62;
    assert DaysBeforeMonth(year, 11) == DaysBeforeMonth(year, 9) + 61;
    LeapStep(year);
  }

  lemma LeapStep(year: nat)
    requires year >= 1
    ensures year / 4 - (year - 1) / 4 == if year % 4 == 0 then 1 else 0
    ensures year / 100 - (year - 1) / 100 == if year % 100 == 0 then 1 else 0
    ensures year / 400 - (year - 1) / 400 == if year % 400 == 0 then 1 else 0
  {
  }

  lemma {:induction false} YearsInOrder(y: nat, z: nat)
    requires 1 <= y < z
    ensures DaysBeforeYear(y + 1) <= DaysBeforeYear(z)
  {
    if y < z - 1 {
      YearsInOrder(y, z - 1);
      YearLength(z - 1);
    }
  }

  lemma DayWithinYear(i: Instant)
    requires i.Valid()
    ensures DaysBeforeYear(i.year) < DayNumber(i) <= DaysBeforeYear(i.year + 1)
  {
    YearLength(i.year);
    if i.month < 12 {
      MonthsInOrder(i.year, i.month, 12);
    }
  }

  lemma DatesInOrder(a: Instant, b: Instant)
    requires a.Valid() && b.Valid() && DateBefore(a, b)
    ensures DayNumber(a) < DayNumber(b)
  {
    if a.year < b.year {
      DayWithinYear(a);
      DayWithinYear(b);
      YearsInOrder(a.year, b.year);
    } else if a.month < b.month {
      MonthsInOrder(a.year, a.month, b.month);
    }
  }

  lemma ClockIsSeconds(a: Instant, b: Instant)
    requires a.Valid() && b.Valid()
    ensures SecondOfDay(a) < 86_400
    ensures ClockBefore(a, b) <==>
      SecondOfDay(a) < SecondOfDay(b) || (SecondOfDay(a) == SecondOfDay(b) && a.micro < b.micro)
  {
  }

  lemma MicrosOrder(a: Instant, b: Instant)
    requires a.Valid() && b.Valid()
    ensures Micros(a) < Micros(b) <==> DateBefore(a, b) || (SameDate(a, b) && ClockBefore(a, b))
  {
    ClockIsSeconds(a, b);
    ClockIsSeconds(b, a);
    if DateBefore(a, b) {
      DatesInOrder(a, b);
    } else if DateBefore(b, a) {
      DatesInOrder(b, a);
    }
  }

  /** `stamp` is an order embedding: a comparison of stored timestamps is a comparison of instants. */
  lemma StampIsOrderEmbedding(a: Instant, b: Instant)
    requires a.Valid() && b.Valid()
    ensures SortsBefore(Stamp(a), Stamp(b)) <==> Micros(a) < Micros(b)
    ensures Stamp(a) == Stamp(b) <==> Micros(a) == Micros(b)
  {
    StampOrder(a, b);
    StampOrder(b, a);
    MicrosOrder(a, b);
    MicrosOrder(b, a);
    BeforeIsTotal(Stamp(a), Stamp(b));
  }

  // ----- Reading back --------------------------------------------------------------------------

  predicate AllDigits(s: string) {
    forall i | 0 <= i < |s| :: '0' <= s[i] <= '9'
  }

  function Value(s: string): nat
    requires AllDigits(s)
  {
    if s == "" then 0 else 10 * Value(s[..|s| - 1]) + (s[|s| - 1] as int - '0' as int)
  }

  /** What has been read of a timestamp, and what is left of it. */
  datatype Reading = Failed | Read(fields: seq<nat>, left: string)

  function Number(r: Reading, width: nat): Reading {
    if r.Failed? || |r.left| < width || !AllDigits(r.left[..width]) then Failed
    else Read(r.fields + [Value(r.left[..width])], r.left[width..])
  }

  function Sign(r: Reading, c: char): Reading {
    if r.Failed? || r.left == "" || r.left[0] != c then Failed else Read(r.fields, r.left[1..])
  }

  /** A number and the sign after it. */
  function Field(r: Reading, width: nat, c: char): Reading {
    Sign(Number(r, width), c)
  }

  function Date(s: string): Reading {
    Field(Field(Field(Read([], s), 4, '-'), 2, '-'), 2, 'T')
  }

  /** Down to the second. */
  function Clock(s: string): Reading {
    Number(Field(Field(Date(s), 2, ':'), 2, ':'), 2)
  }

  /** `fromisoformat`, of the two shapes that `stamp` writes. */
  function FromIso(s: string): Option<Instant> {
    WithFraction(Clock(s))
  }

  /** The instant, once the fraction that may be there and the offset are read. */
  function WithFraction(r: Reading): Option<Instant> {
    var whole := if r.Read? && "." <= r.left then Number(Sign(r, '.'), 6) else r;
    if whole.Failed? || whole.left != "+00:00" then None
    else
      var f := whole.fields + [0];
      if |f| < 7 then None else Some(Instant(f[0], f[1], f[2], f[3], f[4], f[5], f[6]))
  }

  /** `value.replace("Z", "+00:00")` */
  function WithOffset(s: string): string {
    if s == "" then "" else (if s[0] == 'Z' then "+00:00" else [s[0]]) + WithOffset(s[1..])
  }

  /** `parse` */
  function Parsed(s: string): Option<Instant> {
    FromIso(WithOffset(s))
  }

  /** As GitHub writes a whole second. */
  function GitHubStamp(i: Instant): string
    requires i.micro == 0
  {
    Stamp(i)[..|Stamp(i)| - 6] + "Z"
  }

  lemma {:induction false} ValueOfDigits(n: nat, width: nat)
    requires n < Power(width)
    ensures AllDigits(Digits(n, width)) && Value(Digits(n, width)) == n
  {
    if width > 0 {
      ValueOfDigits(n / 10, width - 1);
      assert Digits(n, width)[..width - 1] == Digits(n / 10, width - 1);
    }
  }

  predicate Spells(digits: string, n: nat, width: nat) {
    |digits| == width && AllDigits(digits) && Value(digits) == n
  }

  lemma NumberReads(fields: seq<nat>, digits: string, n: nat, left: string, s: string)
    requires Spells(digits, n, |digits|) && s == digits + left
    ensures Number(Read(fields, s), |digits|) == Read(fields + [n], left)
  {
    assert s[..|digits|] == digits && s[|digits|..] == left;
  }

  lemma FieldReads(fields: seq<nat>, digits: string, n: nat, c: char, left: string, s: string)
    requires Spells(digits, n, |digits|) && s == digits + ([c] + left)
    ensures Field(Read(fields, s), |digits|, c) == Read(fields + [n], left)
  {
    NumberReads(fields, digits, n, [c] + left, s);
    assert ([c] + left)[1..] == left;
  }

  lemma FromTheYear(y: string, m: string, d: string, year: nat, month: nat, day: nat, clock: string, s: string,
                    fromMonth: string, fromDay: string)
    requires Spells(y, year, 4) && Spells(m, month, 2) && Spells(d, day, 2)
    requires s == y + ("-" + fromMonth) && fromMonth == m + ("-" + fromDay) && fromDay == d + ("T" + clock)
    ensures Field(Field(Field(Read([], s), 4, '-'), 2, '-'), 2, 'T') == Read([year, month, day], clock)
  {
    FieldReads([], y, year, '-', fromMonth, s);
    FieldReads([year], m, month, '-', fromDay, fromMonth);
    FieldReads([year, month], d, day, 'T', clock, fromDay);
    assert [] + [year] == [year] && [year] + [month] == [year, month] && [year, month] + [day] == [year, month, day];
  }

  lemma FromTheHour(date: seq<nat>, h: string, m: string, sec: string, hour: nat, minute: nat, second: nat,
                    fraction: string, s: string, fromMinute: string, fromSecond: string)
    requires Spells(h, hour, 2) && Spells(m, minute, 2) && Spells(sec, second, 2)
    requires s == h + (":" + fromMinute) && fromMinute == m + (":" + fromSecond) && fromSecond == sec + fraction
    ensures Number(Field(Field(Read(date, s), 2, ':'), 2, ':'), 2)
            == Read(date + [hour] + [minute] + [second], fraction)
  {
    FieldReads(date, h, hour, ':', fromMinute, s);
    FieldReads(date + [hour], m, minute, ':', fromSecond, fromMinute);
    NumberReads(date + [hour] + [minute], sec, second, fraction, fromSecond);
  }

  lemma DigitsSpell(n: nat, width: nat)
    requires n < Power(width)
    ensures Spells(Digits(n, width), n, width)
  {
    ValueOfDigits(n, width);
  }

  lemma DateReads(i: Instant)
    requires i.Valid()
    ensures Date(Stamp(i)) == Read([i.year, i.month, i.day], FromHour(i))
  {
    Powers();
    var y, m, d := Digits(i.year, 4), Digits(i.month, 2), Digits(i.day, 2);
    DigitsSpell(i.year, 4);
    DigitsSpell(i.month, 2);
    DigitsSpell(i.day, 2);
    FromTheYear(y, m, d, i.year, i.month, i.day, FromHour(i), Stamp(i), FromMonth(i), FromDay(i));
  }

  lemma TimeReads(i: Instant, date: seq<nat>, s: string)
    requires i.Valid() && Date(s) == Read(date, FromHour(i))
    ensures Clock(s) == Read(date + [i.hour] + [i.minute] + [i.second], Fraction(i))
  {
    Powers();
    var h, m, sec := Digits(i.hour, 2), Digits(i.minute, 2), Digits(i.second, 2);
    DigitsSpell(i.hour, 2);
    DigitsSpell(i.minute, 2);
    DigitsSpell(i.second, 2);
    FromTheHour(date, h, m, sec, i.hour, i.minute, i.second, Fraction(i), FromHour(i), FromMinute(i), FromSecond(i));
  }

  lemma FractionReads(fields: seq<nat>, i: Instant)
    requires 0 < i.micro < Power(6)
    ensures Number(Sign(Read(fields, Fraction(i)), '.'), 6) == Read(fields + [i.micro], "+00:00")
  {
    DigitsSpell(i.micro, 6);
    var left := Digits(i.micro, 6) + "+00:00";
    assert Fraction(i)[0] == '.' && Fraction(i)[1..] == left;
    NumberReads(fields, Digits(i.micro, 6), i.micro, "+00:00", left);
  }

  /** What follows the second is read for what it is. */
  lemma RestReads(i: Instant, fields: seq<nat>)
    requires i.Valid() && fields == [i.year, i.month, i.day, i.hour, i.minute, i.second]
    ensures WithFraction(Read(fields, Fraction(i))) == Some(i)
  {
    if i.micro > 0 {
      Powers();
      FractionReads(fields, i);
    }
  }

  lemma FromTheDate(s: string, i: Instant, date: seq<nat>)
    requires i.Valid() && date == [i.year, i.month, i.day] && Date(s) == Read(date, FromHour(i))
    ensures FromIso(s) == Some(i)
  {
    var fields := date + [i.hour] + [i.minute] + [i.second];
    TimeReads(i, date, s);
    assert fields == [i.year, i.month, i.day, i.hour, i.minute, i.second];
    RestReads(i, fields);
  }

  lemma IsoReadsBack(i: Instant)
    requires i.Valid()
    ensures FromIso(Stamp(i)) == Some(i)
  {
    DateReads(i);
    FromTheDate(Stamp(i), i, [i.year, i.month, i.day]);
  }

  lemma {:induction false} OffsetKept(s: string, t: string)
    requires 'Z' !in s
    ensures WithOffset(s + t) == s + WithOffset(t)
  {
    if s == "" {
      assert s + t == t;
    } else {
      assert s[0] in s && (s + t)[1..] == s[1..] + t;
      OffsetKept(s[1..], t);
    }
  }

  lemma {:induction false} DigitsHaveNoZ(n: nat, width: nat)
    ensures 'Z' !in Digits(n, width)
  {
    if width > 0 {
      DigitsHaveNoZ(n / 10, width - 1);
    }
  }

  lemma NoZBefore(n: nat, width: nat, c: char, rest: string, s: string)
    requires c != 'Z' && 'Z' !in rest && s == Digits(n, width) + ([c] + rest)
    ensures 'Z' !in s
  {
    DigitsHaveNoZ(n, width);
  }

  lemma StampHasNoZ(i: Instant)
    ensures 'Z' !in Stamp(i)
  {
    DigitsHaveNoZ(i.micro, 6);
    DigitsHaveNoZ(i.second, 2);
    NoZBefore(i.minute, 2, ':', FromSecond(i), FromMinute(i));
    NoZBefore(i.hour, 2, ':', FromMinute(i), FromHour(i));
    NoZBefore(i.day, 2, 'T', FromHour(i), FromDay(i));
    NoZBefore(i.month, 2, '-', FromDay(i), FromMonth(i));
    NoZBefore(i.year, 4, '-', FromMonth(i), Stamp(i));
  }

  lemma Prepend(digits: string, c: char, head: string, end: string, rest: string, s: string)
    requires s == digits + ([c] + rest) && rest == head + end
    ensures s == (digits + [c] + head) + end
  {
  }

  /** The fraction and the offset come last. */
  lemma HeadOf(i: Instant) returns (head: string)
    ensures |head| == 19 && Stamp(i) == head + Fraction(i)
  {
    var end := Fraction(i);
    head := Digits(i.second, 2);
    Prepend(Digits(i.minute, 2), ':', head, end, FromSecond(i), FromMinute(i));
    head := Digits(i.minute, 2) + [':'] + head;
    Prepend(Digits(i.hour, 2), ':', head, end, FromMinute(i), FromHour(i));
    head := Digits(i.hour, 2) + [':'] + head;
    Prepend(Digits(i.day, 2), 'T', head, end, FromHour(i), FromDay(i));
    head := Digits(i.day, 2) + ['T'] + head;
    Prepend(Digits(i.month, 2), '-', head, end, FromDay(i), FromMonth(i));
    head := Digits(i.month, 2) + ['-'] + head;
    Prepend(Digits(i.year, 4), '-', head, end, FromMonth(i), Stamp(i));
    head := Digits(i.year, 4) + ['-'] + head;
  }

  /** Replacing the one "Z" at the end. */
  lemma OffsetAtEnd(head: string, s: string)
    requires 'Z' !in s && s == head + "+00:00"
    ensures WithOffset(s) == s && WithOffset(head + "Z") == s
  {
    OffsetKept(s, "");
    assert s + "" == s;
    assert forall i | 0 <= i < |head| :: s[i] == head[i] && s[i] in s;
    OffsetKept(head, "Z");
    assert WithOffset("Z") == "+00:00" + WithOffset("") == "+00:00";
  }

  lemma OffsetOfStamp(i: Instant)
    ensures WithOffset(Stamp(i)) == Stamp(i)
  {
    StampHasNoZ(i);
    OffsetKept(Stamp(i), "");
    assert Stamp(i) + "" == Stamp(i) && WithOffset("") == "";
  }

  /** What is stored is read back. */
  lemma StampReadsBack(i: Instant)
    requires i.Valid()
    ensures Parsed(Stamp(i)) == Some(i)
  {
    IsoReadsBack(i);
    OffsetOfStamp(i);
  }

  /** So is a whole second as GitHub writes it. */
  lemma GitHubReadsBack(i: Instant)
    requires i.Valid() && i.micro == 0
    ensures Parsed(GitHubStamp(i)) == Some(i)
  {
    var head := HeadOf(i);
    StampHasNoZ(i);
    OffsetAtEnd(head, Stamp(i));
    assert GitHubStamp(i) == head + "Z";
    IsoReadsBack(i);
  }
}
