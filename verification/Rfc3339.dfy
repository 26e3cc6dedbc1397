/**
 The text the store keeps instants as (internal/store/accounts.go formatTime) and
 the order its queries rest on. Instants are Unix seconds from year 0 on, dates
 the proleptic Gregorian ones Go uses.
 */
module Rfc3339 {
  import opened Collections

  const DAY: nat := 86400

  /** Days from the start of year 0 to 1970-01-01. */
  const EPOCH: nat := 719528

  // ---------------------------------------------------------------------
  // The calendar
  // ---------------------------------------------------------------------

  predicate Leap(y: nat) {
    y % 4 == 0 && (y % 100 != 0 || y % 400 == 0)
  }

  function YearLength(leap: bool): nat {
    if leap then 366 else 365
  }

  /** Days before year y. */
  function DaysBefore(y: nat): nat {
    if y == 0 then 0 else DaysBefore(y - 1) + YearLength(Leap(y - 1))
  }

  function YearFrom(day: nat, y: nat): (r: nat)
    requires DaysBefore(y) <= day
    ensures DaysBefore(r) <= day < DaysBefore(r + 1)
    decreases day - DaysBefore(y)
  {
    if day < DaysBefore(y + 1) then y else YearFrom(day, y + 1)
  }

  function MonthLength(m: nat, leap: bool): nat {
    if m == 2 then (if leap then 29 else 28)
    else if m == 4 || m == 6 || m == 9 || m == 11 then 30
    else 31
  }

  /** Days from month m to the end of the year. */
  function DaysFrom(m: nat, leap: bool): nat
    decreases 13 - m
  {
    if m > 12 then 0 else MonthLength(m, leap) + DaysFrom(m + 1, leap)
  }

  datatype Date = Date(month: nat, day: nat)

  /** The date of day d, counted from the first of month m. */
  function DateFrom(d: nat, m: nat, leap: bool): (r: Date)
    requires 1 <= m <= 12 && d < DaysFrom(m, leap)
    ensures m <= r.month <= 12 && 1 <= r.day <= 31
    decreases 12 - m
  {
    if d < MonthLength(m, leap) then Date(m, d + 1) else DateFrom(d - MonthLength(m, leap), m + 1, leap)
  }

  lemma YearLengths(leap: bool)
    ensures DaysFrom(1, leap) == YearLength(leap)
  {
    assert DaysFrom(10, leap) == 92;
    assert DaysFrom(7, leap) == 184;
    assert DaysFrom(4, leap) == 275;
  }

  predicate Earlier(a: Date, b: Date) {
    a.month < b.month || (a.month == b.month && a.day < b.day)
  }

  /** A date's place in its year. */
  function Place(date: Date, leap: bool): int {
    DaysFrom(1, leap) - DaysFrom(date.month, leap) + date.day
  }

  lemma {:induction false} PlaceOfDate(d: nat, m: nat, leap: bool)
    requires 1 <= m <= 12 && d < DaysFrom(m, leap)
    ensures var r := DateFrom(d, m, leap);
            r.day <= MonthLength(r.month, leap) && Place(r, leap) == DaysFrom(1, leap) - DaysFrom(m, leap) + d + 1
    decreases 12 - m
  {
    var n := MonthLength(m, leap);
    if d >= n {
      PlaceOfDate(d - n, m + 1, leap);
    }
  }

  lemma {:induction false} LaterMonth(m: nat, k: nat, leap: bool)
    requires 1 <= m < k <= 12
    ensures DaysFrom(m, leap) >= MonthLength(m, leap) + DaysFrom(k, leap)
    decreases k
  {
    if m + 1 < k {
      LaterMonth(m, k - 1, leap);
    }
  }

  lemma PlaceOrder(a: Date, b: Date, leap: bool)
    requires 1 <= a.month <= 12 && 1 <= a.day <= MonthLength(a.month, leap)
    requires 1 <= b.month <= 12 && 1 <= b.day <= MonthLength(b.month, leap)
    ensures Earlier(a, b) <==> Place(a, leap) < Place(b, leap)
  {
    if a.month < b.month {
      LaterMonth(a.month, b.month, leap);
    } else if b.month < a.month {
      LaterMonth(b.month, a.month, leap);
    }
  }

  lemma DateOrder(d: nat, e: nat, leap: bool)
    requires d < DaysFrom(1, leap) && e < DaysFrom(1, leap)
    ensures Earlier(DateFrom(d, 1, leap), DateFrom(e, 1, leap)) <==> d < e
    ensures DateFrom(d, 1, leap) == DateFrom(e, 1, leap) <==> d == e
  {
    PlaceOfDate(d, 1, leap);
    PlaceOfDate(e, 1, leap);
    PlaceOrder(DateFrom(d, 1, leap), DateFrom(e, 1, leap), leap);
  }

  // ---------------------------------------------------------------------
  // The text
  // ---------------------------------------------------------------------

  function Digit(n: nat): char
    requires n < 10
  {
    '0' + n as char
  }

  function Two(n: nat): (s: string)
    requires n < 100
    ensures |s| == 2
  {
    [Digit(n / 10), Digit(n % 10)]
  }

  /** At least four digits. */
  function YearText(y: nat): (s: string)
    ensures |s| >= 4
  {
    if y < 10000 then Two(y / 100) + Two(y % 100) else YearText(y / 10) + [Digit(y % 10)]
  }

  /** A two-digit field, the character after it, and the rest. */
  function Field(n: nat, c: char, rest: string): string
    requires n < 100
  {
    Two(n) + ([c] + rest)
  }

  function ClockText(second: nat): string
    requires second < DAY
  {
    Field(second / 3600, ':', Field(second / 60 % 60, ':', Field(second % 60, 'Z', "")))
  }

  function DateText(d: nat, second: nat, leap: bool): string
    requires d < YearLength(leap) && second < DAY
  {
    YearLengths(leap);
    var date := DateFrom(d, 1, leap);
    Field(date.month, '-', Field(date.day, 'T', ClockText(second)))
  }

  /** The clock is past the start of year 0. */
  predicate Dated(t: int) {
    t / DAY + EPOCH >= 0
  }

  function YearOf(t: int): nat
    requires Dated(t)
  {
    YearFrom(t / DAY + EPOCH, 0)
  }

  function Text(t: int): string
    requires Dated(t)
  {
    YearText(YearOf(t)) + ("-" + InYear(t, YearOf(t)))
  }

  /** Month, day and time of an instant of year y. */
  function InYear(t: int, y: nat): string
    requires DaysBefore(y) <= t / DAY + EPOCH < DaysBefore(y + 1)
  {
    DateText(t / DAY + EPOCH - DaysBefore(y), t % DAY, Leap(y))
  }

  // ---------------------------------------------------------------------
  // Its order
  // ---------------------------------------------------------------------

  lemma OneOrder(c: char, d: char)
    ensures Less([c], [d]) <==> c < d
  {
    assert [c][1..] == "" && [d][1..] == "";
  }

  lemma DigitOrder(a: nat, b: nat)
    requires a < 10 && b < 10
    ensures Digit(a) < Digit(b) <==> a < b
    ensures Digit(a) == Digit(b) <==> a == b
  {
    assert Digit(a) as int == 48 + a && Digit(b) as int == 48 + b;
  }

  lemma TwoOrder(a: nat, b: nat)
    requires a < 100 && b < 100
    ensures Less(Two(a), Two(b)) <==> a < b
    ensures Two(a) == Two(b) <==> a == b
  {
    var p, q, x, y := Digit(a / 10), Digit(b / 10), Digit(a % 10), Digit(b % 10);
    DigitOrder(a / 10, b / 10);
    DigitOrder(a % 10, b % 10);
    assert Two(a) == [p] + [x] && Two(b) == [q] + [y];
    LessConcat([p], [q], [x], [y]);
    OneOrder(p, q);
    OneOrder(x, y);
    assert [p] == [q] <==> p == q;
    assert Two(a) == Two(b) <==> p == q && x == y by {
      assert Two(a)[0] == p && Two(a)[1] == x && Two(b)[0] == q && Two(b)[1] == y;
    }
  }

  lemma FieldOrder(a: nat, b: nat, c: char, x: string, y: string)
    requires a < 100 && b < 100
    ensures Less(Field(a, c, x), Field(b, c, y)) <==> a < b || (a == b && Less(x, y))
  {
    LessConcat(Two(a), Two(b), [c] + x, [c] + y);
    LessConcat([c], [c], x, y);
    LessIsStrictOrder([c], [c]);
    TwoOrder(a, b);
  }

  lemma ClockOrder(s: nat, t: nat)
    requires s < DAY && t < DAY
    ensures Less(ClockText(s), ClockText(t)) <==> s < t
  {
    FieldOrder(s / 3600, t / 3600, ':', Field(s / 60 % 60, ':', Field(s % 60, 'Z', "")),
      Field(t / 60 % 60, ':', Field(t % 60, 'Z', "")));
    FieldOrder(s / 60 % 60, t / 60 % 60, ':', Field(s % 60, 'Z', ""), Field(t % 60, 'Z', ""));
    FieldOrder(s % 60, t % 60, 'Z', "", "");
    Sexagesimal(s);
    Sexagesimal(t);
  }

  lemma Sexagesimal(s: nat)
    ensures s == 3600 * (s / 3600) + 60 * (s / 60 % 60) + s % 60
  {
    assert s / 3600 == s / 60 / 60;
  }

  lemma DateTextOrder(d: nat, s: nat, e: nat, t: nat, leap: bool)
    requires d < YearLength(leap) && e < YearLength(leap) && s < DAY && t < DAY
    ensures Less(DateText(d, s, leap), DateText(e, t, leap)) <==> d < e || (d == e && s < t)
  {
    YearLengths(leap);
    DateOrder(d, e, leap);
    var a, b := DateFrom(d, 1, leap), DateFrom(e, 1, leap);
    FieldOrder(a.month, b.month, '-', Field(a.day, 'T', ClockText(s)), Field(b.day, 'T', ClockText(t)));
    FieldOrder(a.day, b.day, 'T', ClockText(s), ClockText(t));
    ClockOrder(s, t);
  }

  /** The number the four leading digits of a year make. */
  function Lead(y: nat): (r: nat)
    ensures r < 10000
  {
    if y < 10000 then y else Lead(y / 10)
  }

  function Four(y: nat): (s: string)
    requires y < 10000
    ensures |s| == 4
  {
    Two(y / 100) + Two(y % 100)
  }

  lemma FourOrder(a: nat, b: nat)
    requires a < 10000 && b < 10000
    ensures Less(Four(a), Four(b)) <==> a < b
    ensures Four(a) == Four(b) <==> a == b
  {
    LessConcat(Two(a / 100), Two(b / 100), Two(a % 100), Two(b % 100));
    TwoOrder(a / 100, b / 100);
    TwoOrder(a % 100, b % 100);
    assert Four(a)[..2] == Two(a / 100) && Four(a)[2..] == Two(a % 100);
    assert Four(b)[..2] == Two(b / 100) && Four(b)[2..] == Two(b % 100);
  }

  /** A year past 9999 is its four leading digits followed by more digits. */
  lemma {:induction false} YearTextShape(y: nat)
    ensures YearText(y)[..4] == Four(Lead(y))
    ensures if y < 10000 then |YearText(y)| == 4 else |YearText(y)| > 4 && YearText(y)[4] >= '0'
  {
    if y >= 10000 {
      YearTextShape(y / 10);
      assert YearText(y)[..4] == YearText(y / 10)[..4];
    }
  }

  lemma {:induction false} DaysBeforeGrows(y: nat, z: nat)
    requires y < z
    ensures DaysBefore(y + 1) <= DaysBefore(z)
  {
    if y + 1 < z {
      DaysBeforeGrows(y, z - 1);
    }
  }

  lemma YearOrder(t: int, u: int)
    requires Dated(t) && Dated(u)
    ensures YearOf(t) < YearOf(u) ==> t / DAY < u / DAY
  {
    if YearOf(t) < YearOf(u) {
      DaysBeforeGrows(YearOf(t), YearOf(u));
    }
  }

  lemma YearDecides(y: nat, z: nat, x: string, w: string)
    requires z < 10000
    ensures Less(YearText(y) + ("-" + x), YearText(z) + ("-" + w)) <==>
              if y < 10000 then y < z || (y == z && Less(x, w)) else Lead(y) < z
  {
    var front, back := YearText(y)[..4], YearText(y)[4..];
    YearTextShape(y);
    assert YearText(z) == Four(z);
    assert YearText(y) + ("-" + x) == front + (back + ("-" + x));
    LessConcat(front, Four(z), back + ("-" + x), "-" + w);
    FourOrder(Lead(y), z);
    if y < 10000 {
      assert back + ("-" + x) == "-" + x;
      LessConcat("-", "-", x, w);
      LessIsStrictOrder("-", "-");
    } else {
      DigitAfterHyphen(back + ("-" + x), "-" + w);
    }
  }

  lemma DigitAfterHyphen(s: string, t: string)
    requires s != "" && t != "" && s[0] >= '0' && t[0] == '-'
    ensures !Less(s, t)
  {
  }

  lemma InYearOrder(t: int, u: int, y: nat)
    requires DaysBefore(y) <= t / DAY + EPOCH < DaysBefore(y + 1)
    requires DaysBefore(y) <= u / DAY + EPOCH < DaysBefore(y + 1)
    ensures Less(InYear(t, y), InYear(u, y)) <==> t < u
  {
    assert DaysBefore(y + 1) == DaysBefore(y) + YearLength(Leap(y));
    var d, e := t / DAY + EPOCH - DaysBefore(y), u / DAY + EPOCH - DaysBefore(y);
    DateTextOrder(d, t % DAY, e, u % DAY, Leap(y));
    DaySplit(t, u);
  }

  lemma DaySplit(t: int, u: int)
    ensures t < u <==> t / DAY < u / DAY || (t / DAY == u / DAY && t % DAY < u % DAY)
  {
    assert t == DAY * (t / DAY) + t % DAY && u == DAY * (u / DAY) + u % DAY;
  }

  /**
   Against a clock up to year 9999, the text order is the order of time for every
   instant up to year 9999; past it, only the leading four digits of the year count.
   */
  lemma TextOrder(t: int, now: int)
    requires Dated(t) && Dated(now) && YearOf(now) < 10000
    ensures Less(Text(t), Text(now)) <==> if YearOf(t) < 10000 then t < now else Lead(YearOf(t)) < YearOf(now)
  {
    var y, z := YearOf(t), YearOf(now);
    YearDecides(y, z, InYear(t, y), InYear(now, z));
    YearOrder(t, now);
    YearOrder(now, t);
    if y == z {
      InYearOrder(t, now, y);
    }
  }

  lemma TextStartsWithDigit(t: int)
    requires Dated(t)
    ensures Text(t) != "" && Text(t)[0] >= '0'
  {
    var y := YearOf(t);
    YearTextShape(y);
    assert Text(t)[0] == YearText(y)[..4][0];
  }

  // ---------------------------------------------------------------------
  // Two dates
  // ---------------------------------------------------------------------

  lemma {:induction false} DaysBeforeIs(y: nat)
    ensures DaysBefore(y) == 365 * y + (y + 3) / 4 - (y + 99) / 100 + (y + 399) / 400
  {
    if y > 0 {
      DaysBeforeIs(y - 1);
      Next4(y - 1);
      Next100(y - 1);
      Next400(y - 1);
    }
  }

  lemma Next4(y: nat)
    ensures (y + 4) / 4 == (y + 3) / 4 + if y % 4 == 0 then 1 else 0
  {
  }

  lemma Next100(y: nat)
    ensures (y + 100) / 100 == (y + 99) / 100 + if y % 100 == 0 then 1 else 0
    ensures y % 100 == 0 ==> y % 4 == 0
  {
    var q, r := y / 100, y % 100;
    assert y + 100 == 100 * (q + 1) + r;
    assert y + 99 == if r == 0 then 100 * q + 99 else 100 * (q + 1) + (r - 1);
    assert r == 0 ==> y == 4 * (25 * q);
  }

  lemma Next400(y: nat)
    ensures (y + 400) / 400 == (y + 399) / 400 + if y % 400 == 0 then 1 else 0
    ensures y % 400 == 0 ==> y % 100 == 0
  {
    var q, r := y / 400, y % 400;
    assert y + 400 == 400 * (q + 1) + r;
    assert y + 399 == if r == 0 then 400 * q + 399 else 400 * (q + 1) + (r - 1);
    assert r == 0 ==> y == 100 * (4 * q);
  }

  lemma {:induction false} YearUnique(day: nat, y: nat, r: nat)
    requires DaysBefore(r) <= day < DaysBefore(r + 1) && y <= r && DaysBefore(y) <= day
    ensures YearFrom(day, y) == r
    decreases r - y
  {
    if y < r {
      DaysBeforeGrows(y, r);
      YearUnique(day, y + 1, r);
    }
  }

  /** 2026-01-01 and 10000-01-01, in Unix seconds. */
  const NEW_YEAR_2026: int := 1767225600
  const NEW_YEAR_10000: int := 253402300800

  lemma In2026(t: int)
    requires NEW_YEAR_2026 <= t < NEW_YEAR_2026 + DAY
    ensures Dated(t) && YearOf(t) == 2026
  {
    DaysBeforeIs(2026);
    DaysBeforeIs(2027);
    assert t / DAY == 20454;
    YearUnique(20454 + EPOCH, 0, 2026);
  }

  lemma In10000(t: int)
    requires NEW_YEAR_10000 <= t < NEW_YEAR_10000 + DAY
    ensures Dated(t) && YearOf(t) == 10000
  {
    DaysBeforeIs(10000);
    DaysBeforeIs(10001);
    assert t / DAY == 2932897;
    YearUnique(2932897 + EPOCH, 0, 10000);
  }

  /** "10000-..." sorts before "2026-...". */
  lemma FarFutureText(t: int, now: int)
    requires Dated(t) && Dated(now) && YearOf(t) == 10000 && YearOf(now) == 2026
    ensures Less(Text(t), Text(now))
  {
    assert Lead(10000) == 1000;
    TextOrder(t, now);
  }
}
