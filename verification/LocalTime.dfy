/** `easy_localtime`: seconds since 1970 and a zone offset to a date of the Gregorian calendar. */
module LocalTime {
  import Bits

  const DAY := 86400

  // ---- C division, which rounds toward zero

  function CDiv(a: int, b: int): int
    requires b > 0
  {
    if a >= 0 then a / b else -(-a / b)
  }

  function CMod(a: int, b: int): int
    requires b > 0
  {
    a - b * CDiv(a, b)
  }

  /** The `DIV` macro. */
  function FloorDiv(a: int, b: int): int
    requires b > 0
  {
    CDiv(a, b) - if CMod(a, b) < 0 then 1 else 0
  }

  /** It rounds down for either sign. */
  lemma DivIsFloor(a: int, b: int)
    requires b > 0
    ensures FloorDiv(a, b) == a / b
    ensures a >= 0 ==> CDiv(a, b) == a / b && CMod(a, b) == a % b
    ensures CMod(a, b) == 0 <==> a % b == 0
    ensures -b < CMod(a, b) < b
  {
    if a < 0 {
      var q := -a / b;
      var r := -a % b;
      assert -a == b * q + r;
      if r == 0 { Bits.DivModUnique(a, b, -q, 0); } else { Bits.DivModUnique(a, b, -q - 1, b - r); }
    }
  }

  // ---- the calendar, year by year and month by month

  predicate IsLeap(y: int) { y % 4 == 0 && (y % 100 != 0 || y % 400 == 0) }

  function YearLength(y: int): int { if IsLeap(y) then 366 else 365 }

  /** Days from 1 January 1970 to 1 January of year `y`. */
  function YearStart(y: int): int
    decreases if y >= 1970 then y - 1970 else 1970 - y
  {
    if y == 1970 then 0
    else if y > 1970 then YearStart(y - 1) + YearLength(y - 1)
    else YearStart(y + 1) - YearLength(y)
  }

  lemma YearStartNext(y: int)
    ensures YearStart(y + 1) == YearStart(y) + YearLength(y)
  {
  }

  function MonthLength(y: int, m: nat): int {
    if m == 1 then if IsLeap(y) then 29 else 28
    else if m == 3 || m == 5 || m == 8 || m == 10 then 30 else 31
  }

  /** Days from 1 January to the first of month `m`, counted from 0. */
  function MonthStart(y: int, m: nat): int {
    if m == 0 then 0 else MonthStart(y, m - 1) + MonthLength(y, m - 1)
  }

  datatype Tm = Tm(sec: int, min: int, hour: int, mday: int, mon: int, year: int, wday: int, yday: int)

  /** `tm` is the date and time `s` seconds after the beginning of 1970, a Thursday. */
  predicate IsDate(tm: Tm, s: int) {
    var y := tm.year + 1900;
    && 0 <= tm.sec < 60 && 0 <= tm.min < 60 && 0 <= tm.hour < 24
    && 0 <= tm.mon < 12 && 1 <= tm.mday <= MonthLength(y, tm.mon)
    && tm.yday == MonthStart(y, tm.mon) + tm.mday - 1 && 0 <= tm.yday < YearLength(y)
    && (YearStart(y) + tm.yday) * DAY + tm.hour * 3600 + tm.min * 60 + tm.sec == s
    && tm.wday == (4 + YearStart(y) + tm.yday) % 7
  }

  // ---- the calendar is unambiguous

  lemma {:induction false} YearStartMono(a: int, b: int)
    requires a < b
    ensures YearStart(a) + YearLength(a) <= YearStart(b)
    decreases b - a
  {
    YearStartNext(b - 1);
    if a < b - 1 { YearStartMono(a, b - 1); }
  }

  lemma {:induction false} MonthStartMono(y: int, a: nat, b: nat)
    requires a < b
    ensures MonthStart(y, a) + MonthLength(y, a) <= MonthStart(y, b)
  {
    if a < b - 1 { MonthStartMono(y, a, b - 1); }
  }

  /** No two dates are the same second. */
  lemma DateIsUnique(a: Tm, b: Tm, s: int)
    requires IsDate(a, s) && IsDate(b, s)
    ensures a == b
  {
    var ya, yb := a.year + 1900, b.year + 1900;
    var da, db := YearStart(ya) + a.yday, YearStart(yb) + b.yday;
    Bits.DivModUnique(s, DAY, da, a.hour * 3600 + a.min * 60 + a.sec);
    Bits.DivModUnique(s, DAY, db, b.hour * 3600 + b.min * 60 + b.sec);
    assert da == db;
    if ya < yb { YearStartMono(ya, yb); }
    if yb < ya { YearStartMono(yb, ya); }
    assert ya == yb && a.yday == b.yday;
    if a.mon < b.mon { MonthStartMono(ya, a.mon, b.mon); }
    if b.mon < a.mon { MonthStartMono(ya, b.mon, a.mon); }
    ClockIsUnique(a.hour, a.min, a.sec, b.hour, b.min, b.sec);
  }

  lemma ClockIsUnique(h: int, m: int, s: int, h': int, m': int, s': int)
    requires 0 <= m < 60 && 0 <= s < 60 && 0 <= m' < 60 && 0 <= s' < 60
    requires h * 3600 + m * 60 + s == h' * 3600 + m' * 60 + s'
    ensures h == h' && m == m' && s == s'
  {
  }

  // ---- leap years by formula

  function Leaps(y: int): int { y / 4 - y / 100 + y / 400 }

  /** `LEAPS_THRU_END_OF` */
  function LeapsThruEndOf(y: int): (n: int)
    ensures n == Leaps(y)
  {
    DivIsFloor(y, 4);
    DivIsFloor(y, 100);
    DivIsFloor(y, 400);
    FloorDiv(y, 4) - FloorDiv(y, 100) + FloorDiv(y, 400)
  }

  lemma StepDiv(y: int, k: int)
    requires k > 0
    ensures y / k - (y - 1) / k == if y % k == 0 then 1 else 0
  {
    var q, r := y / k, y % k;
    if r == 0 { Bits.DivModUnique(y - 1, k, q - 1, k - 1); } else { Bits.DivModUnique(y - 1, k, q, r - 1); }
  }

  lemma LeapStep(y: int)
    ensures Leaps(y) - Leaps(y - 1) == if IsLeap(y) then 1 else 0
  {
    StepDiv(y, 4);
    StepDiv(y, 100);
    StepDiv(y, 400);
  }

  /** The formula counts what the calendar counts, for any two years. */
  lemma {:induction false} YearsApart(a: int, b: int)
    requires a <= b
    ensures YearStart(b) - YearStart(a) == (b - a) * 365 + Leaps(b - 1) - Leaps(a - 1)
    ensures 0 <= Leaps(b - 1) - Leaps(a - 1) <= b - a
    ensures b - a == 2 ==> Leaps(b - 1) - Leaps(a - 1) <= 1
    decreases b - a
  {
    hide Leaps;
    if a < b {
      YearsApart(a, b - 1);
      YearStartNext(b - 1);
      LeapStep(b - 1);
      if b - a == 2 { LeapStep(a); }
    }
  }

  // ---- the function

  function InRange(y: int, days: int): bool { 0 <= days < YearLength(y) }

  /** What the year loop brings down. */
  function Measure(y: int, days: int): nat {
    if InRange(y, days) then 0 else 1 + if days < 0 then -days else days
  }

  /** One round of the year loop: the day stays the same, the measure falls. */
  lemma YearRound(y: int, days: int, yg: int, days': int)
    requires !InRange(y, days) && yg == y + days / 365
    requires days' == days - ((yg - y) * 365 + Leaps(yg - 1) - Leaps(y - 1))
    ensures YearStart(yg) + days' == YearStart(y) + days
    ensures Measure(yg, days') < Measure(y, days)
  {
    hide Leaps;
    var k := days / 365;
    if days < 0 {
      YearsApart(yg, y);
      if k == -1 { YearStartNext(yg); }
    } else {
      YearsApart(y, yg);
    }
  }

  /** Where the guess of one round lands: looking forward it is never too early, and it steps over
      the year it looks for exactly when there are more leap days on the way than days left over;
      looking back it is never too late, and steps over it exactly when leap days and days left
      over fill the year guessed. */
  lemma StepsOver(y: int, days: int)
    ensures var yg := y + days / 365;
            var passed := Leaps(yg - 1) - Leaps(y - 1);
            var day := YearStart(y) + days;
            && (days >= 0 ==> day < YearStart(yg + 1) && (day < YearStart(yg) <==> days % 365 < passed))
            && (days < 0 ==>
              YearStart(yg) <= day && (YearStart(yg + 1) <= day <==> days % 365 - passed >= YearLength(yg)))
  {
    hide Leaps;
    var yg := y + days / 365;
    YearStartNext(yg);
    if days < 0 { YearsApart(yg, y); } else { YearsApart(y, yg); }
  }

  /** Looking for the last day of 1973 from 1970, the first guess is 1974. */
  lemma StepsOver1973()
    ensures YearStart(1973) + 364 == YearStart(1970) + 1460 < YearStart(1970 + 1460 / 365)
    ensures InRange(1973, 364) && 1970 + 1460 / 365 == 1974
  {
    YearStartNext(1970);
    YearStartNext(1971);
    YearStartNext(1972);
    YearStartNext(1973);
  }

  const MONTHS: seq<int> := [0, 31, 59, 90, 120, 151, 181, 212, 243, 273, 304, 334, 365]
  const LEAP_MONTHS: seq<int> := [0, 31, 60, 91, 121, 152, 182, 213, 244, 274, 305, 335, 366]

  function MonthTable(y: int): seq<int> { if IsLeap(y) then LEAP_MONTHS else MONTHS }

  lemma {:induction false} MonthTableIs(y: int, m: nat)
    requires m <= 12
    ensures |MonthTable(y)| == 13 && MonthTable(y)[m] == MonthStart(y, m)
  {
    if m > 0 { MonthTableIs(y, m - 1); }
  }

  /** A `long` stored in an `int`. */
  function ToInt32(x: int): int { (x + 0x8000_0000) % 0x1_0000_0000 - 0x8000_0000 }

  lemma ToInt32Keeps(x: int)
    ensures ToInt32(x) == x <==> -0x8000_0000 <= x < 0x8000_0000
  {
  }

  method YearOf(days0: int) returns (y: int, days: int)
    ensures InRange(y, days) && YearStart(y) + days == days0
  {
    hide Leaps, YearLength;
    y, days := 1970, days0;
    while days < 0 || days >= YearLength(y)
      invariant YearStart(y) + days == days0
      decreases Measure(y, days)
    {
      DivIsFloor(days, 365);
      var yg := y + CDiv(days, 365) - (if CMod(days, 365) < 0 then 1 else 0);
      var days' := days - ((yg - y) * 365 + LeapsThruEndOf(yg - 1) - LeapsThruEndOf(y - 1));
      YearRound(y, days, yg, days');
      y, days := yg, days';
    }
  }

  method MonthOf(y: int, yday: int) returns (mon: nat, mday: int)
    requires InRange(y, yday)
    ensures mon < 12 && 1 <= mday <= MonthLength(y, mon) && yday == MonthStart(y, mon) + mday - 1
  {
    hide MonthStart, MonthTable;
    MonthTableIs(y, 12);
    YearIsTwelveMonths(y);
    mon := 11;
    MonthTableIs(y, 11);
    FirstMonth(y);
    while yday < MonthTable(y)[mon]
      invariant mon < 12 && yday < MonthStart(y, mon + 1)
      invariant |MonthTable(y)| == 13 && MonthTable(y)[mon] == MonthStart(y, mon)
      decreases mon
    {
      assert mon > 0;
      mon := mon - 1;
      MonthTableIs(y, mon);
    }
    MonthNext(y, mon);
    mday := yday - MonthTable(y)[mon] + 1;
  }

  lemma FirstMonth(y: int)
    ensures MonthStart(y, 0) == 0
  {
  }

  lemma MonthNext(y: int, m: nat)
    ensures MonthStart(y, m + 1) == MonthStart(y, m) + MonthLength(y, m)
  {
  }

  lemma YearIsTwelveMonths(y: int)
    ensures MonthStart(y, 12) == YearLength(y)
  {
    MonthTableIs(y, 12);
  }

  /** For every time and every zone offset: the date of `t - timezone`, unless its year does not fit
      an `int`. */
  method EasyLocaltime(t: int, timezone: int) returns (ok: bool, tm: Tm)
    ensures ok ==> IsDate(tm, t - timezone)
    ensures !ok ==> forall d: Tm | IsDate(d, t - timezone) :: !(-0x8000_0000 <= d.year < 0x8000_0000)
    ensures ok ==> -0x8000_0000 <= tm.year < 0x8000_0000
  {
    hide YearStart, MonthStart, MonthLength, YearLength;
    DivIsFloor(t, DAY);
    var days, rem := CDiv(t, DAY), CMod(t, DAY) - timezone;
    while rem < 0
      invariant days * DAY + rem == t - timezone
      decreases -rem
    {
      rem, days := rem + DAY, days - 1;
    }
    while rem >= DAY
      invariant days * DAY + rem == t - timezone && rem >= 0
    {
      rem, days := rem - DAY, days + 1;
    }
    var hour, left := rem / 3600, rem % 3600;
    var min, sec := left / 60, left % 60;
    DivIsFloor(4 + days, 7);
    var wday := CMod(4 + days, 7);
    if wday < 0 { wday := wday + 7; }
    WeekDay(4 + days, wday);
    ghost var day := days;
    var y;
    y, days := YearOf(days);
    var mon, mday := MonthOf(y, days);
    var full := Tm(sec, min, hour, mday, mon, y - 1900, wday, days);
    assert IsDate(full, t - timezone);
    ToInt32Keeps(y - 1900);
    tm := full.(year := ToInt32(y - 1900));
    ok := tm.year == y - 1900;
    if !ok {
      forall d: Tm | IsDate(d, t - timezone) ensures !(-0x8000_0000 <= d.year < 0x8000_0000) {
        DateIsUnique(d, full, t - timezone);
      }
    }
  }

  lemma WeekDay(a: int, w: int)
    requires 0 <= w < 7 && (w == CMod(a, 7) || w == CMod(a, 7) + 7)
    ensures w == a % 7
  {
    if w == CMod(a, 7) { Bits.DivModUnique(a, 7, CDiv(a, 7), w); } else { Bits.DivModUnique(a, 7, CDiv(a, 7) - 1, w); }
  }
}
