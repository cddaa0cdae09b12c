/**
 Seconds to calendar fields and back (BOOT/lib9/ctime.c, BOOT/lib9/tm2sec.c), for the
 zone GMT.  Integers are unbounded.
 */
module Calendar {
  datatype Tm = Tm(sec: int, min: int, hour: int, mday: int, mon: int, year: int, wday: int, yday: int)

  /******* Years and months *******/

  predicate Leap(y: int) {
    y % 4 == 0 && (y % 100 != 0 || y % 400 == 0)
  }

  function YearSize(y: int): int {
    if Leap(y) then 366 else 365
  }

  const MONTHS: seq<int> := [31, 28, 31, 30, 31, 30, 31, 31, 30, 31, 30, 31]
  const LEAPMONTHS: seq<int> := [31, 29, 31, 30, 31, 30, 31, 31, 30, 31, 30, 31]

  function Months(y: int): (m: seq<int>)
    ensures |m| == 12
  {
    if Leap(y) then LEAPMONTHS else MONTHS
  }

  /** The days of the first m months of year y. */
  function DaysToMonth(y: int, m: nat): int
    requires m <= 12
  {
    if m == 0 then 0 else DaysToMonth(y, m - 1) + Months(y)[m - 1]
  }

  /**
   The days from the start of 1970 to the start of year y, in the closed form of
   "Seconds Since the Epoch", section 4.16 of the POSIX.1-2017 Base Definitions.
   */
  function DaysToYear(y: int): int {
    (y - 1970) * 365 + (y - 1969) / 4 - (y - 1901) / 100 + (y - 1601) / 400
  }

  lemma NextYear(y: int)
    ensures DaysToYear(y + 1) == DaysToYear(y) + YearSize(y)
  {
    NextFour(y);
    NextCentury(y);
    NextFourCenturies(y);
  }

  /** The quotients in the closed form go up by one at the multiples. */
  lemma NextFour(y: int)
    ensures (y - 1968) / 4 == (y - 1969) / 4 + if y % 4 == 0 then 1 else 0
  {}

  lemma NextCentury(y: int)
    ensures (y - 1900) / 100 == (y - 1901) / 100 + if y % 100 == 0 then 1 else 0
    ensures y % 100 == 0 ==> y % 4 == 0
  {
    var q, r := y / 100, y % 100;
    OneCentury(q - 19, r);
    if r == 0 {
      OneCentury(q - 20, 99);
      FoursInCentury(q);
    } else {
      OneCentury(q - 19, r - 1);
    }
  }

  lemma OneCentury(q: int, r: int)
    requires 0 <= r < 100
    ensures (100 * q + r) / 100 == q
  {}

  lemma FoursInCentury(q: int)
    ensures (100 * q) % 4 == 0
  {
    assert 100 * q == 4 * (25 * q);
  }

  lemma NextFourCenturies(y: int)
    ensures (y - 1600) / 400 == (y - 1601) / 400 + if y % 400 == 0 then 1 else 0
    ensures y % 400 == 0 ==> y % 100 == 0
  {
    var q, r := y / 400, y % 400;
    FourCenturies(q - 4, r);
    if r == 0 {
      FourCenturies(q - 5, 399);
      HundredsInFour(q);
    } else {
      FourCenturies(q - 4, r - 1);
    }
  }

  lemma FourCenturies(q: int, r: int)
    requires 0 <= r < 400
    ensures (400 * q + r) / 400 == q
  {}

  lemma HundredsInFour(q: int)
    ensures (400 * q) % 100 == 0
  {
    assert 400 * q == 100 * (4 * q);
  }

  lemma MonthsAreYear(y: int)
    ensures DaysToMonth(y, 12) == DaysToMonth(y, 11) + Months(y)[11] == YearSize(y)
  {
    hide Leap;
    var m := Months(y);
    assert DaysToMonth(y, 1) == m[0];
    assert DaysToMonth(y, 3) == m[0] + m[1] + m[2];
    assert DaysToMonth(y, 5) == DaysToMonth(y, 3) + m[3] + m[4];
    assert DaysToMonth(y, 7) == DaysToMonth(y, 5) + m[5] + m[6];
    assert DaysToMonth(y, 9) == DaysToMonth(y, 7) + m[7] + m[8];
    assert DaysToMonth(y, 11) == DaysToMonth(y, 9) + m[9] + m[10];
  }

  /** The usual formula for the day on which a month begins, counted from the first of March. */
  lemma MonthsFormula(y: int, m: nat)
    requires 2 <= m <= 12
    ensures DaysToMonth(y, 1) == 31 && DaysToMonth(y, 2) == if Leap(y) then 60 else 59
    ensures DaysToMonth(y, m) == DaysToMonth(y, 2) + (153 * (m - 2) + 2) / 5
  {
    hide Leap;
    var d := Months(y);
    assert DaysToMonth(y, 1) == d[0] && DaysToMonth(y, 2) == d[0] + d[1];
    assert DaysToMonth(y, 4) == DaysToMonth(y, 3) + d[3] == DaysToMonth(y, 2) + d[2] + d[3];
    assert DaysToMonth(y, 6) == DaysToMonth(y, 5) + d[5] == DaysToMonth(y, 4) + d[4] + d[5];
    assert DaysToMonth(y, 8) == DaysToMonth(y, 7) + d[7] == DaysToMonth(y, 6) + d[6] + d[7];
    assert DaysToMonth(y, 10) == DaysToMonth(y, 9) + d[9] == DaysToMonth(y, 8) + d[8] + d[9];
    assert DaysToMonth(y, 12) == DaysToMonth(y, 11) + d[11] == DaysToMonth(y, 10) + d[10] + d[11];
  }

  lemma {:induction false} MonthsGrow(y: int, m: nat, k: nat)
    requires m < k <= 12
    ensures DaysToMonth(y, m) + Months(y)[m] <= DaysToMonth(y, k)
    decreases k
  {
    if m < k - 1 {
      MonthsGrow(y, m, k - 1);
    }
  }

  /** Years follow each other without overlap. */
  lemma {:induction false} YearsGrow(y: int, z: int)
    requires y < z
    ensures DaysToYear(y) + YearSize(y) <= DaysToYear(z)
    decreases z - y
  {
    NextYear(y);
    hide DaysToYear;
    if y + 1 < z {
      YearsGrow(y + 1, z);
    }
  }

  /******* Times *******/

  /** The remainder and the quotient of C, which round towards zero. */
  function CMod(a: int, b: int): int
    requires b > 0
  {
    if a >= 0 then a % b else -((-a) % b)
  }

  function CDiv(a: int, b: int): int
    requires b > 0
  {
    if a >= 0 then a / b else -((-a) / b)
  }

  /** The date fields belong to day number `day`, counted from the start of 1970. */
  predicate IsDay(tm: Tm, day: int) {
    && 0 <= tm.mon < 12 && 1 <= tm.mday <= Months(tm.year + 1900)[tm.mon]
    && 0 <= tm.yday < YearSize(tm.year + 1900)
    && tm.yday == DaysToMonth(tm.year + 1900, tm.mon) + tm.mday - 1
    && day == DaysToYear(tm.year + 1900) + tm.yday
  }

  predicate IsTime(tm: Tm, hms: int) {
    && 0 <= tm.sec < 60 && 0 <= tm.min < 60 && 0 <= tm.hour < 24
    && hms == tm.hour * 3600 + tm.min * 60 + tm.sec
  }

  /** The weekday as computed: the addend is 4 modulo 7. */
  function WeekDay(day: int): int {
    CMod(day + 7340036, 7)
  }

  /** The fields are those of time t. */
  predicate Describes(tm: Tm, t: int) {
    IsDay(tm, t / 86400) && IsTime(tm, t % 86400) && tm.wday == WeekDay(t / 86400)
  }

  /** The weekday is right, with Thursday for day 0, exactly down to day -7340036, and on
      the Sundays before. */
  lemma WeekDayRight(day: int)
    ensures WeekDay(day) == (day + 4) % 7 <==> day >= -7340036 || (day + 4) % 7 == 0
    ensures 0 <= WeekDay(day) < 7 <==> day >= -7340036 || (day + 4) % 7 == 0
  {
    assert (day + 7340036) % 7 == (day + 4) % 7;
    var a := -(day + 7340036);
    assert a % 7 == 0 <==> (day + 7340036) % 7 == 0;
  }

  /** At most one set of fields describes a time. */
  lemma OneDescription(a: Tm, b: Tm, t: int)
    requires Describes(a, t) && Describes(b, t)
    ensures a == b
  {
    hide DaysToYear;
    hide Leap;
    hide DaysToMonth;
    if a.year < b.year {
      YearsGrow(a.year + 1900, b.year + 1900);
    } else if b.year < a.year {
      YearsGrow(b.year + 1900, a.year + 1900);
    } else if a.mon < b.mon {
      MonthsGrow(a.year + 1900, a.mon, b.mon);
    } else if b.mon < a.mon {
      MonthsGrow(a.year + 1900, b.mon, a.mon);
    }
  }

  /** Seconds as `tm2sec` counts them: years before 1970 count for nothing. */
  function Seconds(tm: Tm): int
    requires tm.mday != 0 ==> tm.mon <= 12
  {
    var year := tm.year + 1900;
    var yday := if tm.mday != 0 then DaysToMonth(year, if tm.mon > 0 then tm.mon else 0) + tm.mday - 1 else tm.yday;
    var days := (if year >= 1970 then DaysToYear(year) else 0) + yday;
    days * 86400 + tm.hour * 3600 + tm.min * 60 + tm.sec
  }

  lemma YearOfDay(tm: Tm, day: int)
    requires IsDay(tm, day)
    ensures day >= 0 <==> tm.year + 1900 >= 1970
  {
    if tm.year + 1900 < 1970 {
      YearsGrow(tm.year + 1900, 1970);
    } else if tm.year + 1900 > 1970 {
      YearsGrow(1970, tm.year + 1900);
    }
  }

  lemma SecondsOfDescribed(tm: Tm, t: int)
    requires Describes(tm, t)
    ensures Seconds(tm) >= 0
    ensures t >= 0 <==> Seconds(tm) == t
  {
    hide Leap;
    hide DaysToMonth;
    hide WeekDay;
    YearOfDay(tm, t / 86400);
    YearsFromEpoch(tm.year + 1900);
    hide DaysToYear;
  }

  lemma YearsFromEpoch(y: int)
    ensures y >= 1970 ==> DaysToYear(y) >= 0
  {
    if y > 1970 {
      YearsGrow(1970, y);
    }
  }

  class Clock {
    /** The month table, toggled and restored by each call, and the static result. */
    const dmsize: array<int>
    var xtime: Tm

    ghost predicate Valid()
      reads this, dmsize
    {
      dmsize.Length == 12 && dmsize[..] == MONTHS
    }

    constructor ()
      ensures Valid() && fresh(dmsize)
    {
      var a := new int[12];
      a[0], a[1], a[2], a[3], a[4], a[5] := 31, 28, 31, 30, 31, 30;
      a[6], a[7], a[8], a[9], a[10], a[11] := 31, 31, 30, 31, 30, 31;
      dmsize := a;
      xtime := Tm(0, 0, 0, 0, 0, 0, 0, 0);
      new;
      assert dmsize[..] == MONTHS;
    }

    /** The year of a day number, and the day within it. */
    method YearOf(day0: int) returns (year: int, day: int)
      ensures 0 <= day < YearSize(year) && day0 == DaysToYear(year) + day
    {
      hide DaysToYear;
      EpochYear();
      day, year := day0, 1970;
      if day >= 0 {
        while day >= YearSize(year)
          invariant day >= 0 && day0 == DaysToYear(year) + day
          decreases day
        {
          NextYear(year);
          day := day - YearSize(year);
          year := year + 1;
        }
      } else {
        while day < 0
          invariant day < YearSize(year) && day0 == DaysToYear(year) + day
          decreases -day
        {
          NextYear(year - 1);
          day := day + YearSize(year - 1);
          year := year - 1;
        }
      }
    }

    /** The month of a day of the year, and the day within it, from 0. */
    method MonthOf(year: int, yday: int) returns (mon: nat, d0: int)
      requires Valid() && 0 <= yday < YearSize(year)
      modifies dmsize
      ensures Valid()
      ensures mon < 12 && 0 <= d0 < Months(year)[mon] && yday == DaysToMonth(year, mon) + d0
    {
      hide Leap;
      if YearSize(year) == 366 {
        dmsize[1] := 29;
      }
      assert dmsize[..] == Months(year);
      MonthsAreYear(year);
      mon, d0 := 0, yday;
      while d0 >= dmsize[mon]
        invariant mon < 12 && d0 >= 0 && yday == DaysToMonth(year, mon) + d0
        invariant dmsize[..] == Months(year)
      {
        d0 := d0 - dmsize[mon];
        mon := mon + 1;
      }
      dmsize[1] := 28;
      assert dmsize[..] == MONTHS;
    }

    /** `gmtime`: the fields of any time, before or after 1970. */
    method Gmtime(tim: int)
      requires Valid()
      modifies this`xtime, dmsize
      ensures Valid() && Describes(xtime, tim)
    {
      hide DaysToYear;
      hide Leap;
      hide DaysToMonth;
      var hms, day := CMod(tim, 86400), CDiv(tim, 86400);
      if hms < 0 {
        hms := hms + 86400;
        day := day - 1;
      }
      assert hms == tim % 86400 && day == tim / 86400;
      xtime := xtime.(sec := CMod(hms, 60));
      var d1 := CDiv(hms, 60);
      xtime := xtime.(min := CMod(d1, 60), hour := CDiv(d1, 60));
      assert IsTime(xtime, hms);
      xtime := xtime.(wday := CMod(day + 7340036, 7));
      var year, yday := YearOf(day);
      xtime := xtime.(year := year - 1900, yday := yday);
      var mon, d0 := MonthOf(year, yday);
      xtime := xtime.(mday := d0 + 1, mon := mon);
    }

    /** `tm2sec` for the zone GMT. */
    method Tm2sec(tm: Tm) returns (secs: int)
      requires tm.mday != 0 ==> tm.mon <= 12
      ensures secs == if Seconds(tm) < 0 then 0 else Seconds(tm)
    {
      hide DaysToYear;
      hide Leap;
      EpochYear();
      secs := 0;
      var year := tm.year + 1900;
      var i := 1970;
      while i < year
        invariant 1970 <= i && (year < 1970 ==> i == 1970) && (year >= 1970 ==> i <= year)
            && secs == DaysToYear(i) * 86400
      {
        NextYear(i);
        secs := secs + YearSize(i) * 86400;
        i := i + 1;
      }
      var yday := tm.yday;
      if tm.mday != 0 {
        yday := 0;
        i := 0;
        while i < tm.mon
          invariant 0 <= i && (i <= tm.mon || i == 0) && i <= 12 && yday == DaysToMonth(year, i)
        {
          yday := yday + Months(year)[i];
          i := i + 1;
        }
        yday := yday + tm.mday - 1;
      }
      secs := secs + yday * 86400;
      secs := secs + tm.hour * 3600 + tm.min * 60 + tm.sec;
      if secs < 0 {
        secs := 0;
      }
    }

    /** Fields and back: the same time exactly for times from 1970 on. */
    method RoundTrip(t: int) returns (secs: int)
      requires Valid()
      modifies this`xtime, dmsize
      ensures Valid() && secs >= 0
      ensures secs == t <==> t >= 0
    {
      hide Seconds;
      hide IsTime;
      hide DaysToYear;
      hide DaysToMonth;
      Gmtime(t);
      SecondsOfDescribed(xtime, t);
      secs := Tm2sec(xtime);
    }

    /** Seconds and back: the same fields, for the fields of any time from 1970 on. */
    method RoundTripBack(tm: Tm, ghost t: nat)
      requires Valid() && Describes(tm, t)
      modifies this`xtime, dmsize
      ensures Valid() && xtime == tm
    {
      hide Seconds;
      hide IsTime;
      hide DaysToYear;
      hide DaysToMonth;
      SecondsOfDescribed(tm, t);
      var secs := Tm2sec(tm);
      Gmtime(secs);
      OneDescription(tm, xtime, t);
    }
  }

  lemma EpochYear()
    ensures DaysToYear(1970) == 0
  {}
}
