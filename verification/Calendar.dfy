/** The civil date of a count of days since 1970-01-01, by integer arithmetic (src/diagnostics.rs). */
module Calendar {
  datatype Date = Date(year: nat, month: nat, day: nat)

  /** `epoch_days_to_ymd`; every intermediate is a natural number, so no unsigned subtraction goes below zero. */
  function EpochDaysToYmd(days: nat): Date {
    var eraDays: nat := days + 719468;
    var era: nat := eraDays / 146097;
    var doe: nat := eraDays - era * 146097;
    var yoe := YearOfEra(doe);
    var y: nat := yoe + era * 400;
    var doy := DayOfYear(doe, yoe);
    var mp: nat := (5 * doy + 2) / 153;
    var d: nat := DayOfMonth(doy);
    var m: nat := if mp < 10 then mp + 3 else MonthAfterNewYear(mp);
    var y' := if m <= 2 then y + 1 else y;
    Date(y', m, d)
  }

  function YearOfEra(doe: nat): (yoe: nat)
    requires doe < 146097
  {
    (doe - doe / 1460 + doe / 36524 - doe / 146096) / 365
  }

  function DayOfYear(doe: nat, yoe: nat): nat
    requires doe < 146097 && yoe == YearOfEra(doe)
  {
    FormulaMatches(doe);
    doe - (365 * yoe + yoe / 4 - yoe / 100)
  }

  function DayOfMonth(doy: nat): nat {
    doy - (153 * ((5 * doy + 2) / 153) + 2) / 5 + 1
  }

  function MonthAfterNewYear(mp: nat): nat
    requires mp >= 10
  {
    mp - 9
  }

  // ----- a naive calendar -----

  predicate Leap(year: nat) {
    year % 4 == 0 && (year % 100 != 0 || year % 400 == 0)
  }

  function MonthLength(year: nat, month: nat): nat {
    if month == 2 then if Leap(year) then 29 else 28
    else if month == 4 || month == 6 || month == 9 || month == 11 then 30
    else 31
  }

  function NextDay(d: Date): Date {
    if d.day < MonthLength(d.year, d.month) then Date(d.year, d.month, d.day + 1)
    else if d.month < 12 then Date(d.year, d.month + 1, 1)
    else Date(d.year + 1, 1, 1)
  }

  /** `n` single-day steps from 1970-01-01. */
  function Steps(n: nat): Date {
    if n == 0 then Date(1970, 1, 1) else NextDay(Steps(n - 1))
  }

  // ----- days counted from March 1st -----

  /** A day as eras of 400 years, centuries, four-year cycles, years and days, in years that start in March. */
  datatype Parts = Parts(era: nat, c: nat, k: nat, s: nat, t: nat)

  predicate ValidParts(p: Parts) {
    p.c < 4 && p.k < 25 && p.s < 4 && p.t < YearLength(p)
  }

  /** A March year has 366 days when the February at its end has 29. */
  function YearLength(p: Parts): nat {
    if p.s == 3 && (p.k < 24 || p.c == 3) then 366 else 365
  }

  function InEra(p: Parts): nat {
    36524 * p.c + 1461 * p.k + 365 * p.s + p.t
  }

  function YearInEra(p: Parts): nat {
    100 * p.c + 4 * p.k + p.s
  }

  function PartsIn(era: nat, doe: nat): (p: Parts)
    requires doe < 146097
    ensures ValidParts(p) && InEra(p) == doe && p.era == era
  {
    var c := if doe == 146096 then 3 else doe / 36524;
    var x := doe - 36524 * c;
    var k := x / 1461;
    var rem := x - 1461 * k;
    var s := if rem == 1460 then 3 else rem / 365;
    Parts(era, c, k, s, rem - 365 * s)
  }

  lemma YearInEraParts(p: Parts)
    requires ValidParts(p)
    ensures YearInEra(p) < 400 && YearInEra(p) / 4 == 25 * p.c + p.k && YearInEra(p) / 100 == p.c
  {
  }

  /** The branch-light year formula finds the March year. */
  lemma FormulaFindsYear(p: Parts)
    requires ValidParts(p) && InEra(p) < 146097
    ensures YearOfEra(InEra(p)) == YearInEra(p)
  {
    var doe := InEra(p);
    var over := if p.k + 365 * p.s + p.t + 24 * p.c >= 1460 then 1 else 0;
    assert doe / 1460 == 25 * p.c + p.k + over;
    if p.t == 365 && p.k == 24 {
      assert doe == 146096;
    } else {
      assert doe / 36524 == p.c && doe / 146096 == 0;
      var rest := 365 * p.s + p.t - over;
      assert doe - doe / 1460 + doe / 36524 - doe / 146096 == 365 * (100 * p.c + 4 * p.k) + rest;
      assert 365 * p.s <= rest < 365 * p.s + 365;
    }
  }

  lemma FormulaMatches(doe: nat)
    requires doe < 146097
    ensures 365 * YearOfEra(doe) + YearOfEra(doe) / 4 - YearOfEra(doe) / 100 == doe - PartsIn(0, doe).t
    ensures YearOfEra(doe) == YearInEra(PartsIn(0, doe))
  {
    var p := PartsIn(0, doe);
    FormulaFindsYear(p);
    YearInEraParts(p);
  }

  /** The date of day `t` of March year `y`. */
  function DayInYear(y: nat, t: nat): Date {
    var mp := (5 * t + 2) / 153;
    if mp < 10 then Date(y, mp + 3, DayOfMonth(t)) else Date(y + 1, mp - 9, DayOfMonth(t))
  }

  /** The date of a day in March years. */
  function FromParts(p: Parts): Date {
    DayInYear(400 * p.era + YearInEra(p), p.t)
  }

  lemma YmdIsFromParts(days: nat)
    ensures EpochDaysToYmd(days) == FromParts(PartsIn((days + 719468) / 146097, (days + 719468) % 146097))
  {
    hide DayOfMonth, YearOfEra;
    var e := days + 719468;
    var doe := e - (e / 146097) * 146097;
    assert doe == e % 146097;
    FormulaMatches(doe);
  }

  function NextParts(p: Parts): Parts {
    if p.t + 1 < YearLength(p) then p.(t := p.t + 1)
    else if p.s < 3 then p.(s := p.s + 1, t := 0)
    else if p.k < 24 then p.(k := p.k + 1, s := 0, t := 0)
    else if p.c < 3 then p.(c := p.c + 1, k := 0, s := 0, t := 0)
    else Parts(p.era + 1, 0, 0, 0, 0)
  }

  lemma PartsUnique(p: Parts)
    requires ValidParts(p) && InEra(p) < 146097
    ensures PartsIn(p.era, InEra(p)) == p
  {
    var q := PartsIn(p.era, InEra(p));
    assert q.c == p.c;
    assert q.k == p.k;
    assert q.s == p.s;
  }

  lemma PartsStep(e: nat)
    ensures PartsIn((e + 1) / 146097, (e + 1) % 146097) == NextParts(PartsIn(e / 146097, e % 146097))
  {
    hide PartsIn, NextParts;
    var era, doe := e / 146097, e % 146097;
    EraStep(e);
    if doe == 146096 {
      LastOfEra(era);
    } else {
      WithinEra(era, doe);
    }
  }

  lemma EraStep(e: nat)
    ensures e % 146097 == 146096 ==> (e + 1) / 146097 == e / 146097 + 1 && (e + 1) % 146097 == 0
    ensures e % 146097 != 146096 ==> (e + 1) / 146097 == e / 146097 && (e + 1) % 146097 == e % 146097 + 1
  {
  }

  lemma LastOfEra(era: nat)
    ensures PartsIn(era + 1, 0) == NextParts(PartsIn(era, 146096))
  {
    assert PartsIn(era, 146096) == Parts(era, 3, 24, 3, 365);
  }

  lemma WithinEra(era: nat, doe: nat)
    requires doe < 146096
    ensures PartsIn(era, doe + 1) == NextParts(PartsIn(era, doe))
  {
    hide PartsIn;
    var q := NextParts(PartsIn(era, doe));
    assert ValidParts(q) && InEra(q) == doe + 1 && q.era == era;
    PartsUnique(q);
  }

  lemma ModFour(q: nat, r: nat)
    ensures (4 * q + r) % 4 == r % 4
  {
  }

  lemma ModHundred(q: nat, r: nat)
    ensures (100 * q + r) % 100 == r % 100
  {
  }

  lemma ModFourHundred(q: nat, r: nat)
    ensures (400 * q + r) % 400 == r % 400
  {
  }

  /** Whether the year after `y` is a leap year, by the place of `y` in its era. */
  lemma LeapInEra(era: nat, y: nat, c: nat, k: nat, s: nat)
    requires y == 400 * era + 100 * c + 4 * k + s && c < 4 && k < 25 && s < 4
    ensures Leap(y + 1) <==> s == 3 && (k < 24 || c == 3)
  {
    var r := 4 * k + s + 1;
    var q := 100 * c + r;
    ModFour(100 * era + 25 * c + k, s + 1);
    ModHundred(4 * era + c, r);
    ModFourHundred(era, q);
    assert (y + 1) % 4 == (s + 1) % 4 && (y + 1) % 100 == r % 100 && (y + 1) % 400 == q % 400;
  }

  lemma LeapParts(p: Parts)
    requires ValidParts(p)
    ensures Leap(400 * p.era + YearInEra(p) + 1) <==> YearLength(p) == 366
  {
    hide Leap;
    LeapInEra(p.era, 400 * p.era + YearInEra(p), p.c, p.k, p.s);
  }

  /** Month lengths, counted from March. */
  function MarchMonth(mp: nat): nat {
    if mp == 1 || mp == 3 || mp == 6 || mp == 8 then 30 else if mp == 11 then 29 else 31
  }

  lemma DayStep(t: nat)
    requires t + 1 < 366
    ensures (5 * t + 2) / 153 <= 11 && DayOfMonth(t) <= MarchMonth((5 * t + 2) / 153)
    ensures DayOfMonth(t) < MarchMonth((5 * t + 2) / 153) ==>
              (5 * (t + 1) + 2) / 153 == (5 * t + 2) / 153 && DayOfMonth(t + 1) == DayOfMonth(t) + 1
    ensures DayOfMonth(t) == MarchMonth((5 * t + 2) / 153) ==>
              (5 * (t + 1) + 2) / 153 == (5 * t + 2) / 153 + 1 && DayOfMonth(t + 1) == 1
  {
    var mp := (5 * t + 2) / 153;
    if mp < 4 {
    } else if mp < 8 {
    } else {
    }
  }

  lemma MarchMonthLength(y: nat, mp: nat)
    requires mp <= 11
    ensures MonthLength(if mp < 10 then y else y + 1, if mp < 10 then mp + 3 else mp - 9)
         == if mp == 11 && !Leap(y + 1) then 28 else MarchMonth(mp)
  {
  }

  lemma NextDayWithin(y: nat, t: nat)
    requires t + 1 < (if Leap(y + 1) then 366 else 365)
    ensures DayInYear(y, t + 1) == NextDay(DayInYear(y, t))
  {
    hide Leap, MonthLength;
    DayStep(t);
    MarchMonthLength(y, (5 * t + 2) / 153);
  }

  lemma NextDayAtEnd(y: nat, t: nat)
    requires t + 1 == if Leap(y + 1) then 366 else 365
    ensures DayInYear(y + 1, 0) == NextDay(DayInYear(y, t))
  {
    assert (5 * t + 2) / 153 == 11;
    assert (153 * 11 + 2) / 5 == 337;
  }

  /** The day after, in March years, is the day after. */
  lemma FromPartsSteps(p: Parts)
    requires ValidParts(p)
    ensures FromParts(NextParts(p)) == NextDay(FromParts(p))
  {
    hide NextDay, DayInYear, Leap;
    LeapParts(p);
    var q, y := NextParts(p), 400 * p.era + YearInEra(p);
    if p.t + 1 < YearLength(p) {
      NextDayWithin(y, p.t);
    } else {
      assert YearInEra(q) + 400 * q.era == y + 1 && q.t == 0;
      NextDayAtEnd(y, p.t);
    }
  }

  lemma FirstDay()
    ensures EpochDaysToYmd(0) == Date(1970, 1, 1)
  {
    assert YearOfEra(135080) == 369;
    assert DayOfYear(135080, 369) == 306;
  }

  /** The formula is right for every day: it equals as many single-day steps on the naive calendar. */
  lemma {:induction false} YmdIsSteps(days: nat)
    ensures EpochDaysToYmd(days) == Steps(days)
  {
    hide EpochDaysToYmd, FromParts, NextParts, NextDay, PartsIn;
    if days == 0 {
      FirstDay();
    } else {
      YmdIsSteps(days - 1);
      YmdAdvances(days - 1);
    }
  }

  lemma YmdAdvances(days: nat)
    ensures EpochDaysToYmd(days + 1) == NextDay(EpochDaysToYmd(days))
  {
    hide EpochDaysToYmd, FromParts, NextParts, NextDay;
    var e := days + 719468;
    YmdIsFromParts(days);
    YmdIsFromParts(days + 1);
    PartsStep(e);
    FromPartsSteps(PartsIn(e / 146097, e % 146097));
  }

  // ----- timestamps -----

  datatype Timestamp = Timestamp(date: Date, hour: nat, minute: nat, second: nat)

  /** The fields of `chrono_timestamp`. */
  function TimestampOf(secs: nat): Timestamp {
    Timestamp(EpochDaysToYmd(secs / 86400), (secs / 3600) % 24, (secs / 60) % 60, secs % 60)
  }

  predicate EarlierDate(a: Date, b: Date) {
    a.year < b.year || (a.year == b.year && (a.month < b.month || (a.month == b.month && a.day < b.day)))
  }

  /** Field by field, the first difference decides. */
  predicate Earlier(a: Timestamp, b: Timestamp) {
    || EarlierDate(a.date, b.date)
    || (a.date == b.date
        && (a.hour < b.hour
         || (a.hour == b.hour
             && (a.minute < b.minute || (a.minute == b.minute && a.second < b.second)))))
  }

  /** A real date of the naive calendar. */
  predicate RealDate(d: Date) {
    1 <= d.month <= 12 && 1 <= d.day <= MonthLength(d.year, d.month)
  }

  lemma {:induction false} StepsAreReal(n: nat)
    ensures RealDate(Steps(n))
  {
    if n > 0 {
      StepsAreReal(n - 1);
    }
  }

  lemma {:induction false} StepsGoForward(m: nat, n: nat)
    requires m < n
    ensures EarlierDate(Steps(m), Steps(n))
    decreases n
  {
    StepsAreReal(n - 1);
    assert EarlierDate(Steps(n - 1), Steps(n));
    if m < n - 1 {
      StepsGoForward(m, n - 1);
    }
  }

  /** Every date the formula gives is a real one, and later seconds give a later timestamp. */
  lemma TimestampsGoForward(a: nat, b: nat)
    requires a < b
    ensures RealDate(TimestampOf(a).date) && Earlier(TimestampOf(a), TimestampOf(b))
  {
    hide EpochDaysToYmd, RealDate;
    YmdIsSteps(a / 86400);
    YmdIsSteps(b / 86400);
    StepsAreReal(a / 86400);
    if a / 86400 < b / 86400 {
      StepsGoForward(a / 86400, b / 86400);
    } else {
      SameDayLater(a, b);
    }
  }

  lemma SameDayLater(a: nat, b: nat)
    requires a < b && a / 86400 == b / 86400
    ensures a / 3600 % 24 <= b / 3600 % 24
    ensures a / 3600 % 24 == b / 3600 % 24 ==> a / 60 % 60 <= b / 60 % 60
    ensures a / 3600 % 24 == b / 3600 % 24 && a / 60 % 60 == b / 60 % 60 ==> a % 60 < b % 60
  {
    var day := a / 86400;
    HourOfDay(a, day);
    HourOfDay(b, day);
  }

  lemma HourOfDay(a: nat, day: nat)
    requires day == a / 86400
    ensures a / 3600 % 24 == (a - 86400 * day) / 3600
    ensures a / 60 % 60 == (a - 86400 * day) / 60 - 60 * ((a - 86400 * day) / 3600)
    ensures a % 60 == (a - 86400 * day) - 60 * ((a - 86400 * day) / 60)
  {
    var r := a - 86400 * day;
    Hours(day, r);
    Minutes(day, r);
  }

  lemma Hours(day: nat, r: nat)
    requires r < 86400
    ensures (86400 * day + r) / 3600 % 24 == r / 3600
  {
    assert (86400 * day + r) / 3600 == 24 * day + r / 3600;
  }

  lemma Minutes(day: nat, r: nat)
    requires r < 86400
    ensures (86400 * day + r) / 60 % 60 == r / 60 - 60 * (r / 3600)
    ensures (86400 * day + r) % 60 == r - 60 * (r / 60)
  {
    var h := r / 3600;
    var m := (r - 3600 * h) / 60;
    assert r / 60 == 60 * h + m && m < 60;
    assert (86400 * day + r) / 60 == 60 * (24 * day + h) + m;
    SixtyMod(24 * day + h, m);
  }

  lemma SixtyMod(q: nat, m: nat)
    requires m < 60
    ensures (60 * q + m) % 60 == m
  {
  }

  /** The fields say which second it is: of that day, counted from 1970-01-01. */
  lemma TimestampTells(secs: nat, days: nat)
    requires days == secs / 86400
    ensures var t := TimestampOf(secs);
      && t.date == Steps(days) && t.hour < 24 && t.minute < 60 && t.second < 60
      && secs == 86400 * days + 3600 * t.hour + 60 * t.minute + t.second
  {
    YmdIsSteps(days);
    HourOfDay(secs, days);
  }
}
