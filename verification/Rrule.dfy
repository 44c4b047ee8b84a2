/** Recurrence rules. Instants are milliseconds of local time since 1970 on a clock whose
    distance from UTC never changes, so a day is always 24 hours long. */
module Rrule {
  import opened OrderedMerge

  type Instant = nat

  const MINUTE: nat := 60_000
  const HOUR: nat := 3_600_000
  const DAY: nat := 86_400_000

  datatype Frequency = Minutely | Hourly | Daily | Weekly | Monthly | Unsupported

  /** The parts of a rule the code reads; weekdays count from Sunday. */
  datatype Rule = Rule(freq: Frequency, interval: int, byDay: Option<nat>, byHour: Option<nat>, byMinute: Option<nat>)

  /** The field values a rule may name. */
  predicate Legal(r: Rule) {
    (r.byDay.Some? ==> r.byDay.value < 7) && (r.byHour.Some? ==> r.byHour.value < 24) &&
    (r.byMinute.Some? ==> r.byMinute.value < 60)
  }

  /** `Math.max(1, interval)` */
  function Every(r: Rule): (n: nat)
    ensures n >= 1
  {
    if r.interval < 1 then 1 else r.interval
  }

  // ----- the clock face

  function DayOf(t: Instant): nat { t / DAY }

  function HourOf(t: Instant): (h: nat)
    ensures h < 24
  {
    t % DAY / HOUR
  }

  function MinuteOf(t: Instant): (m: nat)
    ensures m < 60
  {
    t % DAY % HOUR / MINUTE
  }

  function SecondsOf(t: Instant): (ms: nat)
    ensures ms < MINUTE
  {
    t % DAY % HOUR % MINUTE
  }

  /** 1 January 1970 was a Thursday. */
  function Weekday(day: nat): (wd: nat)
    ensures wd < 7
  {
    (day + 4) % 7
  }

  function At(day: nat, hour: nat, minute: nat): Instant {
    day * DAY + hour * HOUR + minute * MINUTE
  }

  /** t is a full minute on the given weekday at the given time. */
  predicate IsSlot(t: Instant, weekday: nat, hour: nat, minute: nat) {
    t == At(DayOf(t), hour, minute) && Weekday(DayOf(t)) == weekday
  }

  // ----- weekly rules with a weekday

  function RuleHour(r: Rule, anchor: Instant): nat {
    if r.byHour.Some? then r.byHour.value else HourOf(anchor)
  }

  function RuleMinute(r: Rule, anchor: Instant): nat {
    if r.byMinute.Some? then r.byMinute.value else MinuteOf(anchor)
  }

  /** The slot is on the anchor's own day and has passed already. */
  predicate PassedToday(r: Rule, anchor: Instant)
    requires r.byDay.Some?
  {
    Weekday(DayOf(anchor)) == r.byDay.value &&
    At(DayOf(anchor), RuleHour(r, anchor), RuleMinute(r, anchor)) <= anchor
  }

  /** The days from the anchor's day to the next slot. */
  function DaysAhead(r: Rule, anchor: Instant): nat
    requires r.byDay.Some?
  {
    if PassedToday(r, anchor) then 7 * Every(r) else (r.byDay.value + 7 - Weekday(DayOf(anchor))) % 7
  }

  function WeeklySlot(r: Rule, anchor: Instant): Instant
    requires r.byDay.Some?
  {
    At(DayOf(anchor) + DaysAhead(r, anchor), RuleHour(r, anchor), RuleMinute(r, anchor))
  }

  lemma TimeOfDay(day: nat, hour: nat, minute: nat)
    requires hour < 24 && minute < 60
    ensures DayOf(At(day, hour, minute)) == day
  {
  }

  /** `setSeconds(0, 0)` leaves day, hour and minute alone. */
  lemma SecondsCleared(t: Instant)
    ensures SecondsOf(t) <= t
    ensures var cleared := t - SecondsOf(t);
            DayOf(cleared) == DayOf(t) && HourOf(cleared) == HourOf(t) && MinuteOf(cleared) == MinuteOf(t)
  {
    var inDay := t % DAY;
    var inHour := inDay % HOUR;
    assert t == DayOf(t) * DAY + inDay;
    assert inDay == HourOf(t) * HOUR + inHour;
    assert inHour == MinuteOf(t) * MINUTE + SecondsOf(t);
    hide DayOf, HourOf, MinuteOf, SecondsOf;
    OnTheClock(t - SecondsOf(t), DayOf(t), HourOf(t), MinuteOf(t));
  }

  lemma OnTheClock(t: Instant, day: nat, hour: nat, minute: nat)
    requires hour < 24 && minute < 60 && t == day * DAY + hour * HOUR + minute * MINUTE
    ensures DayOf(t) == day && HourOf(t) == hour && MinuteOf(t) == minute
  {
    assert t / DAY == day && t % DAY == hour * HOUR + minute * MINUTE;
    assert t % DAY / HOUR == hour && t % DAY % HOUR == minute * MINUTE;
  }

  lemma DaysLater(day: nat, hour: nat, minute: nat, days: nat)
    ensures At(day, hour, minute) + days * DAY == At(day + days, hour, minute)
  {
  }

  /** The Date is set to the slot's time today and then moved on by whole days. */
  method NextWeekly(r: Rule, anchor: Instant) returns (next: Instant)
    requires Legal(r)
    ensures next == if r.byDay.None? then anchor + Every(r) * 7 * DAY else WeeklySlot(r, anchor)
  {
    if r.byDay.None? {
      return anchor + Every(r) * 7 * DAY;
    }
    SecondsCleared(anchor);
    hide HourOf, MinuteOf, SecondsOf, DayOf, At, Weekday, Every;
    next := anchor;
    next := next - SecondsOf(next);
    var hour := if r.byHour.Some? then r.byHour.value else HourOf(next);
    var minute := if r.byMinute.Some? then r.byMinute.value else MinuteOf(next);
    next := At(DayOf(next), hour, minute);
    TimeOfDay(DayOf(anchor), hour, minute);
    var diff := (r.byDay.value + 7 - Weekday(DayOf(next))) % 7;
    if diff == 0 && next <= anchor {
      diff := 7 * Every(r);
    }
    DaysLater(DayOf(anchor), hour, minute, diff);
    next := next + diff * DAY;
  }

  /** The next run is later than the anchor, on the right weekday at the right time; it is the
      very next such instant whenever the interval is one or today's slot is still ahead, and
      otherwise the slot 7 * INTERVAL days after today's. */
  lemma WeeklySlotIsNext(r: Rule, anchor: Instant)
    requires Legal(r) && r.byDay.Some?
    ensures var next := WeeklySlot(r, anchor);
            next > anchor && IsSlot(next, r.byDay.value, RuleHour(r, anchor), RuleMinute(r, anchor))
    ensures PassedToday(r, anchor) ==>
              DayOf(WeeklySlot(r, anchor)) == DayOf(anchor) + 7 * Every(r)
  {
    var h, m := RuleHour(r, anchor), RuleMinute(r, anchor);
    var day := DayOf(anchor) + DaysAhead(r, anchor);
    TimeOfDay(day, h, m);
    RightWeekday(DayOf(anchor), r.byDay.value);
    WeeksLater(DayOf(anchor), Every(r));
    hide HourOf, MinuteOf, RuleHour, RuleMinute, Weekday, Every;
    if day > DayOf(anchor) {
      assert At(day, h, m) >= day * DAY > anchor;
    }
  }

  lemma Weeks(q: int, r: nat)
    requires r < 7
    ensures (7 * q + r) % 7 == r
  {
  }

  /** Whole weeks later it is the same weekday. */
  lemma WeeksLater(day: nat, n: nat)
    ensures Weekday(day + 7 * n) == Weekday(day)
  {
    Weeks((day + 4) / 7 + n, (day + 4) % 7);
  }

  /** The days from one day to a later one with a given weekday are those to the first such day
      and whole weeks. */
  lemma DaysToWeekday(day: nat, wd: nat, ahead: nat)
    requires wd < 7 && Weekday(day + ahead) == wd
    ensures (wd + 7 - Weekday(day)) % 7 == ahead % 7
  {
    var a, b := (day + 4) / 7, (day + ahead + 4) / 7;
    var q, r := ahead / 7, ahead % 7;
    assert wd + 7 - Weekday(day) == 7 * (q + a - b + 1) + r;
    Weeks(q + a - b + 1, r);
  }

  lemma RightWeekday(day: nat, wd: nat)
    requires wd < 7
    ensures Weekday(day + (wd + 7 - Weekday(day)) % 7) == wd
    ensures (wd + 7 - Weekday(day)) % 7 == 0 <==> Weekday(day) == wd
  {
    var q, p := (day + 4) / 7, (day + 4) % 7;
    var diff := (wd + 7 - p) % 7;
    if wd >= p {
      Weeks(1, wd - p);
      Weeks(q, wd);
    } else {
      Weeks(0, wd + 7 - p);
      Weeks(q + 1, wd);
    }
  }

  /** WEEKLY skips no slot exactly when INTERVAL is one or today's slot has not passed. */
  lemma WeeklySlotIsLeast(r: Rule, anchor: Instant)
    requires Legal(r) && r.byDay.Some?
    ensures (forall t: Instant :: anchor < t && IsSlot(t, r.byDay.value, RuleHour(r, anchor), RuleMinute(r, anchor)) ==>
               WeeklySlot(r, anchor) <= t)
            <==> Every(r) == 1 || !PassedToday(r, anchor)
  {
    var wd, h, m := r.byDay.value, RuleHour(r, anchor), RuleMinute(r, anchor);
    var next := WeeklySlot(r, anchor);
    WeeklySlotIsNext(r, anchor);
    if Every(r) == 1 || !PassedToday(r, anchor) {
      forall t: Instant | anchor < t && IsSlot(t, wd, h, m)
        ensures next <= t
      {
        NoSlotBetween(r, anchor, t);
      }
    } else {
      var t := At(DayOf(anchor) + 7, h, m);
      TimeOfDay(DayOf(anchor) + 7, h, m);
      WeeksLater(DayOf(anchor), 1);
      BeforeMidnight(anchor);
      hide DayOf, Weekday, RuleHour, RuleMinute;
      assert IsSlot(t, wd, h, m);
      assert anchor < t;
      assert t < next;
    }
  }

  lemma BeforeMidnight(t: Instant)
    ensures DayOf(t) * DAY <= t < (DayOf(t) + 1) * DAY
  {
  }

  lemma NoSlotBetween(r: Rule, anchor: Instant, t: Instant)
    requires Legal(r) && r.byDay.Some? && (Every(r) == 1 || !PassedToday(r, anchor))
    requires anchor < t && IsSlot(t, r.byDay.value, RuleHour(r, anchor), RuleMinute(r, anchor))
    ensures WeeklySlot(r, anchor) <= t
  {
    var h, m := RuleHour(r, anchor), RuleMinute(r, anchor);
    DaysInOrder(anchor, t);
    var day, ahead := DayOf(anchor), DayOf(t) - DayOf(anchor);
    DaysToWeekday(day, r.byDay.value, ahead);
    RightWeekday(day, r.byDay.value);
    hide DayOf, Weekday, RuleHour, RuleMinute, Every, At;
    if PassedToday(r, anchor) {
      assert ahead != 0;
      assert ahead % 7 == 0;
      assert ahead >= DaysAhead(r, anchor);
    }
    LaterDay(day + DaysAhead(r, anchor), day + ahead, h, m);
  }

  lemma DaysInOrder(s: Instant, t: Instant)
    requires s <= t
    ensures DayOf(s) <= DayOf(t)
  {
  }

  lemma LaterDay(day: nat, later: nat, hour: nat, minute: nat)
    requires day <= later
    ensures At(day, hour, minute) <= At(later, hour, minute)
  {
  }

  // ----- monthly rules: the calendar, counted in months since January 1970

  predicate Leap(year: nat) {
    year % 4 == 0 && (year % 100 != 0 || year % 400 == 0)
  }

  function MonthLength(k: nat): (days: nat)
    ensures 28 <= days <= 31
  {
    var month := k % 12;
    if month == 1 then (if Leap(1970 + k / 12) then 29 else 28)
    else if month == 3 || month == 5 || month == 8 || month == 10 then 30
    else 31
  }

  /** The first day of a month. */
  function MonthStart(k: nat): nat {
    if k == 0 then 0 else MonthStart(k - 1) + MonthLength(k - 1)
  }

  /** The month a day falls in, searching onwards from month k. */
  function MonthFrom(day: nat, k: nat): (month: nat)
    requires MonthStart(k) <= day
    ensures MonthStart(month) <= day < MonthStart(month + 1)
    decreases day - MonthStart(k)
  {
    if day < MonthStart(k + 1) then k else MonthFrom(day, k + 1)
  }

  function MonthOf(day: nat): (month: nat)
    ensures MonthStart(month) <= day < MonthStart(month + 1)
  {
    MonthFrom(day, 0)
  }

  function DayOfMonth(day: nat): nat {
    day - MonthStart(MonthOf(day))
  }

  lemma {:induction false} MonthsAreApart(k: nat, n: nat)
    ensures MonthStart(k + n) >= MonthStart(k) + 28 * n
  {
    if n == 0 {
    } else {
      MonthsAreApart(k, n - 1);
    }
  }

  lemma MonthIsUnique(day: nat, k: nat)
    requires MonthStart(k) <= day < MonthStart(k + 1)
    ensures MonthOf(day) == k
  {
    var j := MonthOf(day);
    if j < k {
      MonthsAreApart(j + 1, k - j - 1);
    } else if k < j {
      MonthsAreApart(k + 1, j - k - 1);
    }
  }

  /** `d.setMonth(d.getMonth() + interval)`: the day number is kept and overflows. */
  function NextMonthly(anchor: Instant, n: nat): Instant {
    (MonthStart(MonthOf(DayOf(anchor)) + n) + DayOfMonth(DayOf(anchor))) * DAY + anchor % DAY
  }

  /** A monthly rule keeps the time of day, and the day of the month whenever the target month
      has such a day; otherwise it spills over into the month after it. */
  lemma NextMonthlyDate(anchor: Instant, n: nat)
    requires n >= 1
    ensures var next, target := NextMonthly(anchor, n), MonthOf(DayOf(anchor)) + n;
            var dom := DayOfMonth(DayOf(anchor));
            next > anchor && next % DAY == anchor % DAY &&
            (dom < MonthLength(target) <==> MonthOf(DayOf(next)) == target && DayOfMonth(DayOf(next)) == dom) &&
            (dom >= MonthLength(target) <==>
             MonthOf(DayOf(next)) == target + 1 && DayOfMonth(DayOf(next)) == dom - MonthLength(target))
  {
    var k, dom := MonthOf(DayOf(anchor)), DayOfMonth(DayOf(anchor));
    var day := MonthStart(k + n) + dom;
    SpillsOver(k, dom, n);
    hide MonthStart, MonthOf, MonthLength, DayOfMonth;
    assert DayOf(NextMonthly(anchor, n)) == day && NextMonthly(anchor, n) % DAY == anchor % DAY;
    assert MonthStart(k) + dom == DayOf(anchor) by {
      DaysOfMonth(DayOf(anchor));
    }
  }

  lemma DaysOfMonth(day: nat)
    ensures MonthStart(MonthOf(day)) + DayOfMonth(day) == day && DayOfMonth(day) < MonthLength(MonthOf(day))
  {
  }

  lemma SpillsOver(k: nat, dom: nat, n: nat)
    requires n >= 1 && dom < 31
    ensures var day := MonthStart(k + n) + dom;
            day > MonthStart(k) + dom &&
            if dom < MonthLength(k + n) then MonthOf(day) == k + n && DayOfMonth(day) == dom
            else MonthOf(day) == k + n + 1 && DayOfMonth(day) == dom - MonthLength(k + n)
  {
    MonthsAreApart(k, n);
    var day := MonthStart(k + n) + dom;
    if dom < MonthLength(k + n) {
      MonthIsUnique(day, k + n);
    } else {
      MonthIsUnique(day, k + n + 1);
    }
  }

  // ----- all frequencies

  function Period(freq: Frequency): nat {
    match freq
    case Minutely => MINUTE
    case Hourly => HOUR
    case Daily => DAY
    case _ => 0
  }

  /** The next run of a rule after an anchor; none for a missing rule or an unknown frequency. */
  function NextFromRrule(rule: Option<Rule>, anchor: Instant): Option<Instant> {
    if rule.None? then None
    else var r := rule.value;
      match r.freq
      case Unsupported => None
      case Weekly => Some(if r.byDay.None? then anchor + Every(r) * 7 * DAY else WeeklySlot(r, anchor))
      case Monthly => Some(NextMonthly(anchor, Every(r)))
      case _ => Some(anchor + Every(r) * Period(r.freq))
  }

  /** How far apart two runs of a rule are at least: INTERVAL whole units, a month counted as 28
      days; a slot on a given weekday may come up at any time after a run. */
  function Gap(rule: Option<Rule>): (gap: nat)
    ensures gap >= 1
  {
    if rule.None? then 1
    else if Period(rule.value.freq) > 0 then Scaled(Every(rule.value), Period(rule.value.freq))
    else if rule.value.freq == Weekly && rule.value.byDay.None? then Scaled(Every(rule.value), 7 * DAY)
    else if rule.value.freq == Monthly then Scaled(Every(rule.value), 28 * DAY)
    else 1
  }

  function Scaled(n: nat, unit: nat): (r: nat)
    requires n >= 1 && unit >= 1
    ensures r >= unit
  {
    n * unit
  }

  lemma MonthsLater(anchor: Instant, n: nat)
    ensures NextMonthly(anchor, n) >= anchor + n * (28 * DAY)
  {
    var k := MonthOf(DayOf(anchor));
    MonthsAreApart(k, n);
    DaysOfMonth(DayOf(anchor));
    hide MonthStart, MonthOf, DayOfMonth;
    assert MonthStart(k + n) + DayOfMonth(DayOf(anchor)) >= DayOf(anchor) + 28 * n;
  }

  /** Every supported frequency moves strictly forward, by at least the rule's gap. */
  lemma NextIsLater(rule: Option<Rule>, anchor: Instant)
    requires rule.Some? ==> Legal(rule.value)
    ensures NextFromRrule(rule, anchor).Some? <==> rule.Some? && rule.value.freq != Unsupported
    ensures NextFromRrule(rule, anchor).Some? ==> NextFromRrule(rule, anchor).value >= anchor + Gap(rule)
  {
    if rule.Some? {
      var r := rule.value;
      match r.freq {
        case Weekly => if r.byDay.Some? { WeeklySlotIsNext(r, anchor); }
        case Monthly => MonthsLater(anchor, Every(r));
        case _ =>
      }
    }
  }

  // ----- the same in milliseconds and dates

  /** INTERVAL counts minutes, hours, days or weeks of a fixed length; the time of day is kept. */
  lemma NextIsExact(r: Rule, t: Instant)
    ensures var n, next := if r.interval < 1 then 1 else r.interval, NextFromRrule(Some(r), t);
            (r.freq == Minutely ==> next == Some(t + n * 60_000)) &&
            (r.freq == Hourly ==> next == Some(t + n * 3_600_000)) &&
            (r.freq == Daily ==> next == Some(t + n * 86_400_000)) &&
            (r.freq == Weekly && r.byDay.None? ==> next == Some(t + n * 604_800_000))
  {
  }

  /** A weekly rule with a weekday comes up on that day, counted from Thursday 1 January 1970, at
      the hour and minute it names or else at the anchor's; within a week, unless today's time has
      passed: then INTERVAL weeks from today. */
  lemma WeeklyIsExact(r: Rule, t: Instant)
    requires Legal(r) && r.freq == Weekly && r.byDay.Some?
    ensures var next := NextFromRrule(Some(r), t);
            var n := if r.interval < 1 then 1 else r.interval;
            var hour := if r.byHour.Some? then r.byHour.value else t % 86_400_000 / 3_600_000;
            var minute := if r.byMinute.Some? then r.byMinute.value else t % 3_600_000 / 60_000;
            var day, today := next.value / 86_400_000, t / 86_400_000;
            var time := 3_600_000 * hour + 60_000 * minute;
            next.Some? && next.value > t && next.value == 86_400_000 * day + time && (day + 4) % 7 == r.byDay.value &&
            if (today + 4) % 7 == r.byDay.value && time <= t % 86_400_000 then day == today + 7 * n
            else today <= day < today + 7
  {
    MinuteOfHour(t);
    WeeklySlotIsNext(r, t);
    var h, m := RuleHour(r, t), RuleMinute(r, t);
    TimeOfDay(DayOf(t) + DaysAhead(r, t), h, m);
    hide HourOf, MinuteOf, RuleHour, RuleMinute;
  }

  /** A monthly rule comes up INTERVAL months later on the same day of the month at the same time;
      if that month is too short, as many days into the next month as are missing. */
  lemma MonthlyIsExact(r: Rule, t: Instant)
    requires r.freq == Monthly
    ensures var next := NextFromRrule(Some(r), t);
            var target := MonthOf(t / 86_400_000) + if r.interval < 1 then 1 else r.interval;
            var date := t / 86_400_000 - MonthStart(MonthOf(t / 86_400_000));
            next.Some? && next.value % 86_400_000 == t % 86_400_000 &&
            var day := next.value / 86_400_000;
            if date < MonthLength(target) then MonthOf(day) == target && day - MonthStart(target) == date
            else MonthOf(day) == target + 1 && day - MonthStart(target + 1) == date - MonthLength(target)
  {
    NextMonthlyDate(t, Every(r));
    hide MonthOf, MonthStart, MonthLength;
  }

  lemma MinuteOfHour(t: Instant)
    ensures MinuteOf(t) == t % 3_600_000 / 60_000
  {
    assert t % DAY % HOUR == t % HOUR by {
      var q := t / DAY;
      assert t == 24 * q * HOUR + t % DAY;
    }
  }

  /** The unit of every spacing law, in milliseconds. */
  lemma GapIsExact(r: Rule)
    ensures Gap(None) == 1
    ensures var n, gap := if r.interval < 1 then 1 else r.interval, Gap(Some(r));
            (r.freq == Minutely ==> gap == n * 60_000) &&
            (r.freq == Hourly ==> gap == n * 3_600_000) &&
            (r.freq == Daily ==> gap == n * 86_400_000) &&
            (r.freq == Weekly && r.byDay.None? ==> gap == n * 604_800_000) &&
            (r.freq == Weekly && r.byDay.Some? ==> gap == 1) &&
            (r.freq == Monthly ==> gap == n * 2_419_200_000)
  {
  }

  /** The days of each month, from January on. */
  lemma MonthDays(years: nat, m: nat)
    requires m < 12
    ensures MonthLength(12 * years + m) ==
            if m == 1 then (if Leap(1970 + years) then 29 else 28)
            else [31, 0, 31, 30, 31, 30, 31, 31, 30, 31, 30, 31][m]
    ensures MonthStart(12 * years + m + 1) == MonthStart(12 * years + m) + MonthLength(12 * years + m)
  {
    assert (12 * years + m) % 12 == m && (12 * years + m) / 12 == years;
  }

  /** The day a year begins: 365 days for every year since 1970, and a day more for every fourth
      year, except the hundredth ones, but not the four hundredth. */
  lemma {:induction false} YearStart(years: nat)
    ensures MonthStart(12 * years) == 365 * years + (years + 1) / 4 - (years + 69) / 100 + (years + 369) / 400
  {
    assert MonthStart(0) == 0;
    hide MonthStart, MonthLength, Leap;
    if years == 0 {
    } else {
      YearStart(years - 1);
      YearLength(years - 1);
      LeapYears(years - 1);
    }
  }

  lemma YearLength(years: nat)
    ensures MonthStart(12 * years + 12) == MonthStart(12 * years) + if Leap(1970 + years) then 366 else 365
  {
    hide MonthStart, MonthLength, Leap;
    MonthDays(years, 0);
    MonthDays(years, 1);
    MonthDays(years, 2);
    MonthDays(years, 3);
    MonthDays(years, 4);
    MonthDays(years, 5);
    MonthDays(years, 6);
    MonthDays(years, 7);
    MonthDays(years, 8);
    MonthDays(years, 9);
    MonthDays(years, 10);
    MonthDays(years, 11);
  }

  /** Dividing by a period counts the multiples passed. */
  lemma Counts(x: nat, p: nat)
    requires p > 0
    ensures (x + 1) / p - x / p == if (x + 1) % p == 0 then 1 else 0
  {
    var q, r := x / p, x % p;
    if r == p - 1 {
      assert x + 1 == (q + 1) * p;
      Quotient(x + 1, p, q + 1, 0);
    } else {
      Quotient(x + 1, p, q, r + 1);
    }
  }

  lemma Quotient(x: nat, p: nat, q: nat, r: nat)
    requires 0 <= r < p && x == q * p + r
    ensures x / p == q && x % p == r
  {
    var d := x / p - q;
    assert d * p == r - x % p;
  }

  lemma LeapYears(years: nat)
    ensures (years + 2) / 4 - (years + 1) / 4 - ((years + 70) / 100 - (years + 69) / 100) +
            (years + 370) / 400 - (years + 369) / 400 == if Leap(1970 + years) then 1 else 0
  {
    var year := 1970 + years;
    Counts(years + 1, 4);
    Counts(years + 69, 100);
    Counts(years + 369, 400);
    Multiples(year, years + 2, 4, 492);
    Multiples(year, years + 70, 100, 19);
    Multiples(year, years + 370, 400, 4);
    Multiples(year, year, 100, 0);
    assert year % 400 == 0 ==> year % 100 == 0 && year % 4 == 0;
    assert year % 100 == 0 ==> year % 4 == 0;
  }

  lemma Multiples(x: nat, y: nat, p: nat, q: nat)
    requires p > 0 && x == y + q * p
    ensures x % p == y % p
  {
    Quotient(x, p, y / p + q, y % p);
  }
}
