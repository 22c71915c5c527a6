/** When a heartbeat task last should have run (desktop/heartbeat.go). */
module HeartbeatSchedule {
  // Times are milliseconds of local time in a fixed-offset zone since 0001-01-01.  An
  // occurrence of a schedule is defined on its own, by what the instant looks like on a
  // clock and a calendar; the scheduler's searches are then compared with the greatest
  // occurrence that is not in the future.

  import opened Wrappers
  import opened CivilCalendar

  const DAY := 86_400_000
  const MINUTE := 60_000

  /** The rule part of an interval such as "168h|weekly:mon@09:00", parsed. */
  datatype Rule =
    | Daily
    | Weekly(days: seq<int>)
    | Biweekly(days: seq<int>)
    | Monthly(day: nat)
    | Yearly(month: int, day: nat)

  /** `clock` is hour*60+minute. */
  datatype Schedule = Schedule(rule: Rule, clock: nat)

  /** What parseHeartbeatSchedule accepts. */
  predicate Parsed(s: Schedule)
  {
    && s.clock < 1440
    && (s.rule.Weekly? || s.rule.Biweekly? ==>
          s.rule.days != [] && forall i :: 0 <= i < |s.rule.days| ==> 0 <= s.rule.days[i] < 7)
    && (s.rule.Yearly? ==> 1 <= s.rule.month <= 12)
  }

  function DayOf(t: int): int
  {
    t / DAY
  }

  /** dateAt. */
  function Slot(day: int, clock: nat): int
  {
    day * DAY + clock * MINUTE
  }

  lemma SlotDay(day: int, clock: nat)
    requires clock < 1440
    ensures DayOf(Slot(day, clock)) == day
  {
  }

  // ---- What an occurrence is ----

  function Clamped(day: nat, y: int, m: int): int
  {
    var d := if day < 1 then 1 else day;
    if d > DaysIn(y, m) then DaysIn(y, m) else d
  }

  /** Weeks start on Monday, and day 0 is a Monday. */
  predicate SameParity(anchorDay: int, day: int)
  {
    (day / 7 - anchorDay / 7) % 2 == 0
  }

  /** The schedule asks for a run on this day. */
  predicate Asks(s: Schedule, anchorDay: int, day: int)
  {
    match s.rule
    case Daily => true
    case Weekly(days) => Weekday(day) in days
    case Biweekly(days) => Weekday(day) in days && SameParity(anchorDay, day)
    case Monthly(dom) => var d := DateOf(day); d.day == Clamped(dom, d.year, d.month)
    case Yearly(month, dom) => var d := DateOf(day); d.month == month && d.day == Clamped(dom, d.year, month)
  }

  /** t is an instant at which the schedule asks for a run. */
  predicate Occurs(s: Schedule, anchor: int, t: int)
  {
    t == Slot(DayOf(t), s.clock) && Asks(s, DayOf(anchor), DayOf(t))
  }

  /** t is the greatest occurrence that is not in the future. */
  ghost predicate IsPrevious(s: Schedule, anchor: int, now: int, t: int)
  {
    Occurs(s, anchor, t) && t <= now && forall u :: Occurs(s, anchor, u) && u <= now ==> u <= t
  }

  lemma PreviousIsUnique(s: Schedule, anchor: int, now: int, t: int, u: int)
    requires IsPrevious(s, anchor, now, t) && IsPrevious(s, anchor, now, u)
    ensures t == u
  {
  }

  // ---- The weekly search ----

  /** weekStart, as a day number. */
  function WeekStart(t: int): int
  {
    var offset := (Weekday(DayOf(t)) + 6) % 7;
    DayOf(t) - offset
  }

  function WeeksBetween(a: int, b: int): int
  {
    if b < a then (a - b) / 7 else (b - a) / 7
  }

  /** A candidate the search keeps: a listed weekday, not in the future, and in an
      even week counted from the anchor if there is one. */
  predicate Qualifies(days: seq<int>, clock: nat, now: int, anchor: Option<int>, day: int)
  {
    && Weekday(day) in days
    && Slot(day, clock) <= now
    && (anchor.Some? ==> WeeksBetween(WeekStart(anchor.value), WeekStart(Slot(day, clock))) % 2 == 0)
  }

  /** The latest qualifying day at or before `day`, not reaching back to `low`. */
  function LatestDay(days: seq<int>, clock: nat, now: int, anchor: Option<int>, low: int, day: int): (r: Option<int>)
    ensures r.Some? ==> low < r.value <= day && Qualifies(days, clock, now, anchor, r.value)
    ensures forall d :: (if r.Some? then r.value else low) < d <= day ==> !Qualifies(days, clock, now, anchor, d)
    decreases day - low
  {
    if day <= low then None
    else if Qualifies(days, clock, now, anchor, day) then Some(day)
    else LatestDay(days, clock, now, anchor, low, day - 1)
  }

  function SlotOf(day: Option<int>, clock: nat): Option<int>
  {
    if day.Some? then Some(Slot(day.value, clock)) else None
  }

  /** previousHeartbeatWeeklyAt: every listed weekday of every day in the window is
      tried, and the latest kept candidate wins. */
  method PreviousWeekly(days: seq<int>, clock: nat, now: int, window: nat, anchor: Option<int>)
    returns (best: Option<int>)
    requires clock < 1440
    ensures best == SlotOf(LatestDay(days, clock, now, anchor, DayOf(now) - window, DayOf(now)), clock)
  {
    var today := DayOf(now);
    ghost var kept: Option<int> := None;
    best := None;
    for offset := 0 to window
      invariant best == SlotOf(kept, clock)
      invariant kept.Some? ==> today - offset < kept.value <= today && Qualifies(days, clock, now, anchor, kept.value)
      invariant forall d :: (if kept.Some? then kept.value else today - offset) < d <= today ==>
                  !Qualifies(days, clock, now, anchor, d)
    {
      var day := today - offset;
      ghost var before := kept;
      for i := 0 to |days|
        invariant best == SlotOf(kept, clock)
        invariant kept == if before.None? && Qualifies(days[..i], clock, now, anchor, day) then Some(day) else before
      {
        assert days[..i + 1] == days[..i] + [days[i]];
        if Weekday(day) == days[i] {
          var candidate := Slot(day, clock);
          if candidate <= now {
            if !(anchor.Some? && WeeksBetween(WeekStart(anchor.value), WeekStart(candidate)) % 2 != 0) {
              if best.None? || candidate > best.value {
                best, kept := Some(candidate), Some(day);
              }
            }
          }
        }
      }
      assert days[..|days|] == days;
    }
    ghost var r := LatestDay(days, clock, now, anchor, today - window, today);
    assert kept == r;
  }

  // ---- The other rules ----

  function MonthlySlot(y: int, m: int, day: nat, clock: nat): int
    requires 1 <= m <= 12
  {
    Slot(DayNumber(Date(y, m, Clamped(day, y, m))), clock)
  }

  function PreviousMonthly(day: nat, clock: nat, now: int): int
  {
    var today := DateOf(DayOf(now));
    var candidate := MonthlySlot(today.year, today.month, day, clock);
    if candidate > now then
      var prev := MonthEarlier(today);
      MonthlySlot(prev.year, prev.month, day, clock)
    else candidate
  }

  function PreviousYearly(month: int, day: nat, clock: nat, now: int): int
    requires 1 <= month <= 12
  {
    var y := DateOf(DayOf(now)).year;
    var candidate := MonthlySlot(y, month, day, clock);
    if candidate > now then MonthlySlot(y - 1, month, day, clock) else candidate
  }

  /** previousHeartbeatScheduleAt on a parsed rule. */
  function PreviousAt(s: Schedule, anchor: int, now: int): Option<int>
    requires Parsed(s)
  {
    match s.rule
    case Daily =>
      var candidate := Slot(DayOf(now), s.clock);
      Some(if candidate > now then Slot(DayOf(now) - 1, s.clock) else candidate)
    case Weekly(days) => SlotOf(LatestDay(days, s.clock, now, None, DayOf(now) - 7, DayOf(now)), s.clock)
    case Biweekly(days) => SlotOf(LatestDay(days, s.clock, now, Some(anchor), DayOf(now) - 14, DayOf(now)), s.clock)
    case Monthly(day) => Some(PreviousMonthly(day, s.clock, now))
    case Yearly(month, day) => Some(PreviousYearly(month, day, s.clock, now))
  }

  // ---- Exactness ----

  /** For a weekly rule: the only listed weekday is today's, and its clock is ahead;
      for a biweekly rule, in an on-week. */
  predicate OnlyLaterToday(s: Schedule, anchor: int, now: int)
    requires s.rule.Weekly? || s.rule.Biweekly?
  {
    && (forall i :: 0 <= i < |s.rule.days| ==> s.rule.days[i] == Weekday(DayOf(now)))
    && Slot(DayOf(now), s.clock) > now
    && (s.rule.Biweekly? ==> SameParity(DayOf(anchor), DayOf(now)))
  }

  /** For a monthly rule: this month's slot is ahead and today's date does not exist
      in the previous month. */
  predicate OverflowsBack(s: Schedule, now: int)
    requires s.rule.Monthly?
  {
    var d := DateOf(DayOf(now));
    var p := PreviousMonth(d.year, d.month);
    d.day > DaysIn(p.0, p.1) && MonthlySlot(d.year, d.month, s.rule.day, s.clock) > now
  }

  lemma MondayOf(t: int)
    ensures WeekStart(t) == 7 * (DayOf(t) / 7)
  {
    var d := DayOf(t);
    assert (Weekday(d) + 6) % 7 == d % 7;
  }

  lemma WholeWeeks(p: int, q: int)
    ensures WeeksBetween(7 * p, 7 * q) == if q < p then p - q else q - p
  {
  }

  lemma WeekParity(a: int, b: int)
    ensures (WeeksBetween(WeekStart(a), WeekStart(b)) % 2 == 0) <==> SameParity(DayOf(a), DayOf(b))
  {
    var p, q := DayOf(a) / 7, DayOf(b) / 7;
    MondayOf(a);
    MondayOf(b);
    WholeWeeks(p, q);
    assert (p - q) % 2 == 0 <==> (q - p) % 2 == 0;
  }

  function AnchorOf(s: Schedule, anchor: int): Option<int>
  {
    if s.rule.Biweekly? then Some(anchor) else None
  }

  predicate Found(s: Schedule, anchor: int, now: int, day: int)
  {
    Asks(s, DayOf(anchor), day) && Slot(day, s.clock) <= now
  }

  lemma QualifiesMeansOccurs(s: Schedule, anchor: int, now: int, day: int)
    requires Parsed(s) && (s.rule.Weekly? || s.rule.Biweekly?)
    ensures Qualifies(s.rule.days, s.clock, now, AnchorOf(s, anchor), day)
            <==> Found(s, anchor, now, day)
  {
    SlotDay(day, s.clock);
    WeekParity(anchor, Slot(day, s.clock));
  }

  /** The search finds the greatest occurrence if it finds any, and finds none only if
      none lies in its window. */
  lemma LatestDayIsPrevious(s: Schedule, anchor: int, now: int, low: int)
    requires Parsed(s) && (s.rule.Weekly? || s.rule.Biweekly?)
    ensures var r := LatestDay(s.rule.days, s.clock, now, AnchorOf(s, anchor), low, DayOf(now));
      && (r.Some? ==> IsPrevious(s, anchor, now, Slot(r.value, s.clock)))
      && (r.None? ==> forall day :: low < day <= DayOf(now) ==> !Found(s, anchor, now, day))
  {
    var r := LatestDay(s.rule.days, s.clock, now, AnchorOf(s, anchor), low, DayOf(now));
    forall day ensures Qualifies(s.rule.days, s.clock, now, AnchorOf(s, anchor), day)
                       <==> Found(s, anchor, now, day)
    {
      QualifiesMeansOccurs(s, anchor, now, day);
    }
    if r.Some? {
      forall u | Occurs(s, anchor, u) && u <= now ensures u <= Slot(r.value, s.clock) {
        assert Found(s, anchor, now, DayOf(u));
      }
    }
  }

  function Window(s: Schedule): int
  {
    if s.rule.Weekly? then 7 else 14
  }

  /** Every listed weekday is asked for before today within the window, and unless it
      is today's weekday, not at the window's far edge. */
  lemma ListedDayBefore(s: Schedule, anchorDay: int, today: int, wd: int) returns (day: int)
    requires Parsed(s) && (s.rule.Weekly? || s.rule.Biweekly?)
    requires wd in s.rule.days
    ensures today - Window(s) <= day < today && Asks(s, anchorDay, day)
    ensures wd != Weekday(today) ==> day != today - Window(s)
    ensures day == today - Window(s) && s.rule.Biweekly? ==> SameParity(anchorDay, today)
  {
    day := today - DaysBack(today, wd);
    if s.rule.Biweekly? {
      ParityAlternates(anchorDay, day);
      if !SameParity(anchorDay, day) {
        day := day - 7;
        assert Weekday(day) == wd;
      }
      ParityAlternates(anchorDay, today - 7);
      ParityAlternates(anchorDay, today - 14);
    }
  }

  lemma ParityAlternates(anchorDay: int, day: int)
    ensures SameParity(anchorDay, day) != SameParity(anchorDay, day + 7)
    ensures SameParity(anchorDay, day - 7) != SameParity(anchorDay, day)
    ensures Weekday(day - 7) == Weekday(day)
  {
    assert (day + 7) / 7 == day / 7 + 1;
    assert (day - 7) / 7 == day / 7 - 1;
  }

  function DaysBack(today: int, wd: int): (k: int)
    requires 0 <= wd < 7
    ensures 1 <= k <= 7 && Weekday(today - k) == wd
    ensures wd != Weekday(today) ==> k < 7
  {
    var w := Weekday(today);
    var k := if wd < w then w - wd else w - wd + 7;
    var q := (today + 1) / 7;
    assert today + 1 == 7 * q + w;
    assert today + 1 - k == (if wd < w then 7 * q else 7 * (q - 1)) + wd;
    k
  }

  /** Weekly: exact unless the only listed day is today and its clock is ahead; then
      nothing is reported although the slot of a week ago is an occurrence. */
  lemma WeeklyExact(s: Schedule, anchor: int, now: int)
    requires Parsed(s) && s.rule.Weekly?
    ensures var r := PreviousAt(s, anchor, now);
      && (r.None? <==> OnlyLaterToday(s, anchor, now))
      && (r.Some? ==> IsPrevious(s, anchor, now, r.value))
      && (r.None? ==> IsPrevious(s, anchor, now, Slot(DayOf(now) - 7, s.clock)))
  {
    WindowExact(s, anchor, now, 7);
  }

  /** Biweekly: the same with fourteen days, and only in an on-week. */
  lemma BiweeklyExact(s: Schedule, anchor: int, now: int)
    requires Parsed(s) && s.rule.Biweekly?
    ensures var r := PreviousAt(s, anchor, now);
      && (r.None? <==> OnlyLaterToday(s, anchor, now))
      && (r.Some? ==> IsPrevious(s, anchor, now, r.value))
      && (r.None? ==> IsPrevious(s, anchor, now, Slot(DayOf(now) - 14, s.clock)))
  {
    WindowExact(s, anchor, now, 14);
  }

  lemma WindowExact(s: Schedule, anchor: int, now: int, window: nat)
    requires Parsed(s) && (if s.rule.Weekly? then window == 7 else s.rule.Biweekly? && window == 14)
    ensures var r := PreviousAt(s, anchor, now);
      && (r.None? <==> OnlyLaterToday(s, anchor, now))
      && (r.Some? ==> IsPrevious(s, anchor, now, r.value))
      && (r.None? ==> IsPrevious(s, anchor, now, Slot(DayOf(now) - window, s.clock)))
  {
    var today, r := DayOf(now), PreviousAt(s, anchor, now);
    LatestDayIsPrevious(s, anchor, now, today - window);
    if OnlyLaterToday(s, anchor, now) {
      LaterTodayFindsNothing(s, anchor, now, window);
    }
    if r.None? {
      NothingFound(s, anchor, now, window);
    }
  }

  lemma NothingFound(s: Schedule, anchor: int, now: int, window: nat)
    requires Parsed(s) && (if s.rule.Weekly? then window == 7 else s.rule.Biweekly? && window == 14)
    requires forall day :: DayOf(now) - window < day <= DayOf(now) ==> !Found(s, anchor, now, day)
    ensures OnlyLaterToday(s, anchor, now)
    ensures IsPrevious(s, anchor, now, Slot(DayOf(now) - window, s.clock))
  {
    var today := DayOf(now);
    forall i | 0 <= i < |s.rule.days|
      ensures s.rule.days[i] == Weekday(today) && Asks(s, DayOf(anchor), today - window)
      ensures s.rule.Biweekly? ==> SameParity(DayOf(anchor), today)
    {
      var day := ListedDayBefore(s, DayOf(anchor), today, s.rule.days[i]);
      assert Slot(day, s.clock) <= now;
      assert Found(s, anchor, now, day);
    }
    assert s.rule.days[0] == Weekday(today);
    assert !Found(s, anchor, now, today);
    SlotDay(today - window, s.clock);
    forall u | Occurs(s, anchor, u) && u <= now ensures u <= Slot(today - window, s.clock) {
      assert Found(s, anchor, now, DayOf(u));
    }
  }

  lemma LaterTodayFindsNothing(s: Schedule, anchor: int, now: int, window: nat)
    requires Parsed(s) && (if s.rule.Weekly? then window == 7 else s.rule.Biweekly? && window == 14)
    requires OnlyLaterToday(s, anchor, now)
    ensures forall day :: DayOf(now) - window < day <= DayOf(now) ==>
              !Qualifies(s.rule.days, s.clock, now, AnchorOf(s, anchor), day)
  {
    var today := DayOf(now);
    forall day | today - window < day <= today ensures !Qualifies(s.rule.days, s.clock, now, AnchorOf(s, anchor), day) {
      QualifiesMeansOccurs(s, anchor, now, day);
      if Asks(s, DayOf(anchor), day) && day != today {
        var i :| 0 <= i < |s.rule.days| && s.rule.days[i] == Weekday(day);
        SameWeekday(day, today);
        ParityAlternates(DayOf(anchor), today);
      }
    }
  }

  lemma SameWeekday(day: int, today: int)
    requires today - 14 < day < today && Weekday(day) == Weekday(today)
    ensures day == today - 7
  {
  }

  lemma MonthlySlotOccurs(s: Schedule, anchor: int, y: int, m: int, dom: nat)
    requires s.clock < 1440 && 1 <= m <= 12
    requires s.rule == Monthly(dom) || s.rule == Yearly(m, dom)
    ensures Occurs(s, anchor, MonthlySlot(y, m, dom, s.clock))
    ensures var d := Date(y, m, Clamped(dom, y, m)); DateOf(DayOf(MonthlySlot(y, m, dom, s.clock))) == d
  {
    var d := Date(y, m, Clamped(dom, y, m));
    SlotDay(DayNumber(d), s.clock);
    DateOfDayNumber(d);
  }

  lemma OccurrenceIsMonthlySlot(s: Schedule, anchor: int, u: int) returns (d: Date)
    requires s.rule.Monthly? || s.rule.Yearly?
    requires Occurs(s, anchor, u)
    ensures d == DateOf(DayOf(u)) && Valid(d) && u == Slot(DayNumber(d), s.clock)
    ensures d.day == Clamped(s.rule.day, d.year, d.month) && (s.rule.Yearly? ==> d.month == s.rule.month)
  {
    d := DateOf(DayOf(u));
    DayNumberOfDateOf(DayOf(u));
  }

  /** An occurrence that is not in the future lies on no later date than today. */
  lemma NotAfterToday(u: int, now: int)
    requires u <= now
    ensures !Before(DateOf(DayOf(now)), DateOf(DayOf(u)))
  {
    DayNumberOfDateOf(DayOf(u));
    DayNumberOfDateOf(DayOf(now));
    DayNumberKeepsOrder(DateOf(DayOf(now)), DateOf(DayOf(u)));
  }

  /** What the monthly branch reports: this month's slot, or the previous month's if
      that is ahead and the step back did reach the previous month. */
  lemma MonthlyReport(s: Schedule, anchor: int, now: int)
    requires Parsed(s) && s.rule.Monthly?
    ensures var today := DateOf(DayOf(now));
            var p := PreviousMonth(today.year, today.month);
            var here := MonthlySlot(today.year, today.month, s.rule.day, s.clock);
            PreviousAt(s, anchor, now)
            == Some(if here <= now || OverflowsBack(s, now) then here else MonthlySlot(p.0, p.1, s.rule.day, s.clock))
  {
    MonthEarlierLands(DateOf(DayOf(now)));
  }

  /** Only this month's slot can lie between the previous month's slot and now. */
  lemma MonthlyOccurrences(s: Schedule, anchor: int, y: int, m: int, u: int)
    requires Parsed(s) && s.rule.Monthly? && 1 <= m <= 12
    requires var d := DateOf(DayOf(u)); Occurs(s, anchor, u) && !MonthBefore(y, m, d.year, d.month)
    ensures var p := PreviousMonth(y, m);
            u <= MonthlySlot(p.0, p.1, s.rule.day, s.clock) || u == MonthlySlot(y, m, s.rule.day, s.clock)
  {
    var p := PreviousMonth(y, m);
    var d := OccurrenceIsMonthlySlot(s, anchor, u);
    if MonthBefore(d.year, d.month, p.0, p.1) {
      MonthlySlotOrder(d.year, d.month, p.0, p.1, s.rule.day, s.clock);
    }
  }

  /** Monthly: exact if and only if the step back does not overflow; where it does,
      the reported slot is in the future. */
  lemma MonthlyExact(s: Schedule, anchor: int, now: int)
    requires Parsed(s) && s.rule.Monthly?
    ensures var r := PreviousAt(s, anchor, now).value;
      && (IsPrevious(s, anchor, now, r) <==> !OverflowsBack(s, now))
      && (OverflowsBack(s, now) ==> r > now)
  {
    MonthlyReport(s, anchor, now);
    MonthlyPrevious(s, anchor, now);
  }

  /** The greatest occurrence of a monthly rule is this month's slot or the previous one's. */
  lemma MonthlyPrevious(s: Schedule, anchor: int, now: int)
    requires Parsed(s) && s.rule.Monthly?
    ensures var today := DateOf(DayOf(now));
            var p := PreviousMonth(today.year, today.month);
            var here := MonthlySlot(today.year, today.month, s.rule.day, s.clock);
            IsPrevious(s, anchor, now, if here > now then MonthlySlot(p.0, p.1, s.rule.day, s.clock) else here)
  {
    var today, dom := DateOf(DayOf(now)), s.rule.day;
    var y, m, p := today.year, today.month, PreviousMonth(today.year, today.month);
    var here, there := MonthlySlot(y, m, dom, s.clock), MonthlySlot(p.0, p.1, dom, s.clock);
    assert Occurs(s, anchor, here) by { MonthlySlotOccurs(s, anchor, y, m, dom); }
    assert Occurs(s, anchor, there) by { MonthlySlotOccurs(s, anchor, p.0, p.1, dom); }
    assert there <= now by { SlotBeforeMonth(p.0, p.1, dom, s.clock, now); }
    assert there < here by { MonthlySlotOrder(p.0, p.1, y, m, dom, s.clock); }
    forall u | Occurs(s, anchor, u) && u <= now ensures u <= there || u == here {
      NotAfterToday(u, now);
      MonthlyOccurrences(s, anchor, y, m, u);
    }
    OneOfTwo(s, anchor, now, here, there);
  }

  /** Any slot of an earlier month is past. */
  lemma SlotBeforeMonth(y: int, m: int, dom: nat, clock: nat, now: int)
    requires 1 <= m <= 12 && clock < 1440
    ensures var today := DateOf(DayOf(now));
            MonthBefore(y, m, today.year, today.month) ==> MonthlySlot(y, m, dom, clock) <= now
  {
    var today, d := DateOf(DayOf(now)), Date(y, m, Clamped(dom, y, m));
    if MonthBefore(y, m, today.year, today.month) {
      DayNumberKeepsOrder(d, today);
      DayNumberOfDateOf(DayOf(now));
      assert DayNumber(d) + 1 <= DayOf(now);
    }
  }

  lemma MonthlySlotOrder(y1: int, m1: int, y2: int, m2: int, dom: nat, clock: nat)
    requires 1 <= m1 <= 12 && 1 <= m2 <= 12 && MonthBefore(y1, m1, y2, m2)
    ensures MonthlySlot(y1, m1, dom, clock) < MonthlySlot(y2, m2, dom, clock)
  {
    DayNumberKeepsOrder(Date(y1, m1, Clamped(dom, y1, m1)), Date(y2, m2, Clamped(dom, y2, m2)));
  }

  lemma YearlyOccurrences(s: Schedule, anchor: int, y: int, u: int)
    requires Parsed(s) && s.rule.Yearly?
    requires Occurs(s, anchor, u) && DateOf(DayOf(u)).year <= y
    ensures u <= MonthlySlot(y - 1, s.rule.month, s.rule.day, s.clock)
            || u == MonthlySlot(y, s.rule.month, s.rule.day, s.clock)
  {
    var d := OccurrenceIsMonthlySlot(s, anchor, u);
    if d.year < y - 1 {
      MonthlySlotOrder(d.year, d.month, y - 1, d.month, s.rule.day, s.clock);
    }
  }

  /** The previous occurrence is one of two candidates when no other can be between. */
  lemma OneOfTwo(s: Schedule, anchor: int, now: int, here: int, there: int)
    requires Occurs(s, anchor, here) && Occurs(s, anchor, there) && there <= now && there < here
    requires forall u :: Occurs(s, anchor, u) && u <= now ==> u <= there || u == here
    ensures IsPrevious(s, anchor, now, if here > now then there else here)
  {
  }

  /** Yearly: always exact. */
  lemma YearlyExact(s: Schedule, anchor: int, now: int)
    requires Parsed(s) && s.rule.Yearly?
    ensures IsPrevious(s, anchor, now, PreviousAt(s, anchor, now).value)
  {
    var y, m, dom := DateOf(DayOf(now)).year, s.rule.month, s.rule.day;
    var here, there := MonthlySlot(y, m, dom, s.clock), MonthlySlot(y - 1, m, dom, s.clock);
    assert Occurs(s, anchor, here) by { MonthlySlotOccurs(s, anchor, y, m, dom); }
    assert Occurs(s, anchor, there) by { MonthlySlotOccurs(s, anchor, y - 1, m, dom); }
    assert there <= now by { SlotBeforeMonth(y - 1, m, dom, s.clock, now); }
    assert there < here by { MonthlySlotOrder(y - 1, m, y, m, dom, s.clock); }
    forall u | Occurs(s, anchor, u) && u <= now ensures u <= there || u == here {
      NotAfterToday(u, now);
      YearlyOccurrences(s, anchor, y, u);
    }
    OneOfTwo(s, anchor, now, here, there);
  }

  /** Daily: always exact. */
  lemma DailyExact(s: Schedule, anchor: int, now: int)
    requires Parsed(s) && s.rule.Daily?
    ensures IsPrevious(s, anchor, now, PreviousAt(s, anchor, now).value)
  {
    var today := DayOf(now);
    SlotDay(today, s.clock);
    SlotDay(today - 1, s.clock);
    forall u | Occurs(s, anchor, u) && u <= now ensures u <= PreviousAt(s, anchor, now).value {
      assert DayOf(u) <= today;
    }
  }

  // ---- The reports that are not exact ----

  /** On 31 March at 08:00 a task for the 31st at 09:00 is told of a run in the future. */
  lemma MonthlyOverflowExample()
    ensures var s := Schedule(Monthly(31), 540);
            var now := Slot(DayNumber(Date(1, 3, 31)), 480);
            Parsed(s) && PreviousAt(s, 0, now).value > now
  {
    var s, march31 := Schedule(Monthly(31), 540), Date(1, 3, 31);
    var now := Slot(DayNumber(march31), 480);
    SlotDay(DayNumber(march31), 480);
    DateOfDayNumber(march31);
    MonthlyExact(s, 0, now);
  }

  /** On Monday at 08:00 a task for Mondays at 09:00 is told of no run at all. */
  lemma WeeklyMissExample()
    ensures var s := Schedule(Weekly([1]), 540);
            Parsed(s) && PreviousAt(s, 0, Slot(7, 480)).None? && IsPrevious(s, 0, Slot(7, 480), Slot(0, 540))
  {
    var s := Schedule(Weekly([1]), 540);
    SlotDay(7, 480);
    WeeklyExact(s, 0, Slot(7, 480));
  }
}
