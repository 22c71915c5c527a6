/** When heartbeat tasks are due, and that due tasks run (desktop/heartbeat.go). */
module HeartbeatDue {
  // The due test is tied to the occurrences of a rule, to instants for intervals and time
  // windows, and to what a tick of the engine does.

  import opened Wrappers
  import opened CivilCalendar
  import opened HeartbeatSchedule
  import opened HeartbeatEngine

  // ---- Tasks with a rule ----

  /** A run is owed: the occurrence is not before the task's creation and the task has not
      run since. */
  predicate Owed(t: Task, o: int)
  {
    (t.created.Some? ==> t.created.value <= o) && (t.lastRun.Some? ==> t.lastRun.value < o)
  }

  /** The reports of a rule's last occurrence that are wrong: of nothing, when the only
      listed weekday is today and its clock is ahead, and of a slot in the future, when
      stepping back a month overflows. */
  predicate Misreported(s: Schedule, anchor: int, now: int)
  {
    match s.rule
    case Weekly(_) => OnlyLaterToday(s, anchor, now)
    case Biweekly(_) => OnlyLaterToday(s, anchor, now)
    case Monthly(_) => OverflowsBack(s, now)
    case _ => false
  }

  /** What the parser of rules gives: a minute of the day, at least one weekday from Sunday as
      0 to Saturday as 6, and one of the twelve months. */
  lemma ParsedExactly(s: Schedule)
    ensures Parsed(s)
       <==> && s.clock < 24 * 60
            && (s.rule.Weekly? || s.rule.Biweekly? ==>
                  |s.rule.days| >= 1 && forall i :: 0 <= i < |s.rule.days| ==> s.rule.days[i] in {0, 1, 2, 3, 4, 5, 6})
            && (s.rule.Yearly? ==> s.rule.month in {1, 2, 3, 4, 5, 6, 7, 8, 9, 10, 11, 12})
  {
  }

  /** What the report says of the greatest occurrence that is not in the future. */
  lemma ReportedOccurrence(s: Schedule, anchor: int, now: int, o: int)
    requires Parsed(s) && IsPrevious(s, anchor, now, o)
    ensures !Misreported(s, anchor, now) ==> PreviousAt(s, anchor, now) == Some(o)
    ensures Misreported(s, anchor, now) ==>
      if s.rule.Monthly? then PreviousAt(s, anchor, now).Some? && PreviousAt(s, anchor, now).value > now
      else PreviousAt(s, anchor, now).None?
  {
    match s.rule
    case Daily => DailyExact(s, anchor, now);
    case Weekly(_) => WeeklyExact(s, anchor, now);
    case Biweekly(_) => BiweeklyExact(s, anchor, now);
    case Monthly(_) => MonthlyExact(s, anchor, now);
    case Yearly(_, _) => YearlyExact(s, anchor, now);
  }

  /** There is always a last occurrence. */
  lemma PreviousExists(s: Schedule, anchor: int, now: int) returns (o: int)
    requires Parsed(s)
    ensures IsPrevious(s, anchor, now, o)
  {
    match s.rule
    case Daily =>
      DailyExact(s, anchor, now);
      o := PreviousAt(s, anchor, now).value;
    case Yearly(_, _) =>
      YearlyExact(s, anchor, now);
      o := PreviousAt(s, anchor, now).value;
    case Monthly(day) =>
      MonthlyPrevious(s, anchor, now);
      var today := DateOf(DayOf(now));
      var p := PreviousMonth(today.year, today.month);
      var here := MonthlySlot(today.year, today.month, day, s.clock);
      o := if here > now then MonthlySlot(p.0, p.1, day, s.clock) else here;
    case _ => o := PreviousInWindow(s, anchor, now);
  }

  lemma PreviousInWindow(s: Schedule, anchor: int, now: int) returns (o: int)
    requires Parsed(s) && (s.rule.Weekly? || s.rule.Biweekly?)
    ensures IsPrevious(s, anchor, now, o)
  {
    var reported := PreviousAt(s, anchor, now);
    if s.rule.Weekly? {
      WeeklyExact(s, anchor, now);
    } else {
      BiweeklyExact(s, anchor, now);
    }
    o := if reported.Some? then reported.value else Slot(DayOf(now) - if s.rule.Weekly? then 7 else 14, s.clock);
  }

  /** Exactly when a task with a rule is due.  Unless the last occurrence is misreported, it
      is due if and only if a run is owed for it.  With no report it is left to the
      interval, and with a report in the future it is not due at all. */
  lemma DueExactly(t: Task, now: int, o: int)
    requires t.schedule.Some? && Parsed(t.schedule.value)
    requires var anchor := if t.created.Some? then t.created.value
                           else if t.lastRun.Some? then t.lastRun.value else now;
             IsPrevious(t.schedule.value, anchor, now, o)
    ensures var anchor := if t.created.Some? then t.created.value
                          else if t.lastRun.Some? then t.lastRun.value else now;
            if !Misreported(t.schedule.value, anchor, now) then Due(t, now) <==> Owed(t, o)
            else if t.schedule.value.rule.Monthly? then !Due(t, now)
            else Due(t, now) <==> Due(t.(schedule := None), now)
  {
    ReportedOccurrence(t.schedule.value, AnchorFor(t, now), now, o);
  }

  /** As the shell writes its tasks, a due task owes the run, also where its last occurrence
      is misreported. */
  lemma DueIsOwed(t: Task, now: int, o: int)
    requires RuleScheduled(t) && IsPrevious(t.schedule.value, t.created.value, now, o)
    ensures Due(t, now) ==> Owed(t, o)
    ensures !Misreported(t.schedule.value, t.created.value, now) ==> (Due(t, now) <==> Owed(t, o))
  {
    DueExactly(t, now, o);
    if Due(t, now) {
      var p := AnsweredOccurrence(t, now);
      PreviousIsUnique(t.schedule.value, t.created.value, now, o, p);
    }
  }

  // ---- Tasks without a rule ----

  /** The time window, by the instants it lies between: every day from its start to its end,
      over midnight if the end is not later; a bound that is absent or unreadable leaves
      that side to midnight. */
  ghost predicate InWindow(t: Task, now: int)
  {
    match (t.windowStart, t.windowEnd)
    case (At(a), At(b)) => exists day: int :: Slot(day, a) <= now < Slot(if a < b then day else day + 1, b)
    case (At(a), _) => exists day: int :: Slot(day, a) <= now < Slot(day + 1, 0)
    case (_, At(b)) => exists day: int :: Slot(day, 0) <= now < Slot(day, b)
    case _ => true
  }

  /** What parseHeartbeatClock gives. */
  predicate IsClock(b: Bound)
  {
    b.At? ==> b.minute < 1440
  }

  lemma MinuteOfDay(now: int, minute: nat)
    requires minute <= 1440
    ensures now % DAY / MINUTE < minute <==> now < Slot(DayOf(now), minute)
  {
    assert now == DayOf(now) * DAY + now % DAY;
    if now % DAY < minute * MINUTE {
      assert now % DAY / MINUTE < minute;
    } else {
      assert now % DAY / MINUTE >= minute;
    }
  }

  /** An instant between two slots lies on the day of one of them. */
  lemma SlotOfDay(now: int, day: int, a: nat)
    requires a <= 1440
    ensures Slot(day, a) <= now ==> day <= DayOf(now)
    ensures now < Slot(day, a) ==> DayOf(now) <= day
  {
    assert now == DayOf(now) * DAY + now % DAY;
  }

  lemma WindowIsDaily(t: Task, now: int)
    requires IsClock(t.windowStart) && IsClock(t.windowEnd)
    ensures WithinWindow(t, now) <==> InWindow(t, now)
  {
    match (t.windowStart, t.windowEnd)
    case (At(a), At(b)) => WholeWindow(t, now, a, b);
    case (At(a), _) =>
      MinuteOfDay(now, a);
      NextDay(now);
      forall day: int | Slot(day, a) <= now < Slot(day + 1, 0) ensures day == DayOf(now) {
        SlotOfDay(now, day, a);
        SlotOfDay(now, day + 1, 0);
      }
      assert WithinWindow(t, now) ==> Slot(DayOf(now), a) <= now < Slot(DayOf(now) + 1, 0);
    case (_, At(b)) =>
      MinuteOfDay(now, b);
      NextDay(now);
      forall day: int | Slot(day, 0) <= now < Slot(day, b) ensures day == DayOf(now) {
        SlotOfDay(now, day, 0);
        SlotOfDay(now, day, b);
      }
      assert WithinWindow(t, now) ==> Slot(DayOf(now), 0) <= now < Slot(DayOf(now), b);
    case _ =>
  }

  lemma NextDay(now: int)
    ensures Slot(DayOf(now), 0) <= now < Slot(DayOf(now) + 1, 0)
  {
  }

  lemma WholeWindow(t: Task, now: int, a: nat, b: nat)
    requires t.windowStart == At(a) && t.windowEnd == At(b) && a < 1440 && b < 1440
    ensures WithinWindow(t, now) <==> InWindow(t, now)
  {
    var today := DayOf(now);
    MinuteOfDay(now, a);
    MinuteOfDay(now, b);
    NextDay(now);
    if WithinWindow(t, now) {
      if a < b || Slot(today, a) <= now {
        assert Slot(today, a) <= now < Slot(if a < b then today else today + 1, b);
      } else {
        assert Slot(today - 1, a) <= now < Slot(today - 1 + 1, b);
      }
    }
    if InWindow(t, now) {
      var day: int :| Slot(day, a) <= now < Slot(if a < b then day else day + 1, b);
      SlotOfDay(now, day, a);
      SlotOfDay(now, if a < b then day else day + 1, b);
    }
  }

  /** Exactly when a task without a rule is due: its interval is positive and has passed
      since the last run, or since the creation if it has not run, and the instant lies in
      its window.  One with neither run nor creation waits for nothing but the window. */
  lemma IntervalExactly(t: Task, now: int)
    requires t.schedule.None? && IsClock(t.windowStart) && IsClock(t.windowEnd)
    ensures Due(t, now) <==>
      && t.interval > 0 && InWindow(t, now)
      && (t.lastRun.Some? ==> t.lastRun.value + t.interval <= now)
      && (t.lastRun.None? && t.created.Some? ==> t.created.value + t.interval <= now)
  {
    WindowIsDaily(t, now);
  }

  // ---- Due tasks run ----

  /** What a run leaves on a task: the time and the topic of a submission, the time alone of
      an early error, and nothing of a retry. */
  lemma RunLeaves(t: Task, now: int, e: Execution)
    requires t.schedule.Some? ==> Parsed(t.schedule.value)
    requires t.enabled && Due(t, now)
    ensures var r := Ticked(t, now, e);
      && r == t.(lastRun := r.lastRun, topic := r.topic, created := r.created)
      && r.lastRun == (if e.Retry? then t.lastRun else Some(e.at))
      && r.topic == (if e.Submitted? && e.topic != "" then e.topic else t.topic)
      && r.created == (if t.created.None? && e.Submitted? then Some(e.at) else t.created)
  {
  }

  lemma NothingRuns(t: Task, now: int, e: Execution)
    requires t.schedule.Some? ==> Parsed(t.schedule.value)
    requires !t.enabled || !Due(t, now)
    ensures Ticked(t, now, e) == t && SubmittedAt(t, Tick(now, e)) == []
  {
  }

  /** At every tick of every run: an enabled task is submitted, if its execution is a
      submission, exactly when a run is owed for the last occurrence, unless that is
      misreported; a disabled one never is. */
  lemma TickRunsWhatIsOwed(t: Task, history: seq<Tick>, k: nat, o: int)
    requires RuleScheduled(t) && Clockwise(history) && k < |history|
    requires IsPrevious(t.schedule.value, t.created.value, history[k].now, o)
    requires !Misreported(t.schedule.value, t.created.value, history[k].now)
    ensures After(t, history[..k]).0.schedule == t.schedule && After(t, history[..k]).0.enabled == t.enabled
    ensures var before, tick := After(t, history[..k]).0, history[k];
      && Ticked(before, tick.now, tick.e) == After(t, history[..k + 1]).0
      && After(t, history[..k + 1]).1 == After(t, history[..k]).1
           + (if before.enabled && Owed(before, o) && tick.e.Submitted? then [tick.now] else [])
      && (before.enabled && Owed(before, o) && !tick.e.Retry? ==>
            After(t, history[..k + 1]).0.lastRun == Some(tick.e.at) && !Owed(After(t, history[..k + 1]).0, o))
  {
    var before, tick := After(t, history[..k]).0, history[k];
    ClockwisePart(history, k);
    var answered := OncePerOccurrence(t, history[..k]);
    AfterKeepsDefinition(t, history[..k]);
    AfterOneMore(t, history, k);
    DueIsOwed(before, tick.now, o);
    assert o <= tick.now <= EndOf(tick);
  }

  lemma ClockwisePart(history: seq<Tick>, k: nat)
    requires Clockwise(history) && k <= |history|
    ensures Clockwise(history[..k])
  {
  }

  lemma {:induction false} AfterKeepsDefinition(t: Task, history: seq<Tick>)
    requires t.schedule.Some? ==> Parsed(t.schedule.value)
    ensures var r := After(t, history).0; r.schedule == t.schedule && r.enabled == t.enabled && r.id == t.id
    decreases |history|
  {
    if history != [] {
      AfterKeepsDefinition(Ticked(t, history[0].now, history[0].e), history[1..]);
    }
  }

  lemma {:induction false} AfterOneMore(t: Task, history: seq<Tick>, k: nat)
    requires t.schedule.Some? ==> Parsed(t.schedule.value)
    requires k < |history|
    ensures After(t, history[..k]).0.schedule == t.schedule
    ensures var before := After(t, history[..k]);
            After(t, history[..k + 1])
            == (Ticked(before.0, history[k].now, history[k].e), before.1 + SubmittedAt(before.0, history[k]))
    decreases k
  {
    AfterKeepsDefinition(t, history[..k]);
    if k == 0 {
      assert history[..1][1..] == [];
      assert SubmittedAt(t, history[0]) + [] == [] + SubmittedAt(t, history[0]);
    } else {
      var t' := Ticked(t, history[0].now, history[0].e);
      AfterOneMore(t', history[1..], k - 1);
      assert history[..k + 1][1..] == history[1..][..k] && history[..k][1..] == history[1..][..k - 1];
      var x, y := SubmittedAt(t, history[0]), After(t', history[1..][..k - 1]).1;
      assert x + (y + SubmittedAt(After(t', history[1..][..k - 1]).0, history[k]))
          == (x + y) + SubmittedAt(After(t', history[1..][..k - 1]).0, history[k]);
    }
  }

  /** The engine's tick over a list nobody edits meanwhile: a task is replaced by its run if
      and only if it is enabled and, for a rule, a run is owed. */
  lemma EngineRunsWhatIsOwed(tasks: seq<Task>, now: int, executions: seq<Execution>, i: nat, o: int)
    requires |tasks| == |executions| && AllParsed(tasks) && UniqueIds(tasks) && i < |tasks|
    requires RuleScheduled(tasks[i]) && IsPrevious(tasks[i].schedule.value, tasks[i].created.value, now, o)
    requires !Misreported(tasks[i].schedule.value, tasks[i].created.value, now)
    ensures TickedAll(tasks, now, executions)[i]
         == if tasks[i].enabled && Owed(tasks[i], o) then Ran(tasks[i], executions[i]) else tasks[i]
  {
    DueIsOwed(tasks[i], now, o);
  }

  /** Run state is laid over the definitions on disk: an update's last run and topic take
      the place of what is there, and a task without an update stays as it is. */
  lemma RunStateLands(onDisk: Task, updates: map<string, Task>)
    ensures onDisk.id !in updates ==> Merged(onDisk, updates) == onDisk
    ensures onDisk.id in updates ==>
      var m, u := Merged(onDisk, updates), updates[onDisk.id];
      && (u.lastRun.Some? ==> m.lastRun == u.lastRun) && (u.topic != "" ==> m.topic == u.topic)
      && (u.lastRun.None? ==> m.lastRun == onDisk.lastRun) && (u.topic == "" ==> m.topic == onDisk.topic)
      && (onDisk.created.None? ==> m.created == u.created)
  {
  }

  // ---- Which days a rule asks for ----

  /** The day of the month d stands for the day a rule names: the same, or the month's last
      if the month is shorter; the first if the rule names none. */
  predicate StandsFor(d: Date, named: nat)
  {
    || d.day == named
    || (named > d.day && d.day == DaysIn(d.year, d.month))
    || (named == 0 && d.day == 1)
  }

  /** A daily rule asks for every day, a weekly one for its weekdays, a biweekly one for those
      in every second week from Monday on, counted from the anchor's, a monthly one for one
      day of every month, and a yearly one for one day of its month. */
  lemma AsksExactly(s: Schedule, anchorDay: int, day: int)
    requires Parsed(s)
    ensures s.rule.Daily? ==> Asks(s, anchorDay, day)
    ensures s.rule.Weekly? ==>
      (Asks(s, anchorDay, day) <==> exists i :: 0 <= i < |s.rule.days| && s.rule.days[i] == (day + 1) % 7)
    ensures s.rule.Biweekly? ==>
      (Asks(s, anchorDay, day)
       <==> (exists i :: 0 <= i < |s.rule.days| && s.rule.days[i] == (day + 1) % 7)
            && ((day - day % 7) - (anchorDay - anchorDay % 7)) % 14 == 0)
    ensures s.rule.Monthly? ==> (Asks(s, anchorDay, day) <==> StandsFor(DateOf(day), s.rule.day))
    ensures s.rule.Yearly? ==>
      (Asks(s, anchorDay, day) <==> DateOf(day).month == s.rule.month && StandsFor(DateOf(day), s.rule.day))
  {
    WholeWeeksApart(anchorDay, day);
    DayNumberOfDateOf(day);
  }

  lemma WholeWeeksApart(anchorDay: int, day: int)
    ensures SameParity(anchorDay, day) <==> ((day - day % 7) - (anchorDay - anchorDay % 7)) % 14 == 0
  {
    var weeks := day / 7 - anchorDay / 7;
    assert (day - day % 7) - (anchorDay - anchorDay % 7) == 7 * weeks;
    assert 7 * weeks % 14 == 7 * (weeks % 2) by {
      assert weeks == 2 * (weeks / 2) + weeks % 2;
      assert 7 * weeks == 14 * (weeks / 2) + 7 * (weeks % 2);
    }
  }

  /** An occurrence is one minute, at the rule's clock, of a day it asks for. */
  lemma OccursExactly(s: Schedule, anchor: int, t: int)
    requires Parsed(s)
    ensures Occurs(s, anchor, t)
       <==> exists day: int :: t == day * 86_400_000 + s.clock * 60_000 && Asks(s, anchor / 86_400_000, day)
  {
    if day: int :| t == day * 86_400_000 + s.clock * 60_000 && Asks(s, anchor / 86_400_000, day) {
      SlotDay(day, s.clock);
    }
    if Occurs(s, anchor, t) {
      assert t == DayOf(t) * 86_400_000 + s.clock * 60_000;
    }
  }
}
