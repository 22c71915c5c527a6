/** The heartbeat scheduler over whole runs (desktop/heartbeat.go). */
module HeartbeatEngine {
  // The due test, the tick that runs due tasks, and the merge of their run state into the
  // task list.

  import opened Wrappers
  import opened HeartbeatSchedule

  /** One end of a time window: absent, present but unreadable, or a clock minute. */
  datatype Bound = Absent | Unreadable | At(minute: nat)

  /** `interval` is the parsed prefix in milliseconds (not positive if it does not
      parse), `schedule` the parsed rule if any; a zero timestamp is None. */
  datatype Task = Task(
    id: string, enabled: bool, interval: int, schedule: Option<Schedule>,
    windowStart: Bound, windowEnd: Bound, topic: string, created: Option<int>, lastRun: Option<int>)

  /** What executing a due task comes to: a submitted prompt, an early error that is
      still stamped as a run, or a retry on the next tick without a stamp. */
  datatype Execution = Submitted(at: int, topic: string) | Stamped(at: int) | Retry

  // ---- The due test ----

  function AnchorFor(t: Task, now: int): int
  {
    if t.created.Some? then t.created.value
    else if t.lastRun.Some? then t.lastRun.value
    else now
  }

  predicate WithinWindow(t: Task, now: int)
  {
    var minute := now % DAY / MINUTE;
    match (t.windowStart, t.windowEnd)
    case (At(a), At(b)) => if a < b then a <= minute < b else minute >= a || minute < b
    case (At(a), _) => minute >= a
    case (_, At(b)) => minute < b
    case _ => true
  }

  predicate HasWindow(t: Task)
  {
    !t.windowStart.Absent? || !t.windowEnd.Absent?
  }

  /** The interval path, taken when no rule reports a previous run. */
  predicate IntervalDue(t: Task, now: int)
  {
    var base := if t.lastRun.Some? then t.lastRun else t.created;
    && t.interval > 0
    && (base.Some? ==> now - base.value >= t.interval)
    && (HasWindow(t) ==> WithinWindow(t, now))
  }

  /** heartbeatTaskDueAt. */
  predicate Due(t: Task, now: int)
    requires t.schedule.Some? ==> Parsed(t.schedule.value)
  {
    var scheduled := if t.schedule.Some? then PreviousAt(t.schedule.value, AnchorFor(t, now), now) else None;
    if scheduled.Some? then
      && !(t.created.Some? && scheduled.value < t.created.value)
      && !(t.lastRun.Some? && t.lastRun.value >= scheduled.value)
      && scheduled.value <= now
    else
      IntervalDue(t, now)
  }

  /** A rule-scheduled task as the shell writes it: created, last run no earlier, and
      an interval prefix no shorter than the rule's period. */
  predicate RuleScheduled(t: Task)
  {
    && t.schedule.Some? && Parsed(t.schedule.value)
    && t.created.Some?
    && (t.lastRun.Some? ==> t.created.value <= t.lastRun.value)
    && (t.schedule.value.rule.Weekly? ==> t.interval >= 7 * DAY)
    && (t.schedule.value.rule.Biweekly? ==> t.interval >= 14 * DAY)
  }

  /** The occurrence a run at `now` answers: the greatest that is not in the future. */
  lemma AnsweredOccurrence(t: Task, now: int) returns (o: int)
    requires RuleScheduled(t) && Due(t, now)
    ensures IsPrevious(t.schedule.value, t.created.value, now, o)
    ensures t.created.value <= o
    ensures t.lastRun.Some? ==> t.lastRun.value < o
  {
    var s, anchor := t.schedule.value, t.created.value;
    match s.rule
    case Daily => DailyExact(s, anchor, now); o := PreviousAt(s, anchor, now).value;
    case Yearly(_, _) => YearlyExact(s, anchor, now); o := PreviousAt(s, anchor, now).value;
    case Monthly(_) => MonthlyExact(s, anchor, now); o := PreviousAt(s, anchor, now).value;
    case Weekly(_) =>
      WeeklyExact(s, anchor, now);
      o := if PreviousAt(s, anchor, now).Some? then PreviousAt(s, anchor, now).value else Slot(DayOf(now) - 7, s.clock);
    case Biweekly(_) =>
      BiweeklyExact(s, anchor, now);
      o := if PreviousAt(s, anchor, now).Some? then PreviousAt(s, anchor, now).value
           else Slot(DayOf(now) - 14, s.clock);
  }

  // ---- One task over a run of ticks ----

  function Ran(t: Task, e: Execution): Task
  {
    match e
    case Submitted(at, topic) =>
      t.(lastRun := Some(at), topic := if topic != "" then topic else t.topic,
         created := if t.created.Some? then t.created else Some(at))
    case Stamped(at) => t.(lastRun := Some(at))
    case Retry => t
  }

  predicate Runs(t: Task, now: int)
    requires t.schedule.Some? ==> Parsed(t.schedule.value)
  {
    t.enabled && Due(t, now)
  }

  function Ticked(t: Task, now: int, e: Execution): (r: Task)
    requires t.schedule.Some? ==> Parsed(t.schedule.value)
    ensures r.schedule == t.schedule
  {
    if Runs(t, now) then Ran(t, e) else t
  }

  /** A tick reads the clock once, and whatever it executes is stamped no earlier. */
  datatype Tick = Tick(now: int, e: Execution)

  function EndOf(k: Tick): int
  {
    match k.e
    case Submitted(at, _) => at
    case Stamped(at) => at
    case Retry => k.now
  }

  predicate Clockwise(history: seq<Tick>)
  {
    forall i :: 0 <= i < |history| ==> history[i].now <= EndOf(history[i])
  }

  /** The task after a history, and the clock readings of the ticks that submitted. */
  function After(t: Task, history: seq<Tick>): (Task, seq<int>)
    requires t.schedule.Some? ==> Parsed(t.schedule.value)
    decreases |history|
  {
    if history == [] then (t, [])
    else
      var k := history[0];
      var rest := After(Ticked(t, k.now, k.e), history[1..]);
      (rest.0, SubmittedAt(t, k) + rest.1)
  }

  /** Answered occurrences of a run: one per submission, strictly increasing, none
      before the task's creation or its last run, none ahead of its submission. */
  ghost predicate Answers(t: Task, submitted: seq<int>, answered: seq<int>)
    requires t.schedule.Some? && t.created.Some?
  {
    && |answered| == |submitted|
    && (forall i :: 0 <= i < |answered| ==> IsPrevious(t.schedule.value, t.created.value, submitted[i], answered[i]))
    && (forall i :: 0 <= i < |answered| ==> t.created.value <= answered[i] <= submitted[i])
    && (forall i :: 0 <= i < |answered| && t.lastRun.Some? ==> t.lastRun.value < answered[i])
    && (forall i, j :: 0 <= i < j < |answered| ==> answered[i] < answered[j])
  }

  /** A later last run only strengthens what later answers promise. */
  lemma AnswersAfterRun(t: Task, t': Task, submitted: seq<int>, answered: seq<int>)
    requires t.schedule.Some? && t.created.Some? && t'.schedule == t.schedule && t'.created == t.created
    requires t.lastRun.Some? ==> t'.lastRun.Some? && t.lastRun.value <= t'.lastRun.value
    requires Answers(t', submitted, answered)
    ensures Answers(t, submitted, answered)
  {
  }

  lemma AnswersCons(t: Task, now: int, o: int, at: int, submitted: seq<int>, answered: seq<int>)
    requires RuleScheduled(t) && Answers(t.(lastRun := Some(at)), submitted, answered)
    requires IsPrevious(t.schedule.value, t.created.value, now, o) && now <= at
    requires t.created.value <= o && (t.lastRun.Some? ==> t.lastRun.value < o)
    ensures Answers(t, [now] + submitted, [o] + answered)
  {
    AnswersAfterRun(t, t.(lastRun := Some(at)), submitted, answered);
  }

  lemma ClockwiseTail(history: seq<Tick>)
    requires Clockwise(history) && history != []
    ensures Clockwise(history[1..]) && history[0].now <= EndOf(history[0])
  {
  }

  function SubmittedAt(t: Task, k: Tick): seq<int>
    requires t.schedule.Some? ==> Parsed(t.schedule.value)
  {
    if Runs(t, k.now) && k.e.Submitted? then [k.now] else []
  }

  lemma TickKeepsRuleScheduled(t: Task, k: Tick)
    requires RuleScheduled(t) && k.now <= EndOf(k)
    ensures RuleScheduled(Ticked(t, k.now, k.e)) && Ticked(t, k.now, k.e).created == t.created
  {
    if Runs(t, k.now) {
      var o := AnsweredOccurrence(t, k.now);
    }
  }

  lemma AnswersOfTick(t: Task, k: Tick, submitted: seq<int>, rest: seq<int>) returns (answered: seq<int>)
    requires RuleScheduled(t) && k.now <= EndOf(k)
    requires Ticked(t, k.now, k.e).created == t.created
    requires Answers(Ticked(t, k.now, k.e), submitted, rest)
    ensures Answers(t, SubmittedAt(t, k) + submitted, answered)
  {
    var t' := Ticked(t, k.now, k.e);
    answered := rest;
    assert [] + submitted == submitted;
    if Runs(t, k.now) {
      var o := AnsweredOccurrence(t, k.now);
      if k.e.Submitted? {
        AnswersAfterRun(t.(lastRun := Some(k.e.at)), t', submitted, rest);
        AnswersCons(t, k.now, o, k.e.at, submitted, rest);
        answered := [o] + rest;
      } else {
        AnswersAfterRun(t, t', submitted, rest);
      }
    }
  }

  /** Over any run of ticks, whatever each execution comes to, a rule-scheduled task is
      submitted at most once per occurrence and never before its time. */
  lemma {:induction false} OncePerOccurrence(t: Task, history: seq<Tick>) returns (answered: seq<int>)
    requires RuleScheduled(t) && Clockwise(history)
    ensures Answers(t, After(t, history).1, answered)
    ensures RuleScheduled(After(t, history).0) && After(t, history).0.created == t.created
    decreases |history|
  {
    if history == [] {
      answered := [];
    } else {
      var k, t' := history[0], Ticked(t, history[0].now, history[0].e);
      ClockwiseTail(history);
      TickKeepsRuleScheduled(t, k);
      var rest := OncePerOccurrence(t', history[1..]);
      answered := AnswersOfTick(t, k, After(t', history[1..]).1, rest);
    }
  }

  // ---- The engine's task list ----

  predicate AllParsed(tasks: seq<Task>)
  {
    forall i :: 0 <= i < |tasks| && tasks[i].schedule.Some? ==> Parsed(tasks[i].schedule.value)
  }

  predicate UniqueIds(tasks: seq<Task>)
  {
    forall i, j :: 0 <= i < j < |tasks| ==> tasks[i].id != tasks[j].id
  }

  /** The run state of the first n tasks that are due, by id. */
  function UpdatesOf(tasks: seq<Task>, now: int, executions: seq<Execution>, n: nat): map<string, Task>
    requires n <= |tasks| == |executions| && AllParsed(tasks)
  {
    if n == 0 then map[]
    else
      var t := tasks[n - 1];
      var earlier := UpdatesOf(tasks, now, executions, n - 1);
      if Runs(t, now) then earlier[t.id := Ran(t, executions[n - 1])] else earlier
  }

  /** A task definition with the engine-owned fields of an update laid over it. */
  function Merged(t: Task, updates: map<string, Task>): Task
  {
    if t.id !in updates then t
    else
      var u := updates[t.id];
      t.(topic := if u.topic != "" then u.topic else t.topic,
         lastRun := if u.lastRun.Some? then u.lastRun else t.lastRun,
         created := if t.created.None? then u.created else t.created)
  }

  class Engine {
    var tasks: seq<Task>

    /** mergeRunUpdatesLocked: the definitions come from disk when it can be read. */
    method MergeRunUpdates(disk: Option<seq<Task>>, updates: map<string, Task>)
      modifies this
      ensures updates == map[] ==> tasks == old(tasks)
      ensures updates != map[] ==>
        var base := if disk.Some? then disk.value else old(tasks);
        |tasks| == |base| && forall i :: 0 <= i < |base| ==> tasks[i] == Merged(base[i], updates)
    {
      if updates == map[] {
        return;
      }
      var list := if disk.Some? then disk.value else tasks;
      ghost var base := list;
      for i := 0 to |list|
        invariant |list| == |base|
        invariant forall j :: 0 <= j < i ==> list[j] == Merged(base[j], updates)
        invariant forall j :: i <= j < |list| ==> list[j] == base[j]
      {
        if list[i].id in updates {
          var u, t := updates[list[i].id], list[i];
          if u.topic != "" {
            t := t.(topic := u.topic);
          }
          if u.lastRun.Some? {
            t := t.(lastRun := u.lastRun);
          }
          if t.created.None? && u.created.Some? {
            t := t.(created := u.created);
          }
          list := list[i := t];
        }
      }
      tasks := list;
    }

    /** adoptExternalEditsLocked: `external` is the list on disk if the file has changed
        since the engine last touched it; an unreadable file reads as no tasks. */
    method AdoptExternalEdits(external: Option<seq<Task>>)
      modifies this
      ensures tasks == Adopted(old(tasks), external)
    {
      if external.None? {
        return;
      }
      tasks := external.value;
    }

    /** tick: external edits are adopted, every enabled task that is due by one reading of
        the clock is executed, and only run state is written back over the list found on
        disk.  If that is the list the tick began with, each task has made its own tick. */
    method Tick(external: Option<seq<Task>>, now: int, executions: seq<Execution>, disk: Option<seq<Task>>)
      requires var start := Adopted(tasks, external); |executions| == |start| && AllParsed(start)
      modifies this
      ensures var start := Adopted(old(tasks), external);
        var updates := UpdatesOf(start, now, executions, |start|);
        if updates == map[] then tasks == start
        else
          var base := if disk.Some? then disk.value else start;
          |tasks| == |base| && forall i :: 0 <= i < |base| ==> tasks[i] == Merged(base[i], updates)
      ensures var start := Adopted(old(tasks), external);
        UniqueIds(start) && (disk.None? || disk.value == start) ==> tasks == TickedAll(start, now, executions)
    {
      AdoptExternalEdits(external);
      var start := tasks;
      var updates: map<string, Task> := map[];
      for i := 0 to |start|
        invariant updates == UpdatesOf(start, now, executions, i)
      {
        if start[i].enabled {
          if Due(start[i], now) {
            updates := updates[start[i].id := Ran(start[i], executions[i])];
          }
        }
      }
      MergeRunUpdates(disk, updates);
      if UniqueIds(start) && (disk.None? || disk.value == start) {
        ListTicks(start, now, executions, tasks);
      }
    }
  }

  function Adopted(tasks: seq<Task>, external: Option<seq<Task>>): seq<Task>
  {
    if external.Some? then external.value else tasks
  }

  function TickedAll(tasks: seq<Task>, now: int, executions: seq<Execution>): (r: seq<Task>)
    requires |tasks| == |executions| && AllParsed(tasks)
    ensures |r| == |tasks|
  {
    seq(|tasks|, i requires 0 <= i < |tasks| => Ticked(tasks[i], now, executions[i]))
  }

  lemma ListTicks(start: seq<Task>, now: int, executions: seq<Execution>, result: seq<Task>)
    requires |start| == |executions| == |result| && AllParsed(start) && UniqueIds(start)
    requires var updates := UpdatesOf(start, now, executions, |start|);
      if updates == map[] then result == start
      else forall i :: 0 <= i < |start| ==> result[i] == Merged(start[i], updates)
    ensures result == TickedAll(start, now, executions)
  {
    forall i | 0 <= i < |start| ensures result[i] == Ticked(start[i], now, executions[i]) {
      EngineTickIsTaskTick(start, now, executions, i);
    }
  }

  lemma {:induction false} UpdatesAreRuns(tasks: seq<Task>, now: int, executions: seq<Execution>, n: nat, i: nat)
    requires n <= |tasks| == |executions| && AllParsed(tasks) && UniqueIds(tasks) && i < |tasks|
    ensures var updates := UpdatesOf(tasks, now, executions, n);
      && (tasks[i].id in updates <==> i < n && Runs(tasks[i], now))
      && (tasks[i].id in updates ==> updates[tasks[i].id] == Ran(tasks[i], executions[i]))
  {
    if n > 0 {
      UpdatesAreRuns(tasks, now, executions, n - 1, i);
    }
  }

  /** Without an edit in between, a tick of the engine is a tick of each of its tasks,
      so OncePerOccurrence speaks about every task of the list. */
  lemma EngineTickIsTaskTick(tasks: seq<Task>, now: int, executions: seq<Execution>, i: nat)
    requires |tasks| == |executions| && AllParsed(tasks) && UniqueIds(tasks) && i < |tasks|
    ensures Merged(tasks[i], UpdatesOf(tasks, now, executions, |tasks|)) == Ticked(tasks[i], now, executions[i])
  {
    UpdatesAreRuns(tasks, now, executions, |tasks|, i);
  }

  /** An edit that lands while a tick runs is never rolled back: whatever the update,
      everything but the run state is the definition found on disk. */
  lemma EditsSurviveMerge(onDisk: Task, updates: map<string, Task>)
    ensures var m := Merged(onDisk, updates);
      m == onDisk.(topic := m.topic, lastRun := m.lastRun, created := m.created)
    ensures onDisk.created.Some? ==> Merged(onDisk, updates).created == onDisk.created
  {
  }

  // ---- The list over a run of ticks ----

  datatype ListTick = ListTick(now: int, executions: seq<Execution>)

  ghost predicate Fitting(tasks: seq<Task>, history: seq<ListTick>)
  {
    AllParsed(tasks) && UniqueIds(tasks) && forall k :: 0 <= k < |history| ==> |history[k].executions| == |tasks|
  }

  lemma TickKeepsFitting(tasks: seq<Task>, history: seq<ListTick>)
    requires Fitting(tasks, history) && history != []
    ensures Fitting(TickedAll(tasks, history[0].now, history[0].executions), history[1..])
  {
    var ticked := TickedAll(tasks, history[0].now, history[0].executions);
    assert forall i :: 0 <= i < |tasks| ==> ticked[i].schedule == tasks[i].schedule && ticked[i].id == tasks[i].id;
  }

  /** The list after a history of ticks. */
  ghost function ListAfter(tasks: seq<Task>, history: seq<ListTick>): (r: seq<Task>)
    requires Fitting(tasks, history)
    ensures |r| == |tasks|
    decreases |history|
  {
    if history == [] then tasks
    else
      TickKeepsFitting(tasks, history);
      ListAfter(TickedAll(tasks, history[0].now, history[0].executions), history[1..])
  }

  /** What the history is for the i-th task. */
  function HistoryOf(history: seq<ListTick>, i: nat): (r: seq<Tick>)
    requires forall k :: 0 <= k < |history| ==> i < |history[k].executions|
    ensures |r| == |history|
  {
    seq(|history|, k requires 0 <= k < |history| => Tick(history[k].now, history[k].executions[i]))
  }

  /** Each task of the list goes its own way. */
  lemma {:induction false} ListIsTasks(tasks: seq<Task>, history: seq<ListTick>, i: nat)
    requires Fitting(tasks, history) && i < |tasks|
    ensures ListAfter(tasks, history)[i] == After(tasks[i], HistoryOf(history, i)).0
    decreases |history|
  {
    if history != [] {
      TickKeepsFitting(tasks, history);
      ListIsTasks(TickedAll(tasks, history[0].now, history[0].executions), history[1..], i);
      assert HistoryOf(history, i)[1..] == HistoryOf(history[1..], i);
    }
  }

  /** Over any run of the engine's ticks between edits, every rule-scheduled task of the
      list is submitted at most once per occurrence and never before its time, whatever
      the other tasks do. */
  lemma OncePerOccurrenceInList(tasks: seq<Task>, history: seq<ListTick>, i: nat) returns (answered: seq<int>)
    requires Fitting(tasks, history) && i < |tasks|
    requires RuleScheduled(tasks[i]) && Clockwise(HistoryOf(history, i))
    ensures Answers(tasks[i], After(tasks[i], HistoryOf(history, i)).1, answered)
    ensures ListAfter(tasks, history)[i] == After(tasks[i], HistoryOf(history, i)).0
    ensures RuleScheduled(ListAfter(tasks, history)[i]) && ListAfter(tasks, history)[i].created == tasks[i].created
  {
    ListIsTasks(tasks, history, i);
    answered := OncePerOccurrence(tasks[i], HistoryOf(history, i));
  }
}
