/** Deferred rebuilds (desktop/deferred_rebuild.go). */
module DeferredRebuild {
  // Tabs that wait for a session lease are kept in a pending set, and a loop that starts
  // and stops itself retries them.  The module proves that no wakeup is lost: while there
  // is work, exactly one loop is live.

  import opened Wrappers
  import opened Strings

  type Id = string

  /** The fields behind the mutex.  The stop channel is made with the first loop, and
      closed once. */
  datatype Fields = Fields(
    pending: map<Id, string>, enabled: bool, running: bool, stopped: bool, stopMade: bool, stopClosed: bool)

  const STARTUP_LABEL := "__startup__"

  // ---- The critical sections as functions ----

  predicate Starts(d: Fields)
  {
    d.enabled && !d.running && !d.stopped && d.pending != map[]
  }

  function Started(d: Fields): Fields
  {
    if Starts(d) then d.(running := true, stopMade := true) else d
  }

  function WithEnabled(d: Fields): Fields
  {
    d.(enabled := true)
  }

  function WithPending(d: Fields, tabId: Id, setting: string): Fields
  {
    if TrimSpace(tabId) == "" || d.stopped then d else d.(pending := d.pending[TrimSpace(tabId) := setting])
  }

  function Cleared(d: Fields, tabId: Id): Fields
  {
    d.(pending := d.pending - {tabId})
  }

  function Stopped(d: Fields): Fields
  {
    if d.stopped then d else d.(stopped := true, stopClosed := d.stopMade)
  }

  function Idle(d: Fields): Fields
  {
    d.(running := false)
  }

  /** A retry pass has nothing to do. */
  predicate Done(d: Fields)
  {
    d.stopped || d.pending == map[]
  }

  /** deferredRebuildState, with the methods of App that hold its mutex.  `started` says
      that a loop was started. */
  class DeferredRebuildState {
    var pending: map<Id, string>
    var enabled: bool
    var running: bool
    var stopped: bool
    var stopMade: bool
    var stopClosed: bool

    function Value(): Fields
      reads this
    {
      Fields(pending, enabled, running, stopped, stopMade, stopClosed)
    }

    constructor ()
      ensures Value() == Fields(map[], false, false, false, false, false)
    {
      pending, enabled, running, stopped, stopMade, stopClosed := map[], false, false, false, false, false;
    }

    /** startDeferredRebuildLoopLocked. */
    method StartLoop() returns (started: bool)
      modifies this
      ensures Value() == Started(old(Value())) && started == Starts(old(Value()))
    {
      if !enabled || running || stopped || |pending| == 0 {
        return false;
      }
      running := true;
      if !stopMade {
        stopMade := true;
      }
      started := true;
    }

    /** enableDeferredRebuildRetry. */
    method Enable() returns (started: bool)
      modifies this
      ensures Value() == Started(WithEnabled(old(Value()))) && started == Starts(WithEnabled(old(Value())))
    {
      enabled := true;
      started := StartLoop();
    }

    /** scheduleDeferredRebuild. */
    method Schedule(tabId: Id, setting: string) returns (started: bool)
      modifies this
      ensures var d := WithPending(old(Value()), tabId, setting);
              if TrimSpace(tabId) == "" || old(stopped) then Value() == d && !started
              else Value() == Started(d) && started == Starts(d)
      ensures if TrimSpace(tabId) == "" || old(stopped) then pending == old(pending)
              else pending == old(pending)[TrimSpace(tabId) := setting]
    {
      var id := TrimSpace(tabId);
      if id == "" {
        return false;
      }
      if stopped {
        return false;
      }
      pending := pending[id := setting];
      started := StartLoop();
    }

    /** scheduleDeferredStartupBuild. */
    method ScheduleStartup(tabId: Id) returns (started: bool)
      modifies this
      ensures var d := WithPending(old(Value()), tabId, STARTUP_LABEL);
              if TrimSpace(tabId) == "" || old(stopped) then Value() == d && !started
              else Value() == Started(d) && started == Starts(d)
    {
      started := Schedule(tabId, STARTUP_LABEL);
    }

    /** clearDeferredRebuild. */
    method Clear(tabId: Id)
      modifies this
      ensures Value() == Cleared(old(Value()), tabId)
      ensures forall id :: (id in pending <==> id in old(pending) && id != tabId)
                           && (id in pending ==> pending[id] == old(pending)[id])
    {
      pending := pending - {tabId};
    }

    /** stopDeferredRebuildRetry. */
    method Stop()
      modifies this
      ensures Value() == Stopped(old(Value()))
    {
      if stopped {
        return;
      }
      stopped := true;
      stopClosed := stopMade;
    }

    /** The head of deferredRebuildTick: the snapshot to retry, or None if the pass is
        done. */
    method TickHead(markIdle: bool) returns (snapshot: Option<map<Id, string>>)
      modifies this
      ensures snapshot == if Done(old(Value())) then None else Some(old(pending))
      ensures Value() == if Done(old(Value())) && markIdle then Idle(old(Value())) else old(Value())
    {
      if stopped || |pending| == 0 {
        if markIdle {
          running := false;
        }
        return None;
      }
      snapshot := Some(pending);
    }
  }

  // ---- The whole system, as steps ----

  /** Where a loop stands: waiting for the ticker or the stop channel, between the ticker
      and the lock, at the rest of its snapshot, or on its way out. */
  datatype LoopPc = Waiting | Ticked | Retrying(left: map<Id, string>) | Stopping

  /** Loops and kicked passes by thread number; a kick that has not locked yet is None. */
  datatype State = State(d: Fields, loops: map<nat, LoopPc>, kicks: map<nat, Option<map<Id, string>>>)

  datatype Event =
    | EnableCall(thread: nat)
    | ScheduleCall(tabId: Id, setting: string, thread: nat)
    | ClearCall(tabId: Id)
    | StopCall
    | Kick(thread: nat)
    | KickHead(thread: nat)
    | KickRetry(thread: nat, tabId: Id, cleared: bool)
    | KickOver(thread: nat)
    | TickerFires(thread: nat)
    | StopSeen(thread: nat)
    | StopExit(thread: nat)
    | LoopHead(thread: nat)
    | LoopRetry(thread: nat, tabId: Id, cleared: bool)
    | PassOver(thread: nat)

  const INITIAL := State(Fields(map[], false, false, false, false, false), map[], map[])

  /** `d` is what a caller wrote; if that starts a loop, `thread` is its number. */
  function Spawned(s: State, d: Fields, thread: nat): State
  {
    if Starts(d) then s.(d := Started(d), loops := s.loops[thread := Waiting]) else s.(d := d)
  }

  predicate Enabled(s: State, e: Event)
  {
    match e
    case EnableCall(thread) => thread !in s.loops
    case ScheduleCall(_, _, thread) => thread !in s.loops
    case ClearCall(_) => true
    case StopCall => true
    case Kick(thread) => thread !in s.kicks
    case KickHead(thread) => thread in s.kicks && s.kicks[thread].None?
    case KickRetry(thread, id, _) => thread in s.kicks && s.kicks[thread].Some? && id in s.kicks[thread].value
    case KickOver(thread) => thread in s.kicks && s.kicks[thread] == Some(map[])
    case TickerFires(thread) => thread in s.loops && s.loops[thread].Waiting?
    case StopSeen(thread) => thread in s.loops && s.loops[thread].Waiting? && s.d.stopClosed
    case StopExit(thread) => thread in s.loops && s.loops[thread].Stopping?
    case LoopHead(thread) => thread in s.loops && s.loops[thread].Ticked?
    case LoopRetry(thread, id, _) => thread in s.loops && s.loops[thread].Retrying? && id in s.loops[thread].left
    case PassOver(thread) => thread in s.loops && s.loops[thread] == Retrying(map[])
  }

  function Step(s: State, e: Event): State
    requires Enabled(s, e)
  {
    match e
    case EnableCall(thread) => Spawned(s, WithEnabled(s.d), thread)
    case ScheduleCall(id, setting, thread) =>
      if TrimSpace(id) == "" || s.d.stopped then s else Spawned(s, WithPending(s.d, id, setting), thread)
    case ClearCall(id) => s.(d := Cleared(s.d, id))
    case StopCall => s.(d := Stopped(s.d))
    case Kick(thread) => s.(kicks := s.kicks[thread := None])
    case KickHead(thread) =>
      if Done(s.d) then s.(kicks := s.kicks - {thread}) else s.(kicks := s.kicks[thread := Some(s.d.pending)])
    case KickRetry(thread, id, cleared) =>
      State(if cleared then Cleared(s.d, id) else s.d, s.loops, s.kicks[thread := Some(s.kicks[thread].value - {id})])
    case KickOver(thread) => s.(kicks := s.kicks - {thread})
    case TickerFires(thread) => s.(loops := s.loops[thread := Ticked])
    case StopSeen(thread) => s.(loops := s.loops[thread := Stopping])
    case StopExit(thread) => s.(d := Idle(s.d), loops := s.loops - {thread})
    case LoopHead(thread) =>
      if Done(s.d) then s.(d := Idle(s.d), loops := s.loops - {thread})
      else s.(loops := s.loops[thread := Retrying(s.d.pending)])
    case LoopRetry(thread, id, cleared) =>
      s.(d := if cleared then Cleared(s.d, id) else s.d,
        loops := s.loops[thread := Retrying(s.loops[thread].left - {id})])
    case PassOver(thread) => s.(loops := s.loops[thread := Waiting])
  }

  predicate Valid(s: State, events: seq<Event>)
    decreases |events|
  {
    events == [] || (Enabled(s, events[0]) && Valid(Step(s, events[0]), events[1..]))
  }

  function Run(s: State, events: seq<Event>): State
    requires Valid(s, events)
    decreases |events|
  {
    if events == [] then s else Run(Step(s, events[0]), events[1..])
  }

  /** There is work for a loop to do. */
  predicate Wanted(d: Fields)
  {
    d.enabled && !d.stopped && d.pending != map[]
  }

  ghost predicate Inv(s: State)
  {
    && (Wanted(s.d) ==> s.d.running)
    && |s.loops| <= 1 && (s.d.running <==> |s.loops| == 1)
    && (s.d.running ==> s.d.stopMade)
    && (s.d.stopClosed <==> s.d.stopped && s.d.stopMade)
    && (forall t :: t in s.loops && s.loops[t].Stopping? ==> s.d.stopped)
  }

  lemma SizeOne<V>(m: map<nat, V>, t: nat)
    requires t in m && |m| <= 1
    ensures m.Keys == {t} && m - {t} == map[] && |m| == 1
  {
    assert |m.Keys| == |m|;
    assert m.Keys == {t} + (m.Keys - {t});
    assert |m.Keys - {t}| == 0;
  }

  lemma UpdateSize<V>(m: map<nat, V>, t: nat, v: V)
    requires t in m || |m| == 0
    ensures |m[t := v]| == if t in m then |m| else 1
  {
    assert m[t := v].Keys == m.Keys + {t};
    assert |m[t := v]| == |m.Keys + {t}|;
    if t in m {
      assert m.Keys + {t} == m.Keys;
    } else {
      assert m.Keys == {};
    }
  }

  /** The step of a loop thread that stays live. */
  lemma LoopMoves(s: State, s': State, thread: nat, pc: LoopPc)
    requires Inv(s) && thread in s.loops && s'.loops == s.loops[thread := pc]
    requires s'.d == s.d || exists id :: s'.d == Cleared(s.d, id)
    requires pc.Stopping? ==> s.d.stopped
    ensures Inv(s')
  {
    SizeOne(s.loops, thread);
    UpdateSize(s.loops, thread, pc);
  }

  lemma LoopEnds(s: State, s': State, thread: nat)
    requires Inv(s) && thread in s.loops && s'.loops == s.loops - {thread} && s'.d == Idle(s.d) && Done(s.d)
    ensures Inv(s')
  {
    SizeOne(s.loops, thread);
  }

  lemma SpawnKeepsInv(s: State, d: Fields, thread: nat)
    requires Inv(s) && thread !in s.loops
    requires d.running == s.d.running && d.stopped == s.d.stopped && d.stopMade == s.d.stopMade
             && d.stopClosed == s.d.stopClosed
    ensures Inv(Spawned(s, d, thread))
  {
    if Starts(d) {
      UpdateSize(s.loops, thread, Waiting);
    }
  }

  /** Every step keeps the invariant. */
  lemma StepKeepsInv(s: State, e: Event)
    requires Inv(s) && Enabled(s, e)
    ensures Inv(Step(s, e))
  {
    var s' := Step(s, e);
    match e
    case EnableCall(thread) => SpawnKeepsInv(s, WithEnabled(s.d), thread);
    case ScheduleCall(id, setting, thread) =>
      if s' != s {
        SpawnKeepsInv(s, WithPending(s.d, id, setting), thread);
      }
    case ClearCall(_) =>
    case StopCall =>
    case Kick(_) =>
    case KickHead(_) =>
    case KickRetry(_, _, _) =>
    case KickOver(_) =>
    case TickerFires(thread) => LoopMoves(s, s', thread, Ticked);
    case StopSeen(thread) => LoopMoves(s, s', thread, Stopping);
    case StopExit(thread) => LoopEnds(s, s', thread);
    case LoopHead(thread) =>
      if Done(s.d) {
        LoopEnds(s, s', thread);
      } else {
        LoopMoves(s, s', thread, Retrying(s.d.pending));
      }
    case LoopRetry(thread, id, _) => LoopMoves(s, s', thread, Retrying(s.loops[thread].left - {id}));
    case PassOver(thread) => LoopMoves(s, s', thread, Waiting);
  }

  /** No wakeup is lost, in any run: whenever retries are enabled, not stopped and wanted,
      exactly one loop is live, and `running` says whether one is. */
  lemma {:induction false} RunKeepsInv(s: State, events: seq<Event>)
    requires Inv(s) && Valid(s, events)
    ensures Inv(Run(s, events))
    decreases |events|
  {
    if events != [] {
      StepKeepsInv(s, events[0]);
      RunKeepsInv(Step(s, events[0]), events[1..]);
    }
  }

  lemma NoWakeupIsLost(events: seq<Event>)
    requires Valid(INITIAL, events)
    ensures var s := Run(INITIAL, events);
            && (Wanted(s.d) ==> s.d.running && |s.loops| == 1)
            && |s.loops| <= 1 && (s.d.running <==> |s.loops| == 1)
  {
    RunKeepsInv(INITIAL, events);
  }

  // ---- Every entry is retried ----

  lemma {:induction false} ValidConcat(s: State, a: seq<Event>, b: seq<Event>)
    requires Valid(s, a) && Valid(Run(s, a), b)
    ensures Valid(s, a + b) && Run(s, a + b) == Run(Run(s, a), b)
    decreases |a|
  {
    if a == [] {
      assert a + b == b;
    } else {
      ValidConcat(Step(s, a[0]), a[1..], b);
      assert (a + b)[1..] == a[1..] + b;
    }
  }

  lemma RunOne(s: State, e: Event)
    requires Enabled(s, e)
    ensures Valid(s, [e]) && Run(s, [e]) == Step(s, e)
  {
    assert [e][1..] == [];
  }

  lemma RunTwo(s: State, e: Event, f: Event)
    requires Enabled(s, e) && Enabled(Step(s, e), f)
    ensures Valid(s, [e, f]) && Run(s, [e, f]) == Step(Step(s, e), f)
  {
    RunOne(Step(s, e), f);
    assert [e, f][1..] == [f];
  }

  /** With one loop live, setting it and having it alone are the same. */
  lemma OnlyLoop(s: State, thread: nat, pc: LoopPc)
    requires |s.loops| <= 1 && thread in s.loops
    ensures s.loops[thread := pc] == map[thread := pc]
  {
    SizeOne(s.loops, thread);
  }

  /** A loop in the middle of a pass can hand back the rest and wait. */
  lemma {:induction false} ToWaiting(s: State, thread: nat) returns (events: seq<Event>)
    requires |s.loops| <= 1 && thread in s.loops && s.loops[thread].Retrying?
    ensures Valid(s, events) && Run(s, events) == s.(loops := map[thread := Waiting])
    decreases |s.loops[thread].left|
  {
    var left := s.loops[thread].left;
    if left == map[] {
      events := [PassOver(thread)];
      RunOne(s, events[0]);
      OnlyLoop(s, thread, Waiting);
    } else {
      var id :| id in left;
      var e := LoopRetry(thread, id, false);
      var s' := Step(s, e);
      Shrinks(left, id);
      OnlyLoop(s, thread, s'.loops[thread]);
      var more := ToWaiting(s', thread);
      RunOne(s, e);
      ValidConcat(s, [e], more);
      events := [e] + more;
    }
  }

  lemma Shrinks(m: map<Id, string>, id: Id)
    requires id in m
    ensures |m - {id}| < |m|
  {
    assert m.Keys == (m - {id}).Keys + {id};
    assert |m.Keys| == |(m - {id}).Keys| + 1;
  }

  lemma FromTicked(s: State, thread: nat)
    requires !Done(s.d) && |s.loops| <= 1 && thread in s.loops && s.loops[thread].Ticked?
    ensures Valid(s, [LoopHead(thread)])
    ensures Run(s, [LoopHead(thread)]) == s.(loops := map[thread := Retrying(s.d.pending)])
  {
    RunOne(s, LoopHead(thread));
    OnlyLoop(s, thread, Retrying(s.d.pending));
  }

  lemma FromWaiting(s: State, thread: nat)
    requires !Done(s.d) && |s.loops| <= 1 && thread in s.loops && s.loops[thread].Waiting?
    ensures Valid(s, [TickerFires(thread), LoopHead(thread)])
    ensures Run(s, [TickerFires(thread), LoopHead(thread)]) == s.(loops := map[thread := Retrying(s.d.pending)])
  {
    OnlyLoop(s, thread, Ticked);
    RunTwo(s, TickerFires(thread), LoopHead(thread));
    assert map[thread := Ticked][thread := Retrying(s.d.pending)] == map[thread := Retrying(s.d.pending)];
  }

  /** From any reachable state with an entry pending there is a live loop that, by its own
      steps alone and whatever it was doing, comes to a pass over all that is pending. */
  lemma EveryEntryIsRetried(s: State, id: Id) returns (thread: nat, events: seq<Event>)
    requires Inv(s) && s.d.enabled && !s.d.stopped && id in s.d.pending
    ensures thread in s.loops && Valid(s, events)
    ensures Run(s, events) == s.(loops := map[thread := Retrying(s.d.pending)])
  {
    thread :| thread in s.loops;
    match s.loops[thread]
    case Waiting =>
      FromWaiting(s, thread);
      events := [TickerFires(thread), LoopHead(thread)];
    case Ticked =>
      FromTicked(s, thread);
      events := [LoopHead(thread)];
    case Retrying(_) =>
      var rest := ToWaiting(s, thread);
      var waiting := s.(loops := map[thread := Waiting]);
      FromWaiting(waiting, thread);
      ValidConcat(s, rest, [TickerFires(thread), LoopHead(thread)]);
      events := rest + [TickerFires(thread), LoopHead(thread)];
  }

  // ---- Stopping ----

  /** Once stopped, no loop starts again and nothing is scheduled. */
  lemma StoppedStaysQuiet(s: State, e: Event)
    requires s.d.stopped && Enabled(s, e)
    ensures var s' := Step(s, e);
            s'.d.stopped && s'.loops.Keys <= s.loops.Keys && s'.d.pending.Keys <= s.d.pending.Keys
  {
  }

  /** The last loop can always end, by its own steps alone. */
  lemma StoppedLoopEnds(s: State, thread: nat) returns (events: seq<Event>)
    requires Inv(s) && s.d.stopped && thread in s.loops
    ensures Valid(s, events) && Run(s, events) == s.(d := Idle(s.d), loops := map[])
  {
    SizeOne(s.loops, thread);
    match s.loops[thread]
    case Waiting =>
      events := SeesStop(s, thread);
    case Ticked =>
      events := [LoopHead(thread)];
      RunOne(s, LoopHead(thread));
    case Retrying(_) =>
      var rest := ToWaiting(s, thread);
      var more := SeesStop(s.(loops := map[thread := Waiting]), thread);
      ValidConcat(s, rest, more);
      events := rest + more;
    case Stopping =>
      events := [StopExit(thread)];
      RunOne(s, StopExit(thread));
  }

  lemma SeesStop(s: State, thread: nat) returns (events: seq<Event>)
    requires s.d.stopClosed && |s.loops| <= 1 && thread in s.loops && s.loops[thread].Waiting?
    ensures Valid(s, events) && Run(s, events) == s.(d := Idle(s.d), loops := map[])
  {
    events := [StopSeen(thread), StopExit(thread)];
    OnlyLoop(s, thread, Stopping);
    RunTwo(s, StopSeen(thread), StopExit(thread));
    assert map[thread := Stopping] - {thread} == map[];
  }

  // ---- What waits ----

  /** The event gives up this tab's entry. */
  predicate Clears(e: Event, id: Id)
  {
    match e
    case ClearCall(tabId) => tabId == id
    case KickRetry(_, tabId, cleared) => cleared && tabId == id
    case LoopRetry(_, tabId, cleared) => cleared && tabId == id
    case _ => false
  }

  /** The event records an entry for this tab, unless the retries are stopped. */
  predicate Schedules(e: Event, id: Id)
  {
    e.ScheduleCall? && TrimSpace(e.tabId) == id && id != ""
  }

  lemma StepOnPending(s: State, e: Event)
    requires Enabled(s, e)
    ensures Step(s, e).d.pending
         == match e
            case ScheduleCall(tabId, setting, _) =>
              if TrimSpace(tabId) == "" || s.d.stopped then s.d.pending else s.d.pending[TrimSpace(tabId) := setting]
            case ClearCall(tabId) => s.d.pending - {tabId}
            case KickRetry(_, tabId, cleared) => if cleared then s.d.pending - {tabId} else s.d.pending
            case LoopRetry(_, tabId, cleared) => if cleared then s.d.pending - {tabId} else s.d.pending
            case _ => s.d.pending
  {
  }

  /** Every step leaves each entry as it is, unless it records or gives up that very one. */
  lemma StepOnEntry(s: State, e: Event, id: Id)
    requires Enabled(s, e)
    ensures var before, after := s.d.pending, Step(s, e).d.pending;
      && (Schedules(e, id) && !s.d.stopped ==> id in after && after[id] == e.setting)
      && (Clears(e, id) ==> id !in after)
      && (!Clears(e, id) && !(Schedules(e, id) && !s.d.stopped) ==>
            (id in after <==> id in before) && (id in after ==> after[id] == before[id]))
  {
    StepOnPending(s, e);
    EntryAfter(s.d.pending, Step(s, e).d.pending, e, s.d.stopped, id);
  }

  lemma EntryAfter(before: map<Id, string>, after: map<Id, string>, e: Event, stopped: bool, id: Id)
    requires after == match e
                      case ScheduleCall(tabId, setting, _) =>
                        if TrimSpace(tabId) == "" || stopped then before else before[TrimSpace(tabId) := setting]
                      case ClearCall(tabId) => before - {tabId}
                      case KickRetry(_, tabId, cleared) => if cleared then before - {tabId} else before
                      case LoopRetry(_, tabId, cleared) => if cleared then before - {tabId} else before
                      case _ => before
    ensures Schedules(e, id) && !stopped ==> id in after && after[id] == e.setting
    ensures Clears(e, id) ==> id !in after
    ensures !Clears(e, id) && !(Schedules(e, id) && !stopped) ==>
              (id in after <==> id in before) && (id in after ==> after[id] == before[id])
  {
  }

  /** Only arming arms, and only stopping stops. */
  lemma StepOnFlags(s: State, e: Event)
    requires Enabled(s, e)
    ensures Step(s, e).d.enabled <==> s.d.enabled || e.EnableCall?
    ensures Step(s, e).d.stopped <==> s.d.stopped || e.StopCall?
  {
  }

  /** Over every run, an entry waits until it is given up: as recorded, if it is not recorded
      anew meanwhile. */
  lemma {:induction false} EntryWaits(s: State, events: seq<Event>, id: Id)
    requires Valid(s, events) && id in s.d.pending && forall k :: 0 <= k < |events| ==> !Clears(events[k], id)
    ensures id in Run(s, events).d.pending
    ensures (forall k :: 0 <= k < |events| ==> !Schedules(events[k], id)) ==>
              Run(s, events).d.pending[id] == s.d.pending[id]
    decreases |events|
  {
    if events != [] {
      StepOnEntry(s, events[0], id);
      EntryWaits(Step(s, events[0]), events[1..], id);
    }
  }

  /** A loop starts only for work that waits, and then it is the only one. */
  lemma LoopStartsForWork(s: State, e: Event, thread: nat)
    requires Inv(s) && Enabled(s, e) && thread !in s.loops && thread in Step(s, e).loops
    ensures s.loops == map[] && Step(s, e).loops == map[thread := Waiting]
    ensures var d := Step(s, e).d; d.enabled && !d.stopped && d.pending != map[] && d.running
  {
  }

  /** The head of a pass: stopped or without work, the pass is over, and the loop with it;
      otherwise it takes everything that is pending. */
  lemma HeadsTakeAll(s: State, thread: nat)
    ensures thread in s.loops && s.loops[thread].Ticked? ==>
      var s' := Step(s, LoopHead(thread));
      if s.d.stopped || s.d.pending == map[] then thread !in s'.loops && !s'.d.running
      else thread in s'.loops && s'.loops[thread] == Retrying(s.d.pending) && s'.d == s.d
    ensures thread in s.kicks && s.kicks[thread].None? ==>
      var s' := Step(s, KickHead(thread));
      s'.d == s.d
      && if s.d.stopped || s.d.pending == map[] then thread !in s'.kicks
         else thread in s'.kicks && s'.kicks[thread] == Some(s.d.pending)
  {
  }
}
