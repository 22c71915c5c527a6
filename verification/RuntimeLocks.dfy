/** The runtime lock protocol of the desktop shell (desktop/app.go). */
module RuntimeLocks {
  // Four locks guard a tab's controller: the rebuild mutex, the writer-preferring
  // admission RWMutex, one turn gate per tab, and the session-removal mutex.  Turn start
  // takes the admission read side before the turn gate; a model switch takes the turn gate
  // before the read side.  That order is cyclic, and the module proves when it is
  // nevertheless free of deadlock: a thread's remaining program is checked against a lock
  // discipline, and the discipline is kept by every step of every interleaving of any
  // number of threads.

  import opened Wrappers

  type Tid = nat
  type Tab = nat

  /** One visible action of a thread.  RWMutex.Lock is two actions: announcing the
      writer, which already blocks new readers, and entering once readers drained. */
  datatype Op =
    | LockRebuild | UnlockRebuild
    | AnnounceWrite | AcquireWrite | UnlockWrite
    | ReadLock | ReadUnlock
    | LockTurn(tab: Tab) | UnlockTurn(tab: Tab)
    | LockRemoval | UnlockRemoval
    | StartTurn(tab: Tab)

  // ---- Lock state and steps ----

  datatype Locks = Locks(
    rebuild: Option<Tid>,
    announced: Option<Tid>,
    writer: Option<Tid>,
    readers: multiset<Tid>,
    turns: map<Tab, Tid>,
    removal: Option<Tid>)

  const FREE := Locks(None, None, None, multiset{}, map[], None)

  /** `rest[t]` is what thread t still has to do; `running` are the tabs whose
      controller is running a turn. */
  datatype State = State(rest: seq<seq<Op>>, locks: Locks, running: set<Tab>)

  datatype Event = Act(t: Tid) | TurnDone(tab: Tab)

  predicate Enabled(l: Locks, t: Tid, op: Op)
  {
    match op
    case LockRebuild => l.rebuild.None?
    case UnlockRebuild => l.rebuild == Some(t)
    case AnnounceWrite => l.announced.None? && l.writer.None?
    case AcquireWrite => l.announced == Some(t) && l.readers == multiset{}
    case UnlockWrite => l.writer == Some(t)
    case ReadLock => l.announced.None? && l.writer.None?
    case ReadUnlock => t in l.readers
    case LockTurn(x) => x !in l.turns
    case UnlockTurn(x) => x in l.turns && l.turns[x] == t
    case LockRemoval => l.removal.None?
    case UnlockRemoval => l.removal == Some(t)
    case StartTurn(_) => true
  }

  function Effect(l: Locks, t: Tid, op: Op): Locks
  {
    match op
    case LockRebuild => l.(rebuild := Some(t))
    case UnlockRebuild => l.(rebuild := None)
    case AnnounceWrite => l.(announced := Some(t))
    case AcquireWrite => l.(announced := None, writer := Some(t))
    case UnlockWrite => l.(writer := None)
    case ReadLock => l.(readers := l.readers + multiset{t})
    case ReadUnlock => l.(readers := l.readers - multiset{t})
    case LockTurn(x) => l.(turns := l.turns[x := t])
    case UnlockTurn(x) => l.(turns := l.turns - {x})
    case LockRemoval => l.(removal := Some(t))
    case UnlockRemoval => l.(removal := None)
    case StartTurn(_) => l
  }

  predicate CanAct(s: State, t: Tid)
  {
    t < |s.rest| && s.rest[t] != [] && Enabled(s.locks, t, s.rest[t][0])
  }

  predicate CanHappen(s: State, e: Event)
  {
    e.Act? ==> CanAct(s, e.t)
  }

  function Next(s: State, e: Event): State
    requires CanHappen(s, e)
  {
    match e
    case TurnDone(x) => s.(running := s.running - {x})
    case Act(t) =>
      var op := s.rest[t][0];
      State(s.rest[t := s.rest[t][1..]],
            Effect(s.locks, t, op),
            if op.StartTurn? then s.running + {op.tab} else s.running)
  }

  /** The state after a whole schedule, if every event of it could happen. */
  function Run(s: State, events: seq<Event>): (r: Option<State>)
    ensures r.Some? ==> |r.value.rest| == |s.rest|
    decreases |events|
  {
    if events == [] then Some(s)
    else if CanHappen(s, events[0]) then Run(Next(s, events[0]), events[1..])
    else None
  }

  predicate Done(s: State)
  {
    forall t :: 0 <= t < |s.rest| ==> s.rest[t] == []
  }

  function Start(programs: seq<seq<Op>>, running: set<Tab>): State
  {
    State(programs, FREE, running)
  }

  /** What each lock excludes: a mutex and a gate their holder, the write side readers and
      another writer, and the read side a writer that holds or awaits it. */
  lemma LocksExclude(l: Locks, t: Tid)
    ensures Enabled(l, t, LockRebuild) <==> l.rebuild.None?
    ensures Enabled(l, t, LockRemoval) <==> l.removal.None?
    ensures forall x :: Enabled(l, t, LockTurn(x)) <==> x !in l.turns
    ensures Enabled(l, t, ReadLock) <==> l.writer.None? && l.announced.None?
    ensures Enabled(l, t, AnnounceWrite) <==> l.writer.None? && l.announced.None?
    ensures Enabled(l, t, AcquireWrite) <==> l.announced == Some(t) && forall u :: u !in l.readers
  {
  }

  // ---- The lock discipline ----

  /** What one thread holds. */
  datatype Held = Held(rebuild: bool, announced: bool, writing: bool, shares: nat, turns: set<Tab>, removal: bool)

  const NOTHING := Held(false, false, false, 0, {}, false)

  function HeldBy(l: Locks, t: Tid): Held
  {
    Held(l.rebuild == Some(t), l.announced == Some(t), l.writer == Some(t), l.readers[t],
         (set x | x in l.turns && l.turns[x] == t), l.removal == Some(t))
  }

  /** The rules of the comments at the lock declarations: the rebuild mutex comes
      first; a writer holds it and nothing else; a reader never re-enters and, if it
      already holds a turn gate, holds the rebuild mutex; several gates are held
      together only under the write side; the removal mutex comes last; a turn is
      started only under the read side and the tab's gate. */
  predicate Allowed(h: Held, op: Op)
  {
    match op
    case LockRebuild => h == NOTHING
    case AnnounceWrite => h == NOTHING.(rebuild := true)
    case AcquireWrite => h == NOTHING.(rebuild := true, announced := true)
    case ReadLock =>
      && h.shares == 0 && !h.announced && !h.writing && !h.removal
      && (h.turns == {} || h.rebuild)
    case LockTurn(x) =>
      && !h.announced && !h.removal && x !in h.turns
      && (h.turns == {} || (h.rebuild && h.writing))
    case LockRemoval => !h.announced && !h.removal
    case UnlockRebuild => h.rebuild && !h.announced && !h.writing
    case UnlockWrite => h.writing
    case ReadUnlock => h.shares > 0
    case UnlockTurn(x) => x in h.turns
    case UnlockRemoval => h.removal
    case StartTurn(x) => h.shares > 0 && x in h.turns
  }

  function After(h: Held, op: Op): Held
  {
    match op
    case LockRebuild => h.(rebuild := true)
    case UnlockRebuild => h.(rebuild := false)
    case AnnounceWrite => h.(announced := true)
    case AcquireWrite => h.(announced := false, writing := true)
    case UnlockWrite => h.(writing := false)
    case ReadLock => h.(shares := h.shares + 1)
    case ReadUnlock => h.(shares := if h.shares > 0 then h.shares - 1 else 0)
    case LockTurn(x) => h.(turns := h.turns + {x})
    case UnlockTurn(x) => h.(turns := h.turns - {x})
    case LockRemoval => h.(removal := true)
    case UnlockRemoval => h.(removal := false)
    case StartTurn(_) => h
  }

  /** What a thread holds after running `program` from `h`, or None on a violation. */
  function Follow(h: Held, program: seq<Op>): Option<Held>
    decreases |program|
  {
    if program == [] then Some(h)
    else if Allowed(h, program[0]) then Follow(After(h, program[0]), program[1..])
    else None
  }

  predicate Disciplined(program: seq<Op>)
  {
    Follow(NOTHING, program) == Some(NOTHING)
  }

  // ---- The source's lock programs ----

  /** An operation of the shell, as far as these locks see it. */
  datatype Operation =
    | Turn(tab: Tab, starts: bool)
    | Build
    | Switch(tab: Tab, visits: nat)
    | StartupRetry(visits: nat)
    | Mutation(gates: seq<Tab>)
    | Rebind(tab: Tab)
    | Delete
    | Clear(tab: Tab)
    | Mode(tab: Tab)
    | Restore

  function Guarded(acquire: Op, body: seq<Op>, release: Op): seq<Op>
  {
    [acquire] + body + [release]
  }

  function Exclusively(body: seq<Op>): seq<Op>
  {
    [LockRebuild] + ([AnnounceWrite] + Guarded(AcquireWrite, body, UnlockWrite)) + [UnlockRebuild]
  }

  function Reads(n: nat): seq<Op>
  {
    if n == 0 then [] else Guarded(ReadLock, [], ReadUnlock) + Reads(n - 1)
  }

  function Gates(tabs: seq<Tab>): seq<Op>
  {
    if tabs == [] then [] else Guarded(LockTurn(tabs[0]), Gates(tabs[1..]), UnlockTurn(tabs[0]))
  }

  function Program(o: Operation): seq<Op>
  {
    match o
    case Turn(x, starts) =>
      Guarded(ReadLock, Guarded(LockTurn(x), if starts then [StartTurn(x)] else [], UnlockTurn(x)), ReadUnlock)
    case Build => Guarded(ReadLock, [], ReadUnlock)
    case Switch(x, n) => Guarded(LockRebuild, Guarded(LockTurn(x), Reads(n), UnlockTurn(x)), UnlockRebuild)
    case StartupRetry(n) => Guarded(LockRebuild, Reads(n), UnlockRebuild)
    case Mutation(gates) => Exclusively(Gates(gates))
    case Rebind(x) => Exclusively(Gates([x]))
    case Delete => Exclusively(Guarded(LockRemoval, [], UnlockRemoval))
    case Clear(x) =>
      Guarded(LockRebuild, Guarded(LockTurn(x), Guarded(LockRemoval, [], UnlockRemoval), UnlockTurn(x)), UnlockRebuild)
    case Mode(x) => Guarded(LockTurn(x), [], UnlockTurn(x))
    case Restore => Guarded(LockRemoval, [], UnlockRemoval)
  }

  /** lockRuntimeTurnGates never lists a tab twice (runtimeTabsLocked dedups). */
  predicate Wellformed(o: Operation)
  {
    o.Mutation? ==> forall i, j :: 0 <= i < j < |o.gates| ==> o.gates[i] != o.gates[j]
  }

  lemma {:induction false} FollowConcat(h: Held, p: seq<Op>, q: seq<Op>)
    ensures Follow(h, p + q) == if Follow(h, p).Some? then Follow(Follow(h, p).value, q) else None
    decreases |p|
  {
    if p == [] {
      assert p + q == q;
    } else {
      assert (p + q)[1..] == p[1..] + q;
      FollowConcat(After(h, p[0]), p[1..], q);
    }
  }

  lemma FollowGuarded(h: Held, acquire: Op, body: seq<Op>, release: Op)
    requires Allowed(h, acquire) && Follow(After(h, acquire), body) == Some(After(h, acquire))
    requires Allowed(After(h, acquire), release) && After(After(h, acquire), release) == h
    ensures Follow(h, Guarded(acquire, body, release)) == Some(h)
  {
    assert Guarded(acquire, body, release) == [acquire] + (body + [release]);
    FollowConcat(h, [acquire], body + [release]);
    assert Follow(h, [acquire]) == Some(After(h, acquire));
    FollowConcat(After(h, acquire), body, [release]);
  }

  lemma FollowExclusively(body: seq<Op>)
    requires var h := NOTHING.(rebuild := true, writing := true); Follow(h, body) == Some(h)
    ensures Disciplined(Exclusively(body))
  {
    var r := NOTHING.(rebuild := true);
    var a := r.(announced := true);
    var w := r.(writing := true);
    var inner := Guarded(AcquireWrite, body, UnlockWrite);
    assert inner == [AcquireWrite] + (body + [UnlockWrite]);
    FollowConcat(a, [AcquireWrite], body + [UnlockWrite]);
    assert Follow(a, [AcquireWrite]) == Some(w);
    FollowConcat(w, body, [UnlockWrite]);
    assert Follow(w, [UnlockWrite]) == Some(r);
    FollowConcat(r, [AnnounceWrite], inner);
    assert Follow(r, [AnnounceWrite]) == Some(a);
    assert Exclusively(body) == [LockRebuild] + (([AnnounceWrite] + inner) + [UnlockRebuild]);
    FollowConcat(NOTHING, [LockRebuild], ([AnnounceWrite] + inner) + [UnlockRebuild]);
    assert Follow(NOTHING, [LockRebuild]) == Some(r);
    FollowConcat(r, [AnnounceWrite] + inner, [UnlockRebuild]);
  }

  lemma {:induction false} FollowReads(h: Held, n: nat)
    requires Allowed(h, ReadLock)
    ensures Follow(h, Reads(n)) == Some(h)
  {
    if n > 0 {
      FollowGuarded(h, ReadLock, [], ReadUnlock);
      FollowReads(h, n - 1);
      FollowConcat(h, Guarded(ReadLock, [], ReadUnlock), Reads(n - 1));
    }
  }

  lemma {:induction false} FollowGates(h: Held, tabs: seq<Tab>)
    requires h.rebuild && h.writing && !h.announced && !h.removal
    requires forall i :: 0 <= i < |tabs| ==> tabs[i] !in h.turns
    requires forall i, j :: 0 <= i < j < |tabs| ==> tabs[i] != tabs[j]
    ensures Follow(h, Gates(tabs)) == Some(h)
    decreases |tabs|
  {
    if tabs != [] {
      var op := LockTurn(tabs[0]);
      FollowGates(After(h, op), tabs[1..]);
      assert After(After(h, op), UnlockTurn(tabs[0])).turns == h.turns;
      FollowGuarded(h, op, Gates(tabs[1..]), UnlockTurn(tabs[0]));
    }
  }

  /** Every lock program of the shell follows the discipline, whatever tabs it names
      and however often a switch enters the read side. */
  lemma ProgramsAreDisciplined(o: Operation)
    requires Wellformed(o)
    ensures Disciplined(Program(o))
  {
    var r := NOTHING.(rebuild := true);
    match o
    case Turn(x, starts) =>
      var a := After(NOTHING, ReadLock);
      var g := After(a, LockTurn(x));
      var body := if starts then [StartTurn(x)] else [];
      assert Follow(g, body) == Some(g);
      FollowGuarded(a, LockTurn(x), body, UnlockTurn(x));
      FollowGuarded(NOTHING, ReadLock, Guarded(LockTurn(x), body, UnlockTurn(x)), ReadUnlock);
    case Build =>
      FollowGuarded(NOTHING, ReadLock, [], ReadUnlock);
    case Switch(x, n) =>
      FollowReads(After(r, LockTurn(x)), n);
      FollowGuarded(r, LockTurn(x), Reads(n), UnlockTurn(x));
      FollowGuarded(NOTHING, LockRebuild, Guarded(LockTurn(x), Reads(n), UnlockTurn(x)), UnlockRebuild);
    case StartupRetry(n) =>
      FollowReads(r, n);
      FollowGuarded(NOTHING, LockRebuild, Reads(n), UnlockRebuild);
    case Mutation(gates) =>
      FollowGates(r.(writing := true), gates);
      FollowExclusively(Gates(gates));
    case Rebind(x) =>
      FollowGates(r.(writing := true), [x]);
      FollowExclusively(Gates([x]));
    case Delete =>
      var body := Guarded(LockRemoval, [], UnlockRemoval);
      FollowGuarded(r.(writing := true), LockRemoval, [], UnlockRemoval);
      FollowExclusively(body);
    case Clear(x) =>
      var g := After(r, LockTurn(x));
      var body := Guarded(LockRemoval, [], UnlockRemoval);
      FollowGuarded(g, LockRemoval, [], UnlockRemoval);
      FollowGuarded(r, LockTurn(x), body, UnlockTurn(x));
      FollowGuarded(NOTHING, LockRebuild, Guarded(LockTurn(x), body, UnlockTurn(x)), UnlockRebuild);
    case Mode(x) =>
      FollowGuarded(NOTHING, LockTurn(x), [], UnlockTurn(x));
    case Restore =>
      FollowGuarded(NOTHING, LockRemoval, [], UnlockRemoval);
  }

  // ---- The invariant ----

  predicate OwnersExist(s: State)
  {
    var l, n := s.locks, |s.rest|;
    && (l.rebuild.Some? ==> l.rebuild.value < n)
    && (l.announced.Some? ==> l.announced.value < n)
    && (l.writer.Some? ==> l.writer.value < n)
    && (l.removal.Some? ==> l.removal.value < n)
    && (forall t :: t in l.readers ==> t < n)
    && (forall x :: x in l.turns ==> l.turns[x] < n)
  }

  /** The write side excludes readers, whoever announced or holds it holds the
      rebuild mutex, and every thread's remaining program is disciplined from what
      the lock state says it holds. */
  predicate Inv(s: State)
  {
    var l := s.locks;
    && OwnersExist(s)
    && (l.announced.Some? ==> l.rebuild == l.announced)
    && (l.writer.Some? ==> l.rebuild == l.writer && l.readers == multiset{} && l.announced.None?)
    && (forall t :: 0 <= t < |s.rest| ==> Follow(HeldBy(l, t), s.rest[t]) == Some(NOTHING))
  }

  lemma StartSatisfiesInv(programs: seq<seq<Op>>, running: set<Tab>)
    requires forall t :: 0 <= t < |programs| ==> Disciplined(programs[t])
    ensures Inv(Start(programs, running))
  {
    forall t | 0 <= t < |programs| ensures HeldBy(FREE, t) == NOTHING {
      assert HeldBy(FREE, t).turns == {};
    }
  }

  lemma EffectOnHeld(l: Locks, t: Tid, op: Op, u: Tid)
    requires Enabled(l, t, op) && Allowed(HeldBy(l, t), op)
    requires l.writer.Some? ==> l.announced.None?
    ensures HeldBy(Effect(l, t, op), u) == if u == t then After(HeldBy(l, t), op) else HeldBy(l, u)
  {
    var h' := HeldBy(Effect(l, t, op), u);
    var k := if u == t then After(HeldBy(l, t), op) else HeldBy(l, u);
    match op {
      case LockTurn(x) => assert h'.turns == k.turns;
      case UnlockTurn(x) => assert h'.turns == k.turns;
      case _ => assert h'.turns == k.turns && h'.shares == k.shares;
    }
  }

  lemma StepKeepsInv(s: State, e: Event)
    requires Inv(s) && CanHappen(s, e)
    ensures Inv(Next(s, e))
  {
    if e.Act? {
      var t, op, s' := e.t, s.rest[e.t][0], Next(s, e);
      assert Follow(HeldBy(s.locks, t), s.rest[t]) == Some(NOTHING);
      forall u | 0 <= u < |s.rest|
        ensures Follow(HeldBy(s'.locks, u), s'.rest[u]) == Some(NOTHING)
      {
        EffectOnHeld(s.locks, t, op, u);
      }
    }
  }

  lemma {:induction false} RunKeepsInv(s: State, events: seq<Event>)
    requires Inv(s) && Run(s, events).Some?
    ensures Inv(Run(s, events).value)
    decreases |events|
  {
    if events != [] {
      StepKeepsInv(s, events[0]);
      RunKeepsInv(Next(s, events[0]), events[1..]);
    }
  }

  // ---- Deadlock freedom ----

  /** A thread that holds anything is not finished, and its next action is allowed. */
  lemma HolderHasNext(s: State, t: Tid)
    requires Inv(s) && t < |s.rest| && HeldBy(s.locks, t) != NOTHING
    ensures s.rest[t] != [] && Allowed(HeldBy(s.locks, t), s.rest[t][0])
  {
    assert Follow(HeldBy(s.locks, t), s.rest[t]) == Some(NOTHING);
  }

  lemma ReaderCanAct(s: State, t: Tid) returns (u: Tid)
    requires Inv(s) && t in s.locks.readers
    ensures CanAct(s, u)
  {
    HolderHasNext(s, t);
    var op := s.rest[t][0];
    if op.LockTurn? && op.tab in s.locks.turns {
      u := TurnHolderCanAct(s, op.tab);
    } else if op.LockRemoval? && s.locks.removal.Some? {
      u := RemovalHolderCanAct(s);
    } else {
      u := t;
    }
  }

  lemma RemovalHolderCanAct(s: State) returns (u: Tid)
    requires Inv(s) && s.locks.removal.Some?
    ensures CanAct(s, u)
  {
    u := s.locks.removal.value;
    HolderHasNext(s, u);
  }

  /** Whoever holds the write side can move on: the turn gates it still wants belong
      to threads that wait for nothing it holds. */
  lemma TurnHolderCanAct(s: State, x: Tab) returns (u: Tid)
    requires Inv(s) && x in s.locks.turns
    ensures CanAct(s, u)
  {
    var t := s.locks.turns[x];
    assert x in HeldBy(s.locks, t).turns;
    HolderHasNext(s, t);
    var op := s.rest[t][0];
    match op
    case LockRemoval =>
      if s.locks.removal.Some? { u := RemovalHolderCanAct(s); } else { u := t; }
    case LockTurn(y) =>
      if y in s.locks.turns {
        var v := s.locks.turns[y];
        assert y in HeldBy(s.locks, v).turns;
        HolderHasNext(s, v);
        if s.rest[v][0].LockRemoval? && s.locks.removal.Some? {
          u := RemovalHolderCanAct(s);
        } else {
          u := v;
        }
      } else {
        u := t;
      }
    case _ =>
      u := t;
  }

  lemma WriteSideCanAct(s: State) returns (u: Tid)
    requires Inv(s) && (s.locks.announced.Some? || s.locks.writer.Some?)
    ensures CanAct(s, u)
  {
    var w := if s.locks.announced.Some? then s.locks.announced.value else s.locks.writer.value;
    HolderHasNext(s, w);
    var op := s.rest[w][0];
    if op.AcquireWrite? && s.locks.readers != multiset{} {
      var t :| t in s.locks.readers;
      u := ReaderCanAct(s, t);
    } else if op.LockTurn? && op.tab in s.locks.turns {
      u := TurnHolderCanAct(s, op.tab);
    } else if op.LockRemoval? && s.locks.removal.Some? {
      u := RemovalHolderCanAct(s);
    } else {
      u := w;
    }
  }

  lemma RebuildHolderCanAct(s: State) returns (u: Tid)
    requires Inv(s) && s.locks.rebuild.Some?
    ensures CanAct(s, u)
  {
    if s.locks.announced.Some? || s.locks.writer.Some? {
      u := WriteSideCanAct(s);
    } else {
      var t := s.locks.rebuild.value;
      HolderHasNext(s, t);
      var op := s.rest[t][0];
      if op.LockTurn? && op.tab in s.locks.turns {
        u := TurnHolderCanAct(s, op.tab);
      } else if op.LockRemoval? && s.locks.removal.Some? {
        u := RemovalHolderCanAct(s);
      } else {
        u := t;
      }
    }
  }

  lemma UnfinishedCanAct(s: State, t: Tid) returns (u: Tid)
    requires Inv(s) && t < |s.rest| && s.rest[t] != []
    ensures CanAct(s, u)
  {
    assert Follow(HeldBy(s.locks, t), s.rest[t]) == Some(NOTHING);
    if s.locks.announced.Some? || s.locks.writer.Some? {
      u := WriteSideCanAct(s);
    } else if s.locks.rebuild.Some? {
      u := RebuildHolderCanAct(s);
    } else if s.rest[t][0].LockTurn? && s.rest[t][0].tab in s.locks.turns {
      u := TurnHolderCanAct(s, s.rest[t][0].tab);
    } else if s.rest[t][0].LockRemoval? && s.locks.removal.Some? {
      u := RemovalHolderCanAct(s);
    } else {
      u := t;
    }
  }

  /** Deadlock freedom: whatever operations run on however many threads, after any
      schedule some thread can act unless all are finished. */
  lemma DeadlockFree(operations: seq<Operation>, running: set<Tab>, events: seq<Event>)
    requires forall t :: 0 <= t < |operations| ==> Wellformed(operations[t])
    ensures var s := Run(Start(Programs(operations), running), events);
            s.Some? && !Done(s.value) ==> exists u :: CanAct(s.value, u)
  {
    var start := Start(Programs(operations), running);
    OperationsStartInv(operations, running);
    var s := Run(start, events);
    if s.Some? && !Done(s.value) {
      RunKeepsInv(start, events);
      var t :| 0 <= t < |s.value.rest| && s.value.rest[t] != [];
      var u := UnfinishedCanAct(s.value, t);
    }
  }

  function Programs(operations: seq<Operation>): seq<seq<Op>>
  {
    seq(|operations|, i requires 0 <= i < |operations| => Program(operations[i]))
  }

  lemma OperationsStartInv(operations: seq<Operation>, running: set<Tab>)
    requires forall t :: 0 <= t < |operations| ==> Wellformed(operations[t])
    ensures Inv(Start(Programs(operations), running))
  {
    forall t | 0 <= t < |operations| ensures Disciplined(Programs(operations)[t]) {
      ProgramsAreDisciplined(operations[t]);
    }
    StartSatisfiesInv(Programs(operations), running);
  }

  // ---- Every schedule can be completed, and none is longer than the programs ----

  function Remaining(rest: seq<seq<Op>>): nat
  {
    if rest == [] then 0 else |rest[0]| + Remaining(rest[1..])
  }

  lemma {:induction false} RemainingDrops(rest: seq<seq<Op>>, t: Tid)
    requires t < |rest| && rest[t] != []
    ensures Remaining(rest[t := rest[t][1..]]) == Remaining(rest) - 1
  {
    var rest' := rest[t := rest[t][1..]];
    if t == 0 {
      assert rest'[1..] == rest[1..];
    } else {
      assert rest'[1..] == rest[1..][t - 1 := rest[t][1..]];
      RemainingDrops(rest[1..], t - 1);
    }
  }

  /** From any reachable state the remaining work can be scheduled to its end with
      every lock free again. */
  lemma {:induction false} CanComplete(s: State) returns (events: seq<Event>)
    requires Inv(s)
    ensures Run(s, events).Some? && Done(Run(s, events).value)
    ensures Run(s, events).value.locks == FREE
    ensures |events| == Remaining(s.rest)
    decreases Remaining(s.rest)
  {
    if Done(s) {
      events := [];
      DoneMeansFree(s);
      NothingRemains(s.rest);
    } else {
      var t :| 0 <= t < |s.rest| && s.rest[t] != [];
      var u := UnfinishedCanAct(s, t);
      StepKeepsInv(s, Act(u));
      RemainingDrops(s.rest, u);
      var tail := CanComplete(Next(s, Act(u)));
      events := [Act(u)] + tail;
      assert events[1..] == tail;
    }
  }

  lemma {:induction false} NothingRemains(rest: seq<seq<Op>>)
    requires forall t :: 0 <= t < |rest| ==> rest[t] == []
    ensures Remaining(rest) == 0
  {
    if rest != [] {
      NothingRemains(rest[1..]);
    }
  }

  lemma DoneMeansFree(s: State)
    requires Inv(s) && Done(s)
    ensures s.locks == FREE
  {
    var l := s.locks;
    forall t | 0 <= t < |s.rest| ensures HeldBy(l, t) == NOTHING {
      assert Follow(HeldBy(l, t), s.rest[t]) == Some(NOTHING);
    }
    assert l.rebuild.Some? ==> HeldBy(l, l.rebuild.value).rebuild;
    assert l.removal.Some? ==> HeldBy(l, l.removal.value).removal;
    forall x ensures x !in l.turns {
      assert x in l.turns ==> x in HeldBy(l, l.turns[x]).turns;
    }
    forall t ensures t !in l.readers {
      assert t in l.readers ==> HeldBy(l, t).shares > 0;
    }
  }

  // ---- Admission exclusion ----

  /** Thread w holds the write side in every state of the run. */
  predicate KeepsWriteSide(s: State, events: seq<Event>, w: Tid)
    decreases |events|
  {
    && s.locks.writer == Some(w)
    && (events != [] ==> CanHappen(s, events[0]) && KeepsWriteSide(Next(s, events[0]), events[1..], w))
  }

  /** From a passed idle check of lockRuntimeTurnGates until the write side is
      released, no turn starts on any tab, so every gated controller stays idle,
      and nobody is admitted to the read side. */
  lemma {:induction false} NoTurnStartsUnderWriteSide(s: State, events: seq<Event>, w: Tid, gates: set<Tab>)
    requires Inv(s) && KeepsWriteSide(s, events, w)
    requires gates !! s.running
    ensures Run(s, events).Some? && Run(s, events).value.running <= s.running
    ensures gates !! Run(s, events).value.running
    ensures forall t :: !Enabled(Run(s, events).value.locks, t, ReadLock)
    decreases |events|
  {
    if events != [] {
      var e := events[0];
      if e.Act? {
        assert Follow(HeldBy(s.locks, e.t), s.rest[e.t]) == Some(NOTHING);
        assert !s.rest[e.t][0].StartTurn?;
      }
      StepKeepsInv(s, e);
      NoTurnStartsUnderWriteSide(Next(s, e), events[1..], w, gates);
    }
  }

  /** What a gated mutation still has to do once its gates are locked and its idle
      check has passed: unlock gates, then the write side and the rebuild mutex. */
  predicate Releasing(rest: seq<Op>)
  {
    rest != [] &&
    (rest == [UnlockWrite, UnlockRebuild] || (rest[0].UnlockTurn? && Releasing(rest[1..])))
  }

  lemma {:induction false} ReleasingMeansWriting(h: Held, rest: seq<Op>)
    requires Releasing(rest) && Follow(h, rest).Some?
    ensures h.writing
    decreases |rest|
  {
    if rest != [UnlockWrite, UnlockRebuild] {
      ReleasingMeansWriting(After(h, rest[0]), rest[1..]);
    }
  }

  /** The critical section of lockRuntimeTurnGates, over whole runs of the shell's
      operations: as long as thread w has not released the write side, no turn has
      started since its gates passed the idle check. */
  lemma {:induction false} GatedMutationExcludesTurns(s: State, events: seq<Event>, w: Tid, gates: set<Tab>)
    requires Inv(s) && w < |s.rest| && Releasing(s.rest[w]) && gates !! s.running
    requires Run(s, events).Some? && UnlockWrite in Run(s, events).value.rest[w]
    ensures Run(s, events).value.running <= s.running
    ensures gates !! Run(s, events).value.running
    decreases |events|
  {
    if events != [] {
      var e, s' := events[0], Next(s, events[0]);
      ReleasingMeansWriting(HeldBy(s.locks, w), s.rest[w]);
      NoTurnStartsUnderWriteSide(s, [], w, gates);
      if e.Act? {
        assert Follow(HeldBy(s.locks, e.t), s.rest[e.t]) == Some(NOTHING);
        assert !s.rest[e.t][0].StartTurn?;
      }
      StepKeepsInv(s, e);
      if !Releasing(s'.rest[w]) {
        RestOnlyShrinks(s', events[1..], w);
      }
      GatedMutationExcludesTurns(s', events[1..], w, gates);
    }
  }

  lemma {:induction false} RestOnlyShrinks(s: State, events: seq<Event>, t: Tid)
    requires t < |s.rest| && Run(s, events).Some?
    ensures forall op :: op in Run(s, events).value.rest[t] ==> op in s.rest[t]
    decreases |events|
  {
    if events != [] {
      RestOnlyShrinks(Next(s, events[0]), events[1..], t);
    }
  }

  /** Thread t holds the gate of x in every state of the run. */
  predicate KeepsGate(s: State, events: seq<Event>, t: Tid, x: Tab)
    decreases |events|
  {
    && x in s.locks.turns && s.locks.turns[x] == t
    && (events != [] ==> CanHappen(s, events[0]) && KeepsGate(Next(s, events[0]), events[1..], t, x))
  }

  /** A rebuild that holds one tab's gate, without the write side, keeps that tab's
      controller idle for as long as it holds the gate. */
  lemma {:induction false} NoTurnStartsBehindGate(s: State, events: seq<Event>, t: Tid, x: Tab)
    requires Inv(s) && t < |s.rest| && KeepsGate(s, events, t, x)
    requires StartTurn(x) !in s.rest[t]
    requires x !in s.running
    ensures Run(s, events).Some? && x !in Run(s, events).value.running
    decreases |events|
  {
    if events != [] {
      var e := events[0];
      if e.Act? {
        assert Follow(HeldBy(s.locks, e.t), s.rest[e.t]) == Some(NOTHING);
        assert s.rest[e.t][0] != StartTurn(x);
      }
      StepKeepsInv(s, e);
      NoTurnStartsBehindGate(Next(s, e), events[1..], t, x);
    }
  }

  // ---- Why the discipline is needed ----

  /** A writer that does not hold the rebuild mutex meets a model switch: the
      switch holds the gate and waits for the read side, the writer the reverse. */
  lemma WriterWithoutRebuildDeadlocks()
    ensures
      var writer := [AnnounceWrite] + Guarded(AcquireWrite, Gates([0]), UnlockWrite);
      var start := Start([Program(Switch(0, 1)), writer], {});
      exists events :: Run(start, events).Some? && !Done(Run(start, events).value)
                       && forall u :: !CanAct(Run(start, events).value, u)
  {
    var writer := [AnnounceWrite] + Guarded(AcquireWrite, Gates([0]), UnlockWrite);
    var start := Start([Program(Switch(0, 1)), writer], {});
    var p0 := Program(Switch(0, 1));
    assert Reads(1) == [ReadLock, ReadUnlock] by { assert Reads(0) == []; }
    assert p0 == [LockRebuild, LockTurn(0), ReadLock, ReadUnlock, UnlockTurn(0), UnlockRebuild];
    assert Gates([0]) == [LockTurn(0), UnlockTurn(0)] by { assert Gates([0][1..]) == []; }
    assert writer == [AnnounceWrite, AcquireWrite, LockTurn(0), UnlockTurn(0), UnlockWrite];
    var s1 := Next(start, Act(0));
    var s2 := Next(s1, Act(0));
    var s3 := Next(s2, Act(1));
    var s4 := Next(s3, Act(1));
    var events := [Act(0)] + ([Act(0)] + ([Act(1)] + ([Act(1)] + [])));
    RunFirst(s3, Act(1), []);
    RunFirst(s2, Act(1), [Act(1)] + []);
    RunFirst(s1, Act(0), [Act(1)] + ([Act(1)] + []));
    RunFirst(start, Act(0), [Act(0)] + ([Act(1)] + ([Act(1)] + [])));
    assert Run(start, events) == Some(s4);
    assert s4.rest[0][0] == ReadLock && s4.rest[1][0] == LockTurn(0);
    assert s4.locks.writer == Some(1) && 0 in s4.locks.turns;
  }

  lemma RunFirst(s: State, e: Event, events: seq<Event>)
    requires CanHappen(s, e)
    ensures Run(s, [e] + events) == Run(Next(s, e), events)
  {
    assert ([e] + events)[1..] == events;
  }

  /** A reader that re-enters meets a queued writer, although the writer does hold
      the rebuild mutex. */
  lemma ReentrantReaderDeadlocks()
    ensures
      var reader := Guarded(ReadLock, Guarded(ReadLock, [], ReadUnlock), ReadUnlock);
      var start := Start([reader, Program(Mutation([]))], {});
      exists events :: Run(start, events).Some? && !Done(Run(start, events).value)
                       && forall u :: !CanAct(Run(start, events).value, u)
  {
    var reader := Guarded(ReadLock, Guarded(ReadLock, [], ReadUnlock), ReadUnlock);
    var start := Start([reader, Program(Mutation([]))], {});
    assert reader == [ReadLock, ReadLock, ReadUnlock, ReadUnlock];
    assert Program(Mutation([])) == [LockRebuild, AnnounceWrite, AcquireWrite, UnlockWrite, UnlockRebuild];
    var s1 := Next(start, Act(0));
    var s2 := Next(s1, Act(1));
    var s3 := Next(s2, Act(1));
    var events := [Act(0), Act(1), Act(1)];
    assert events[1..] == [Act(1), Act(1)];
    assert events[1..][1..] == [Act(1)];
    assert Run(s2, [Act(1)]) == Some(s3) by { assert [Act(1)][1..] == []; }
    assert Run(start, events) == Some(s3);
    assert s3.rest[0][0] == ReadLock && s3.rest[1][0] == AcquireWrite;
    assert 0 in s3.locks.readers;
  }
}
