/** What the operations of the desktop shell hold while they work (desktop/app.go). */
module RuntimeGuards {
  // The lock discipline admits many programs.  Here each operation of the shell is tied to
  // the locks its critical section rests on: in every reachable state of every schedule it
  // holds no other lock, an inner lock only together with the outer ones, and before it is
  // over it has held all of them at once.

  import opened Wrappers
  import opened RuntimeLocks

  // ---- What each operation holds at its innermost point ----

  function Elements<T>(s: seq<T>): set<T>
  {
    set x | x in s
  }

  /** All the locks of an operation, held together in its critical section. */
  function Peak(o: Operation): Held
  {
    match o
    case Turn(x, _) => NOTHING.(shares := 1, turns := {x})
    case Build => NOTHING.(shares := 1)
    case Switch(x, visits) => NOTHING.(rebuild := true, turns := {x}, shares := if visits > 0 then 1 else 0)
    case StartupRetry(visits) => NOTHING.(rebuild := true, shares := if visits > 0 then 1 else 0)
    case Mutation(gates) => NOTHING.(rebuild := true, writing := true, turns := Elements(gates))
    case Rebind(x) => NOTHING.(rebuild := true, writing := true, turns := {x})
    case Delete => NOTHING.(rebuild := true, writing := true, removal := true)
    case Clear(x) => NOTHING.(rebuild := true, turns := {x}, removal := true)
    case Mode(x) => NOTHING.(turns := {x})
    case Restore => NOTHING.(removal := true)
  }

  /** No lock is held that the operation does not use, the innermost lock only together
      with all others, and gates and read side only inside what surrounds them. */
  predicate Nested(o: Operation, h: Held)
  {
    var p := Peak(o);
    && (h.rebuild ==> p.rebuild) && (h.announced ==> p.writing) && (h.writing ==> p.writing)
    && h.shares <= p.shares && h.turns <= p.turns && (h.removal ==> p.removal)
    && (h.removal ==> h == p)
    && (h.announced || h.writing ==> h.rebuild)
    && (h.turns != {} ==> h.rebuild == p.rebuild && h.writing == p.writing)
    && (h.turns != {} && o.Turn? ==> h == p)
    && (h.shares > 0 && (o.Switch? || o.StartupRetry?) ==> h == p)
  }

  function NestedIn(o: Operation): Held -> bool
  {
    h => Nested(o, h)
  }

  function AtPeak(o: Operation): Held -> bool
  {
    h => h == Peak(o)
  }

  // ---- Along a program ----

  /** The rule holds at every point of the program. */
  predicate Along(rule: Held -> bool, h: Held, program: seq<Op>)
    decreases |program|
  {
    rule(h) && (program != [] ==> Along(rule, After(h, program[0]), program[1..]))
  }

  /** The rule holds at some point of the program. */
  predicate Sometime(rule: Held -> bool, h: Held, program: seq<Op>)
    decreases |program|
  {
    rule(h) || (program != [] && Sometime(rule, After(h, program[0]), program[1..]))
  }

  lemma {:induction false} AlongConcat(rule: Held -> bool, h: Held, p: seq<Op>, q: seq<Op>)
    requires Follow(h, p).Some? && Along(rule, h, p) && Along(rule, Follow(h, p).value, q)
    ensures Along(rule, h, p + q)
    decreases |p|
  {
    if p == [] {
      assert p + q == q;
    } else {
      assert (p + q)[1..] == p[1..] + q;
      AlongConcat(rule, After(h, p[0]), p[1..], q);
    }
  }

  lemma {:induction false} SometimeConcat(rule: Held -> bool, h: Held, p: seq<Op>, q: seq<Op>)
    requires Follow(h, p).Some? && (Sometime(rule, h, p) || Sometime(rule, Follow(h, p).value, q))
    ensures Sometime(rule, h, p + q)
    decreases |p|
  {
    if p == [] {
      assert p + q == q;
    } else {
      assert (p + q)[1..] == p[1..] + q;
      if !rule(h) {
        SometimeConcat(rule, After(h, p[0]), p[1..], q);
      }
    }
  }

  /** A body between acquiring and releasing a lock. */
  lemma GuardedBody(rule: Held -> bool, peak: Held -> bool, h: Held, acquire: Op, body: seq<Op>, release: Op)
    requires Allowed(h, acquire) && Follow(After(h, acquire), body) == Some(After(h, acquire))
    requires Allowed(After(h, acquire), release) && After(After(h, acquire), release) == h
    requires rule(h) && Along(rule, After(h, acquire), body) && Sometime(peak, After(h, acquire), body)
    ensures Follow(h, Guarded(acquire, body, release)) == Some(h)
    ensures Along(rule, h, Guarded(acquire, body, release)) && Sometime(peak, h, Guarded(acquire, body, release))
  {
    var a := After(h, acquire);
    FollowGuarded(h, acquire, body, release);
    assert Guarded(acquire, body, release) == [acquire] + (body + [release]);
    assert ([acquire] + (body + [release]))[1..] == body + [release];
    assert [release][1..] == [];
    assert Along(rule, h, []);
    assert Along(rule, a, []);
    AlongConcat(rule, a, body, [release]);
    SometimeConcat(peak, a, body, [release]);
  }

  /** A body under the write side. */
  lemma ExclusiveBody(rule: Held -> bool, peak: Held -> bool, body: seq<Op>)
    requires var w := NOTHING.(rebuild := true, writing := true);
             Follow(w, body) == Some(w) && Along(rule, w, body) && Sometime(peak, w, body)
    requires rule(NOTHING) && rule(NOTHING.(rebuild := true)) && rule(NOTHING.(rebuild := true, announced := true))
    ensures Along(rule, NOTHING, Exclusively(body)) && Sometime(peak, NOTHING, Exclusively(body))
  {
    var r := NOTHING.(rebuild := true);
    var a, w := r.(announced := true), r.(writing := true);
    var tail := [UnlockWrite] + [UnlockRebuild];
    assert Follow(w, [UnlockWrite]) == Some(r) && Along(rule, r, [UnlockRebuild]) by {
      assert [UnlockRebuild][1..] == [] && Along(rule, NOTHING, []);
    }
    assert Along(rule, w, tail) by {
      assert tail[1..] == [UnlockRebuild];
    }
    AlongConcat(rule, w, body, tail);
    SometimeConcat(peak, w, body, tail);
    var rest := [AcquireWrite] + (body + tail);
    assert rest[1..] == body + tail && After(a, AcquireWrite) == w;
    var whole := [LockRebuild] + ([AnnounceWrite] + rest);
    assert whole[1..] == [AnnounceWrite] + rest && whole[1..][1..] == rest;
    assert Along(rule, a, rest) && Along(rule, r, whole[1..]);
    assert Sometime(peak, a, rest) && Sometime(peak, r, whole[1..]);
    assert Exclusively(body) == whole;
  }

  lemma {:induction false} ReadsBody(rule: Held -> bool, h: Held, n: nat)
    requires Allowed(h, ReadLock) && rule(h) && rule(After(h, ReadLock))
    ensures Along(rule, h, Reads(n)) && Follow(h, Reads(n)) == Some(h)
  {
    FollowReads(h, n);
    if n > 0 {
      assert [] + [ReadUnlock] == [ReadUnlock];
      GuardedBody(rule, rule, h, ReadLock, [], ReadUnlock);
      ReadsBody(rule, h, n - 1);
      AlongConcat(rule, h, Guarded(ReadLock, [], ReadUnlock), Reads(n - 1));
    }
  }

  lemma ReadsPeak(peak: Held -> bool, h: Held, n: nat)
    requires n > 0 && peak(After(h, ReadLock))
    ensures Sometime(peak, h, Reads(n))
  {
    assert Reads(n)[0] == ReadLock;
  }

  lemma {:induction false} GatesBody(rule: Held -> bool, peak: Held -> bool, h: Held, tabs: seq<Tab>)
    requires h.rebuild && h.writing && !h.announced && !h.removal
    requires forall i :: 0 <= i < |tabs| ==> tabs[i] !in h.turns
    requires forall i, j :: 0 <= i < j < |tabs| ==> tabs[i] != tabs[j]
    requires forall held: set<Tab> :: held <= h.turns + Elements(tabs) ==> rule(h.(turns := held))
    requires peak(h.(turns := h.turns + Elements(tabs)))
    ensures Along(rule, h, Gates(tabs)) && Sometime(peak, h, Gates(tabs))
    decreases |tabs|
  {
    assert h == h.(turns := h.turns);
    if tabs == [] {
      assert h.turns + Elements(tabs) == h.turns;
    } else {
      var op := LockTurn(tabs[0]);
      var a := After(h, op);
      assert a.turns + Elements(tabs[1..]) == h.turns + Elements(tabs) by {
        assert tabs == [tabs[0]] + tabs[1..];
      }
      forall held: set<Tab> | held <= a.turns + Elements(tabs[1..]) ensures rule(a.(turns := held)) {
        assert a.(turns := held) == h.(turns := held);
      }
      assert a.(turns := a.turns + Elements(tabs[1..])) == h.(turns := h.turns + Elements(tabs));
      GatesBody(rule, peak, a, tabs[1..]);
      FollowGates(a, tabs[1..]);
      assert After(a, UnlockTurn(tabs[0])).turns == h.turns;
      GuardedBody(rule, peak, h, op, Gates(tabs[1..]), UnlockTurn(tabs[0]));
    }
  }

  // ---- Every operation's program ----

  /** Every lock program keeps to its operation's locks, and comes to hold all of them. */
  ghost predicate Keeps(o: Operation, h: Held, program: seq<Op>)
  {
    Along(NestedIn(o), h, program)
  }

  lemma ProgramsNest(o: Operation)
    requires Wellformed(o)
    ensures Keeps(o, NOTHING, Program(o)) && Sometime(AtPeak(o), NOTHING, Program(o))
  {
    match o
    case Turn(x, starts) => TurnNests(x, starts);
    case Build =>
      Stays(o, Peak(o), []);
      GuardedBody(NestedIn(o), AtPeak(o), NOTHING, ReadLock, [], ReadUnlock);
    case Switch(x, visits) => SwitchNests(x, visits);
    case StartupRetry(visits) => RetryNests(visits);
    case Mutation(gates) => MutationNests(o, gates);
    case Rebind(x) => MutationNests(o, [x]);
    case Delete => DeleteNests();
    case Clear(x) => ClearNests(x);
    case Mode(x) =>
      Stays(o, Peak(o), []);
      GuardedBody(NestedIn(o), AtPeak(o), NOTHING, LockTurn(x), [], UnlockTurn(x));
    case Restore =>
      Stays(o, Peak(o), []);
      GuardedBody(NestedIn(o), AtPeak(o), NOTHING, LockRemoval, [], UnlockRemoval);
  }

  /** At the innermost point at most a turn is started. */
  lemma Stays(o: Operation, h: Held, body: seq<Op>)
    requires h == Peak(o) && (body == [] || exists x :: body == [StartTurn(x)])
    ensures Along(NestedIn(o), h, body) && Sometime(AtPeak(o), h, body)
  {
    assert NestedIn(o)(h) && AtPeak(o)(h);
    if body != [] {
      assert body[1..] == [] && After(h, body[0]) == h;
    }
  }

  lemma TurnNests(x: Tab, starts: bool)
    ensures var o := Turn(x, starts); Keeps(o, NOTHING, Program(o)) && Sometime(AtPeak(o), NOTHING, Program(o))
  {
    var o := Turn(x, starts);
    var a := After(NOTHING, ReadLock);
    var g := After(a, LockTurn(x));
    var body := if starts then [StartTurn(x)] else [];
    assert body != [] ==> body[1..] == [];
    assert g == Peak(o) && After(g, UnlockTurn(x)) == a;
    Stays(o, g, body);
    GuardedBody(NestedIn(o), AtPeak(o), a, LockTurn(x), body, UnlockTurn(x));
    GuardedBody(NestedIn(o), AtPeak(o), NOTHING, ReadLock, Guarded(LockTurn(x), body, UnlockTurn(x)), ReadUnlock);
  }

  lemma SwitchNests(x: Tab, visits: nat)
    ensures var o := Switch(x, visits); Keeps(o, NOTHING, Program(o)) && Sometime(AtPeak(o), NOTHING, Program(o))
  {
    var o := Switch(x, visits);
    var r := After(NOTHING, LockRebuild);
    var g := After(r, LockTurn(x));
    assert After(g, UnlockTurn(x)) == r;
    if visits > 0 {
      ReadsBody(NestedIn(o), g, visits);
      ReadsPeak(AtPeak(o), g, visits);
    }
    GuardedBody(NestedIn(o), AtPeak(o), r, LockTurn(x), Reads(visits), UnlockTurn(x));
    GuardedBody(NestedIn(o), AtPeak(o), NOTHING, LockRebuild, Guarded(LockTurn(x), Reads(visits), UnlockTurn(x)),
                UnlockRebuild);
  }

  lemma RetryNests(visits: nat)
    ensures var o := StartupRetry(visits);
            Keeps(o, NOTHING, Program(o)) && Sometime(AtPeak(o), NOTHING, Program(o))
  {
    var o := StartupRetry(visits);
    var r := After(NOTHING, LockRebuild);
    if visits > 0 {
      ReadsBody(NestedIn(o), r, visits);
      ReadsPeak(AtPeak(o), r, visits);
    }
    GuardedBody(NestedIn(o), AtPeak(o), NOTHING, LockRebuild, Reads(visits), UnlockRebuild);
  }

  lemma MutationNests(o: Operation, gates: seq<Tab>)
    requires Wellformed(o) && (o == Mutation(gates) || (o.Rebind? && gates == [o.tab]))
    ensures Keeps(o, NOTHING, Program(o)) && Sometime(AtPeak(o), NOTHING, Program(o))
  {
    var w := NOTHING.(rebuild := true, writing := true);
    assert o.Rebind? ==> Elements(gates) == {o.tab};
    assert w.turns + Elements(gates) == Elements(gates);
    GatesBody(NestedIn(o), AtPeak(o), w, gates);
    FollowGates(w, gates);
    ExclusiveBody(NestedIn(o), AtPeak(o), Gates(gates));
  }

  lemma DeleteNests()
    ensures Keeps(Delete, NOTHING, Program(Delete)) && Sometime(AtPeak(Delete), NOTHING, Program(Delete))
  {
    var w := NOTHING.(rebuild := true, writing := true);
    Stays(Delete, After(w, LockRemoval), []);
    GuardedBody(NestedIn(Delete), AtPeak(Delete), w, LockRemoval, [], UnlockRemoval);
    ExclusiveBody(NestedIn(Delete), AtPeak(Delete), Guarded(LockRemoval, [], UnlockRemoval));
  }

  lemma ClearNests(x: Tab)
    ensures var o := Clear(x); Keeps(o, NOTHING, Program(o)) && Sometime(AtPeak(o), NOTHING, Program(o))
  {
    var o := Clear(x);
    var r := After(NOTHING, LockRebuild);
    var g := After(r, LockTurn(x));
    assert After(g, UnlockTurn(x)) == r;
    var body := Guarded(LockRemoval, [], UnlockRemoval);
    Stays(o, After(g, LockRemoval), []);
    GuardedBody(NestedIn(o), AtPeak(o), g, LockRemoval, [], UnlockRemoval);
    GuardedBody(NestedIn(o), AtPeak(o), r, LockTurn(x), body, UnlockTurn(x));
    GuardedBody(NestedIn(o), AtPeak(o), NOTHING, LockRebuild, Guarded(LockTurn(x), body, UnlockTurn(x)), UnlockRebuild);
  }

  // ---- What a program acquires, and how often ----

  /** How often an operation performs an action that is not a release. */
  function Times(o: Operation, op: Op): nat
  {
    var p := Peak(o);
    match op
    case LockRebuild => if p.rebuild then 1 else 0
    case AnnounceWrite => if p.writing then 1 else 0
    case AcquireWrite => if p.writing then 1 else 0
    case LockTurn(x) => if x in p.turns then 1 else 0
    case LockRemoval => if p.removal then 1 else 0
    case ReadLock => Visits(o)
    case StartTurn(x) => if o == Turn(x, true) then 1 else 0
    case _ => 0
  }

  /** How often an operation enters the read side. */
  function Visits(o: Operation): nat
  {
    match o
    case Turn(_, _) => 1
    case Build => 1
    case Switch(_, visits) => visits
    case StartupRetry(visits) => visits
    case _ => 0
  }

  predicate Releases(op: Op)
  {
    op.UnlockRebuild? || op.UnlockWrite? || op.ReadUnlock? || op.UnlockTurn? || op.UnlockRemoval?
  }

  function Count(program: seq<Op>, op: Op): nat
  {
    if program == [] then 0 else (if program[0] == op then 1 else 0) + Count(program[1..], op)
  }

  lemma {:induction false} CountConcat(p: seq<Op>, q: seq<Op>, op: Op)
    ensures Count(p + q, op) == Count(p, op) + Count(q, op)
  {
    if p == [] {
      assert p + q == q;
    } else {
      assert (p + q)[1..] == p[1..] + q;
      CountConcat(p[1..], q, op);
    }
  }

  lemma {:induction false} CountMember(p: seq<Op>, op: Op)
    ensures op in p <==> Count(p, op) > 0
  {
    if p != [] {
      CountMember(p[1..], op);
      assert p == [p[0]] + p[1..];
    }
  }

  lemma CountOne(one: Op, op: Op)
    ensures Count([one], op) == if op == one then 1 else 0
  {
    assert Count([one][1..], op) == 0;
  }

  lemma CountGuarded(acquire: Op, body: seq<Op>, release: Op, op: Op)
    requires Releases(release) && !Releases(op)
    ensures Count(Guarded(acquire, body, release), op) == Count(body, op) + if op == acquire then 1 else 0
  {
    CountOne(acquire, op);
    CountOne(release, op);
    CountConcat([acquire] + body, [release], op);
    CountConcat([acquire], body, op);
  }

  lemma CountExclusively(body: seq<Op>, op: Op)
    requires !Releases(op)
    ensures Count(Exclusively(body), op)
         == Count(body, op) + if op.LockRebuild? || op.AnnounceWrite? || op.AcquireWrite? then 1 else 0
  {
    var inner := Guarded(AcquireWrite, body, UnlockWrite);
    CountGuarded(AcquireWrite, body, UnlockWrite, op);
    CountOne(AnnounceWrite, op);
    CountConcat([AnnounceWrite], inner, op);
    CountGuarded(LockRebuild, [AnnounceWrite] + inner, UnlockRebuild, op);
  }

  lemma {:induction false} CountReads(n: nat, op: Op)
    requires !Releases(op)
    ensures Count(Reads(n), op) == if op == ReadLock then n else 0
  {
    if n > 0 {
      CountReads(n - 1, op);
      CountGuarded(ReadLock, [], ReadUnlock, op);
      CountConcat(Guarded(ReadLock, [], ReadUnlock), Reads(n - 1), op);
    }
  }

  lemma {:induction false} CountGates(tabs: seq<Tab>, op: Op)
    requires !Releases(op) && forall i, j :: 0 <= i < j < |tabs| ==> tabs[i] != tabs[j]
    ensures Count(Gates(tabs), op) == if op.LockTurn? && op.tab in Elements(tabs) then 1 else 0
    decreases |tabs|
  {
    if tabs != [] {
      CountGates(tabs[1..], op);
      CountGuarded(LockTurn(tabs[0]), Gates(tabs[1..]), UnlockTurn(tabs[0]), op);
      assert tabs == [tabs[0]] + tabs[1..];
      assert tabs[0] !in tabs[1..];
    }
  }

  /** Every operation takes each of its locks once, visits the read side as often as it
      says, and starts a turn exactly if it is the start of one. */
  lemma ActsAsOften(o: Operation, op: Op)
    requires Wellformed(o) && !Releases(op)
    ensures Count(Program(o), op) == Times(o, op)
  {
    match o
    case Turn(x, starts) => TurnCounts(x, starts, op);
    case Build => CountGuarded(ReadLock, [], ReadUnlock, op);
    case Switch(x, visits) => SwitchCounts(x, visits, op);
    case StartupRetry(visits) =>
      CountReads(visits, op);
      CountGuarded(LockRebuild, Reads(visits), UnlockRebuild, op);
    case Mutation(gates) =>
      CountGates(gates, op);
      CountExclusively(Gates(gates), op);
    case Rebind(x) =>
      CountGates([x], op);
      CountExclusively(Gates([x]), op);
    case Delete =>
      CountGuarded(LockRemoval, [], UnlockRemoval, op);
      CountExclusively(Guarded(LockRemoval, [], UnlockRemoval), op);
    case Clear(x) => ClearCounts(x, op);
    case Mode(x) => CountGuarded(LockTurn(x), [], UnlockTurn(x), op);
    case Restore => CountGuarded(LockRemoval, [], UnlockRemoval, op);
  }

  lemma TurnCounts(x: Tab, starts: bool, op: Op)
    requires !Releases(op)
    ensures Count(Program(Turn(x, starts)), op) == Times(Turn(x, starts), op)
  {
    var body := if starts then [StartTurn(x)] else [];
    CountOne(StartTurn(x), op);
    CountGuarded(LockTurn(x), body, UnlockTurn(x), op);
    CountGuarded(ReadLock, Guarded(LockTurn(x), body, UnlockTurn(x)), ReadUnlock, op);
  }

  lemma SwitchCounts(x: Tab, visits: nat, op: Op)
    requires !Releases(op)
    ensures Count(Program(Switch(x, visits)), op) == Times(Switch(x, visits), op)
  {
    CountReads(visits, op);
    CountGuarded(LockTurn(x), Reads(visits), UnlockTurn(x), op);
    CountGuarded(LockRebuild, Guarded(LockTurn(x), Reads(visits), UnlockTurn(x)), UnlockRebuild, op);
  }

  lemma ClearCounts(x: Tab, op: Op)
    requires !Releases(op)
    ensures Count(Program(Clear(x)), op) == Times(Clear(x), op)
  {
    var body := Guarded(LockRemoval, [], UnlockRemoval);
    CountGuarded(LockRemoval, [], UnlockRemoval, op);
    CountGuarded(LockTurn(x), body, UnlockTurn(x), op);
    CountGuarded(LockRebuild, Guarded(LockTurn(x), body, UnlockTurn(x)), UnlockRebuild, op);
  }

  // ---- Every reachable state ----

  /** The invariant of the locks, with every thread inside its operation's rules. */
  ghost predicate Ruled(operations: seq<Operation>, s: State)
  {
    && Inv(s) && |operations| == |s.rest|
    && forall t :: 0 <= t < |operations| ==> RuledThread(operations[t], s, t)
  }

  ghost predicate RuledThread(o: Operation, s: State, t: Tid)
    requires t < |s.rest|
  {
    Keeps(o, HeldBy(s.locks, t), s.rest[t])
  }

  lemma StartIsRuled(operations: seq<Operation>, running: set<Tab>)
    requires forall t :: 0 <= t < |operations| ==> Wellformed(operations[t])
    ensures Ruled(operations, Start(Programs(operations), running))
  {
    var s := Start(Programs(operations), running);
    OperationsStartInv(operations, running);
    forall t | 0 <= t < |operations| ensures RuledThread(operations[t], s, t) {
      ProgramsNest(operations[t]);
      assert HeldBy(FREE, t).turns == {};
    }
  }

  /** A step changes what its own thread holds, and leaves it inside the rules. */
  lemma StepOfThread(s: State, e: Event, u: Tid)
    requires Inv(s) && CanHappen(s, e) && u < |s.rest|
    ensures var s' := Next(s, e);
            if e == Act(u)
            then HeldBy(s'.locks, u) == After(HeldBy(s.locks, u), s.rest[u][0]) && s'.rest[u] == s.rest[u][1..]
            else HeldBy(s'.locks, u) == HeldBy(s.locks, u) && s'.rest[u] == s.rest[u]
  {
    if e.Act? {
      assert Follow(HeldBy(s.locks, e.t), s.rest[e.t]) == Some(NOTHING);
      EffectOnHeld(s.locks, e.t, s.rest[e.t][0], u);
    }
  }

  lemma StepKeepsRuled(operations: seq<Operation>, s: State, e: Event)
    requires Ruled(operations, s) && CanHappen(s, e)
    ensures Ruled(operations, Next(s, e))
  {
    StepKeepsInv(s, e);
    forall u | 0 <= u < |operations| ensures RuledThread(operations[u], Next(s, e), u) {
      assert RuledThread(operations[u], s, u);
      StepOfThread(s, e, u);
    }
  }

  lemma {:induction false} RunKeepsRuled(operations: seq<Operation>, s: State, events: seq<Event>)
    requires Ruled(operations, s) && Run(s, events).Some?
    ensures Ruled(operations, Run(s, events).value)
    decreases |events|
  {
    if events != [] {
      StepKeepsRuled(operations, s, events[0]);
      RunKeepsRuled(operations, Next(s, events[0]), events[1..]);
    }
  }

  /** In every state of every schedule each thread holds only its operation's locks, and
      an inner one only together with the outer ones. */
  lemma HeldIsNested(operations: seq<Operation>, running: set<Tab>, events: seq<Event>, t: Tid)
    requires t < |operations| && forall u :: 0 <= u < |operations| ==> Wellformed(operations[u])
    requires Run(Start(Programs(operations), running), events).Some?
    ensures Nested(operations[t], HeldBy(Run(Start(Programs(operations), running), events).value.locks, t))
  {
    StartIsRuled(operations, running);
    RunKeepsRuled(operations, Start(Programs(operations), running), events);
    var s := Run(Start(Programs(operations), running), events).value;
    assert RuledThread(operations[t], s, t);
    assert NestedIn(operations[t])(HeldBy(s.locks, t));
  }

  /** An operation that is over has at some moment held all its locks together. */
  lemma {:induction false} RunComesToPeak(o: Operation, s: State, events: seq<Event>, t: Tid) returns (k: nat)
    requires Inv(s) && t < |s.rest| && Sometime(AtPeak(o), HeldBy(s.locks, t), s.rest[t])
    requires Run(s, events).Some? && Run(s, events).value.rest[t] == []
    ensures k <= |events| && Run(s, events[..k]).Some?
    ensures HeldBy(Run(s, events[..k]).value.locks, t) == Peak(o)
    decreases |events|
  {
    if HeldBy(s.locks, t) == Peak(o) {
      k := 0;
    } else {
      var e := events[0];
      StepKeepsInv(s, e);
      StepOfThread(s, e, t);
      var j := RunComesToPeak(o, Next(s, e), events[1..], t);
      k := j + 1;
      assert events[..k][1..] == events[1..][..j];
    }
  }

  /** Over every schedule: before an operation's thread is finished, there is a moment at
      which it holds all the operation's locks and nothing else. */
  lemma OperationsComeToPeak(operations: seq<Operation>, running: set<Tab>, events: seq<Event>, t: Tid)
    returns (k: nat)
    requires t < |operations| && forall u :: 0 <= u < |operations| ==> Wellformed(operations[u])
    requires var s := Run(Start(Programs(operations), running), events); s.Some? && s.value.rest[t] == []
    ensures k <= |events|
    ensures var s := Run(Start(Programs(operations), running), events[..k]);
            s.Some? && HeldBy(s.value.locks, t) == Peak(operations[t])
  {
    var start := Start(Programs(operations), running);
    OperationsStartInv(operations, running);
    ProgramsNest(operations[t]);
    assert HeldBy(FREE, t) == NOTHING by {
      assert HeldBy(FREE, t).turns == {};
    }
    k := RunComesToPeak(operations[t], start, events, t);
  }

  // ---- What the critical sections keep out ----

  /** A turn can be started on x only by the start of one, which then holds the gate of x
      and the read side. */
  lemma StartsTurn(operations: seq<Operation>, running: set<Tab>, events: seq<Event>, u: Tid, x: Tab)
    requires forall t :: 0 <= t < |operations| ==> Wellformed(operations[t])
    requires var s := Run(Start(Programs(operations), running), events);
             s.Some? && CanAct(s.value, u) && s.value.rest[u][0] == StartTurn(x)
    ensures operations[u] == Turn(x, true)
    ensures var l := Run(Start(Programs(operations), running), events).value.locks;
            HeldBy(l, u) == Peak(Turn(x, true)) && x in l.turns && l.turns[x] == u && u in l.readers
  {
    var start := Start(Programs(operations), running);
    var s := Run(start, events).value;
    HeldIsNested(operations, running, events, u);
    OperationsStartInv(operations, running);
    RunKeepsInv(start, events);
    assert Follow(HeldBy(s.locks, u), s.rest[u]) == Some(NOTHING);
    assert x in HeldBy(s.locks, u).turns;
    RestOnlyShrinks(start, events, u);
    assert StartTurn(x) in s.rest[u];
    CountMember(Program(operations[u]), StartTurn(x));
    ActsAsOften(operations[u], StartTurn(x));
  }

  /** While Clear(x) holds the removal mutex, it holds the gate of x and the rebuild mutex,
      so no turn can be started on x. */
  lemma ClearKeepsTurnsOut(operations: seq<Operation>, running: set<Tab>, events: seq<Event>, t: Tid, x: Tab)
    requires t < |operations| && operations[t] == Clear(x)
    requires forall u :: 0 <= u < |operations| ==> Wellformed(operations[u])
    requires var s := Run(Start(Programs(operations), running), events); s.Some? && s.value.locks.removal == Some(t)
    ensures var s := Run(Start(Programs(operations), running), events).value;
            && s.locks.rebuild == Some(t) && x in s.locks.turns && s.locks.turns[x] == t
            && forall u: nat :: CanAct(s, u) ==> s.rest[u][0] != StartTurn(x)
  {
    var s := Run(Start(Programs(operations), running), events).value;
    HeldIsNested(operations, running, events, t);
    assert HeldBy(s.locks, t).removal && HeldBy(s.locks, t) == Peak(Clear(x));
    assert x in HeldBy(s.locks, t).turns;
    forall u: nat | CanAct(s, u) ensures s.rest[u][0] != StartTurn(x) {
      if s.rest[u][0] == StartTurn(x) {
        StartsTurn(operations, running, events, u, x);
      }
    }
  }

  /** While Delete holds the removal mutex, it holds the write side and the rebuild mutex,
      so no turn can be started at all and nobody enters the read side. */
  lemma DeleteKeepsTurnsOut(operations: seq<Operation>, running: set<Tab>, events: seq<Event>, t: Tid)
    requires t < |operations| && operations[t] == Delete
    requires forall u :: 0 <= u < |operations| ==> Wellformed(operations[u])
    requires var s := Run(Start(Programs(operations), running), events); s.Some? && s.value.locks.removal == Some(t)
    ensures var s := Run(Start(Programs(operations), running), events).value;
            && s.locks.rebuild == Some(t) && s.locks.writer == Some(t)
            && forall u: nat :: CanAct(s, u) ==> !s.rest[u][0].StartTurn? && !s.rest[u][0].ReadLock?
  {
    var start := Start(Programs(operations), running);
    var s := Run(start, events).value;
    HeldIsNested(operations, running, events, t);
    assert HeldBy(s.locks, t).removal && HeldBy(s.locks, t) == Peak(Delete);
    OperationsStartInv(operations, running);
    RunKeepsInv(start, events);
    forall u: nat | CanAct(s, u) ensures !s.rest[u][0].StartTurn? && !s.rest[u][0].ReadLock? {
      assert Follow(HeldBy(s.locks, u), s.rest[u]) == Some(NOTHING);
    }
  }

  /** Whoever holds the gate of a tab for a mutation or a rebind holds the write side, and
      for a switch or a clear the rebuild mutex; a switch reads only behind its gate. */
  lemma GatesLieInside(operations: seq<Operation>, running: set<Tab>, events: seq<Event>, x: Tab)
    requires forall u :: 0 <= u < |operations| ==> Wellformed(operations[u])
    requires var s := Run(Start(Programs(operations), running), events); s.Some? && x in s.value.locks.turns
    ensures var l := Run(Start(Programs(operations), running), events).value.locks;
            var t := l.turns[x];
            && t < |operations| && x in Peak(operations[t]).turns
            && (operations[t].Mutation? || operations[t].Rebind? ==> l.writer == Some(t) && l.rebuild == Some(t))
            && (operations[t].Switch? || operations[t].Clear? ==> l.rebuild == Some(t))
            && (operations[t].Turn? ==> t in l.readers)
  {
    var start := Start(Programs(operations), running);
    var l := Run(start, events).value.locks;
    OperationsStartInv(operations, running);
    RunKeepsInv(start, events);
    HeldIsNested(operations, running, events, l.turns[x]);
    assert x in HeldBy(l, l.turns[x]).turns;
  }

  lemma ReadsLieInside(operations: seq<Operation>, running: set<Tab>, events: seq<Event>, t: Tid)
    requires forall u :: 0 <= u < |operations| ==> Wellformed(operations[u])
    requires var s := Run(Start(Programs(operations), running), events); s.Some? && t in s.value.locks.readers
    ensures var l := Run(Start(Programs(operations), running), events).value.locks;
            && t < |operations| && l.readers[t] == 1
            && (operations[t].Switch? || operations[t].StartupRetry? ==> l.rebuild == Some(t))
            && (operations[t].Switch? ==> operations[t].tab in l.turns && l.turns[operations[t].tab] == t)
  {
    var start := Start(Programs(operations), running);
    var l := Run(start, events).value.locks;
    OperationsStartInv(operations, running);
    RunKeepsInv(start, events);
    HeldIsNested(operations, running, events, t);
    assert operations[t].Switch? ==> operations[t].tab in HeldBy(l, t).turns;
  }

  // ---- Over whole stretches of a run ----

  /** Thread t holds the removal mutex in every state of the run. */
  predicate KeepsRemoval(s: State, events: seq<Event>, t: Tid)
    decreases |events|
  {
    && s.locks.removal == Some(t)
    && (events != [] ==> CanHappen(s, events[0]) && KeepsRemoval(Next(s, events[0]), events[1..], t))
  }

  lemma {:induction false} ClearKeepsGate(operations: seq<Operation>, s: State, events: seq<Event>, t: Tid, x: Tab)
    requires Ruled(operations, s) && t < |operations| && operations[t] == Clear(x) && KeepsRemoval(s, events, t)
    ensures KeepsGate(s, events, t, x)
    decreases |events|
  {
    assert RuledThread(operations[t], s, t);
    assert NestedIn(operations[t])(HeldBy(s.locks, t));
    assert HeldBy(s.locks, t).removal && x in HeldBy(s.locks, t).turns;
    if events != [] {
      StepKeepsRuled(operations, s, events[0]);
      ClearKeepsGate(operations, Next(s, events[0]), events[1..], t, x);
    }
  }

  /** Once its turn has stopped, the tab of a clear stays idle for as long as the clear holds
      the removal mutex, over every schedule. */
  lemma ClearedTabStaysIdle(operations: seq<Operation>, running: set<Tab>, before: seq<Event>, events: seq<Event>,
                            t: Tid, x: Tab)
    requires t < |operations| && operations[t] == Clear(x)
    requires forall u :: 0 <= u < |operations| ==> Wellformed(operations[u])
    requires var s := Run(Start(Programs(operations), running), before);
             s.Some? && KeepsRemoval(s.value, events, t) && x !in s.value.running
    ensures var s := Run(Run(Start(Programs(operations), running), before).value, events);
            s.Some? && x !in s.value.running
  {
    var start := Start(Programs(operations), running);
    var s := Run(start, before).value;
    StartIsRuled(operations, running);
    RunKeepsRuled(operations, start, before);
    ClearKeepsGate(operations, s, events, t, x);
    ActsAsOften(Clear(x), StartTurn(x));
    CountMember(Program(Clear(x)), StartTurn(x));
    RestOnlyShrinks(start, before, t);
    NoTurnStartsBehindGate(s, events, t, x);
  }

  /** The start of a turn does start it: an action that a run has performed was performed at
      some moment of the run. */
  lemma {:induction false} StartedAtSomeMoment(s: State, events: seq<Event>, t: Tid, x: Tab) returns (k: nat)
    requires t < |s.rest| && StartTurn(x) in s.rest[t]
    requires Run(s, events).Some? && Run(s, events).value.rest[t] == []
    ensures k <= |events| && Run(s, events[..k]).Some? && x in Run(s, events[..k]).value.running
    decreases |events|
  {
    var e := events[0];
    assert events[..1][1..] == [] && events[..1][0] == e;
    if e == Act(t) && s.rest[t][0] == StartTurn(x) {
      k := 1;
      assert Run(s, events[..1]) == Run(Next(s, e), []);
    } else {
      assert s.rest[t] == [s.rest[t][0]] + s.rest[t][1..];
      var j := StartedAtSomeMoment(Next(s, e), events[1..], t, x);
      k := j + 1;
      assert events[..k][1..] == events[1..][..j];
    }
  }

  lemma StartsAreTurns(operations: seq<Operation>, running: set<Tab>, events: seq<Event>, t: Tid, x: Tab)
    returns (k: nat)
    requires t < |operations| && operations[t] == Turn(x, true)
    requires var s := Run(Start(Programs(operations), running), events); s.Some? && s.value.rest[t] == []
    ensures k <= |events|
    ensures var s := Run(Start(Programs(operations), running), events[..k]); s.Some? && x in s.value.running
  {
    ActsAsOften(Turn(x, true), StartTurn(x));
    CountMember(Program(Turn(x, true)), StartTurn(x));
    k := StartedAtSomeMoment(Start(Programs(operations), running), events, t, x);
  }
}
