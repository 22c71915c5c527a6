/** Chat subscriptions and their copy in the user config (desktop/bot_bridge.go). */
module WatchPersistence {
  // Snapshots are numbered under one lock and written under another, so writes may be
  // reordered, dropped or fail, and a runtime refresh may seed the memory from a config it
  // read earlier.

  import opened Wrappers
  import opened Strings

  type Tid = nat

  datatype Route = Route(key: string, chat: string)

  type Routes = map<string, Route>

  // ---- The hub's critical sections ----

  /** The fields guarded by the hub's two mutexes. */
  datatype Hub = Hub(watchers: Routes, watchSeq: nat, dirty: bool, lastPersistSeq: nat)

  function Watched(watchers: Routes, route: Route, enable: bool): Routes
  {
    if enable then watchers[route.key := route] else watchers - {route.key}
  }

  /** One route is switched on or off, and every other stays as it is. */
  ghost predicate Switches(before: Routes, after: Routes, route: Route, enable: bool)
  {
    && (forall k :: k != route.key ==> (k in after <==> k in before) && (k in after ==> after[k] == before[k]))
    && (route.key in after <==> enable) && (enable ==> after[route.key] == route)
  }

  function BeginWatch(h: Hub, route: Route, enable: bool): Hub
  {
    Hub(Watched(h.watchers, route, enable), h.watchSeq + 1, true, h.lastPersistSeq)
  }

  function Settle(h: Hub, number: nat): Hub
  {
    if h.watchSeq == number then h.(dirty := false) else h
  }

  function Addressed(routes: Routes): Routes
  {
    map k | k in routes && !Blank(routes[k].chat) :: routes[k]
  }

  predicate SeedApplies(h: Hub, expected: nat)
  {
    h.watchSeq == expected && !h.dirty
  }

  function Seed(h: Hub, routes: Routes, expected: nat): Hub
  {
    if SeedApplies(h, expected) then h.(watchers := Addressed(routes)) else h
  }

  class BotBridgeHub {
    var watchers: Routes
    var watchSeq: nat
    var watchPersistDirty: bool
    var lastPersistSeq: nat
    /** bot.desktop_watchers in the user config. */
    var config: Routes

    function State(): Hub
      reads this
    {
      Hub(watchers, watchSeq, watchPersistDirty, lastPersistSeq)
    }

    /** The part of SetWatch under mu. */
    method Begin(route: Route, enable: bool) returns (number: nat, routes: Routes)
      modifies this`watchers, this`watchSeq, this`watchPersistDirty
      ensures State() == BeginWatch(old(State()), route, enable)
      ensures number == watchSeq && routes == watchers
      ensures Switches(old(watchers), watchers, route, enable)
    {
      if enable {
        watchers := watchers[route.key := route];
      } else {
        watchers := watchers - {route.key};
      }
      watchSeq := watchSeq + 1;
      watchPersistDirty := true;
      number, routes := watchSeq, watchers;
    }

    /** The part of SetWatch under persistMu, when nobody else interferes. */
    method Persist(number: nat, routes: Routes, writeFails: bool) returns (ok: bool)
      modifies this`watchPersistDirty, this`lastPersistSeq, this`config
      ensures ok <==> number <= old(lastPersistSeq) || !writeFails
      ensures lastPersistSeq == if number > old(lastPersistSeq) && !writeFails then number else old(lastPersistSeq)
      ensures config == if number > old(lastPersistSeq) && !writeFails then routes else old(config)
      ensures State() == (if number > old(lastPersistSeq) && !writeFails
                          then Settle(old(State()).(lastPersistSeq := number), number) else old(State()))
    {
      if number <= lastPersistSeq {
        return true;
      }
      if writeFails {
        return false;
      }
      config := routes;
      lastPersistSeq := number;
      if watchSeq == number {
        watchPersistDirty := false;
      }
      ok := true;
    }

    /** A SetWatch that runs alone leaves memory and config equal, or reports failure
        and leaves the flag dirty. */
    method SetWatch(route: Route, enable: bool, writeFails: bool) returns (ok: bool)
      requires lastPersistSeq <= watchSeq
      modifies this
      ensures watchers == Watched(old(watchers), route, enable) && lastPersistSeq <= watchSeq
      ensures forall k :: k != route.key ==>
                (k in watchers <==> k in old(watchers)) && (k in watchers ==> watchers[k] == old(watchers)[k])
      ensures route.key in watchers <==> enable
      ensures enable ==> watchers[route.key] == route
      ensures ok <==> !writeFails
      ensures ok ==> config == watchers && !watchPersistDirty && lastPersistSeq == watchSeq
      ensures !ok ==> config == old(config) && watchPersistDirty
    {
      var number, routes := Begin(route, enable);
      ok := Persist(number, routes, writeFails);
    }

    method SeedWatchers(routes: Routes, expected: nat)
      modifies this`watchers
      ensures State() == Seed(old(State()), routes, expected)
      ensures old(watchSeq) != expected || old(watchPersistDirty) ==> watchers == old(watchers)
      ensures old(watchSeq) == expected && !old(watchPersistDirty) ==>
                forall k :: (k in watchers <==> k in routes && TrimSpace(routes[k].chat) != "")
                            && (k in watchers ==> watchers[k] == routes[k])
    {
      if watchSeq != expected || watchPersistDirty {
        return;
      }
      var keys, kept := routes.Keys, map[];
      while keys != {}
        invariant keys <= routes.Keys
        invariant kept == map k | k in routes && k !in keys && !Blank(routes[k].chat) :: routes[k]
      {
        var k :| k in keys;
        if !Blank(routes[k].chat) {
          kept := kept[k := routes[k]];
        }
        keys := keys - {k};
      }
      watchers := kept;
    }
  }

  // ---- Interleavings ----

  /** Where an operation in flight stands.  A refresh remembers whether the flag was
      clean when it read the version, and which snapshot its config load returned. */
  datatype Op =
    | Waiting(number: nat, routes: Routes)
    | Holding(number: nat, routes: Routes)
    | Wrote(number: nat)
    | Recorded(number: nat)
    | Versioned(version: nat, clean: bool)
    | Loaded(version: nat, clean: bool, routes: Routes, tag: nat)

  /** What the memory was last set by. */
  datatype Origin = Unset | Local | Seeded(tag: nat)

  /** `snaps[n]` is the snapshot numbered n, with the initial config as number 0;
      `tag` numbers the stored one; `failed` are the snapshots whose write failed or
      had no config to go to. */
  datatype State = State(
    hub: Hub, stored: Routes, tag: nat, ops: map<Tid, Op>, holder: Option<Tid>,
    snaps: seq<Routes>, failed: set<nat>, origin: Origin)

  datatype Event =
    | Watch(t: Tid, route: Route, enable: bool, persists: bool)
    | Enter(t: Tid)
    | Write(t: Tid, ok: bool)
    | Record(t: Tid)
    | Leave(t: Tid)
    | ReadVersion(t: Tid)
    | Load(t: Tid, ok: bool)
    | Reseed(t: Tid)

  function Initial(config: Routes): State
  {
    State(Hub(map[], 0, false, 0), config, 0, map[], None, [config], {}, Unset)
  }

  predicate CanHappen(s: State, e: Event)
  {
    match e
    case Watch(t, _, _, _) => t !in s.ops
    case ReadVersion(t) => t !in s.ops
    case Enter(t) => t in s.ops && s.ops[t].Waiting? && s.holder.None?
    case Write(t, _) => t in s.ops && s.ops[t].Holding?
    case Record(t) => t in s.ops && s.ops[t].Wrote?
    case Leave(t) => t in s.ops && s.ops[t].Recorded?
    case Load(t, _) => t in s.ops && s.ops[t].Versioned?
    case Reseed(t) => t in s.ops && s.ops[t].Loaded? && s.holder.None?
  }

  function Next(s: State, e: Event): State
    requires CanHappen(s, e)
  {
    match e
    case Watch(t, route, enable, persists) =>
      var h := BeginWatch(s.hub, route, enable);
      s.(hub := h, snaps := s.snaps + [h.watchers], origin := Local,
         ops := if persists then s.ops[t := Waiting(h.watchSeq, h.watchers)] else s.ops,
         failed := if persists then s.failed else s.failed + {h.watchSeq})
    case Enter(t) =>
      s.(ops := s.ops[t := Holding(s.ops[t].number, s.ops[t].routes)], holder := Some(t))
    case Write(t, ok) =>
      var op := s.ops[t];
      if op.number <= s.hub.lastPersistSeq then
        s.(ops := s.ops - {t}, holder := None)
      else if ok then
        s.(stored := op.routes, tag := op.number, ops := s.ops[t := Wrote(op.number)])
      else
        s.(ops := s.ops - {t}, holder := None, failed := s.failed + {op.number})
    case Record(t) =>
      s.(hub := s.hub.(lastPersistSeq := s.ops[t].number), ops := s.ops[t := Recorded(s.ops[t].number)])
    case Leave(t) =>
      s.(hub := Settle(s.hub, s.ops[t].number), ops := s.ops - {t}, holder := None)
    case ReadVersion(t) =>
      s.(ops := s.ops[t := Versioned(s.hub.watchSeq, !s.hub.dirty)])
    case Load(t, ok) =>
      var op := s.ops[t];
      s.(ops := if ok then s.ops[t := Loaded(op.version, op.clean, s.stored, s.tag)] else s.ops - {t})
    case Reseed(t) =>
      var op := s.ops[t];
      s.(hub := Seed(s.hub, op.routes, op.version), ops := s.ops - {t},
         origin := if SeedApplies(s.hub, op.version) then Seeded(op.tag) else s.origin)
  }

  function Run(s: State, events: seq<Event>): Option<State>
    decreases |events|
  {
    if events == [] then Some(s)
    else if CanHappen(s, events[0]) then Run(Next(s, events[0]), events[1..])
    else None
  }

  // ---- What the memory holds ----

  /** The step of a watch command switches its own route and leaves every other. */
  lemma WatchSwitchesOne(s: State, t: Tid, route: Route, enable: bool, persists: bool)
    requires CanHappen(s, Watch(t, route, enable, persists))
    ensures var s' := Next(s, Watch(t, route, enable, persists));
            && Switches(s.hub.watchers, s'.hub.watchers, route, enable)
            && s'.hub.watchSeq == s.hub.watchSeq + 1 && s'.hub.dirty
            && s'.snaps == s.snaps + [s'.hub.watchers] && s'.stored == s.stored
  {
  }

  /** The last watch command on a key. */
  function LastWatch(events: seq<Event>, key: string): (r: Option<Event>)
    ensures r.Some? ==> r.value.Watch? && r.value.route.key == key && r.value in events
    ensures r.None? ==> forall i :: 0 <= i < |events| && events[i].Watch? ==> events[i].route.key != key
  {
    if events == [] then None
    else
      var e := events[|events| - 1];
      if e.Watch? && e.route.key == key then Some(e) else LastWatch(events[..|events| - 1], key)
  }

  lemma {:induction false} RunSnoc(s: State, events: seq<Event>)
    requires events != [] && Run(s, events).Some?
    ensures var front := Run(s, events[..|events| - 1]);
            front.Some? && CanHappen(front.value, events[|events| - 1])
            && Run(s, events) == Some(Next(front.value, events[|events| - 1]))
    decreases |events|
  {
    if |events| > 1 {
      RunSnoc(Next(s, events[0]), events[1..]);
      assert events[1..][..|events| - 2] == events[..|events| - 1][1..];
    }
  }

  /** Over every run without a reseed: a key is watched in memory if and only if its last
      command switched it on, with that command's route. */
  lemma {:induction false} LastWatchCounts(config: Routes, events: seq<Event>, key: string)
    requires Run(Initial(config), events).Some? && forall k :: 0 <= k < |events| ==> !events[k].Reseed?
    ensures var watchers, last := Run(Initial(config), events).value.hub.watchers, LastWatch(events, key);
            && (key in watchers <==> last.Some? && last.value.enable)
            && (key in watchers ==> watchers[key] == last.value.route)
    decreases |events|
  {
    if events != [] {
      RunSnoc(Initial(config), events);
      LastWatchCounts(config, events[..|events| - 1], key);
    }
  }

  // ---- The invariant ----

  predicate Persisting(op: Op)
  {
    op.Waiting? || op.Holding? || op.Wrote? || op.Recorded?
  }

  predicate OpFits(s: State, t: Tid)
    requires t in s.ops
  {
    var h, op := s.hub, s.ops[t];
    match op
    case Waiting(n, routes) => 0 < n <= h.watchSeq && n != h.lastPersistSeq && n < |s.snaps| && routes == s.snaps[n]
    case Holding(n, routes) => 0 < n <= h.watchSeq && n != h.lastPersistSeq && n < |s.snaps| && routes == s.snaps[n]
      && s.holder == Some(t)
    case Wrote(n) => h.lastPersistSeq < n <= h.watchSeq && s.tag == n && s.holder == Some(t)
    case Recorded(n) => 0 < n == h.lastPersistSeq && s.holder == Some(t)
    case Versioned(v, clean) => v <= h.watchSeq && (clean && v == h.watchSeq ==> !h.dirty)
    case Loaded(v, clean, routes, tag) =>
      && v <= h.watchSeq && tag <= h.watchSeq && tag < |s.snaps| && routes == s.snaps[tag]
      && (clean && v == h.watchSeq ==> !h.dirty && tag == v)
  }

  /** Some operation in flight may still persist snapshot n. */
  ghost predicate InFlight(s: State, n: nat)
  {
    exists t :: t in s.ops && Persisting(s.ops[t]) && s.ops[t].number == n
  }

  /** The stored config is the snapshot numbered lastPersistSeq, except between a
      write and its record; the flag is clean only when nothing newer exists. */
  predicate StoredFits(s: State)
  {
    var h := s.hub;
    && |s.snaps| == h.watchSeq + 1
    && h.lastPersistSeq <= h.watchSeq
    && s.tag <= h.watchSeq && s.stored == s.snaps[s.tag]
    && (s.holder.Some? ==> s.holder.value in s.ops)
    && (s.holder.Some? ==> Persisting(s.ops[s.holder.value]) && !s.ops[s.holder.value].Waiting?)
    && (s.tag != h.lastPersistSeq ==> s.holder.Some? && s.ops[s.holder.value].Wrote?)
    && (!h.dirty ==> h.lastPersistSeq == h.watchSeq)
  }

  predicate OpsFit(s: State)
  {
    forall t :: t in s.ops ==> OpFits(s, t)
  }

  predicate NumbersDiffer(s: State)
  {
    forall t, u :: t in s.ops && u in s.ops && t != u && Persisting(s.ops[t]) && Persisting(s.ops[u]) ==>
      s.ops[t].number != s.ops[u].number
  }

  /** The newest snapshot is unsettled exactly while it is in flight or has failed. */
  ghost predicate FlagFits(s: State)
  {
    var n := s.hub.watchSeq;
    && (s.hub.dirty ==> n > 0 && (n in s.failed || InFlight(s, n)))
    && (n in s.failed ==> s.hub.dirty && !InFlight(s, n))
    && (forall k :: k in s.failed ==> k <= n)
  }

  predicate MemoryFits(s: State)
  {
    var h := s.hub;
    && |s.snaps| == h.watchSeq + 1
    && match s.origin
       case Unset => h.watchSeq == 0 && h.watchers == map[]
       case Local => h.watchers == s.snaps[h.watchSeq]
       case Seeded(tag) => tag <= h.watchSeq && h.watchers == Addressed(s.snaps[tag])
  }

  ghost predicate Inv(s: State)
  {
    StoredFits(s) && OpsFit(s) && NumbersDiffer(s) && FlagFits(s) && MemoryFits(s)
  }

  lemma StepKeepsStored(s: State, e: Event)
    requires StoredFits(s) && OpsFit(s) && CanHappen(s, e)
    ensures StoredFits(Next(s, e))
    ensures s.hub.lastPersistSeq <= Next(s, e).hub.lastPersistSeq
  {
  }

  lemma StepKeepsOwnOp(s: State, e: Event)
    requires StoredFits(s) && OpsFit(s) && CanHappen(s, e)
    requires e.t in Next(s, e).ops
    ensures OpFits(Next(s, e), e.t)
  {
    assert e.t in s.ops ==> OpFits(s, e.t);
  }

  lemma StepKeepsOtherOp(s: State, e: Event, t: Tid)
    requires StoredFits(s) && OpsFit(s) && NumbersDiffer(s) && CanHappen(s, e)
    requires t in Next(s, e).ops && t != e.t
    ensures OpFits(Next(s, e), t)
  {
    assert OpFits(s, t);
    assert e.t in s.ops ==> OpFits(s, e.t);
  }

  lemma StepKeepsNumbers(s: State, e: Event)
    requires StoredFits(s) && OpsFit(s) && NumbersDiffer(s) && CanHappen(s, e)
    ensures NumbersDiffer(Next(s, e))
  {
    if e.Watch? {
      assert forall t :: t in s.ops && Persisting(s.ops[t]) ==> OpFits(s, t) && s.ops[t].number <= s.hub.watchSeq;
    }
  }

  lemma WatchKeepsFlag(s: State, e: Event)
    requires StoredFits(s) && OpsFit(s) && FlagFits(s) && CanHappen(s, e) && e.Watch?
    ensures FlagFits(Next(s, e))
  {
    var s', m := Next(s, e), s.hub.watchSeq + 1;
    assert forall t :: t in s.ops && Persisting(s.ops[t]) ==> OpFits(s, t) && s.ops[t].number < m;
    if e.persists {
      assert s'.ops[e.t].number == m;
    }
  }

  lemma StepKeepsFlag(s: State, e: Event)
    requires StoredFits(s) && OpsFit(s) && NumbersDiffer(s) && FlagFits(s) && CanHappen(s, e)
    ensures FlagFits(Next(s, e))
  {
    if e.Watch? {
      WatchKeepsFlag(s, e);
    } else {
      var s', n := Next(s, e), s.hub.watchSeq;
      assert e.t in s.ops ==> OpFits(s, e.t);
      if s.hub.dirty && n !in s.failed {
        var t :| t in s.ops && Persisting(s.ops[t]) && s.ops[t].number == n;
        assert OpFits(s, t);
        if t in s'.ops {
          assert Persisting(s'.ops[t]) && s'.ops[t].number == n;
        }
      }
    }
  }

  lemma StepKeepsMemory(s: State, e: Event)
    requires OpsFit(s) && MemoryFits(s) && CanHappen(s, e)
    ensures MemoryFits(Next(s, e))
  {
  }

  lemma StepKeepsInv(s: State, e: Event)
    requires Inv(s) && CanHappen(s, e)
    ensures Inv(Next(s, e))
    ensures s.hub.lastPersistSeq <= Next(s, e).hub.lastPersistSeq
  {
    StepKeepsStored(s, e);
    forall t | t in Next(s, e).ops ensures OpFits(Next(s, e), t) {
      if t == e.t {
        StepKeepsOwnOp(s, e);
      } else {
        StepKeepsOtherOp(s, e, t);
      }
    }
    StepKeepsNumbers(s, e);
    StepKeepsFlag(s, e);
    StepKeepsMemory(s, e);
  }

  lemma {:induction false} RunKeepsInv(s: State, events: seq<Event>)
    requires Inv(s) && Run(s, events).Some?
    ensures Inv(Run(s, events).value)
    ensures s.hub.lastPersistSeq <= Run(s, events).value.hub.lastPersistSeq
    decreases |events|
  {
    if events != [] {
      StepKeepsInv(s, events[0]);
      RunKeepsInv(Next(s, events[0]), events[1..]);
    }
  }

  // ---- What every reachable state promises ----

  /** At every moment of every run, whatever writes fail or overtake each other: the
      stored config is the snapshot numbered lastPersistSeq (or, between a write and
      its record, the one just written), and a clean flag means it is the newest. */
  lemma StoredSnapshot(config: Routes, events: seq<Event>)
    requires Run(Initial(config), events).Some?
    ensures var s := Run(Initial(config), events).value;
      && |s.snaps| == s.hub.watchSeq + 1 && s.hub.lastPersistSeq <= s.hub.watchSeq
      && (s.stored == s.snaps[s.hub.lastPersistSeq]
          || exists t :: (t in s.ops && s.ops[t].Wrote? && s.ops[t].number <= s.hub.watchSeq
                          && s.stored == s.snaps[s.ops[t].number]))
      && (!s.hub.dirty ==> s.stored == s.snaps[s.hub.watchSeq])
      && (!s.hub.dirty && s.origin.Local? ==> s.hub.watchers == s.stored)
  {
    var s := Run(Initial(config), events).value;
    RunKeepsInv(Initial(config), events);
    if s.holder.Some? {
      assert OpFits(s, s.holder.value);
    }
  }

  /** When nothing is in flight any more, the flag is dirty exactly if the newest
      change was never written; otherwise config and newest snapshot agree. */
  lemma Quiescent(config: Routes, events: seq<Event>)
    requires Run(Initial(config), events).Some?
    ensures var s := Run(Initial(config), events).value;
      s.ops == map[] ==>
        && |s.snaps| == s.hub.watchSeq + 1
        && (s.hub.dirty <==> s.hub.watchSeq in s.failed)
        && (!s.hub.dirty ==> s.stored == s.snaps[s.hub.watchSeq])
  {
    RunKeepsInv(Initial(config), events);
  }

  // ---- Exactly when a refresh is safe ----

  /** The newest snapshot still waits to be written. */
  ghost predicate Unwritten(s: State)
  {
    exists u :: u in s.ops && (s.ops[u].Waiting? || s.ops[u].Holding?) && s.ops[u].number == s.hub.watchSeq
  }

  /** The run leaves t's refresh in flight: t takes no step but a successful load. */
  predicate Keeps(events: seq<Event>, t: Tid)
  {
    forall k :: 0 <= k < |events| && events[k].t == t ==> events[k] == Load(t, true)
  }

  /** A reseed of t could take effect here, with a config that is not the newest. */
  predicate StaleReseed(s: State, t: Tid)
  {
    CanHappen(s, Reseed(t)) && SeedApplies(s.hub, s.ops[t].version) && s.ops[t].tag != s.hub.watchSeq
  }

  predicate Refreshing(op: Op)
  {
    op.Versioned? || op.Loaded?
  }

  /** While nothing newer than v exists, the config holds snapshot v, and so does what t
      has loaded; or the write of v failed, and no reseed applies any more. */
  ghost predicate FreshAt(s: State, t: Tid, v: nat)
  {
    && t in s.ops && Refreshing(s.ops[t]) && s.ops[t].version == v <= s.hub.watchSeq
    && (s.hub.watchSeq == v ==> v in s.failed || (s.tag == v && (s.ops[t].Loaded? ==> s.ops[t].tag == v)))
  }

  lemma ReadIsFreshAt(s: State, t: Tid)
    requires Inv(s) && t !in s.ops && !Unwritten(s)
    ensures FreshAt(Next(s, ReadVersion(t)), t, s.hub.watchSeq)
  {
    if s.hub.dirty && s.hub.watchSeq !in s.failed {
      var u :| u in s.ops && Persisting(s.ops[u]) && s.ops[u].number == s.hub.watchSeq;
      assert OpFits(s, u);
    }
  }

  lemma StepKeepsFreshAt(s: State, e: Event, t: Tid, v: nat)
    requires Inv(s) && CanHappen(s, e) && FreshAt(s, t, v) && (e.t == t ==> e == Load(t, true))
    ensures FreshAt(Next(s, e), t, v)
  {
    assert e.t in s.ops ==> OpFits(s, e.t);
  }

  lemma {:induction false} RunKeepsFreshAt(s: State, events: seq<Event>, t: Tid, v: nat)
    requires Inv(s) && Run(s, events).Some? && FreshAt(s, t, v) && Keeps(events, t)
    ensures Inv(Run(s, events).value) && FreshAt(Run(s, events).value, t, v)
    decreases |events|
  {
    if events != [] {
      assert events[0].t == t ==> events[0] == Load(t, true);
      StepKeepsInv(s, events[0]);
      StepKeepsFreshAt(s, events[0], t, v);
      assert forall k :: 0 <= k < |events[1..]| ==> events[1..][k] == events[k + 1];
      RunKeepsFreshAt(Next(s, events[0]), events[1..], t, v);
    }
  }

  lemma FreshMeansNotStale(s: State, t: Tid, v: nat)
    requires Inv(s) && FreshAt(s, t, v)
    ensures !StaleReseed(s, t)
  {
  }

  lemma {:induction false} RunConcat(s: State, a: seq<Event>, b: seq<Event>)
    requires Run(s, a).Some?
    ensures Run(s, a + b) == Run(Run(s, a).value, b)
    decreases |a|
  {
    if a == [] {
      assert a + b == b;
    } else {
      assert (a + b)[1..] == a[1..] + b;
      RunConcat(Next(s, a[0]), a[1..], b);
    }
  }

  lemma KeepsConcat(a: seq<Event>, b: seq<Event>, t: Tid)
    requires Keeps(a, t) && Keeps(b, t)
    ensures Keeps(a + b, t)
  {
  }

  /** The next step of a schedule, kept apart from t. */
  lemma Extend(s: State, events: seq<Event>, s1: State, e: Event, t: Tid) returns (longer: seq<Event>, s2: State)
    requires Inv(s) && Run(s, events) == Some(s1) && Keeps(events, t) && CanHappen(s1, e)
             && (e.t == t ==> e == Load(t, true))
    ensures longer == events + [e] && s2 == Next(s1, e) && Run(s, longer) == Some(s2) && Keeps(longer, t) && Inv(s2)
  {
    longer, s2 := events + [e], Next(s1, e);
    RunConcat(s, events, [e]);
    RunCons(s1, e, []);
    assert [e] + [] == [e];
    RunKeepsInv(s, events);
    StepKeepsInv(s1, e);
  }

  /** Whoever holds the write lock can leave it without touching the newest snapshot. */
  lemma LetHolderGo(s: State, t: Tid, u: Tid) returns (events: seq<Event>, s': State)
    requires Inv(s) && t in s.ops && s.ops[t].Versioned?
    requires u in s.ops && s.ops[u].Waiting? && s.ops[u].number == s.hub.watchSeq
    ensures Run(s, events) == Some(s') && Keeps(events, t) && Inv(s') && s'.holder.None?
    ensures t in s'.ops && s'.ops[t] == s.ops[t] && u in s'.ops && s'.ops[u] == s.ops[u]
    ensures s'.hub.watchSeq == s.hub.watchSeq
  {
    events, s' := [], s;
    if s.holder.Some? {
      var h := s.holder.value;
      assert OpFits(s, h);
      match s.ops[h]
      case Holding(_, _) =>
        events, s' := Extend(s, events, s', Write(h, false), t);
      case Wrote(_) =>
        events, s' := Extend(s, events, s', Record(h), t);
        events, s' := Extend(s, events, s', Leave(h), t);
      case Recorded(_) =>
        events, s' := Extend(s, events, s', Leave(h), t);
    }
  }

  /** A load before the newest snapshot is written, and a reseed after, is stale. */
  lemma LoadThenWrite(s: State, t: Tid, u: Tid) returns (events: seq<Event>, s': State)
    requires Inv(s) && t in s.ops && s.ops[t].Versioned? && s.ops[t].version == s.hub.watchSeq
    requires u in s.ops && s.ops[u].Holding? && s.ops[u].number == s.hub.watchSeq
    ensures Run(s, events) == Some(s') && Keeps(events, t) && StaleReseed(s', t)
  {
    assert OpFits(s, u);
    events, s' := Extend(s, [], s, Load(t, true), t);
    events, s' := Extend(s, events, s', Write(u, true), t);
    events, s' := Extend(s, events, s', Record(u), t);
    events, s' := Extend(s, events, s', Leave(u), t);
  }

  /** If the newest snapshot is unwritten when the version is read, some schedule ends in
      a stale reseed. */
  lemma UnwrittenCanBeStale(s: State, t: Tid) returns (events: seq<Event>, s': State)
    requires Inv(s) && t !in s.ops && Unwritten(s)
    ensures Run(Next(s, ReadVersion(t)), events) == Some(s') && Keeps(events, t) && StaleReseed(s', t)
  {
    var s1 := Next(s, ReadVersion(t));
    StepKeepsInv(s, ReadVersion(t));
    var u :| u in s.ops && (s.ops[u].Waiting? || s.ops[u].Holding?) && s.ops[u].number == s.hub.watchSeq;
    assert u != t && s1.ops[u] == s.ops[u];
    if s1.ops[u].Holding? {
      events, s' := LoadThenWrite(s1, t, u);
    } else {
      var freed, s2 := LetHolderGo(s1, t, u);
      var entered, s3 := Extend(s1, freed, s2, Enter(u), t);
      var rest, s4 := LoadThenWrite(s3, t, u);
      RunConcat(s1, entered, rest);
      KeepsConcat(entered, rest, t);
      events, s' := entered + rest, s4;
    }
  }

  /** Exactly when a refresh is safe: whatever happens after its version was read, a
      reseed that takes effect installs the newest snapshot, if and only if at that moment
      the newest snapshot is not waiting to be written. */
  lemma RefreshIsSafe(config: Routes, events: seq<Event>, t: Tid)
    requires Run(Initial(config), events).Some? && t !in Run(Initial(config), events).value.ops
    ensures var s := Run(Initial(config), events).value;
      (forall later: seq<Event> {:trigger Keeps(later, t)} ::
         Keeps(later, t) && Run(Next(s, ReadVersion(t)), later).Some? ==>
           !StaleReseed(Run(Next(s, ReadVersion(t)), later).value, t))
      <==> !Unwritten(s)
  {
    var s := Run(Initial(config), events).value;
    RunKeepsInv(Initial(config), events);
    var s1 := Next(s, ReadVersion(t));
    if Unwritten(s) {
      var later, s' := UnwrittenCanBeStale(s, t);
      assert Keeps(later, t) && Run(s1, later).Some?;
    } else {
      ReadIsFreshAt(s, t);
      StepKeepsInv(s, ReadVersion(t));
      forall later: seq<Event> | Keeps(later, t) && Run(s1, later).Some?
        ensures !StaleReseed(Run(s1, later).value, t)
      {
        RunKeepsFreshAt(s1, later, t, s.hub.watchSeq);
        FreshMeansNotStale(Run(s1, later).value, t, s.hub.watchSeq);
      }
    }
  }

  /** A version read while the flag is clean is one such moment. */
  lemma CleanIsWritten(s: State)
    requires Inv(s) && !s.hub.dirty
    ensures !Unwritten(s)
  {
    assert forall u :: u in s.ops ==> OpFits(s, u);
  }

  /** What a reseed that takes effect and is not stale installs. */
  lemma FreshReseedInstallsNewest(s: State, t: Tid)
    requires Inv(s) && CanHappen(s, Reseed(t)) && SeedApplies(s.hub, s.ops[t].version) && !StaleReseed(s, t)
    ensures |s.snaps| == s.hub.watchSeq + 1 && s.ops[t].routes == s.stored == s.snaps[s.hub.watchSeq]
    ensures Next(s, Reseed(t)).hub.watchers == Addressed(s.stored)
  {
    assert OpFits(s, t);
  }

  /** A reseed whose version was read while the flag was clean, and that takes effect,
      installs exactly the newest snapshot, which is what the config still holds. */
  lemma CleanReseedIsFresh(config: Routes, events: seq<Event>, t: Tid)
    requires Run(Initial(config), events).Some?
    requires var s := Run(Initial(config), events).value;
      CanHappen(s, Reseed(t)) && s.ops[t].clean && SeedApplies(s.hub, s.ops[t].version)
    ensures var s := Run(Initial(config), events).value;
      var s' := Next(s, Reseed(t));
      && |s.snaps| == s.hub.watchSeq + 1
      && s.ops[t].routes == s.stored == s.snaps[s.hub.watchSeq]
      && s'.hub.watchers == Addressed(s'.stored)
  {
    var s := Run(Initial(config), events).value;
    RunKeepsInv(Initial(config), events);
    assert OpFits(s, t);
    FreshReseedInstallsNewest(s, t);
  }

  /** Without a clean read the same reseed can lose a subscription: the version is read
      while a write is pending, the load returns the config from before it, and the
      flag is clean again when the stale routes are applied. */
  lemma DirtyReseedCanBeStale() returns (events: seq<Event>, s: State)
    ensures Run(Initial(map[]), events) == Some(s)
    ensures s.ops == map[] && !s.hub.dirty
    ensures s.stored != map[] && s.hub.watchers == map[]
  {
    var route := Route("k", "chat");
    var m: Routes := map["k" := route];
    var snaps: seq<Routes> := [map[], m];
    var write := [Enter(0), Write(0, true), Record(0), Leave(0), Reseed(1)];
    var s3 := State(Hub(m, 1, true, 0), map[], 0, map[0 := Waiting(1, m), 1 := Loaded(1, false, map[], 0)],
                    None, snaps, {}, Local);
    var s7 := State(Hub(m, 1, false, 1), m, 1, map[1 := Loaded(1, false, map[], 0)], None, snaps, {}, Local);
    events := [Watch(0, route, true, true)] + ([ReadVersion(1)] + ([Load(1, true)] + write));
    StaleRead(route, s3, write);
    StaleWrite(route, s3, s7);
    s := State(Hub(map[], 1, false, 1), m, 1, map[], None, snaps, {}, Seeded(0));
    assert Next(s7, Reseed(1)) == s by {
      assert Addressed(map[]) == map[];
      assert s7.ops - {1} == map[];
    }
    RunCons(s7, Reseed(1), []);
    assert [Reseed(1)] + [] == [Reseed(1)];
    assert "k" in s.stored;
  }

  lemma StaleRead(route: Route, s3: State, rest: seq<Event>)
    requires var m: Routes := map[route.key := route];
      s3 == State(Hub(m, 1, true, 0), map[], 0, map[0 := Waiting(1, m), 1 := Loaded(1, false, map[], 0)],
                  None, [map[], m], {}, Local)
    ensures Run(Initial(map[]), [Watch(0, route, true, true)] + ([ReadVersion(1)] + ([Load(1, true)] + rest)))
         == Run(s3, rest)
  {
    var m: Routes := map[route.key := route];
    var s1 := s3.(ops := map[0 := Waiting(1, m)]);
    var s2 := s3.(ops := map[0 := Waiting(1, m), 1 := Versioned(1, false)]);
    assert Next(Initial(map[]), Watch(0, route, true, true)) == s1;
    assert Next(s1, ReadVersion(1)) == s2;
    assert Next(s2, Load(1, true)) == s3;
    RunCons(s2, Load(1, true), rest);
    RunCons(s1, ReadVersion(1), [Load(1, true)] + rest);
    RunCons(Initial(map[]), Watch(0, route, true, true), [ReadVersion(1)] + ([Load(1, true)] + rest));
  }

  lemma StaleWrite(route: Route, s3: State, s7: State)
    requires var m: Routes := map[route.key := route]; var snaps: seq<Routes> := [map[], m];
      && s3 == State(Hub(m, 1, true, 0), map[], 0, map[0 := Waiting(1, m), 1 := Loaded(1, false, map[], 0)], None,
         snaps, {}, Local)
      && s7 == State(Hub(m, 1, false, 1), m, 1, map[1 := Loaded(1, false, map[], 0)], None, snaps, {}, Local)
    ensures Run(s3, [Enter(0), Write(0, true), Record(0), Leave(0), Reseed(1)]) == Run(s7, [Reseed(1)])
  {
    var m: Routes := map[route.key := route];
    var s4 := s3.(ops := s3.ops[0 := Holding(1, m)], holder := Some(0));
    var s5 := s4.(stored := m, tag := 1, ops := s4.ops[0 := Wrote(1)]);
    var s6 := s5.(hub := s5.hub.(lastPersistSeq := 1), ops := s5.ops[0 := Recorded(1)]);
    assert Next(s6, Leave(0)) == s7 by { assert s6.ops - {0} == s7.ops; }
    RunCons(s6, Leave(0), [Reseed(1)]);
    RunCons(s5, Record(0), [Leave(0), Reseed(1)]);
    RunCons(s4, Write(0, true), [Record(0), Leave(0), Reseed(1)]);
    RunCons(s3, Enter(0), [Write(0, true), Record(0), Leave(0), Reseed(1)]);
    assert [Leave(0)] + [Reseed(1)] == [Leave(0), Reseed(1)];
    assert [Record(0)] + [Leave(0), Reseed(1)] == [Record(0), Leave(0), Reseed(1)];
    assert [Write(0, true)] + [Record(0), Leave(0), Reseed(1)] == [Write(0, true), Record(0), Leave(0), Reseed(1)];
    assert [Enter(0)] + [Write(0, true), Record(0), Leave(0), Reseed(1)]
        == [Enter(0), Write(0, true), Record(0), Leave(0), Reseed(1)];
  }

  lemma RunCons(s: State, e: Event, events: seq<Event>)
    requires CanHappen(s, e)
    ensures Run(s, [e] + events) == Run(Next(s, e), events)
  {
    assert ([e] + events)[1..] == events;
  }
}
