/** Switching a visible tab to another saved session (desktop/app.go). */
module SessionRebind {
  // A replacement runtime is built as a candidate with many points of failure and one
  // commit.  The model keeps a ledger of controllers, session leases and shared-host
  // references; every stage that can fail is an injected fault.  The caller holds the
  // locks of RuntimeLocks.Operation.Rebind throughout.

  import opened Wrappers

  type Id = nat

  /** What a tab, visible or detached, owns; `epoch` is its runtime generation. */
  datatype Runtime = Runtime(ctrl: Option<Id>, lease: Option<Id>, path: string, hostKey: string, epoch: nat)

  /** Whose runtime a session key resolves to; Other is one outside this model. */
  datatype Owner = Visible | Background | Other

  /** The faults and choices of one call, stage by stage.  `recovered` is the branch a
      snapshot recovery moved the source session to. */
  datatype Env = Env(
    removed: bool, changedBefore: bool, snapshotFails: bool, recovered: Option<string>, metaFails: bool,
    changedAfter: bool, sourceActive: bool, targetReady: bool,
    configFails: bool, bootFails: bool, builtHookFails: bool, restoreFails: bool, restoredHookFails: bool,
    leaseHeld: bool, reclaims: bool, leaseHookFails: bool, changedAtCommit: bool)

  datatype Outcome = Done | Failed

  /** A shared-host reference is held by a live controller built on that host. */
  predicate HoldsRef(r: Runtime, key: string)
  {
    r.ctrl.Some? && r.hostKey == key
  }

  function Count(refs: map<string, nat>, key: string): nat
  {
    if key in refs then refs[key] else 0
  }

  function Refreshed(source: Runtime, env: Env): Runtime
  {
    if source.ctrl.Some? && !env.changedBefore && !env.snapshotFails && env.recovered.Some?
    then source.(path := env.recovered.value) else source
  }

  predicate RefreshSucceeds(source: Runtime, env: Env)
  {
    && !env.changedBefore && !env.changedAfter
    && (source.ctrl.Some? ==> !env.snapshotFails && (Refreshed(source, env).path != "" ==> !env.metaFails))
  }

  /** The source is moved to the background instead of being closed. */
  predicate Detaches(source: Runtime, env: Env)
  {
    source.ctrl.Some? && env.sourceActive
  }

  predicate CandidateSucceeds(env: Env)
  {
    && !env.configFails && !env.bootFails && !env.builtHookFails && !env.restoreFails && !env.restoredHookFails
  }

  predicate LeaseSucceeds(env: Env)
  {
    (!env.leaseHeld || env.reclaims) && !env.leaseHookFails
  }

  function One(id: Option<Id>): multiset<Id>
  {
    if id.Some? then multiset{id.value} else multiset{}
  }

  ghost predicate Owned(visible: Option<Id>, hidden: map<string, Option<Id>>, id: Id)
  {
    visible == Some(id) || exists k :: k in hidden && hidden[k] == Some(id)
  }

  /** Every resource ever made (ids below `next`) is either owned by exactly one
      runtime or was given up exactly once. */
  ghost predicate Balanced(visible: Option<Id>, hidden: map<string, Option<Id>>, gone: multiset<Id>, next: Id)
  {
    && (forall id: Id :: id in gone ==> id < next && gone[id] == 1)
    && (forall id: Id :: Owned(visible, hidden, id) <==> id < next && id !in gone)
    && (forall k :: k in hidden && hidden[k].Some? ==> hidden[k] != visible)
    && (forall j, k :: j in hidden && k in hidden && j != k && hidden[j].Some? ==> hidden[j] != hidden[k])
  }

  function Ctrls(detached: map<string, Runtime>): map<string, Option<Id>>
  {
    map k | k in detached :: detached[k].ctrl
  }

  function Leases(detached: map<string, Runtime>): map<string, Option<Id>>
  {
    map k | k in detached :: detached[k].lease
  }

  /** The registry resolves a key to the runtime whose session it is. */
  ghost predicate OneRuntimePerKey(tab: Runtime, detached: map<string, Runtime>, aliases: map<string, Owner>)
  {
    && (forall k :: k in detached ==> k != "" && detached[k].ctrl.Some? && detached[k].path == k)
    && tab.path !in detached
    && (forall k :: k in aliases && aliases[k] == Visible <==> k == tab.path && k != "")
    && (forall k :: k in aliases && aliases[k] == Background <==> k in detached)
  }

  function Added(refs: map<string, nat>, key: string): map<string, nat>
  {
    refs[key := Count(refs, key) + 1]
  }

  /** releaseSharedHost: absent keys are ignored, the last reference closes the host. */
  function Dropped(refs: map<string, nat>, key: string): map<string, nat>
  {
    if key !in refs then refs
    else if refs[key] <= 1 then refs - {key}
    else refs[key := refs[key] - 1]
  }

  function Moved(aliases: map<string, Owner>, from: string, to: string): map<string, Owner>
  {
    if from == to then aliases else (aliases - {from})[to := Visible]
  }

  /** Everything a rebind may change. */
  datatype World = World(
    tab: Runtime, detached: map<string, Runtime>, aliases: map<string, Owner>, refs: map<string, nat>,
    nextCtrl: Id, nextLease: Id, nextEpoch: nat, closed: multiset<Id>, released: multiset<Id>)

  predicate SoundRefs(refs: map<string, nat>)
  {
    forall k :: k in refs ==> k != "" && refs[k] > 0
  }

  /** One runtime per session key, the ledger balances, and epochs are never reused. */
  ghost predicate Books(w: World)
  {
    && OneRuntimePerKey(w.tab, w.detached, w.aliases)
    && Balanced(w.tab.ctrl, Ctrls(w.detached), w.closed, w.nextCtrl)
    && Balanced(w.tab.lease, Leases(w.detached), w.released, w.nextLease)
    && SoundRefs(w.refs)
    && w.tab.epoch < w.nextEpoch && (forall k :: k in w.detached ==> w.detached[k].epoch < w.nextEpoch)
  }

  /** A recovery moves the source to a branch no runtime knows, never to the target. */
  predicate Plausible(w: World, env: Env, target: string)
  {
    && target != ""
    && (env.recovered.Some? ==> env.recovered.value !in {"", target} && env.recovered.value !in w.aliases)
  }

  /** A built replacement that is not published yet. */
  class Candidate {
    var ctrl: Option<Id>
    const hostKey: string
    var ownsRef: bool

    constructor (ctrl: Id, hostKey: string, ownsRef: bool)
      ensures this.ctrl == Some(ctrl) && this.hostKey == hostKey && this.ownsRef == ownsRef
    {
      this.ctrl, this.hostKey, this.ownsRef := Some(ctrl), hostKey, ownsRef;
    }

    /** Releases what the candidate still owns; a second call releases nothing. */
    method Close(app: App)
      modifies this, app`closed, app`refs
      ensures ctrl.None? && !ownsRef
      ensures app.closed == old(app.closed) + One(old(ctrl))
      ensures app.refs == if old(ownsRef) then Dropped(old(app.refs), hostKey) else old(app.refs)
    {
      if ctrl.Some? {
        app.closed := app.closed + multiset{ctrl.value};
        ctrl := None;
      }
      if ownsRef {
        app.refs := Dropped(app.refs, hostKey);
        ownsRef := false;
      }
    }
  }

  class App {
    var tab: Runtime
    var detached: map<string, Runtime>
    var aliases: map<string, Owner>
    var refs: map<string, nat>
    var nextCtrl: Id
    var nextLease: Id
    var nextEpoch: nat
    var closed: multiset<Id>
    var released: multiset<Id>

    ghost function State(): World
      reads this
    {
      World(tab, detached, aliases, refs, nextCtrl, nextLease, nextEpoch, closed, released)
    }

    /** The checks, the snapshot and the metadata save that precede the transaction. */
    method RefreshSource(env: Env) returns (ok: bool)
      requires env.recovered.Some? ==> env.recovered.value != tab.path
      modifies this`tab, this`aliases
      ensures tab == Refreshed(old(tab), env) && ok == RefreshSucceeds(old(tab), env)
      ensures aliases == Moved(old(aliases), old(tab).path, tab.path)
    {
      if env.changedBefore {
        return false;
      }
      if tab.ctrl.Some? {
        if env.snapshotFails {
          return false;
        }
        if env.recovered.Some? {
          aliases := (aliases - {tab.path})[env.recovered.value := Visible];
          tab := tab.(path := env.recovered.value);
        }
        if tab.path != "" && env.metaFails {
          return false;
        }
      }
      ok := !env.changedAfter;
    }

    /** reserveSessionRuntimePath: the target key resolves to this tab until the
        transaction commits or rolls back. */
    method Reserve(target: string) returns (ok: bool)
      modifies this`aliases
      ensures ok <==> !(target in old(aliases) && old(aliases)[target] != Visible)
      ensures aliases == if ok then old(aliases)[target := Visible] else old(aliases)
    {
      if target in aliases && aliases[target] != Visible {
        return false;
      }
      aliases := aliases[target := Visible];
      ok := true;
    }

    method Rollback(target: string)
      requires target != tab.path
      modifies this`aliases
      ensures aliases == if target in old(aliases) && old(aliases)[target] == Visible
                         then old(aliases) - {target} else old(aliases)
    {
      if target in aliases && aliases[target] == Visible {
        aliases := aliases - {target};
      }
    }

    /** buildSessionRebindCandidate: null means that everything it acquired has
        already been given back. */
    method BuildCandidate(env: Env, separate: bool) returns (candidate: Candidate?)
      requires SoundRefs(refs)
      modifies this`nextCtrl, this`closed, this`refs
      ensures candidate != null <==> CandidateSucceeds(env)
      ensures candidate != null ==>
        && fresh(candidate) && candidate.ctrl == Some(old(nextCtrl)) && nextCtrl == old(nextCtrl) + 1
        && candidate.hostKey == tab.hostKey && (candidate.ownsRef <==> separate && tab.hostKey != "")
        && closed == old(closed)
        && refs == if candidate.ownsRef then Added(old(refs), tab.hostKey) else old(refs)
      ensures candidate == null ==>
        && refs == old(refs) && old(nextCtrl) <= nextCtrl <= old(nextCtrl) + 1
        && closed == old(closed) + if nextCtrl == old(nextCtrl) then multiset{} else multiset{old(nextCtrl)}
    {
      candidate := null;
      if env.configFails {
        return;
      }
      var ownsRef := separate && tab.hostKey != "";
      if ownsRef {
        refs := Added(refs, tab.hostKey);
      }
      if env.bootFails {
        if ownsRef {
          refs := Dropped(refs, tab.hostKey);
        }
        return;
      }
      var built := new Candidate(nextCtrl, tab.hostKey, ownsRef);
      nextCtrl := nextCtrl + 1;
      if env.builtHookFails || env.restoreFails || env.restoredHookFails {
        built.Close(this);
        return;
      }
      candidate := built;
    }

    /** detachRuntimeForReplacementLocked: the source moves whole to the background. */
    method Detach() returns (ok: bool)
      modifies this`detached, this`aliases
      ensures ok <==> tab.path != ""
      ensures detached == if ok then old(detached)[tab.path := tab] else old(detached)
      ensures aliases == if ok then old(aliases)[tab.path := Background] else old(aliases)
    {
      if tab.path == "" {
        return false;
      }
      detached := detached[tab.path := tab];
      aliases := aliases[tab.path := Background];
      ok := true;
    }

    /** An idle source is taken for teardown: closed and released after publication. */
    method Retire()
      modifies this`aliases, this`closed, this`released
      ensures aliases == old(aliases) - {tab.path}
      ensures closed == old(closed) + One(tab.ctrl) && released == old(released) + One(tab.lease)
    {
      aliases := aliases - {tab.path};
      closed := closed + One(tab.ctrl);
      released := released + One(tab.lease);
    }

    /** The commit under App.mu: detach the source or take it for teardown, then
        publish the candidate and its lease under a new epoch. */
    method Commit(target: string, env: Env, candidate: Candidate, lease: Id) returns (ok: bool)
      requires candidate.ctrl.Some? && target != tab.path
      modifies this`tab, this`detached, this`aliases, this`nextEpoch, this`closed, this`released, candidate
      ensures ok <==> !env.changedAtCommit && (Detaches(old(tab), env) ==> old(tab).path != "")
      ensures !ok ==>
        && tab == old(tab) && detached == old(detached) && aliases == old(aliases) && nextEpoch == old(nextEpoch)
        && closed == old(closed) && released == old(released)
        && candidate.ctrl == old(candidate.ctrl) && candidate.ownsRef == old(candidate.ownsRef)
      ensures ok ==>
        && tab == Runtime(old(candidate.ctrl), Some(lease), target, old(tab).hostKey, old(nextEpoch))
        && nextEpoch == old(nextEpoch) + 1
      ensures ok && Detaches(old(tab), env) ==>
        && detached == old(detached)[old(tab).path := old(tab)]
        && aliases == old(aliases)[old(tab).path := Background][target := Visible]
        && closed == old(closed) && released == old(released)
      ensures ok && !Detaches(old(tab), env) ==>
        && detached == old(detached) && aliases == (old(aliases) - {old(tab).path})[target := Visible]
        && closed == old(closed) + One(old(tab).ctrl) && released == old(released) + One(old(tab).lease)
    {
      if env.changedAtCommit {
        return false;
      }
      var source, detach := tab, Detaches(tab, env);
      if detach {
        ok := Detach();
        if !ok {
          return;
        }
      } else {
        Retire();
      }
      aliases := aliases[target := Visible];
      tab := Runtime(candidate.ctrl, Some(lease), target, source.hostKey, nextEpoch);
      nextEpoch := nextEpoch + 1;
      candidate.ctrl := None;
      ok := true;
    }

    /** Acquires the target's lease and commits; on failure the lease is released and
        the candidate still owns its controller and host reference. */
    method Publish(target: string, env: Env, candidate: Candidate) returns (ok: bool)
      requires candidate.ctrl.Some? && target != tab.path
      modifies this`tab, this`detached, this`aliases, this`nextEpoch, this`nextLease, this`closed, this`released,
        candidate
      ensures ok <==> LeaseSucceeds(env) && !env.changedAtCommit && (Detaches(old(tab), env) ==> old(tab).path != "")
      ensures !ok ==>
        && tab == old(tab) && detached == old(detached) && aliases == old(aliases) && nextEpoch == old(nextEpoch)
        && closed == old(closed) && GivenBack(old(nextLease), old(released), nextLease, released)
        && candidate.ctrl == old(candidate.ctrl) && candidate.ownsRef == old(candidate.ownsRef)
      ensures ok ==>
        && tab == Runtime(old(candidate.ctrl), Some(old(nextLease)), target, old(tab).hostKey, old(nextEpoch))
        && nextEpoch == old(nextEpoch) + 1 && nextLease == old(nextLease) + 1
      ensures ok && Detaches(old(tab), env) ==>
        && detached == old(detached)[old(tab).path := old(tab)]
        && aliases == old(aliases)[old(tab).path := Background][target := Visible]
        && closed == old(closed) && released == old(released)
      ensures ok && !Detaches(old(tab), env) ==>
        && detached == old(detached) && aliases == (old(aliases) - {old(tab).path})[target := Visible]
        && closed == old(closed) + One(old(tab).ctrl) && released == old(released) + One(old(tab).lease)
    {
      if env.leaseHeld && !env.reclaims {
        return false;
      }
      var lease := nextLease;
      nextLease := nextLease + 1;
      ok := false;
      if !env.leaseHookFails {
        ok := Commit(target, env, candidate, lease);
      }
      if !ok {
        released := released + multiset{lease};
      }
    }

    /** Builds the candidate and publishes it, or gives everything it acquired back. */
    method TryCandidate(target: string, env: Env) returns (ok: bool)
      requires target != tab.path
      requires SoundRefs(refs)
      modifies this
      ensures ok <==> CandidateSucceeds(env) && LeaseSucceeds(env) && !env.changedAtCommit
                      && (Detaches(old(tab), env) ==> old(tab).path != "")
      ensures !ok ==>
        && tab == old(tab) && detached == old(detached) && refs == old(refs) && aliases == old(aliases)
        && nextEpoch == old(nextEpoch)
        && GivenBack(old(nextCtrl), old(closed), nextCtrl, closed)
        && GivenBack(old(nextLease), old(released), nextLease, released)
      ensures ok ==>
        && tab == Runtime(Some(old(nextCtrl)), Some(old(nextLease)), target, old(tab).hostKey, old(nextEpoch))
        && nextCtrl == old(nextCtrl) + 1 && nextLease == old(nextLease) + 1 && nextEpoch == old(nextEpoch) + 1
        && refs == RefsAfterBuild(old(tab), env, old(refs))
      ensures ok && Detaches(old(tab), env) ==>
        && detached == old(detached)[old(tab).path := old(tab)]
        && aliases == old(aliases)[old(tab).path := Background][target := Visible]
        && closed == old(closed) && released == old(released)
      ensures ok && !Detaches(old(tab), env) ==>
        && detached == old(detached) && aliases == (old(aliases) - {old(tab).path})[target := Visible]
        && closed == old(closed) + One(old(tab).ctrl) && released == old(released) + One(old(tab).lease)
    {
      var candidate := BuildCandidate(env, Detaches(tab, env) || tab.ctrl.None?);
      if candidate == null {
        return false;
      }
      ok := Publish(target, env, candidate);
      if !ok {
        candidate.Close(this);
      }
    }

    /** The transaction after the source refresh; its rollback runs in the reverse
        order of the acquisitions. */
    method Transact(target: string, env: Env) returns (r: Outcome)
      requires target != tab.path && target !in detached
      requires target in aliases ==> aliases[target] != Visible
      requires SoundRefs(refs)
      modifies this
      ensures r == Done <==>
        && target !in old(aliases) && CandidateSucceeds(env) && LeaseSucceeds(env) && !env.changedAtCommit
        && (Detaches(old(tab), env) ==> old(tab).path != "")
      ensures r == Failed ==> GaveBack(old(State()), State())
      ensures r == Done ==> SwitchedTo(old(State()), target, env, State())
    {
      var reserved := Reserve(target);
      if !reserved {
        return Failed;
      }
      label Reserved:
      var published := TryCandidate(target, env);
      if published {
        PublishedIsSwitched(old(State()), target, env, State());
        return Done;
      }
      Rollback(target);
      assert old(aliases)[target := Visible] - {target} == old(aliases);
      r := Failed;
    }

    /** reattachDetachedSessionRuntimeForRebind and the teardown after it: the target
        is already running in the background and becomes the visible runtime. */
    method Reattach(target: string, env: Env) returns (r: Outcome)
      requires target in detached && target != tab.path
      modifies this`tab, this`detached, this`aliases, this`refs, this`closed, this`released
      ensures r == Done <==> env.targetReady && (Detaches(old(tab), env) ==> old(tab).path != "")
      ensures r == Failed ==> State() == old(State())
      ensures r == Done ==> SwitchedTo(old(State()), target, env, State())
    {
      if !env.targetReady {
        return Failed;
      }
      if Detaches(tab, env) {
        var moved := Detach();
        if !moved {
          return Failed;
        }
      } else {
        RetireWithHost();
      }
      Show(target);
      r := Done;
    }

    method RetireWithHost()
      modifies this`aliases, this`closed, this`released, this`refs
      ensures aliases == old(aliases) - {tab.path}
      ensures closed == old(closed) + One(tab.ctrl) && released == old(released) + One(tab.lease)
      ensures refs == if tab.hostKey != "" then Dropped(old(refs), tab.hostKey) else old(refs)
    {
      Retire();
      if tab.hostKey != "" {
        refs := Dropped(refs, tab.hostKey);
      }
    }

    /** applyRuntimeTab: the background runtime becomes the visible one. */
    method Show(target: string)
      requires target in detached
      modifies this`tab, this`detached, this`aliases
      ensures tab == old(detached)[target] && detached == old(detached) - {target}
      ensures aliases == old(aliases)[target := Visible]
    {
      tab := detached[target];
      detached := detached - {target};
      aliases := aliases[target := Visible];
    }

    /** rebindTabToLoadedSessionPath. */
    method Rebind(target: string, env: Env) returns (r: Outcome)
      requires Plausible(State(), env, target) && SoundRefs(refs)
      requires forall k :: k in aliases && aliases[k] == Visible <==> k == tab.path && k != ""
      modifies this
      ensures r == Done <==> Succeeds(old(State()), target, env)
      ensures Rebinds(old(State()), target, env, State())
    {
      if env.removed {
        return Failed;
      }
      if tab.path == target {
        return Done;
      }
      var refreshed := RefreshSource(env);
      assert State() == RefreshedWorld(old(State()), env);
      if !refreshed {
        return Failed;
      }
      r := Switch(target, env);
    }

    /** The two ways to a target, after the source refresh. */
    method Switch(target: string, env: Env) returns (r: Outcome)
      requires target != tab.path && SoundRefs(refs)
      requires target in aliases ==> aliases[target] != Visible
      modifies this
      ensures r == Done <==>
        && (Detaches(old(tab), env) ==> old(tab).path != "")
        && if target in old(detached) then env.targetReady
           else target !in old(aliases) && CandidateSucceeds(env) && LeaseSucceeds(env) && !env.changedAtCommit
      ensures r == Failed ==> GaveBack(old(State()), State())
      ensures r == Done ==> SwitchedTo(old(State()), target, env, State())
    {
      if target in detached {
        r := Reattach(target, env);
      } else {
        r := Transact(target, env);
      }
    }
  }

  function RefreshedWorld(w: World, env: Env): World
  {
    var tab := Refreshed(w.tab, env);
    w.(tab := tab, aliases := Moved(w.aliases, w.tab.path, tab.path))
  }

  /** Nothing differs but what was made meanwhile, and that has been given back. */
  ghost predicate GaveBack(w: World, w': World)
  {
    && w' == w.(nextCtrl := w'.nextCtrl, nextLease := w'.nextLease, closed := w'.closed, released := w'.released)
    && GivenBack(w.nextCtrl, w.closed, w'.nextCtrl, w'.closed)
    && GivenBack(w.nextLease, w.released, w'.nextLease, w'.released)
  }

  /** A failure leaves the source as the refresh left it, and everything made for the
      target has been given back. */
  ghost predicate FailedTo(w: World, env: Env, w': World)
  {
    GaveBack(w, w') || GaveBack(RefreshedWorld(w, env), w')
  }

  /** The refreshed world w after a successful switch: the tab owns the target, and
      the source moved whole to the background or was closed and released once. */
  ghost predicate SwitchedTo(w: World, target: string, env: Env, w': World)
  {
    var source, builds := w.tab, target !in w.detached;
    && w'.tab == (if builds then Runtime(Some(w.nextCtrl), Some(w.nextLease), target, source.hostKey, w.nextEpoch)
                  else w.detached[target])
    && w'.nextCtrl == w.nextCtrl + (if builds then 1 else 0)
    && w'.nextLease == w.nextLease + (if builds then 1 else 0)
    && w'.nextEpoch == w.nextEpoch + (if builds then 1 else 0)
    && w'.refs == (if builds then RefsAfterBuild(source, env, w.refs) else RefsAfterReattach(source, env, w.refs))
    && if Detaches(source, env) then
         && w'.detached == w.detached[source.path := source] - {target}
         && w'.aliases == w.aliases[source.path := Background][target := Visible]
         && w'.closed == w.closed && w'.released == w.released
       else
         && w'.detached == w.detached - {target}
         && w'.aliases == (w.aliases - {source.path})[target := Visible]
         && w'.closed == w.closed + One(source.ctrl) && w'.released == w.released + One(source.lease)
  }

  /** A candidate published over the reserved key makes a successful switch. */
  lemma PublishedIsSwitched(w: World, target: string, env: Env, w': World)
    requires target !in w.detached && target != w.tab.path
    requires var source, reserved := w.tab, w.aliases[target := Visible];
      && w'.tab == Runtime(Some(w.nextCtrl), Some(w.nextLease), target, source.hostKey, w.nextEpoch)
      && w'.nextCtrl == w.nextCtrl + 1 && w'.nextLease == w.nextLease + 1 && w'.nextEpoch == w.nextEpoch + 1
      && w'.refs == RefsAfterBuild(source, env, w.refs)
      && if Detaches(source, env) then
           && w'.detached == w.detached[source.path := source]
           && w'.aliases == reserved[source.path := Background][target := Visible]
           && w'.closed == w.closed && w'.released == w.released
         else
           && w'.detached == w.detached && w'.aliases == (reserved - {source.path})[target := Visible]
           && w'.closed == w.closed + One(source.ctrl) && w'.released == w.released + One(source.lease)
    ensures SwitchedTo(w, target, env, w')
  {
    NoTargetToRemove(w.tab, w.detached, target);
  }

  /** The candidate takes a reference of its own when the source keeps one. */
  function RefsAfterBuild(source: Runtime, env: Env, refs: map<string, nat>): map<string, nat>
  {
    if (Detaches(source, env) || source.ctrl.None?) && source.hostKey != ""
    then Added(refs, source.hostKey) else refs
  }

  /** Whatever was made since `next` has been closed or released exactly once. */
  ghost predicate GivenBack(next: Id, gone: multiset<Id>, next': Id, gone': multiset<Id>)
  {
    || (next' == next && gone' == gone)
    || (next' == next + 1 && gone' == gone + multiset{next})
  }

  /** An idle source's reference is given back by name. */
  function RefsAfterReattach(source: Runtime, env: Env, refs: map<string, nat>): map<string, nat>
  {
    if !Detaches(source, env) && source.hostKey != "" then Dropped(refs, source.hostKey) else refs
  }

  /** Exactly when a call succeeds. */
  predicate Succeeds(w: World, target: string, env: Env)
  {
    !env.removed && (w.tab.path == target || (
      && RefreshSucceeds(w.tab, env)
      && (Detaches(w.tab, env) ==> Refreshed(w.tab, env).path != "")
      && if target in w.detached then env.targetReady
         else target !in w.aliases && CandidateSucceeds(env) && LeaseSucceeds(env) && !env.changedAtCommit))
  }

  /** A superseded startup build gives its host reference back itself but leaves the
      host's name on the tab; the name then stands for no reference. */
  predicate StaleHost(source: Runtime, refs: map<string, nat>)
  {
    source.ctrl.None? && source.hostKey != "" && source.hostKey in refs
  }

  function Holding(detached: map<string, Runtime>, key: string): set<string>
  {
    set k | k in detached && HoldsRef(detached[k], key)
  }

  /** How many runtimes of this model hold a reference on a shared host. */
  function Holders(tab: Runtime, detached: map<string, Runtime>, key: string): nat
  {
    (if HoldsRef(tab, key) then 1 else 0) + |Holding(detached, key)|
  }

  /** No reference is gained or lost other than by a runtime that holds it. */
  ghost predicate SameBalance(refs: map<string, nat>, tab: Runtime, detached: map<string, Runtime>,
                              refs': map<string, nat>, tab': Runtime, detached': map<string, Runtime>)
  {
    forall key :: key != "" ==>
      Count(refs', key) - Holders(tab', detached', key) == Count(refs, key) - Holders(tab, detached, key)
  }

  /** A host that some runtime holds is open and counts at least its holders. */
  ghost predicate HostsCounted(refs: map<string, nat>, tab: Runtime, detached: map<string, Runtime>)
  {
    forall key :: key != "" ==> Holders(tab, detached, key) <= Count(refs, key)
  }

  // ---- The books ----

  lemma GivenBackKeepsBalance(v: Option<Id>, h: map<string, Option<Id>>, gone: multiset<Id>, next: Id,
                              gone': multiset<Id>, next': Id)
    requires Balanced(v, h, gone, next) && GivenBack(next, gone, next', gone')
    ensures Balanced(v, h, gone', next')
  {
    forall id: Id ensures Owned(v, h, id) <==> id < next' && id !in gone' {
      assert Owned(v, h, id) <==> id < next && id !in gone;
    }
  }

  lemma ReplacedKeepsBalance(v: Option<Id>, h: map<string, Option<Id>>, gone: multiset<Id>, next: Id)
    requires Balanced(v, h, gone, next)
    ensures Balanced(Some(next), h, gone + One(v), next + 1)
  {
    assert !Owned(v, h, next);
    forall id: Id ensures Owned(Some(next), h, id) <==> id < next + 1 && id !in gone + One(v) {
      assert Owned(v, h, id) <==> id < next && id !in gone;
    }
    assert v.Some? ==> Owned(v, h, v.value);
  }

  lemma HiddenKeepsBalance(v: Option<Id>, h: map<string, Option<Id>>, key: string, gone: multiset<Id>, next: Id)
    requires Balanced(v, h, gone, next) && key !in h
    ensures Balanced(Some(next), h[key := v], gone, next + 1)
  {
    var h' := h[key := v];
    assert !Owned(v, h, next);
    forall id: Id ensures Owned(Some(next), h', id) <==> id < next + 1 && id !in gone {
      assert Owned(v, h, id) <==> id < next && id !in gone;
      assert forall k :: k in h ==> h'[k] == h[k];
      assert v == Some(id) ==> h'[key] == Some(id);
    }
    assert v.Some? ==> Owned(v, h, v.value);
  }

  lemma ShownKeepsBalance(v: Option<Id>, h: map<string, Option<Id>>, target: string, gone: multiset<Id>, next: Id)
    requires Balanced(v, h, gone, next) && target in h
    ensures Balanced(h[target], h - {target}, gone + One(v), next)
  {
    var h' := h - {target};
    forall id: Id ensures Owned(h[target], h', id) <==> id < next && id !in gone + One(v) {
      assert Owned(v, h, id) <==> id < next && id !in gone;
      assert forall k :: k in h' ==> h'[k] == h[k];
      assert forall k :: k in h && k != target ==> k in h';
    }
    assert v.Some? ==> Owned(v, h, v.value);
  }

  lemma SwappedKeepsBalance(v: Option<Id>, h: map<string, Option<Id>>, key: string, target: string,
                            gone: multiset<Id>, next: Id)
    requires Balanced(v, h, gone, next) && target in h && key !in h
    ensures Balanced(h[target], h[key := v] - {target}, gone, next)
  {
    var h' := h[key := v] - {target};
    forall id: Id ensures Owned(h[target], h', id) <==> id < next && id !in gone {
      assert Owned(v, h, id) <==> id < next && id !in gone;
      assert forall k :: k in h && k != target ==> k in h' && h'[k] == h[k];
      assert v == Some(id) ==> h'[key] == Some(id);
    }
    assert v.Some? ==> Owned(v, h, v.value);
  }

  lemma BuildKeepsBooks(source: Runtime, hidden: map<string, Runtime>,
                        closed: multiset<Id>, released: multiset<Id>, nextCtrl: Id, nextLease: Id)
    requires Balanced(source.ctrl, Ctrls(hidden), closed, nextCtrl)
    requires Balanced(source.lease, Leases(hidden), released, nextLease)
    requires source.path !in hidden
    ensures Balanced(Some(nextCtrl), Ctrls(hidden), closed + One(source.ctrl), nextCtrl + 1)
    ensures Balanced(Some(nextLease), Leases(hidden), released + One(source.lease), nextLease + 1)
    ensures Balanced(Some(nextCtrl), Ctrls(hidden[source.path := source]), closed, nextCtrl + 1)
    ensures Balanced(Some(nextLease), Leases(hidden[source.path := source]), released, nextLease + 1)
  {
    ReplacedKeepsBalance(source.ctrl, Ctrls(hidden), closed, nextCtrl);
    ReplacedKeepsBalance(source.lease, Leases(hidden), released, nextLease);
    HiddenKeepsBalance(source.ctrl, Ctrls(hidden), source.path, closed, nextCtrl);
    HiddenKeepsBalance(source.lease, Leases(hidden), source.path, released, nextLease);
    assert Ctrls(hidden[source.path := source]) == Ctrls(hidden)[source.path := source.ctrl];
    assert Leases(hidden[source.path := source]) == Leases(hidden)[source.path := source.lease];
  }

  lemma ReattachKeepsBooks(source: Runtime, hidden: map<string, Runtime>, target: string,
                           closed: multiset<Id>, released: multiset<Id>, nextCtrl: Id, nextLease: Id)
    requires Balanced(source.ctrl, Ctrls(hidden), closed, nextCtrl)
    requires Balanced(source.lease, Leases(hidden), released, nextLease)
    requires source.path !in hidden && target in hidden
    ensures var shown, rest := hidden[target], hidden - {target};
      && Balanced(shown.ctrl, Ctrls(rest), closed + One(source.ctrl), nextCtrl)
      && Balanced(shown.lease, Leases(rest), released + One(source.lease), nextLease)
    ensures var shown, rest := hidden[target], hidden[source.path := source] - {target};
      && Balanced(shown.ctrl, Ctrls(rest), closed, nextCtrl)
      && Balanced(shown.lease, Leases(rest), released, nextLease)
  {
    ShownKeepsBalance(source.ctrl, Ctrls(hidden), target, closed, nextCtrl);
    ShownKeepsBalance(source.lease, Leases(hidden), target, released, nextLease);
    SwappedKeepsBalance(source.ctrl, Ctrls(hidden), source.path, target, closed, nextCtrl);
    SwappedKeepsBalance(source.lease, Leases(hidden), source.path, target, released, nextLease);
    assert Ctrls(hidden - {target}) == Ctrls(hidden) - {target};
    assert Leases(hidden - {target}) == Leases(hidden) - {target};
    assert Ctrls(hidden[source.path := source] - {target}) == Ctrls(hidden)[source.path := source.ctrl] - {target};
    assert Leases(hidden[source.path := source] - {target}) == Leases(hidden)[source.path := source.lease] - {target};
  }

  lemma KeysAfterSwitch(source: Runtime, hidden: map<string, Runtime>, aliases: map<string, Owner>, target: string,
                        tab: Runtime)
    requires OneRuntimePerKey(source, hidden, aliases)
    requires target != "" && target != source.path && tab.path == target
    requires target in aliases ==> target in hidden
    ensures OneRuntimePerKey(tab, hidden - {target}, (aliases - {source.path})[target := Visible])
    ensures source.ctrl.Some? && source.path != "" ==>
      OneRuntimePerKey(tab, hidden[source.path := source] - {target},
        aliases[source.path := Background][target := Visible])
  {
  }

  lemma PathDoesNotCount(tab: Runtime, tab': Runtime, detached: map<string, Runtime>)
    requires tab' == tab.(path := tab'.path)
    ensures forall key :: Holders(tab', detached, key) == Holders(tab, detached, key)
  {
  }

  lemma HoldingAfterHide(detached: map<string, Runtime>, path: string, r: Runtime, key: string)
    requires path !in detached
    ensures |Holding(detached[path := r], key)| == |Holding(detached, key)| + if HoldsRef(r, key) then 1 else 0
  {
    var d := detached[path := r];
    assert Holding(d, key) == Holding(detached, key) + if HoldsRef(r, key) then {path} else {};
  }

  lemma HoldingAfterShow(detached: map<string, Runtime>, target: string, key: string)
    requires target in detached
    ensures |Holding(detached - {target}, key)|
            == |Holding(detached, key)| - if HoldsRef(detached[target], key) then 1 else 0
  {
    assert Holding(detached, key)
        == Holding(detached - {target}, key) + if HoldsRef(detached[target], key) then {target} else {};
  }

  /** The candidate's own reference is exactly the one the commit adds. */
  lemma BuildCounts(source: Runtime, hidden: map<string, Runtime>, tab: Runtime, env: Env, refs: map<string, nat>)
    requires source.path !in hidden && tab.ctrl.Some? && tab.hostKey == source.hostKey
    ensures SameBalance(refs, source, hidden, RefsAfterBuild(source, env, refs), tab,
                        if Detaches(source, env) then hidden[source.path := source] else hidden)
  {
    forall key | key != "" {
      HoldingAfterHide(hidden, source.path, source, key);
    }
  }

  /** An idle reattachment gives the source's reference back, but it also drops one
      when the source held none. */
  lemma ReattachCounts(source: Runtime, hidden: map<string, Runtime>, target: string, refs: map<string, nat>)
    requires source.path !in hidden && target in hidden && source.path != target
    requires HostsCounted(refs, source, hidden)
    requires forall k :: k in refs ==> refs[k] > 0
    ensures SameBalance(refs, source, hidden, refs, hidden[target], hidden[source.path := source] - {target})
    ensures var dropped := if source.hostKey != "" then Dropped(refs, source.hostKey) else refs;
            SameBalance(refs, source, hidden, dropped, hidden[target], hidden - {target}) <==> !StaleHost(source, refs)
  {
    var shown, rest, swapped := hidden[target], hidden - {target}, hidden[source.path := source] - {target};
    forall key
      ensures Holders(shown, rest, key) == Holders(source, hidden, key) - if HoldsRef(source, key) then 1 else 0
      ensures Holders(shown, swapped, key) == Holders(source, hidden, key)
    {
      HoldingAfterHide(hidden, source.path, source, key);
      HoldingAfterShow(hidden, target, key);
      HoldingAfterShow(hidden[source.path := source], target, key);
    }
    var dropped := if source.hostKey != "" then Dropped(refs, source.hostKey) else refs;
    if StaleHost(source, refs) {
      var key := source.hostKey;
      assert Count(dropped, key) == Count(refs, key) - 1;
      assert Holders(shown, rest, key) == Holders(source, hidden, key);
    }
  }

  /** A failed switch keeps the books: each resource made was given back once. */
  lemma FailureKeepsBooks(w: World, env: Env, target: string, w': World)
    requires Books(w) && Plausible(w, env, target) && FailedTo(w, env, w')
    ensures Books(w')
    ensures SameBalance(w.refs, w.tab, w.detached, w'.refs, w'.tab, w'.detached)
  {
    PathDoesNotCount(w.tab, w'.tab, w.detached);
    GivenBackKeepsBalance(w.tab.ctrl, Ctrls(w.detached), w.closed, w.nextCtrl, w'.closed, w'.nextCtrl);
    GivenBackKeepsBalance(w.tab.lease, Leases(w.detached), w.released, w.nextLease, w'.released, w'.nextLease);
  }

  lemma RefreshKeepsBooks(w: World, env: Env, target: string)
    requires Books(w) && Plausible(w, env, target)
    ensures Books(RefreshedWorld(w, env))
  {
    FailureKeepsBooks(w, env, target, RefreshedWorld(w, env));
  }

  /** A successful switch keeps the books. */
  lemma SwitchKeepsBooks(w: World, target: string, env: Env, w': World)
    requires Books(w) && target != "" && target != w.tab.path && SwitchedTo(w, target, env, w')
    requires target in w.aliases ==> target in w.detached
    requires Detaches(w.tab, env) ==> w.tab.path != ""
    ensures Books(w')
  {
    KeysAfterSwitch(w.tab, w.detached, w.aliases, target, w'.tab);
    SwitchKeepsLedger(w, target, env, w');
    SwitchKeepsRest(w, target, env, w');
  }

  lemma SwitchKeepsLedger(w: World, target: string, env: Env, w': World)
    requires target != w.tab.path && w.tab.path !in w.detached && SwitchedTo(w, target, env, w')
    requires Balanced(w.tab.ctrl, Ctrls(w.detached), w.closed, w.nextCtrl)
    requires Balanced(w.tab.lease, Leases(w.detached), w.released, w.nextLease)
    ensures Balanced(w'.tab.ctrl, Ctrls(w'.detached), w'.closed, w'.nextCtrl)
    ensures Balanced(w'.tab.lease, Leases(w'.detached), w'.released, w'.nextLease)
  {
    if target in w.detached {
      ReattachKeepsBooks(w.tab, w.detached, target, w.closed, w.released, w.nextCtrl, w.nextLease);
    } else {
      NoTargetToRemove(w.tab, w.detached, target);
      BuildKeepsBooks(w.tab, w.detached, w.closed, w.released, w.nextCtrl, w.nextLease);
    }
  }

  lemma SwitchKeepsRest(w: World, target: string, env: Env, w': World)
    requires SwitchedTo(w, target, env, w') && SoundRefs(w.refs) && w.tab.epoch < w.nextEpoch
    requires forall k :: k in w.detached ==> w.detached[k].epoch < w.nextEpoch
    ensures SoundRefs(w'.refs) && w'.tab.epoch < w'.nextEpoch
    ensures forall k :: k in w'.detached ==> w'.detached[k].epoch < w'.nextEpoch
  {
  }

  lemma NoTargetToRemove(source: Runtime, detached: map<string, Runtime>, target: string)
    requires target !in detached && target != source.path
    ensures detached - {target} == detached
    ensures detached[source.path := source] - {target} == detached[source.path := source]
  {
  }

  /** What Rebind does, for any call. */
  ghost predicate Rebinds(w: World, target: string, env: Env, w': World)
  {
    if !Succeeds(w, target, env) then FailedTo(w, env, w')
    else if w.tab.path == target then w' == w
    else SwitchedTo(RefreshedWorld(w, env), target, env, w')
  }

  lemma RebindKeepsBooks(w: World, target: string, env: Env, w': World)
    requires Books(w) && Plausible(w, env, target) && Rebinds(w, target, env, w')
    ensures Books(w')
  {
    if !Succeeds(w, target, env) {
      FailureKeepsBooks(w, env, target, w');
    } else if w.tab.path != target {
      SuccessKeepsBooks(w, target, env, w');
    }
  }

  lemma SuccessKeepsBooks(w: World, target: string, env: Env, w': World)
    requires Books(w) && Plausible(w, env, target) && Succeeds(w, target, env) && w.tab.path != target
    requires SwitchedTo(RefreshedWorld(w, env), target, env, w')
    ensures Books(w')
  {
    RefreshKeepsBooks(w, env, target);
    TargetStaysFree(w, target, env);
    SwitchKeepsBooks(RefreshedWorld(w, env), target, env, w');
  }

  /** A successful switch finds the target in the background or with no runtime at all. */
  lemma TargetStaysFree(w: World, target: string, env: Env)
    requires Plausible(w, env, target) && Succeeds(w, target, env) && w.tab.path != target
    ensures var r := RefreshedWorld(w, env);
            target != r.tab.path && (target in r.aliases ==> target in r.detached)
              && (Detaches(r.tab, env) ==> r.tab.path != "")
  {
  }

  // ---- What becomes of the source ----

  /** A switch that succeeds keeps a source whose controller is at work: it is in the
      background under its refreshed path, whole, and nothing of it is given up. */
  lemma WorkingSourceIsKept(w: World, target: string, env: Env, w': World)
    requires Books(w) && Plausible(w, env, target) && Rebinds(w, target, env, w')
    requires Succeeds(w, target, env) && w.tab.path != target
    requires w.tab.ctrl.Some? && env.sourceActive
    ensures var path := if env.recovered.Some? then env.recovered.value else w.tab.path;
            && path in w'.detached && w'.detached[path] == w.tab.(path := path)
            && path in w'.aliases && w'.aliases[path] == Background
            && w'.detached.Keys == w.detached.Keys + {path} - {target}
    ensures w'.closed == w.closed && w'.released == w.released
  {
    TargetStaysFree(w, target, env);
  }

  /** Any other source is given up: its controller and lease once each, and no background
      entry is new or different. */
  lemma IdleSourceIsGivenUp(w: World, target: string, env: Env, w': World)
    requires Books(w) && Plausible(w, env, target) && Rebinds(w, target, env, w')
    requires Succeeds(w, target, env) && w.tab.path != target
    requires w.tab.ctrl.None? || !env.sourceActive
    ensures w'.closed == w.closed + if w.tab.ctrl.Some? then multiset{w.tab.ctrl.value} else multiset{}
    ensures w'.released == w.released + if w.tab.lease.Some? then multiset{w.tab.lease.value} else multiset{}
    ensures w.tab.ctrl.Some? ==> w'.closed[w.tab.ctrl.value] == 1
    ensures w.tab.lease.Some? ==> w'.released[w.tab.lease.value] == 1
    ensures w'.detached == w.detached - {target}
    ensures forall k :: k in w'.detached && w.tab.ctrl.Some? ==> w'.detached[k].ctrl != w.tab.ctrl
    ensures forall k :: k in w'.detached && w.tab.lease.Some? ==> w'.detached[k].lease != w.tab.lease
  {
    assert w.tab.ctrl.Some? ==> Owned(w.tab.ctrl, Ctrls(w.detached), w.tab.ctrl.value);
    assert w.tab.lease.Some? ==> Owned(w.tab.lease, Leases(w.detached), w.tab.lease.value);
    forall k | k in w'.detached
      ensures w.tab.ctrl.Some? ==> w'.detached[k].ctrl != w.tab.ctrl
      ensures w.tab.lease.Some? ==> w'.detached[k].lease != w.tab.lease
    {
      assert Ctrls(w.detached)[k] == w'.detached[k].ctrl && Leases(w.detached)[k] == w'.detached[k].lease;
    }
  }

  /** The tab then shows the target: the runtime that was in the background, or one with a
      controller, lease and epoch no runtime ever had, on the source's host. */
  lemma TargetIsShown(w: World, target: string, env: Env, w': World)
    requires Books(w) && Plausible(w, env, target) && Rebinds(w, target, env, w')
    requires Succeeds(w, target, env) && w.tab.path != target
    ensures w'.tab.path == target && w'.tab.ctrl.Some? && target !in w'.detached
    ensures target in w'.aliases && w'.aliases[target] == Visible
    ensures target in w.detached ==> w'.tab == w.detached[target]
    ensures target !in w.detached ==>
      && w'.tab.lease.Some? && w'.tab.hostKey == w.tab.hostKey
      && w'.tab.ctrl.value >= w.nextCtrl && w'.tab.lease.value >= w.nextLease && w'.tab.epoch >= w.nextEpoch
    ensures forall k :: k in w.detached && k != target ==> k in w'.detached && w'.detached[k] == w.detached[k]
  {
    TargetStaysFree(w, target, env);
    SourceIsNotHidden(w, target, env);
  }

  /** What decides a call, fault by fault.  To the tab's own session nothing can fail but the
      tab's removal; to another, the refresh of a source with a controller, the place to
      move a working source to, and then what is in the way of the target: a background
      runtime that is not ready, an owner outside the tab, or any stage of the build. */
  lemma FaultsDecide(w: World, target: string, env: Env)
    requires Plausible(w, env, target)
    ensures env.removed ==> !Succeeds(w, target, env)
    ensures !env.removed && w.tab.path == target ==> Succeeds(w, target, env)
    ensures !env.removed && w.tab.path != target ==>
      var path := if w.tab.ctrl.Some? && env.recovered.Some? then env.recovered.value else w.tab.path;
      var refreshed := !env.changedBefore && !env.changedAfter
        && (w.tab.ctrl.None? || (!env.snapshotFails && !(path != "" && env.metaFails)));
      var movable := !(w.tab.ctrl.Some? && env.sourceActive && path == "");
      var built := !env.configFails && !env.bootFails && !env.builtHookFails && !env.restoreFails
        && !env.restoredHookFails;
      var leased := !(env.leaseHeld && !env.reclaims) && !env.leaseHookFails;
      (Succeeds(w, target, env) <==>
         refreshed && movable
         && if target in w.detached then env.targetReady
            else target !in w.aliases && built && leased && !env.changedAtCommit)
  {
  }

  /** The refresh moves a source with a controller to the branch its snapshot was recovered
      on, unless the snapshot fails or is not reached, and changes nothing else. */
  lemma RefreshMoves(source: Runtime, env: Env)
    ensures source.ctrl.Some? && env.recovered.Some? && !env.changedBefore && !env.snapshotFails ==>
              Refreshed(source, env) == source.(path := env.recovered.value)
    ensures source.ctrl.None? || env.recovered.None? || env.changedBefore || env.snapshotFails ==>
              Refreshed(source, env) == source
  {
  }

  /** The refreshed path is no background session's. */
  lemma SourceIsNotHidden(w: World, target: string, env: Env)
    requires Books(w) && Plausible(w, env, target)
    ensures Refreshed(w.tab, env).path !in w.detached
  {
    assert forall k :: k in w.detached ==> k in w.aliases && w.aliases[k] == Background;
  }

  datatype Call = Call(target: string, env: Env, after: World)

  ghost predicate IsRun(w: World, calls: seq<Call>)
    decreases |calls|
  {
    calls == [] || (IsCall(w, calls[0]) && IsRun(calls[0].after, calls[1..]))
  }

  /** The world behind a run. */
  function LastOf(w: World, calls: seq<Call>): World
    decreases |calls|
  {
    if calls == [] then w else LastOf(calls[0].after, calls[1..])
  }

  ghost predicate IsCall(w: World, call: Call)
  {
    Plausible(w, call.env, call.target) && Rebinds(w, call.target, call.env, call.after)
  }

  lemma CallKeepsBooks(w: World, call: Call)
    requires Books(w) && IsCall(w, call)
    ensures Books(call.after)
  {
    RebindKeepsBooks(w, call.target, call.env, call.after);
  }

  /** Over any run of switches, whatever fails and whenever: each controller and each
      lease ever made is owned by one runtime or was given up exactly once, no session
      has two runtimes, and epochs are not reused. */
  lemma {:induction false} RunKeepsBooks(w: World, calls: seq<Call>)
    requires Books(w) && IsRun(w, calls)
    ensures Books(LastOf(w, calls))
    decreases |calls|
  {
    if calls != [] {
      CallKeepsBooks(w, calls[0]);
      RunKeepsBooks(calls[0].after, calls[1..]);
    }
  }

  /** The shared-host counts stay exact over a successful switch if and only if it is
      not an idle reattachment that replaces a runtime naming a host it does not hold. */
  lemma SwitchCountsHosts(w: World, target: string, env: Env, w': World)
    requires Books(w) && HostsCounted(w.refs, w.tab, w.detached)
    requires target != w.tab.path && SwitchedTo(w, target, env, w')
    ensures SameBalance(w.refs, w.tab, w.detached, w'.refs, w'.tab, w'.detached)
            <==> !(target in w.detached && StaleHost(w.tab, w.refs))
  {
    if target in w.detached {
      ReattachCounts(w.tab, w.detached, target, w.refs);
    } else {
      NoTargetToRemove(w.tab, w.detached, target);
      BuildCounts(w.tab, w.detached, w'.tab, env, w.refs);
    }
  }

  /** The hosts of a world count their holders, and the tab names no host in vain. */
  ghost predicate HostsSound(w: World)
  {
    HostsCounted(w.refs, w.tab, w.detached) && !StaleHost(w.tab, w.refs)
  }

  lemma SameBalanceJoins(a: World, b: World, c: World)
    requires SameBalance(a.refs, a.tab, a.detached, b.refs, b.tab, b.detached)
    requires SameBalance(b.refs, b.tab, b.detached, c.refs, c.tab, c.detached)
    ensures SameBalance(a.refs, a.tab, a.detached, c.refs, c.tab, c.detached)
  {
  }

  lemma SameBalanceCounts(a: World, b: World)
    requires SameBalance(a.refs, a.tab, a.detached, b.refs, b.tab, b.detached)
             && HostsCounted(a.refs, a.tab, a.detached)
    ensures HostsCounted(b.refs, b.tab, b.detached)
  {
  }

  lemma RefreshCountsHosts(w: World, env: Env)
    ensures var r := RefreshedWorld(w, env); SameBalance(w.refs, w.tab, w.detached, r.refs, r.tab, r.detached)
  {
    PathDoesNotCount(w.tab, RefreshedWorld(w, env).tab, w.detached);
  }

  lemma SuccessCountsHosts(w: World, target: string, env: Env, w': World)
    requires Books(w) && HostsSound(w) && Plausible(w, env, target) && Succeeds(w, target, env) && w.tab.path != target
    requires SwitchedTo(RefreshedWorld(w, env), target, env, w')
    ensures SameBalance(w.refs, w.tab, w.detached, w'.refs, w'.tab, w'.detached) && w'.tab.ctrl.Some?
  {
    var r := RefreshedWorld(w, env);
    RefreshKeepsBooks(w, env, target);
    RefreshCountsHosts(w, env);
    SameBalanceCounts(w, r);
    TargetStaysFree(w, target, env);
    SwitchCountsHosts(r, target, env, w');
    SameBalanceJoins(w, r, w');
  }

  lemma RebindKeepsHosts(w: World, target: string, env: Env, w': World)
    requires Books(w) && HostsSound(w) && Plausible(w, env, target) && Rebinds(w, target, env, w')
    ensures SameBalance(w.refs, w.tab, w.detached, w'.refs, w'.tab, w'.detached) && HostsSound(w')
  {
    if !Succeeds(w, target, env) {
      FailureKeepsBooks(w, env, target, w');
    } else if w.tab.path != target {
      SuccessCountsHosts(w, target, env, w');
    }
    SameBalanceCounts(w, w');
  }

  lemma CallKeepsHosts(w: World, call: Call)
    requires Books(w) && HostsSound(w) && IsCall(w, call)
    ensures Balances(w, call.after) && HostsSound(call.after)
  {
    RebindKeepsHosts(w, call.target, call.env, call.after);
  }

  /** No reference is gained or lost between two worlds but by a runtime that holds it. */
  ghost predicate Balances(w: World, w': World)
  {
    SameBalance(w.refs, w.tab, w.detached, w'.refs, w'.tab, w'.detached)
  }

  lemma BalancesItself(w: World)
    ensures Balances(w, w)
  {
  }

  lemma BalancesJoin(a: World, b: World, c: World)
    requires Balances(a, b) && Balances(b, c)
    ensures Balances(a, c)
  {
    SameBalanceJoins(a, b, c);
  }

  /** Over any run of switches from a tab that names no host in vain, shared-host references
      balance: no reference is gained or lost but by a runtime that holds it, so a host that
      some runtime holds stays open. */
  lemma {:induction false} RunKeepsHosts(w: World, calls: seq<Call>)
    requires Books(w) && HostsSound(w) && IsRun(w, calls)
    ensures HostsSound(LastOf(w, calls)) && Balances(w, LastOf(w, calls))
    decreases |calls|
  {
    if calls == [] {
      BalancesItself(w);
    } else {
      CallKeepsBooks(w, calls[0]);
      CallKeepsHosts(w, calls[0]);
      RunKeepsHosts(calls[0].after, calls[1..]);
      BalancesJoin(w, calls[0].after, LastOf(calls[0].after, calls[1..]));
    }
  }

  /** A stale name can close the host under the runtime that is being reattached. */
  lemma StaleNameClosesSharedHost()
    ensures exists w, env, w' ::
      && Books(w) && HostsCounted(w.refs, w.tab, w.detached)
      && Plausible(w, env, "target") && Succeeds(w, "target", env) && Rebinds(w, "target", env, w')
      && w'.tab.ctrl.Some? && w'.tab.hostKey == "root" && "root" !in w'.refs
  {
    var env := Env(false, false, false, None, false, false, false, true,
                   false, false, false, false, false, false, false, false, false);
    var shown := Runtime(Some(0), Some(0), "target", "root", 0);
    var w := World(Runtime(None, None, "", "root", 1), map["target" := shown], map["target" := Background],
                   map["root" := 1], 1, 1, 2, multiset{}, multiset{});
    var w' := World(shown, map[], map["target" := Visible], map[], 1, 1, 2, multiset{}, multiset{});
    StaleBooks(w, shown);
    StaleHostsCounted(w, shown);
    StaleSwitch(w, env, shown, w');
    assert RefreshedWorld(w, env) == w;
    assert Plausible(w, env, "target") && Succeeds(w, "target", env);
    assert Rebinds(w, "target", env, w');
  }

  /** A tab left without a controller names the host of one runtime in the background. */
  predicate StaleWorld(w: World, shown: Runtime)
  {
    && shown == Runtime(Some(0), Some(0), "target", "root", 0)
    && w == World(Runtime(None, None, "", "root", 1), map["target" := shown], map["target" := Background],
                  map["root" := 1], 1, 1, 2, multiset{}, multiset{})
  }

  lemma StaleBooks(w: World, shown: Runtime)
    requires StaleWorld(w, shown)
    ensures Books(w)
  {
    assert Ctrls(w.detached) == map["target" := Some(0)] && Leases(w.detached) == map["target" := Some(0)];
    OneHiddenBalances();
  }

  lemma OneHiddenBalances()
    ensures Balanced(None, map["target" := Some(0)], multiset{}, 1)
  {
    var hidden: map<string, Option<Id>> := map["target" := Some(0)];
    assert hidden["target"] == Some(0);
    assert Owned(None, hidden, 0);
  }

  lemma StaleHostsCounted(w: World, shown: Runtime)
    requires StaleWorld(w, shown)
    ensures HostsCounted(w.refs, w.tab, w.detached)
  {
    assert Holding(w.detached, "root") == {"target"};
    assert forall key :: key != "root" ==> Holding(w.detached, key) == {};
  }

  lemma StaleSwitch(w: World, env: Env, shown: Runtime, w': World)
    requires StaleWorld(w, shown)
    requires w' == World(shown, map[], map["target" := Visible], map[], 1, 1, 2, multiset{}, multiset{})
    ensures SwitchedTo(w, "target", env, w')
  {
    assert w'.detached == w.detached - {"target"};
    assert w'.aliases == (w.aliases - {""})["target" := Visible];
    assert w'.refs == Dropped(w.refs, "root");
  }
}
