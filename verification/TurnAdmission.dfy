/**
 The token that owns both locks of a starting turn (desktop/app.go, tabTurnAdmission
 and beginTabTurn).  Every lock action is appended to a trace, and the traces are
 proved to be the lock programs of RuntimeLocks.
 */
module TurnAdmission {
  import opened Wrappers
  import opened RuntimeLocks

  /** What asking the controller for its status does. */
  datatype Status = Running | Idle | Panics

  datatype Outcome = Returned(started: bool) | Panicked

  class Admission {
    const tab: Tab
    var released: bool
    /** A turn was found running when the token was finished. */
    var started: bool
    var trace: seq<Op>
    var cancelledStarts: nat

    constructor (tab: Tab)
      ensures this.tab == tab && !released && !started && cancelledStarts == 0
      ensures trace == [ReadLock, LockTurn(tab)]
    {
      this.tab := tab;
      released, started, cancelledStarts := false, false, 0;
      trace := [ReadLock, LockTurn(tab)];
    }

    /** Both locks are held until the token is released, and released once; a turn that
        started did so under both. */
    ghost predicate Valid()
      reads this
    {
      && trace == [ReadLock, LockTurn(tab)] + (if started then [StartTurn(tab)] else [])
                  + (if released then [UnlockTurn(tab), ReadUnlock] else [])
      && (started ==> released)
    }

    /** finish: `ctrl` is None for a nil controller.  A controller found running was
        started by the holder of the token, before the two releases.  These are deferred,
        so a panic inside the status call does not skip them. */
    method Finish(ctrl: Option<Status>) returns (r: Outcome)
      requires Valid()
      modifies this
      ensures Valid() && released
      ensures old(released) ==> r == Returned(false) && cancelledStarts == old(cancelledStarts)
      ensures old(released) ==> started == old(started)
      ensures !old(released) ==>
        && (r.Panicked? <==> ctrl == Some(Panics))
        && (r == Returned(true) <==> ctrl == Some(Running)) && (started <==> r == Returned(true))
        && cancelledStarts == old(cancelledStarts) + (if r == Returned(false) then 1 else 0)
    {
      if released {
        return Returned(false);
      }
      released := true;
      if ctrl == Some(Panics) {
        r := Panicked;
      } else {
        started := ctrl == Some(Running);
        if started {
          trace := trace + [StartTurn(tab)];
        } else {
          cancelledStarts := cancelledStarts + 1;
        }
        r := Returned(started);
      }
      trace := trace + [UnlockTurn(tab)];
      trace := trace + [ReadUnlock];
    }

    method Abort()
      requires Valid()
      modifies this
      ensures Valid() && released && started == old(started)
      ensures cancelledStarts == old(cancelledStarts) + (if old(released) then 0 else 1)
    {
      var _ := Finish(None);
    }

    /** Any mix of finish and abort calls performs the lock program of one turn, which
        releases the gate and the read side once, in that order; the first call alone
        decides whether the turn started. */
    method Settle(calls: seq<Option<Status>>) returns (first: Outcome)
      requires Valid() && !released && calls != []
      modifies this
      ensures trace == Program(Turn(tab, first == Returned(true)))
      ensures first == Returned(true) <==> calls[0] == Some(Running)
      ensures cancelledStarts <= old(cancelledStarts) + 1
    {
      first := Finish(calls[0]);
      for i := 1 to |calls|
        invariant Valid() && released && (started <==> first == Returned(true))
        invariant cancelledStarts <= old(cancelledStarts) + 1
      {
        if calls[i].None? {
          Abort();
        } else {
          var _ := Finish(calls[i]);
        }
      }
    }
  }

  /** beginTabTurn: the checks before the locks reject without touching them; the
      checks under both locks release them again in the reverse of a turn's order. */
  method BeginTabTurn(tab: Tab, rejected: bool, checks: seq<bool>)
    returns (admission: Admission?, trace: seq<Op>)
    ensures admission != null ==> fresh(admission) && admission.Valid() && !admission.released && admission.tab == tab
    ensures admission != null <==> !rejected && forall i :: 0 <= i < |checks| ==> checks[i]
    ensures admission == null ==> trace == if rejected then [] else Program(Turn(tab, false))
    ensures admission != null ==> trace == admission.trace
  {
    admission, trace := null, [];
    if rejected {
      return;
    }
    trace := [ReadLock, LockTurn(tab)];
    for i := 0 to |checks|
      invariant admission == null && trace == [ReadLock, LockTurn(tab)]
      invariant forall j :: 0 <= j < i ==> checks[j]
    {
      if !checks[i] {
        trace := trace + [UnlockTurn(tab), ReadUnlock];
        return;
      }
    }
    admission := new Admission(tab);
  }
}
