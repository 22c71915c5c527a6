/** Paged history with planner displays (desktop/app.go). */
module PlannerPages {
  // A page starts with every display still to be consumed, the whole transcript with what
  // earlier turns left; and a cancelling display silences what follows only on its own
  // page.  The module proves exactly when the pages nevertheless join to the rendering of
  // the whole transcript.

  import opened Wrappers
  import opened HistoryPages
  import opened PlannerRuns
  import opened PlannerWalks
  import opened PlannerRows

  // ---- Displays that are alike ----

  /** Every visible message is due the first display of its text. */
  ghost predicate Alike(planner: Planner, items: seq<Item>)
  {
    forall i :: 0 <= i < |items| ==> AlikeAt(planner, items, i)
  }

  predicate AlikeAt(planner: Planner, items: seq<Item>, i: nat)
    requires i < |items|
  {
    IsVisible(items, i) ==> Due(planner, items, 0, i) == First(planner, items, i)
  }

  /** Every cancelling display is followed by a message a user wrote, no later than the
      next visible message. */
  ghost predicate Woken(planner: Planner, items: seq<Item>)
  {
    forall j, i {:trigger IsVisible(items, j), IsVisible(items, i)} ::
      0 <= j < i < |items| && IsVisible(items, j) && IsVisible(items, i) && Cancels(Due(planner, items, 0, j)) ==>
        WakesWithin(items, j, i)
  }

  ghost predicate WakesWithin(items: seq<Item>, j: nat, i: nat)
    requires j < i < |items|
  {
    exists k :: j < k <= i && Wakes(items[k].m)
  }

  /** Rendering is silent where the last visible message's display cancels and nothing
      has ended the silence since. */
  lemma {:induction false} AsleepSince(planner: Planner, items: seq<Item>, a: nat, n: nat) returns (j: nat)
    requires a <= n <= |items| && Asleep(planner, items, a, n)
    ensures a <= j < n && IsVisible(items, j) && Cancels(Due(planner, items, a, j))
    ensures forall k :: j < k < n ==> !Wakes(items[k].m)
  {
    if IsVisible(items, n - 1) {
      j := n - 1;
    } else {
      j := AsleepSince(planner, items, a, n - 1);
    }
  }

  lemma WokenUnskipped(planner: Planner, items: seq<Item>)
    requires Woken(planner, items)
    ensures Unskipped(planner, items, 0, |items|)
  {
    forall i | 0 <= i < |items| ensures !SkippedAt(planner, items, 0, i) {
      if IsVisible(items, i) && Asleep(planner, items, 0, i) {
        var j := AsleepSince(planner, items, 0, i);
        assert WakesWithin(items, j, i);
      }
    }
  }

  /** A cancelling display keeps rendering silent until something wakes it. */
  lemma {:induction false} StaysAsleep(planner: Planner, items: seq<Item>, j: nat, i: nat)
    requires j < i < |items| && IsVisible(items, j) && Cancels(Due(planner, items, 0, j))
    requires Unskipped(planner, items, 0, |items|)
    requires forall k :: j < k < i ==> !Wakes(items[k].m)
    ensures Asleep(planner, items, 0, i)
  {
    if i > j + 1 {
      StaysAsleep(planner, items, j, i - 1);
      assert !Wakes(items[i - 1].m);
      assert !SkippedAt(planner, items, 0, i - 1);
    }
  }

  lemma UnskippedWoken(planner: Planner, items: seq<Item>)
    requires Unskipped(planner, items, 0, |items|)
    ensures Woken(planner, items)
  {
    forall j, i | 0 <= j < i < |items| && IsVisible(items, j) && IsVisible(items, i)
      && Cancels(Due(planner, items, 0, j))
      ensures WakesWithin(items, j, i)
    {
      if forall k :: j < k < i ==> !Wakes(items[k].m) {
        StaysAsleep(planner, items, j, i);
        assert !SkippedAt(planner, items, 0, i);
      }
    }
  }

  /** With all dues alike, a text's first dues are its first display. */
  lemma {:induction false} AlikeBelow(planner: Planner, items: seq<Item>, n: nat, hash: string, k: nat)
    requires Alike(planner, items) && n <= |items| && k < Occurrences(items, 0, n, hash)
    ensures Nth(planner, hash, k) == Nth(planner, hash, 0)
  {
    if IsVisible(items, n - 1) && items[n - 1].m.hash == hash && k == Occurrences(items, 0, n - 1, hash) {
      assert AlikeAt(planner, items, n - 1);
    } else {
      AlikeBelow(planner, items, n - 1, hash, k);
    }
  }

  lemma {:induction false} FewerOccurrences(items: seq<Item>, a: nat, n: nat, hash: string)
    requires a <= n <= |items|
    ensures Occurrences(items, a, n, hash) <= Occurrences(items, 0, n, hash)
  {
    if n > a {
      FewerOccurrences(items, a, n - 1, hash);
    }
  }

  /** So it makes no difference where rendering starts. */
  lemma AlikeAnywhere(planner: Planner, items: seq<Item>, a: nat, n: nat)
    requires Alike(planner, items) && a <= n < |items| && IsVisible(items, n)
    ensures Due(planner, items, a, n) == Due(planner, items, 0, n)
  {
    var hash := items[n].m.hash;
    FewerOccurrences(items, a, n, hash);
    assert Occurrences(items, 0, n + 1, hash) == Occurrences(items, 0, n, hash) + 1;
    AlikeBelow(planner, items, n + 1, hash, Occurrences(items, a, n, hash));
    AlikeBelow(planner, items, n + 1, hash, Occurrences(items, 0, n, hash));
  }

  /** A page begins at the front or at a visible message. */
  predicate BeginsPage(items: seq<Item>, a: nat)
    requires a <= |items|
  {
    a == 0 || (a < |items| && IsVisible(items, a))
  }

  lemma {:induction false} AsleepAnywhere(planner: Planner, items: seq<Item>, a: nat, n: nat)
    requires Alike(planner, items) && a < n <= |items| && BeginsPage(items, a)
    ensures Asleep(planner, items, a, n) <==> Asleep(planner, items, 0, n)
  {
    if IsVisible(items, n - 1) {
      AlikeAnywhere(planner, items, a, n - 1);
    } else if n - 1 > a {
      AsleepAnywhere(planner, items, a, n - 1);
    }
  }

  // ---- Turns on pages ----

  /** A walk from the newest page that is long enough to reach the first turn. */
  predicate FullWalk(msgs: seq<ProviderMessage>, before: int, limits: seq<int>)
  {
    (before <= 0 || before > Total(msgs)) && |limits| >= Total(msgs)
  }

  /** The pages of the walk join to the rendering of the whole transcript. */
  predicate Tiles(msgs: seq<ProviderMessage>, checkpoints: map<nat, int>, planner: Planner, lookups: Lookups,
                  before: int, limits: seq<int>)
  {
    JoinedPages(msgs, checkpoints, planner, lookups, Walk(Total(msgs), before, limits))
    == RenderedPrefix(msgs, checkpoints, planner, lookups, |msgs|).0
  }

  lemma TurnBegins(msgs: seq<ProviderMessage>, checkpoints: map<nat, int>, turn: nat)
    requires turn < Total(msgs)
    ensures BeginsPage(Items(msgs, checkpoints), Cut(Starts(msgs), turn))
  {
    if turn > 0 {
      CutStarts(Starts(msgs), turn);
    }
  }

  ghost predicate Fits(items: seq<Item>, starts: seq<bool>)
  {
    |starts| == |items| && forall i :: 0 <= i < |items| ==> (starts[i] <==> IsVisible(items, i))
  }

  /** Behind the first, a turn is one visible message and what follows it. */
  lemma CutIsTurn(items: seq<Item>, starts: seq<bool>, turn: nat)
    requires Fits(items, starts) && 0 < turn < Turns(starts, |starts|)
    ensures IsTurn(items, Cut(starts, turn), Cut(starts, turn + 1))
  {
    var c, d := Cut(starts, turn), Cut(starts, turn + 1);
    CutStarts(starts, turn);
    CutsGrow(starts, turn, turn + 1);
    BehindCut(starts, turn + 1, c);
    forall i | c < i < d ensures !starts[i] {
      TurnsGrow(starts, c + 1, i);
      TurnsGrow(starts, i + 1, d);
    }
  }

  /** A page from turn a lets turn t through. */
  predicate TurnSpeaks(planner: Planner, items: seq<Item>, starts: seq<bool>, a: nat, t: nat, render: Render)
    requires |starts| == |items| && a <= t
  {
    var c := Cut(starts, t);
    c < |items| && Speaks(StateOnPage(planner, items, starts, a, t, render), items[c].m)
  }

  lemma FirstSpeaks(planner: Planner, items: seq<Item>, starts: seq<bool>, t: nat, render: Render)
    requires Fits(items, starts) && 0 < t < Turns(starts, |starts|)
    ensures TurnSpeaks(planner, items, starts, t, t, render)
  {
    CutStarts(starts, t);
  }

  lemma TurnLed(planner: Planner, items: seq<Item>, starts: seq<bool>, a: nat, t: nat, render: Render)
    requires Fits(items, starts) && a <= t && 0 < t < Turns(starts, |starts|) && Recorded(planner)
    requires RowsFit(items, render)
    ensures var out := TurnOnPage(planner, items, starts, a, t, render);
            if TurnSpeaks(planner, items, starts, a, t, render) then Led(out) else Rows(out) == 0
  {
    var c, d, p := Cut(starts, t), Cut(starts, t + 1), StateOnPage(planner, items, starts, a, t, render);
    CutIsTurn(items, starts, t);
    CutsGrow(starts, a, t);
    WaitingRows(Pending(planner, false), items, Cut(starts, a), c, render);
    PlannedRows(p, items[c].m);
    TurnRows(p, items, c, d, render);
  }

  lemma PlannedRows(p: Pending, m: ProviderMessage)
    requires Recorded(p.planner)
    ensures Rows(Planned(p, m)) == 0
  {
  }

  /** A visible message behind another opens a turn. */
  lemma OpensTurn(items: seq<Item>, starts: seq<bool>, j: nat, i: nat)
    requires Fits(items, starts) && j < i < |items| && IsVisible(items, j) && IsVisible(items, i)
    ensures var turn := TurnOf(starts, i); 0 < turn < Turns(starts, |starts|) && Cut(starts, turn) == i
  {
    var turn := TurnOf(starts, i);
    TurnsGrow(starts, j + 1, i);
    TurnsGrow(starts, i + 1, |starts|);
    BehindCut(starts, turn, i);
    assert Turns(starts, i) == turn;
  }

  /** A visible message that silence reaches on a page opens a later turn of the page. */
  lemma AsleepOpens(planner: Planner, items: seq<Item>, starts: seq<bool>, a: nat, e: nat, i: nat) returns (t: nat)
    requires Fits(items, starts) && a < e <= Turns(starts, |starts|) && Cut(starts, a) <= i < Cut(starts, e)
    requires IsVisible(items, i) && Asleep(planner, items, Cut(starts, a), i)
    ensures a < t < e && Cut(starts, t) == i
  {
    var j := AsleepSince(planner, items, Cut(starts, a), i);
    OpensTurn(items, starts, j, i);
    t := TurnOf(starts, i);
    if t <= a {
      CutsGrow(starts, t, a);
    } else if t >= e {
      CutsGrow(starts, e, t);
    }
  }

  lemma {:induction false} SpeakingUnskipped(planner: Planner, items: seq<Item>, starts: seq<bool>, a: nat, e: nat,
                                             n: nat, render: Render)
    requires Fits(items, starts) && a < e <= Turns(starts, |starts|) && Cut(starts, a) <= n <= Cut(starts, e)
    requires forall t :: a < t < e ==> TurnSpeaks(planner, items, starts, a, t, render)
    ensures Unskipped(planner, items, Cut(starts, a), n)
  {
    var c := Cut(starts, a);
    if n > c {
      SpeakingUnskipped(planner, items, starts, a, e, n - 1, render);
      if IsVisible(items, n - 1) && Asleep(planner, items, c, n - 1) {
        var t := AsleepOpens(planner, items, starts, a, e, n - 1);
        assert TurnSpeaks(planner, items, starts, a, t, render);
        RunShape(planner, items, c, n - 1, render);
      }
    }
  }

  lemma SilentTurns(planner: Planner, items: seq<Item>, starts: seq<bool>, a: nat, e: nat)
    requires Fits(items, starts) && a < e <= Turns(starts, |starts|)
    requires forall t :: a < t < e ==> Heard(planner, items, starts, a, t)
    ensures Unskipped(planner, items, Cut(starts, a), Cut(starts, e))
  {
    var c := Cut(starts, a);
    forall i | c <= i < Cut(starts, e) && IsVisible(items, i) && Asleep(planner, items, c, i)
      ensures !SkippedAt(planner, items, c, i)
    {
      var t := AsleepOpens(planner, items, starts, a, e, i);
      assert Heard(planner, items, starts, a, t);
    }
  }

  /** On a page from turn a, silence does not swallow turn t. */
  predicate Heard(planner: Planner, items: seq<Item>, starts: seq<bool>, a: nat, t: nat)
  {
    Cut(starts, a) <= Cut(starts, t) < |items| && !SkippedAt(planner, items, Cut(starts, a), Cut(starts, t))
  }

  /** A page on which no visible message is skipped shows each turn with what it is due
      there. */
  lemma TurnShows(planner: Planner, items: seq<Item>, starts: seq<bool>, a: nat, t: nat, render: Render)
    requires Fits(items, starts) && a <= t && 0 < t < Turns(starts, |starts|)
    requires Unskipped(planner, items, Cut(starts, a), Cut(starts, t + 1))
    ensures Heard(planner, items, starts, a, t) && TurnSpeaks(planner, items, starts, a, t, render)
    ensures IsTurn(items, Cut(starts, t), Cut(starts, t + 1))
    ensures var b, c, d := Cut(starts, a), Cut(starts, t), Cut(starts, t + 1);
            TurnOnPage(planner, items, starts, a, t, render)
            == TurnShown(items, c, d, Due(planner, items, b, c), render)
  {
    var b, c, d := Cut(starts, a), Cut(starts, t), Cut(starts, t + 1);
    CutIsTurn(items, starts, t);
    CutsGrow(starts, a, t);
    assert !SkippedAt(planner, items, b, c);
    RunShape(planner, items, b, c, render);
    LeftStep(planner, items, b, c);
    TurnDepends(StateOnPage(planner, items, starts, a, t, render), items, c, d, render);
  }

  /** On a page from turn a, turn t is not swallowed, and it shows what the display it is
      due in the whole transcript would show. */
  predicate Agrees(planner: Planner, items: seq<Item>, starts: seq<bool>, a: nat, t: nat, render: Render)
  {
    Heard(planner, items, starts, a, t) &&
    var b, c, d := Cut(starts, a), Cut(starts, t), Cut(starts, t + 1);
    c < d <= |items|
    && TurnShown(items, c, d, Due(planner, items, b, c), render)
       == TurnShown(items, c, d, Due(planner, items, 0, c), render)
  }

  /** On a page from turn a, turn t shows what it shows in the whole transcript. */
  predicate Matches(planner: Planner, items: seq<Item>, starts: seq<bool>, a: nat, t: nat, render: Render)
    requires |starts| == |items| && a <= t
  {
    TurnOnPage(planner, items, starts, a, t, render) == TurnOnPage(planner, items, starts, 0, t, render)
  }

  lemma UnskippedPart(planner: Planner, items: seq<Item>, starts: seq<bool>, t: nat)
    requires |starts| == |items| && Unskipped(planner, items, 0, |items|)
    ensures Unskipped(planner, items, Cut(starts, 0), Cut(starts, t))
  {
  }

  lemma MatchesMeans(planner: Planner, items: seq<Item>, starts: seq<bool>, a: nat, t: nat, render: Render)
    requires Fits(items, starts) && a <= t && 0 < t < Turns(starts, |starts|)
    requires Unskipped(planner, items, 0, |items|) && Unskipped(planner, items, Cut(starts, a), Cut(starts, t + 1))
    ensures Matches(planner, items, starts, a, t, render) <==> Agrees(planner, items, starts, a, t, render)
  {
    UnskippedPart(planner, items, starts, t + 1);
    TurnShows(planner, items, starts, a, t, render);
    TurnShows(planner, items, starts, 0, t, render);
  }

  /** A page whose turns show what they show in the whole transcript, where none of them
      is swallowed. */
  lemma MatchingPage(planner: Planner, items: seq<Item>, starts: seq<bool>, a: nat, t: nat, render: Render)
    requires Fits(items, starts) && a <= t && 0 < t < Turns(starts, |starts|) && Recorded(planner)
    requires RowsFit(items, render) && Unskipped(planner, items, 0, |items|)
    requires forall k :: a <= k <= t ==> Matches(planner, items, starts, a, k, render)
    ensures Agrees(planner, items, starts, a, t, render)
  {
    forall k | a < k < t + 1 ensures TurnSpeaks(planner, items, starts, a, k, render) {
      assert Matches(planner, items, starts, a, k, render);
      WholeLed(planner, items, starts, k, render);
      TurnLed(planner, items, starts, a, k, render);
    }
    CutsGrow(starts, a, t + 1);
    SpeakingUnskipped(planner, items, starts, a, t + 1, Cut(starts, t + 1), render);
    assert Matches(planner, items, starts, a, t, render);
    MatchesMeans(planner, items, starts, a, t, render);
  }

  lemma AgreeingPage(planner: Planner, items: seq<Item>, starts: seq<bool>, a: nat, t: nat, render: Render)
    requires Fits(items, starts) && a <= t < Turns(starts, |starts|) && Unskipped(planner, items, 0, |items|)
    requires forall k :: a <= k <= t && 0 < k ==> Agrees(planner, items, starts, a, k, render)
    ensures Matches(planner, items, starts, a, t, render)
  {
    if t > 0 {
      forall k | a < k < t + 1 ensures Heard(planner, items, starts, a, k) {
        assert Agrees(planner, items, starts, a, k, render);
      }
      SilentTurns(planner, items, starts, a, t + 1);
      assert Agrees(planner, items, starts, a, t, render);
      MatchesMeans(planner, items, starts, a, t, render);
    }
  }

  // ---- Exactly when pages of one turn tile ----

  /** Every turn, on a page of its own, agrees with the whole transcript. */
  ghost predicate TurnsAgree(planner: Planner, items: seq<Item>, starts: seq<bool>, render: Render)
  {
    forall t :: 0 < t < Turns(starts, |starts|) ==> Agrees(planner, items, starts, t, t, render)
  }

  lemma SinglesMean(planner: Planner, items: seq<Item>, starts: seq<bool>, render: Render)
    requires Fits(items, starts) && Turns(starts, |starts|) > 0 && Recorded(planner) && RowsFit(items, render)
    ensures AllMatch(planner, items, starts, render)
            <==> Woken(planner, items) && TurnsAgree(planner, items, starts, render)
  {
    if AllMatch(planner, items, starts, render) {
      MatchingUnskipped(planner, items, starts, render);
      UnskippedWoken(planner, items);
      forall t | 0 < t < Turns(starts, |starts|) ensures Agrees(planner, items, starts, t, t, render) {
        assert Matches(planner, items, starts, t, t, render);
        MatchingPage(planner, items, starts, t, t, render);
      }
    }
    if Woken(planner, items) && TurnsAgree(planner, items, starts, render) {
      WokenUnskipped(planner, items);
      forall t | 0 < t < Turns(starts, |starts|) ensures Matches(planner, items, starts, t, t, render) {
        assert Agrees(planner, items, starts, t, t, render);
        AgreeingPage(planner, items, starts, t, t, render);
      }
    }
  }

  /** Every turn, on a page of its own, shows what it shows in the whole transcript. */
  ghost predicate AllMatch(planner: Planner, items: seq<Item>, starts: seq<bool>, render: Render)
    requires |starts| == |items|
  {
    forall t :: 0 < t < Turns(starts, |starts|) ==> Matches(planner, items, starts, t, t, render)
  }

  lemma MatchingUnskipped(planner: Planner, items: seq<Item>, starts: seq<bool>, render: Render)
    requires Fits(items, starts) && Turns(starts, |starts|) > 0 && Recorded(planner) && RowsFit(items, render)
    requires AllMatch(planner, items, starts, render)
    ensures Unskipped(planner, items, 0, |items|)
  {
    var total := Turns(starts, |starts|);
    LastCut(starts, total);
    forall t | 0 < t < total ensures TurnSpeaks(planner, items, starts, 0, t, render) {
      assert Matches(planner, items, starts, t, t, render);
      MatchingSpeaks(planner, items, starts, t, render);
    }
    SpeakingUnskipped(planner, items, starts, 0, total, |items|, render);
  }

  lemma MatchingSpeaks(planner: Planner, items: seq<Item>, starts: seq<bool>, t: nat, render: Render)
    requires Fits(items, starts) && 0 < t < Turns(starts, |starts|) && Recorded(planner) && RowsFit(items, render)
    requires Matches(planner, items, starts, t, t, render)
    ensures TurnSpeaks(planner, items, starts, 0, t, render)
  {
    FirstSpeaks(planner, items, starts, t, render);
    TurnLed(planner, items, starts, t, t, render);
    TurnLed(planner, items, starts, 0, t, render);
  }

  /** Pages of one turn each join to the rendering of the whole transcript if and only if
      every cancelling display is woken in time and every turn shows the same with the
      first display of its text as with the one it is due. */
  lemma SinglesTile(msgs: seq<ProviderMessage>, checkpoints: map<nat, int>, planner: Planner, lookups: Lookups)
    requires Total(msgs) > 0 && UsersAreSent(msgs) && Recorded(planner)
    ensures Tiles(msgs, checkpoints, planner, lookups, 0, Ones(Total(msgs)))
            <==> Woken(planner, Items(msgs, checkpoints))
                 && TurnsAgree(planner, Items(msgs, checkpoints), Starts(msgs), Rendering(lookups))
  {
    var items, starts, render := Items(msgs, checkpoints), Starts(msgs), Rendering(lookups);
    var on := PagesOf(msgs, checkpoints, planner, lookups);
    RenderedRowsFit(msgs, checkpoints, lookups);
    SinglesWalk(msgs, checkpoints, planner, lookups, on);
    WholeIsPieces(msgs, checkpoints, planner, lookups, on);
    PagesLed(planner, items, starts, render);
    SinglesEqual(on, Total(msgs));
    SameMatches(planner, items, starts, render);
    SinglesMean(planner, items, starts, render);
  }

  /** Whatever page a turn is on, it shows its user row first, or none. */
  ghost predicate LedOrNone(on: OnPage, total: nat)
  {
    && (forall a: nat, t: nat :: a <= t && 0 < t < total ==> Led(on(a, t)) || Rows(on(a, t)) == 0)
    && forall t: nat :: 0 < t < total ==> Led(on(t, t))
  }

  lemma PagesLed(planner: Planner, items: seq<Item>, starts: seq<bool>, render: Render)
    requires Fits(items, starts) && Recorded(planner) && RowsFit(items, render)
    ensures LedOrNone(OnPages(planner, items, starts, render), Turns(starts, |starts|))
  {
    var on, total := OnPages(planner, items, starts, render), Turns(starts, |starts|);
    forall a: nat, t: nat | a <= t && 0 < t < total ensures Led(on(a, t)) || Rows(on(a, t)) == 0 {
      TurnLed(planner, items, starts, a, t, render);
    }
    forall t: nat | 0 < t < total ensures Led(on(t, t)) {
      FirstSpeaks(planner, items, starts, t, render);
      TurnLed(planner, items, starts, t, t, render);
    }
  }

  lemma SinglesEqual(on: OnPage, total: nat)
    requires total > 0 && LedOrNone(on, total)
    ensures Pieces(Singly(on), total) == Pieces(Wholly(on), total)
            <==> forall t: nat :: 0 < t < total ==> on(t, t) == on(0, t)
  {
    PiecesEqual(Singly(on), Wholly(on), total);
    assert forall t: nat :: t < total ==> (Singly(on)(t) == Wholly(on)(t) <==> on(t, t) == on(0, t));
  }

  lemma SameMatches(planner: Planner, items: seq<Item>, starts: seq<bool>, render: Render)
    requires Fits(items, starts)
    ensures var on := OnPages(planner, items, starts, render);
            AllMatch(planner, items, starts, render)
            <==> forall t: nat :: 0 < t < Turns(starts, |starts|) ==> on(t, t) == on(0, t)
  {
    var on := OnPages(planner, items, starts, render);
    assert forall t: nat :: Matches(planner, items, starts, t, t, render) <==> on(t, t) == on(0, t);
  }

  // ---- Exactly when every walk tiles ----

  ghost predicate EveryWalkTiles(msgs: seq<ProviderMessage>, checkpoints: map<nat, int>, planner: Planner,
                                 lookups: Lookups)
  {
    forall before, limits :: FullWalk(msgs, before, limits) ==>
      Tiles(msgs, checkpoints, planner, lookups, before, limits)
  }

  lemma EveryIncludesSingles(msgs: seq<ProviderMessage>, checkpoints: map<nat, int>, planner: Planner, lookups: Lookups)
    requires EveryWalkTiles(msgs, checkpoints, planner, lookups)
    ensures Tiles(msgs, checkpoints, planner, lookups, 0, Ones(Total(msgs)))
  {
    assert FullWalk(msgs, 0, Ones(Total(msgs)));
  }

  /** On every page that can be asked for, every turn agrees with the whole transcript. */
  ghost predicate PagesAgree(planner: Planner, items: seq<Item>, starts: seq<bool>, render: Render)
  {
    forall a: nat, t: nat :: IsReached(starts, a, t) ==> Agrees(planner, items, starts, a, t, render)
  }

  /** A page from turn a can hold turn t, which has a visible message before it. */
  predicate IsReached(starts: seq<bool>, a: nat, t: nat)
  {
    a <= t < a + MAX_TURNS && 0 < t < Turns(starts, |starts|)
  }

  /** Pages that agree with the whole transcript join to it, whatever their sizes. */
  lemma AgreeingTiles(msgs: seq<ProviderMessage>, checkpoints: map<nat, int>, planner: Planner, lookups: Lookups,
                      before: int, limits: seq<int>)
    requires Total(msgs) > 0 && FullWalk(msgs, before, limits) && Woken(planner, Items(msgs, checkpoints))
    requires PagesAgree(planner, Items(msgs, checkpoints), Starts(msgs), Rendering(lookups))
    ensures Tiles(msgs, checkpoints, planner, lookups, before, limits)
  {
    var items, starts, render := Items(msgs, checkpoints), Starts(msgs), Rendering(lookups);
    var on := PagesOf(msgs, checkpoints, planner, lookups);
    WokenUnskipped(planner, items);
    forall r | r in Walk(Total(msgs), before, limits) ensures ShownBy(on, r.start, r.end, Wholly(on)) {
      WalkRanges(Total(msgs), before, limits, r);
      AgreeingStretch(planner, items, starts, r.start, r.end, render);
    }
    WalkIsPieces(msgs, checkpoints, planner, lookups, before, limits, on, Wholly(on));
    WholeIsPieces(msgs, checkpoints, planner, lookups, on);
  }

  lemma AgreeingStretch(planner: Planner, items: seq<Item>, starts: seq<bool>, a: nat, e: nat, render: Render)
    requires Fits(items, starts) && a < e <= Turns(starts, |starts|) && e <= a + MAX_TURNS
    requires Unskipped(planner, items, 0, |items|) && PagesAgree(planner, items, starts, render)
    ensures var on := OnPages(planner, items, starts, render); ShownBy(on, a, e, Wholly(on))
  {
    var on := OnPages(planner, items, starts, render);
    forall t | a <= t < e ensures on(0, t) == on(a, t) {
      AgreeingTurn(planner, items, starts, a, t, render);
    }
  }

  lemma AgreeingTurn(planner: Planner, items: seq<Item>, starts: seq<bool>, a: nat, t: nat, render: Render)
    requires Fits(items, starts) && a <= t < Turns(starts, |starts|) && t < a + MAX_TURNS
    requires Unskipped(planner, items, 0, |items|) && PagesAgree(planner, items, starts, render)
    ensures Matches(planner, items, starts, a, t, render)
  {
    forall k | a <= k <= t && 0 < k ensures Agrees(planner, items, starts, a, k, render) {
      assert IsReached(starts, a, k);
    }
    AgreeingPage(planner, items, starts, a, t, render);
  }

  /** If the walk through one page tiles, each turn of the page shows what it shows in the
      whole transcript, where none is swallowed. */
  lemma ThroughMatches(on: OnPage, total: nat, a: nat, e: nat)
    requires a < e <= total && LedOrNone(on, total) && forall t: nat :: 0 < t < total ==> Led(on(0, t))
    requires Pieces(Mostly(on, a, e), total) == Pieces(Wholly(on), total)
    ensures ShownBy(on, a, e, Wholly(on))
  {
    PiecesEqual(Wholly(on), Mostly(on, a, e), total);
    forall t | a <= t < e ensures on(0, t) == on(a, t) {
      assert Wholly(on)(t) == Mostly(on, a, e)(t);
    }
  }

  lemma WholeLed(planner: Planner, items: seq<Item>, starts: seq<bool>, t: nat, render: Render)
    requires Fits(items, starts) && 0 < t < Turns(starts, |starts|) && Recorded(planner) && RowsFit(items, render)
    requires Unskipped(planner, items, 0, |items|)
    ensures TurnSpeaks(planner, items, starts, 0, t, render)
    ensures Led(TurnOnPage(planner, items, starts, 0, t, render))
  {
    UnskippedPart(planner, items, starts, t + 1);
    TurnShows(planner, items, starts, 0, t, render);
    TurnLed(planner, items, starts, 0, t, render);
  }

  lemma TilingPageAgrees(msgs: seq<ProviderMessage>, checkpoints: map<nat, int>, planner: Planner, lookups: Lookups,
                         a: nat, t: nat)
    requires Total(msgs) > 0 && UsersAreSent(msgs) && Recorded(planner) && Woken(planner, Items(msgs, checkpoints))
    requires EveryWalkTiles(msgs, checkpoints, planner, lookups) && IsReached(Starts(msgs), a, t)
    ensures Agrees(planner, Items(msgs, checkpoints), Starts(msgs), a, t, Rendering(lookups))
  {
    var items, starts, render := Items(msgs, checkpoints), Starts(msgs), Rendering(lookups);
    RenderedRowsFit(msgs, checkpoints, lookups);
    WokenUnskipped(planner, items);
    ThroughTiles(msgs, checkpoints, planner, lookups, a, t + 1);
    TiledPageAgrees(planner, items, starts, a, t, render);
  }

  lemma ThroughTiles(msgs: seq<ProviderMessage>, checkpoints: map<nat, int>, planner: Planner, lookups: Lookups,
                     a: nat, e: nat)
    requires EveryWalkTiles(msgs, checkpoints, planner, lookups) && a < e <= Total(msgs) && e - a <= MAX_TURNS
    ensures var on := PagesOf(msgs, checkpoints, planner, lookups);
            Pieces(Mostly(on, a, e), Total(msgs)) == Pieces(Wholly(on), Total(msgs))
  {
    var on := PagesOf(msgs, checkpoints, planner, lookups);
    var limits := Through(Total(msgs), a, e, Total(msgs));
    assert FullWalk(msgs, 0, limits);
    assert Tiles(msgs, checkpoints, planner, lookups, 0, limits);
    ThroughWalk(msgs, checkpoints, planner, lookups, a, e, on);
    WholeIsPieces(msgs, checkpoints, planner, lookups, on);
  }

  lemma TiledPageAgrees(planner: Planner, items: seq<Item>, starts: seq<bool>, a: nat, t: nat, render: Render)
    requires Fits(items, starts) && Recorded(planner) && RowsFit(items, render) && IsReached(starts, a, t)
    requires Unskipped(planner, items, 0, |items|)
    requires var on, total := OnPages(planner, items, starts, render), Turns(starts, |starts|);
             Pieces(Mostly(on, a, t + 1), total) == Pieces(Wholly(on), total)
    ensures Agrees(planner, items, starts, a, t, render)
  {
    PagesLed(planner, items, starts, render);
    WholesLed(planner, items, starts, render);
    ThroughMatches(OnPages(planner, items, starts, render), Turns(starts, |starts|), a, t + 1);
    ShownMatches(planner, items, starts, a, t + 1, render);
    MatchingPage(planner, items, starts, a, t, render);
  }

  lemma ShownMatches(planner: Planner, items: seq<Item>, starts: seq<bool>, a: nat, e: nat, render: Render)
    requires |starts| == |items|
    requires var on := OnPages(planner, items, starts, render); ShownBy(on, a, e, Wholly(on))
    ensures forall k :: a <= k < e ==> Matches(planner, items, starts, a, k, render)
  {
    var on := OnPages(planner, items, starts, render);
    forall k | a <= k < e ensures Matches(planner, items, starts, a, k, render) {
      assert Wholly(on)(k) == on(a, k);
    }
  }

  lemma WholesLed(planner: Planner, items: seq<Item>, starts: seq<bool>, render: Render)
    requires Fits(items, starts) && Recorded(planner) && RowsFit(items, render) && Unskipped(planner, items, 0, |items|)
    ensures var on := OnPages(planner, items, starts, render);
            forall k: nat :: 0 < k < Turns(starts, |starts|) ==> Led(on(0, k))
  {
    var on := OnPages(planner, items, starts, render);
    forall k: nat | 0 < k < Turns(starts, |starts|) ensures Led(on(0, k)) {
      WholeLed(planner, items, starts, k, render);
    }
  }

  /** Every walk, with any page sizes, joins to the rendering of the whole transcript if
      and only if every cancelling display is woken in time and, on every page that can be
      asked for, every turn is heard and shows the same with the display it is due there
      as with the one it is due in the whole. */
  lemma PagesTileExactly(msgs: seq<ProviderMessage>, checkpoints: map<nat, int>, planner: Planner, lookups: Lookups)
    requires Total(msgs) > 0 && UsersAreSent(msgs) && Recorded(planner)
    ensures EveryWalkTiles(msgs, checkpoints, planner, lookups)
            <==> Woken(planner, Items(msgs, checkpoints))
                 && PagesAgree(planner, Items(msgs, checkpoints), Starts(msgs), Rendering(lookups))
  {
    var items, starts, render := Items(msgs, checkpoints), Starts(msgs), Rendering(lookups);
    if EveryWalkTiles(msgs, checkpoints, planner, lookups) {
      EveryIncludesSingles(msgs, checkpoints, planner, lookups);
      SinglesTile(msgs, checkpoints, planner, lookups);
      forall a: nat, t: nat | IsReached(starts, a, t) ensures Agrees(planner, items, starts, a, t, render) {
        TilingPageAgrees(msgs, checkpoints, planner, lookups, a, t);
      }
    }
    if Woken(planner, items) && PagesAgree(planner, items, starts, render) {
      forall before, limits | FullWalk(msgs, before, limits)
        ensures Tiles(msgs, checkpoints, planner, lookups, before, limits)
      {
        AgreeingTiles(msgs, checkpoints, planner, lookups, before, limits);
      }
    }
  }

  /** With all dues alike, pages agree wherever the whole transcript is heard. */
  lemma AlikeAgrees(msgs: seq<ProviderMessage>, checkpoints: map<nat, int>, planner: Planner, render: Render, a: nat,
                    t: nat)
    requires var items := Items(msgs, checkpoints); Alike(planner, items) && Unskipped(planner, items, 0, |items|)
    requires a <= t && 0 < t < Total(msgs)
    ensures Agrees(planner, Items(msgs, checkpoints), Starts(msgs), a, t, render)
  {
    var items, starts := Items(msgs, checkpoints), Starts(msgs);
    var b, c := Cut(starts, a), Cut(starts, t);
    CutIsTurn(items, starts, t);
    CutsGrow(starts, a, t);
    AlikeAnywhere(planner, items, b, c);
    if b < c {
      TurnBegins(msgs, checkpoints, a);
      AsleepAnywhere(planner, items, b, c);
    }
    assert !SkippedAt(planner, items, 0, c);
  }

  /** With all dues alike and every cancelling display woken in time, every walk tiles. */
  lemma AlikeTiles(msgs: seq<ProviderMessage>, checkpoints: map<nat, int>, planner: Planner, lookups: Lookups,
                   before: int, limits: seq<int>)
    requires Total(msgs) > 0 && FullWalk(msgs, before, limits)
    requires Alike(planner, Items(msgs, checkpoints)) && Woken(planner, Items(msgs, checkpoints))
    ensures Tiles(msgs, checkpoints, planner, lookups, before, limits)
  {
    var items, starts, render := Items(msgs, checkpoints), Starts(msgs), Rendering(lookups);
    WokenUnskipped(planner, items);
    forall a: nat, t: nat | IsReached(starts, a, t) ensures Agrees(planner, items, starts, a, t, render) {
      AlikeAgrees(msgs, checkpoints, planner, render, a, t);
    }
    AgreeingTiles(msgs, checkpoints, planner, lookups, before, limits);
  }

  /** When every text is due its first display each time: every walk tiles, or already the
      one of single turns, if and only if every cancelling display is followed by a message
      a user wrote no later than the next visible message. */
  lemma AlikeTilesExactly(msgs: seq<ProviderMessage>, checkpoints: map<nat, int>, planner: Planner, lookups: Lookups)
    requires Total(msgs) > 0 && UsersAreSent(msgs) && Recorded(planner) && Alike(planner, Items(msgs, checkpoints))
    ensures EveryWalkTiles(msgs, checkpoints, planner, lookups) <==> Woken(planner, Items(msgs, checkpoints))
    ensures Tiles(msgs, checkpoints, planner, lookups, 0, Ones(Total(msgs)))
            <==> Woken(planner, Items(msgs, checkpoints))
  {
    SinglesTile(msgs, checkpoints, planner, lookups);
    if Woken(planner, Items(msgs, checkpoints)) {
      forall before, limits | FullWalk(msgs, before, limits)
        ensures Tiles(msgs, checkpoints, planner, lookups, before, limits)
      {
        AlikeTiles(msgs, checkpoints, planner, lookups, before, limits);
      }
    }
    if EveryWalkTiles(msgs, checkpoints, planner, lookups) {
      EveryIncludesSingles(msgs, checkpoints, planner, lookups);
    }
    assert FullWalk(msgs, 0, Ones(Total(msgs)));
  }

  /** No text that awaits a display is sent twice. */
  ghost predicate SentOnce(planner: Planner, items: seq<Item>)
  {
    forall i, j {:trigger IsVisible(items, i), IsVisible(items, j)} ::
      0 <= i < j < |items| && IsVisible(items, i) && IsVisible(items, j) && items[i].m.hash == items[j].m.hash ==>
        !Awaited(planner, items[i].m)
  }

  lemma {:induction false} OccurrenceBefore(items: seq<Item>, n: nat, hash: string) returns (i: nat)
    requires n <= |items| && Occurrences(items, 0, n, hash) > 0
    ensures i < n && IsVisible(items, i) && items[i].m.hash == hash
  {
    if IsVisible(items, n - 1) && items[n - 1].m.hash == hash {
      i := n - 1;
    } else {
      i := OccurrenceBefore(items, n - 1, hash);
    }
  }

  lemma SentOnceIsAlike(planner: Planner, items: seq<Item>)
    requires SentOnce(planner, items)
    ensures Alike(planner, items)
  {
    forall j | 0 <= j < |items| ensures AlikeAt(planner, items, j) {
      if IsVisible(items, j) && Occurrences(items, 0, j, items[j].m.hash) > 0 {
        var i := OccurrenceBefore(items, j, items[j].m.hash);
        assert !Awaited(planner, items[i].m);
      }
    }
  }

  /** No display cancels. */
  ghost predicate NeverCancels(planner: Planner)
  {
    forall hash, k :: !Cancels(Nth(planner, hash, k))
  }

  /** What the messages of a turn behind its first show when nothing is silent. */
  function Following(items: seq<Item>, c: nat, d: nat, render: Render): seq<HistoryMessage>
    requires c <= d <= |items|
  {
    if d == c then [] else Following(items, c, d - 1, render) + render(items[d - 1].m, items[d - 1].checkpoint)
  }

  lemma {:induction false} PlainTurn(items: seq<Item>, c: nat, d: nat, display: seq<HistoryMessage>, render: Render)
    requires IsTurn(items, c, d) && !Cancels(display)
    ensures var p := Pending(map[items[c].m.hash := [display]], false);
            && Fold(p, items, c, d, render).0
               == (render(items[c].m, items[c].checkpoint) + display) + Following(items, c + 1, d, render)
            && !Fold(p, items, c, d, render).1.suppress
  {
    var p := Pending(map[items[c].m.hash := [display]], false);
    if d == c + 1 {
      FirstOfTurn(p, items, c, render);
    } else {
      PlainTurn(items, c, d - 1, display, render);
      PlainStep(Fold(p, items, c, d - 1, render), items, d - 1, render);
      Regroup(render(items[c].m, items[c].checkpoint) + display, Following(items, c + 1, d - 1, render),
              render(items[d - 1].m, items[d - 1].checkpoint));
    }
  }

  lemma PlainStep(r: (seq<HistoryMessage>, Pending), items: seq<Item>, i: nat, render: Render)
    requires i < |items| && !IsVisible(items, i) && !r.1.suppress
    ensures var q := Shows(r, items[i].m, items[i].checkpoint, render);
            q.0 == r.0 + render(items[i].m, items[i].checkpoint) && !q.1.suppress
  {
    var x := render(items[i].m, items[i].checkpoint);
    assert r.0 + x + [] == r.0 + x;
  }

  /** So two displays that do not cancel show the same only if they are the same. */
  lemma PlainTurnsDiffer(items: seq<Item>, c: nat, d: nat, x: seq<HistoryMessage>, y: seq<HistoryMessage>,
                         render: Render)
    requires IsTurn(items, c, d) && !Cancels(x) && !Cancels(y)
    ensures TurnShown(items, c, d, x, render) == TurnShown(items, c, d, y, render) <==> x == y
  {
    PlainTurn(items, c, d, x, render);
    PlainTurn(items, c, d, y, render);
    Middle(render(items[c].m, items[c].checkpoint), x, y, Following(items, c + 1, d, render));
  }

  lemma Middle<T>(a: seq<T>, x: seq<T>, y: seq<T>, b: seq<T>)
    ensures (a + x) + b == (a + y) + b <==> x == y
  {
    if (a + x) + b == (a + y) + b {
      assert |x| == |y|;
      assert x == ((a + x) + b)[|a|..|a| + |x|] == ((a + y) + b)[|a|..|a| + |y|] == y;
    }
  }

  lemma PlainAlike(planner: Planner, items: seq<Item>, starts: seq<bool>, render: Render)
    requires Fits(items, starts) && NeverCancels(planner)
    ensures TurnsAgree(planner, items, starts, render) <==> Alike(planner, items)
  {
    forall turn | 0 < turn < Turns(starts, |starts|)
      ensures Agrees(planner, items, starts, turn, turn, render) <==> AlikeAt(planner, items, Cut(starts, turn))
    {
      var c, d := Cut(starts, turn), Cut(starts, turn + 1);
      CutIsTurn(items, starts, turn);
      PlainTurnsDiffer(items, c, d, First(planner, items, c), Due(planner, items, 0, c), render);
    }
    if TurnsAgree(planner, items, starts, render) {
      forall j | 0 <= j < |items| ensures AlikeAt(planner, items, j) {
        if IsVisible(items, j) && Occurrences(items, 0, j, items[j].m.hash) > 0 {
          var i := OccurrenceBefore(items, j, items[j].m.hash);
          OpensTurn(items, starts, i, j);
          var t := TurnOf(starts, j);
          assert Agrees(planner, items, starts, t, t, render);
        }
      }
    }
  }

  /** When no display cancels: every walk tiles, or already the one of single turns, if and
      only if every text is due its first display each time it is sent. */
  lemma PlainTilesExactly(msgs: seq<ProviderMessage>, checkpoints: map<nat, int>, planner: Planner, lookups: Lookups)
    requires Total(msgs) > 0 && UsersAreSent(msgs) && Recorded(planner) && NeverCancels(planner)
    ensures EveryWalkTiles(msgs, checkpoints, planner, lookups) <==> Alike(planner, Items(msgs, checkpoints))
    ensures Tiles(msgs, checkpoints, planner, lookups, 0, Ones(Total(msgs)))
            <==> Alike(planner, Items(msgs, checkpoints))
  {
    var items := Items(msgs, checkpoints);
    PlainAlike(planner, items, Starts(msgs), Rendering(lookups));
    SinglesTile(msgs, checkpoints, planner, lookups);
    if Alike(planner, items) {
      AlikeTilesExactly(msgs, checkpoints, planner, lookups);
    } else if EveryWalkTiles(msgs, checkpoints, planner, lookups) {
      EveryIncludesSingles(msgs, checkpoints, planner, lookups);
    }
  }
}
