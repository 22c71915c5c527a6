/**
 Rendering with planner displays (desktop/app.go), as a fold over messages: what each
 message adds and what display it is due, as long as no visible message is skipped.

 A page renders one stretch of the transcript from a fresh state, the whole transcript
 renders it from the state that earlier messages left.  Displays are counted by text: the
 n-th visible message with a text, from where rendering starts, is due its n-th display.
 */
module PlannerRuns {
  import opened Wrappers
  import opened HistoryPages

  // ---- Rendering as a fold ----

  datatype Item = Item(m: ProviderMessage, checkpoint: Option<int>)

  function Items(msgs: seq<ProviderMessage>, checkpoints: map<nat, int>): (r: seq<Item>)
    ensures |r| == |msgs|
  {
    seq(|msgs|, i requires 0 <= i < |msgs| => Item(msgs[i], CheckpointAt(checkpoints, i)))
  }

  /** What one message contributes to the history, outside planner displays. */
  type Render = (ProviderMessage, Option<int>) -> seq<HistoryMessage>

  function Rendering(lookups: Lookups): Render
  {
    (m: ProviderMessage, checkpoint: Option<int>) => Rendered(m, checkpoint, lookups)
  }

  /** The history and the planner state after one more message. */
  function Shows(before: (seq<HistoryMessage>, Pending), m: ProviderMessage, checkpoint: Option<int>, render: Render)
    : (seq<HistoryMessage>, Pending)
  {
    if Skips(before.1, m) then before
    else (before.0 + render(m, checkpoint) + Planned(before.1, m), NextPending(before.1, m))
  }

  /** What the messages from c up to d add to the history, and the planner state behind
      them. */
  function Fold(p: Pending, items: seq<Item>, c: nat, d: nat, render: Render): (seq<HistoryMessage>, Pending)
    requires c <= d <= |items|
  {
    if d == c then ([], p)
    else Shows(Fold(p, items, c, d - 1, render), items[d - 1].m, items[d - 1].checkpoint, render)
  }

  lemma FoldIsRendered(msgs: seq<ProviderMessage>, checkpoints: map<nat, int>, planner: Planner,
                       lookups: Lookups, n: nat)
    requires n <= |msgs|
    ensures RenderedPrefix(msgs, checkpoints, planner, lookups, n)
         == Fold(Pending(planner, false), Items(msgs, checkpoints), 0, n, Rendering(lookups))
  {
    var items := Items(msgs, checkpoints);
    forall k | 0 <= k < n
      ensures RenderedTo(msgs, checkpoints, planner, lookups, k + 1)
           == Shows(RenderedTo(msgs, checkpoints, planner, lookups, k), items[k].m, items[k].checkpoint,
             Rendering(lookups))
    {
      ShowsIsAfter(RenderedTo(msgs, checkpoints, planner, lookups, k), msgs[k], CheckpointAt(checkpoints, k), lookups);
    }
    FoldFollows(Pending(planner, false), items, 0, n, Rendering(lookups),
                (k: nat) => RenderedTo(msgs, checkpoints, planner, lookups, k));
  }

  function RenderedTo(msgs: seq<ProviderMessage>, checkpoints: map<nat, int>, planner: Planner, lookups: Lookups,
                      k: nat)
    : (seq<HistoryMessage>, Pending)
  {
    if k <= |msgs| then RenderedPrefix(msgs, checkpoints, planner, lookups, k) else ([], Pending(planner, false))
  }

  lemma ShowsIsAfter(before: (seq<HistoryMessage>, Pending), m: ProviderMessage, checkpoint: Option<int>,
                     lookups: Lookups)
    ensures Shows(before, m, checkpoint, Rendering(lookups)) == After(before, m, checkpoint, lookups)
  {
  }

  function Prefixed(out: seq<HistoryMessage>, r: (seq<HistoryMessage>, Pending)): (seq<HistoryMessage>, Pending)
  {
    (out + r.0, r.1)
  }

  lemma AfterPrefixed(out: seq<HistoryMessage>, r: (seq<HistoryMessage>, Pending), item: Item, render: Render)
    ensures Shows(Prefixed(out, r), item.m, item.checkpoint, render)
            == Prefixed(out, Shows(r, item.m, item.checkpoint, render))
  {
    if !Skips(r.1, item.m) {
      var x, y := render(item.m, item.checkpoint), Planned(r.1, item.m);
      assert out + r.0 + x + y == out + (r.0 + x + y);
    }
  }

  lemma {:induction false} FoldConcat(p: Pending, items: seq<Item>, c: nat, d: nat, e: nat, render: Render)
    requires c <= d <= e <= |items|
    ensures Fold(p, items, c, e, render)
         == Prefixed(Fold(p, items, c, d, render).0, Fold(Fold(p, items, c, d, render).1, items, d, e, render))
  {
    var r := Fold(p, items, c, d, render);
    if e == d {
      assert r.0 + [] == r.0;
    } else {
      FoldConcat(p, items, c, d, e - 1, render);
      AfterPrefixed(r.0, Fold(r.1, items, d, e - 1, render), items[e - 1], render);
    }
  }

  /** Rendering depends on the messages, not on where they lie. */
  lemma {:induction false} FoldShifted(p: Pending, a: seq<Item>, b: seq<Item>, c: nat, n: nat, render: Render)
    requires c + n <= |b| && n <= |a| && forall k :: 0 <= k < n ==> a[k] == b[c + k]
    ensures Fold(p, a, 0, n, render) == Fold(p, b, c, c + n, render)
  {
    if n > 0 {
      FoldShifted(p, a, b, c, n - 1, render);
    }
  }

  // ---- Where turns begin ----

  /** The position of the first message of a turn, counting what precedes the first turn
      to it; the end of the transcript for the turn after the last. */
  function Cut(starts: seq<bool>, turn: nat): (n: nat)
    ensures n <= |starts|
  {
    if turn == 0 then 0 else Upto(starts, turn, |starts|)
  }

  /** The longest prefix of at most n messages with at most that many turns. */
  function Upto(starts: seq<bool>, turns: nat, n: nat): (r: nat)
    requires n <= |starts|
    ensures r <= n && Turns(starts, r) <= turns
    ensures forall k :: r < k <= n ==> Turns(starts, k) > turns
  {
    if Turns(starts, n) <= turns then n else Upto(starts, turns, n - 1)
  }

  lemma CutStarts(starts: seq<bool>, turn: nat)
    requires 0 < turn < Turns(starts, |starts|)
    ensures var c := Cut(starts, turn); c < |starts| && starts[c] && Turns(starts, c) == turn
  {
    var c := Cut(starts, turn);
    assert c < |starts|;
    assert Turns(starts, c + 1) > turn;
  }

  lemma CutsGrow(starts: seq<bool>, a: nat, b: nat)
    requires a <= b
    ensures Cut(starts, a) <= Cut(starts, b)
  {
    var x := Cut(starts, a);
    assert b > 0 && x > Cut(starts, b) ==> Turns(starts, x) > b;
  }

  lemma LastCut(starts: seq<bool>, turn: nat)
    requires turn > 0 && turn >= Turns(starts, |starts|)
    ensures Cut(starts, turn) == |starts|
  {
  }

  /** A message lies at or behind a turn's cut exactly if its turn is that one or later. */
  lemma BehindCut(starts: seq<bool>, turn: nat, i: nat)
    requires i < |starts| && turn > 0
    ensures Cut(starts, turn) <= i <==> TurnOf(starts, i) >= turn
  {
    var c := Cut(starts, turn);
    if c <= i {
      assert Turns(starts, i + 1) > turn;
    } else {
      TurnsGrow(starts, i + 1, c);
    }
  }

  function Between(a: nat, b: nat): (r: seq<nat>)
    ensures |r| == if a <= b then b - a else 0
    ensures forall k :: 0 <= k < |r| ==> r[k] == a + k
  {
    if a < b then Between(a, b - 1) + [b - 1] else []
  }

  function Min(a: nat, b: nat): nat
  {
    if a < b then a else b
  }

  /** A range of turns selects one stretch of messages. */
  lemma {:induction false} SelectedIsStretch(starts: seq<bool>, from: nat, to: nat, n: nat)
    requires n <= |starts| && from < to
    ensures Selected(starts, from, to, n) == Between(Cut(starts, from), Min(n, Cut(starts, to)))
  {
    if n > 0 {
      SelectedIsStretch(starts, from, to, n - 1);
      InStretch(starts, from, to, n - 1);
    }
  }

  lemma InStretch(starts: seq<bool>, from: nat, to: nat, i: nat)
    requires i < |starts| && from < to
    ensures Cut(starts, from) <= Cut(starts, to)
    ensures InRange(TurnOf(starts, i), from, to) <==> Cut(starts, from) <= i < Cut(starts, to)
  {
    BehindCut(starts, to, i);
    CutsGrow(starts, from, to);
    if from > 0 {
      BehindCut(starts, from, i);
    }
  }

  /** A provider page renders one stretch, with every display still to be consumed. */
  lemma PageIsFold(msgs: seq<ProviderMessage>, checkpoints: map<nat, int>, planner: Planner, lookups: Lookups, r: Range)
    requires r.start < r.end && msgs != []
    ensures var c, d := Cut(Starts(msgs), r.start), Cut(Starts(msgs), r.end);
            c <= d && ProviderPage(msgs, checkpoints, planner, lookups, r)
                      == Fold(Pending(planner, false), Items(msgs, checkpoints), c, d, Rendering(lookups)).0
  {
    var starts := Starts(msgs);
    var c, d := Cut(starts, r.start), Cut(starts, r.end);
    CutsGrow(starts, r.start, r.end);
    SelectedIsStretch(starts, r.start, r.end, |starts|);
    assert PageIndexes(starts, r) == Between(c, d);
    PickedStretch(msgs, checkpoints, c, d);
    StretchIsFold(Pick(msgs, Between(c, d)), Remapped(checkpoints, Between(c, d)), Items(msgs, checkpoints), planner,
      lookups, c, d);
  }

  lemma StretchIsFold(picked: seq<ProviderMessage>, remapped: map<nat, int>, items: seq<Item>, planner: Planner,
                      lookups: Lookups, c: nat, d: nat)
    requires c <= d <= |items| && |picked| == d - c
    requires forall k :: 0 <= k < d - c ==> Items(picked, remapped)[k] == items[c + k]
    ensures RenderedPrefix(picked, remapped, planner, lookups, d - c)
         == Fold(Pending(planner, false), items, c, d, Rendering(lookups))
  {
    FoldIsRendered(picked, remapped, planner, lookups, d - c);
    SameStretch(Pending(planner, false), Items(picked, remapped), items, c, d, Rendering(lookups));
  }

  lemma SameStretch(p: Pending, a: seq<Item>, b: seq<Item>, c: nat, d: nat, render: Render)
    requires c <= d <= |b| && |a| == d - c && forall k :: 0 <= k < d - c ==> a[k] == b[c + k]
    ensures Fold(p, a, 0, d - c, render) == Fold(p, b, c, d, render)
  {
    FoldShifted(p, a, b, c, d - c, render);
  }

  lemma PickedStretch(msgs: seq<ProviderMessage>, checkpoints: map<nat, int>, c: nat, d: nat)
    requires c <= d <= |msgs|
    ensures var items := Items(Pick(msgs, Between(c, d)), Remapped(checkpoints, Between(c, d)));
            |items| == d - c && forall k :: 0 <= k < d - c ==> items[k] == Items(msgs, checkpoints)[c + k]
  {
    var picked, remapped := Pick(msgs, Between(c, d)), Remapped(checkpoints, Between(c, d));
    forall k | 0 <= k < d - c ensures Items(picked, remapped)[k] == Items(msgs, checkpoints)[c + k] {
      assert CheckpointAt(remapped, k) == CheckpointAt(checkpoints, Between(c, d)[k]);
    }
  }

  // ---- What a display is due ----

  predicate IsVisible(items: seq<Item>, i: nat)
    requires i < |items|
  {
    VisibleUser(items[i].m)
  }

  /** How many visible messages with this text lie from a up to n. */
  function Occurrences(items: seq<Item>, a: nat, n: nat, hash: string): nat
    requires a <= n <= |items|
  {
    if n == a then 0
    else Occurrences(items, a, n - 1, hash) + if IsVisible(items, n - 1) && items[n - 1].m.hash == hash then 1 else 0
  }

  function Nth(planner: Planner, hash: string, k: nat): seq<HistoryMessage>
  {
    if hash in planner && k < |planner[hash]| then planner[hash][k] else []
  }

  /** The display of message n when rendering starts at a with all displays pending. */
  function Due(planner: Planner, items: seq<Item>, a: nat, n: nat): seq<HistoryMessage>
    requires a <= n < |items|
  {
    Nth(planner, items[n].m.hash, Occurrences(items, a, n, items[n].m.hash))
  }

  /** The first display stored for message n's text. */
  function First(planner: Planner, items: seq<Item>, n: nat): seq<HistoryMessage>
    requires n < |items|
  {
    Nth(planner, items[n].m.hash, 0)
  }

  function Dropped<T>(s: seq<T>, k: nat): seq<T>
  {
    if k <= |s| then s[k..] else []
  }

  /** The displays left once the messages from a up to n have had theirs. */
  function Left(planner: Planner, items: seq<Item>, a: nat, n: nat): Planner
    requires a <= n <= |items|
  {
    map hash | hash in planner :: Dropped(planner[hash], Occurrences(items, a, n, hash))
  }

  /** The message ends the silence after a cancelling display. */
  predicate Wakes(m: ProviderMessage)
  {
    m.role.User? && m.authored && !(m.localOnly && m.steer.Some?)
  }

  predicate Exempt(m: ProviderMessage)
  {
    m.localOnly && m.steer.Some?
  }

  /** Rendering from a is silent at n, if no visible message before n was skipped. */
  predicate Asleep(planner: Planner, items: seq<Item>, a: nat, n: nat)
    requires a <= n <= |items|
  {
    n > a &&
    if IsVisible(items, n - 1) then Cancels(Due(planner, items, a, n - 1))
    else Asleep(planner, items, a, n - 1) && !Wakes(items[n - 1].m)
  }

  /** The first visible message that silence swallows. */
  predicate SkippedAt(planner: Planner, items: seq<Item>, a: nat, i: nat)
    requires a <= i < |items|
  {
    IsVisible(items, i) && Asleep(planner, items, a, i) && !Wakes(items[i].m)
  }

  /** No visible message from a up to n is skipped. */
  ghost predicate Unskipped(planner: Planner, items: seq<Item>, a: nat, n: nat)
    requires a <= n <= |items|
  {
    forall i :: a <= i < n ==> !SkippedAt(planner, items, a, i)
  }

  /** What message n adds when rendering starts at a. */
  function Adds(planner: Planner, items: seq<Item>, a: nat, n: nat, render: Render): seq<HistoryMessage>
    requires a <= n < |items|
  {
    var m := items[n].m;
    if Asleep(planner, items, a, n) && !Exempt(m) && !Wakes(m) then []
    else render(m, items[n].checkpoint) + if IsVisible(items, n) then Due(planner, items, a, n) else []
  }

  /** What the messages from a up to d add when rendering starts at a. */
  function Added(planner: Planner, items: seq<Item>, a: nat, d: nat, render: Render): seq<HistoryMessage>
    requires a <= d <= |items|
  {
    if d == a then [] else Added(planner, items, a, d - 1, render) + Adds(planner, items, a, d - 1, render)
  }

  /** The planner state behind the messages from a up to n. */
  function StateAt(planner: Planner, items: seq<Item>, a: nat, n: nat): Pending
    requires a <= n <= |items|
  {
    Pending(Left(planner, items, a, n), Asleep(planner, items, a, n))
  }

  lemma LeftStep(planner: Planner, items: seq<Item>, a: nat, n: nat)
    requires a <= n < |items|
    ensures !IsVisible(items, n) ==> Left(planner, items, a, n + 1) == Left(planner, items, a, n)
    ensures IsVisible(items, n) ==>
      var left, h := Left(planner, items, a, n), items[n].m.hash;
      && Planned(Pending(left, false), items[n].m) == Due(planner, items, a, n)
      && Left(planner, items, a, n + 1) == if h in left && left[h] != [] then left[h := left[h][1..]] else left
  {
  }

  lemma StateStep(planner: Planner, items: seq<Item>, a: nat, n: nat)
    requires a <= n < |items| && Unskipped(planner, items, a, n + 1)
    ensures var p, m := StateAt(planner, items, a, n), items[n].m;
            if Skips(p, m) then StateAt(planner, items, a, n + 1) == p
            else NextPending(p, m) == StateAt(planner, items, a, n + 1)
  {
    LeftStep(planner, items, a, n);
    assert !SkippedAt(planner, items, a, n);
  }

  /** Rendering from a, as long as no visible message is skipped. */
  lemma RunShape(planner: Planner, items: seq<Item>, a: nat, n: nat, render: Render)
    requires a <= n <= |items| && Unskipped(planner, items, a, n)
    ensures Fold(Pending(planner, false), items, a, n, render) == RunTo(planner, items, a, n, render)
  {
    RunStarts(planner, items, a, render);
    forall k | a <= k < n
      ensures RunTo(planner, items, a, k + 1, render)
           == Shows(RunTo(planner, items, a, k, render), items[k].m, items[k].checkpoint, render)
    {
      assert Unskipped(planner, items, a, k + 1);
      RunStep(planner, items, a, k, render);
    }
    FoldFollows(Pending(planner, false), items, a, n, render, (k: nat) => RunTo(planner, items, a, k, render));
  }

  lemma RunStarts(planner: Planner, items: seq<Item>, a: nat, render: Render)
    requires a <= |items|
    ensures RunTo(planner, items, a, a, render) == ([], Pending(planner, false))
  {
    assert Left(planner, items, a, a) == planner;
  }

  /** Where rendering from a stands at k, as long as no visible message is skipped. */
  function RunTo(planner: Planner, items: seq<Item>, a: nat, k: nat, render: Render): (seq<HistoryMessage>, Pending)
  {
    if a <= k <= |items| then (Added(planner, items, a, k, render), StateAt(planner, items, a, k))
    else ([], Pending(planner, false))
  }

  lemma {:induction false} FoldFollows(p: Pending, items: seq<Item>, a: nat, n: nat, render: Render,
                                       run: nat -> (seq<HistoryMessage>, Pending))
    requires a <= n <= |items| && run(a) == ([], p)
    requires forall k :: a <= k < n ==> run(k + 1) == Shows(run(k), items[k].m, items[k].checkpoint, render)
    ensures Fold(p, items, a, n, render) == run(n)
  {
    if n > a {
      FoldFollows(p, items, a, n - 1, render, run);
    }
  }

  lemma RunStep(planner: Planner, items: seq<Item>, a: nat, n: nat, render: Render)
    requires a <= n < |items| && Unskipped(planner, items, a, n + 1)
    ensures RunTo(planner, items, a, n + 1, render)
         == Shows(RunTo(planner, items, a, n, render), items[n].m, items[n].checkpoint, render)
  {
    StateStep(planner, items, a, n);
    AddsStep(planner, items, a, n, render);
  }

  lemma AddsStep(planner: Planner, items: seq<Item>, a: nat, n: nat, render: Render)
    requires a <= n < |items| && Unskipped(planner, items, a, n + 1)
    ensures var p, m, out := StateAt(planner, items, a, n), items[n].m, Added(planner, items, a, n, render);
            Shows((out, p), m, items[n].checkpoint, render).0 == Added(planner, items, a, n + 1, render)
  {
    var p, m, out := StateAt(planner, items, a, n), items[n].m, Added(planner, items, a, n, render);
    LeftStep(planner, items, a, n);
    assert !SkippedAt(planner, items, a, n);
    var x := render(m, items[n].checkpoint);
    var y := if IsVisible(items, n) then Due(planner, items, a, n) else [];
    assert out + x + y == out + (x + y) && out + [] == out;
    assert !Skips(p, m) ==> Planned(p, m) == y;
  }
}
