/** Paged conversation history (desktop/app.go). */
module HistoryPages {
  // A page is a range of user turns; a client walks back by asking for the turns before
  // the page it has.  The module proves that the pages of such a walk, joined oldest
  // first, are the whole history, both for display messages and for provider messages that
  // are selected first and rendered with remapped checkpoint indexes.

  import opened Wrappers
  import opened Strings

  const DEFAULT_TURNS := 60
  const MAX_TURNS := 200

  // ---- Which messages a range of turns selects ----

  /** `starts[i]` says whether message i opens a turn; turns count from 0, and the
      messages before the first turn have turn -1. */
  function TurnOf(starts: seq<bool>, i: nat): int
    requires i < |starts|
  {
    Turns(starts, i + 1) - 1
  }

  /** How many of the first n messages open a turn. */
  function Turns(starts: seq<bool>, n: nat): nat
    requires n <= |starts|
  {
    if n == 0 then 0 else Turns(starts, n - 1) + if starts[n - 1] then 1 else 0
  }

  predicate InRange(turn: int, from: nat, to: nat)
  {
    if turn < 0 then from == 0 else from <= turn < to
  }

  /** The indexes below n that the range selects, in order. */
  function Selected(starts: seq<bool>, from: nat, to: nat, n: nat): (r: seq<nat>)
    requires n <= |starts|
    ensures forall k :: 0 <= k < |r| ==> r[k] < n
  {
    if n == 0 then []
    else Selected(starts, from, to, n - 1) + if InRange(TurnOf(starts, n - 1), from, to) then [n - 1] else []
  }

  function UpTo(n: nat): seq<nat>
  {
    seq(n, i => i)
  }

  lemma {:induction false} TurnsGrow(starts: seq<bool>, m: nat, n: nat)
    requires m <= n <= |starts|
    ensures Turns(starts, m) <= Turns(starts, n)
  {
    if m < n {
      TurnsGrow(starts, m, n - 1);
    }
  }

  /** No message below n belongs to a turn from `from` on unless n has reached it. */
  lemma {:induction false} NothingYet(starts: seq<bool>, from: nat, to: nat, n: nat)
    requires n <= |starts| && 0 < from && Turns(starts, n) <= from
    ensures Selected(starts, from, to, n) == []
  {
    if n > 0 {
      TurnsGrow(starts, n - 1, n);
      NothingYet(starts, from, to, n - 1);
    }
  }

  /** Two adjacent ranges select together what their union selects. */
  lemma {:induction false} RangesTile(starts: seq<bool>, a: nat, b: nat, c: nat, n: nat)
    requires n <= |starts| && a <= b <= c && 0 < b
    ensures Selected(starts, a, b, n) + Selected(starts, b, c, n) == Selected(starts, a, c, n)
  {
    if n > 0 {
      RangesTile(starts, a, b, c, n - 1);
      if TurnOf(starts, n - 1) < b {
        TurnsGrow(starts, n - 1, n);
        NothingYet(starts, b, c, n - 1);
      }
    }
  }

  lemma {:induction false} AllTurnsSelectAll(starts: seq<bool>, n: nat)
    requires n <= |starts|
    ensures Selected(starts, 0, Turns(starts, |starts|), n) == UpTo(n)
  {
    if n > 0 {
      AllTurnsSelectAll(starts, n - 1);
      TurnsGrow(starts, n, |starts|);
    }
  }

  function Pick<M>(messages: seq<M>, indexes: seq<nat>): seq<M>
    requires forall k :: 0 <= k < |indexes| ==> indexes[k] < |messages|
  {
    seq(|indexes|, k requires 0 <= k < |indexes| => messages[indexes[k]])
  }

  /** historyMessagesForTurnRange and providerMessagesForVisibleTurnRange: one pass that
      counts turns as it goes. */
  method ForTurnRange<M>(messages: seq<M>, starts: seq<bool>, from: nat, to: nat)
    returns (out: seq<M>, indexes: seq<nat>)
    requires |starts| == |messages|
    ensures indexes == Selected(starts, from, to, |starts|)
    ensures out == Pick(messages, indexes)
  {
    out, indexes := [], [];
    var turn := -1;
    for i := 0 to |messages|
      invariant turn == Turns(starts, i) - 1
      invariant indexes == Selected(starts, from, to, i)
      invariant out == Pick(messages, indexes)
    {
      if starts[i] {
        turn := turn + 1;
      }
      if turn < 0 {
        if from == 0 {
          out, indexes := out + [messages[i]], indexes + [i];
        }
      } else if from <= turn < to {
        out, indexes := out + [messages[i]], indexes + [i];
      }
    }
  }

  // ---- Pages of turns and the walk back ----

  function Limit(limit: int): (r: nat)
    ensures 1 <= r <= MAX_TURNS
  {
    if limit <= 0 then DEFAULT_TURNS else if limit > MAX_TURNS then MAX_TURNS else limit
  }

  datatype Range = Range(start: nat, end: nat, total: nat)
  {
    predicate HasOlder() { start > 0 }
  }

  /** The turn range of a page; a bound outside the history means the newest page. */
  function PageRange(total: nat, before: int, limit: int): (r: Range)
    ensures r.start <= r.end <= r.total == total
    ensures total > 0 ==> r.start < r.end
  {
    var end := if before <= 0 || before > total then total else before;
    var start := end - Limit(limit);
    Range(if start < 0 then 0 else start, end, total)
  }

  /** The message indexes of a page: nothing at all if no turn lies in the range. */
  function PageIndexes(starts: seq<bool>, r: Range): (indexes: seq<nat>)
    ensures forall k :: 0 <= k < |indexes| ==> indexes[k] < |starts|
  {
    if |starts| == 0 || r.start >= r.end then [] else Selected(starts, r.start, r.end, |starts|)
  }

  /** historyPageFromMessages, the page's messages. */
  method HistoryPage<M>(messages: seq<M>, starts: seq<bool>, before: int, limit: int) returns (r: Range, page: seq<M>)
    requires |starts| == |messages|
    ensures r == PageRange(Turns(starts, |starts|), before, limit)
    ensures page == Pick(messages, PageIndexes(starts, r))
  {
    var total := 0;
    for i := 0 to |starts|
      invariant total == Turns(starts, i)
    {
      if starts[i] {
        total := total + 1;
      }
    }
    r := PageRange(total, before, limit);
    if |messages| == 0 || r.start >= r.end {
      return r, [];
    }
    var indexes;
    page, indexes := ForTurnRange(messages, starts, r.start, r.end);
  }

  /** The ranges of a walk: each page is asked for with the previous one's StartTurn,
      until no page is older or the page sizes run out.  Newest first. */
  function Walk(total: nat, before: int, limits: seq<int>): seq<Range>
    decreases |limits|
  {
    if limits == [] then []
    else
      var r := PageRange(total, before, limits[0]);
      [r] + if r.HasOlder() then Walk(total, r.start, limits[1..]) else []
  }

  /** The pages of a walk joined oldest first. */
  function Joined(starts: seq<bool>, ranges: seq<Range>): (joined: seq<nat>)
    ensures forall k :: 0 <= k < |joined| ==> joined[k] < |starts|
  {
    if ranges == [] then [] else
      Joined(starts, ranges[1..]) + PageIndexes(starts, ranges[0])
  }

  lemma {:induction false} WalkTiles(starts: seq<bool>, before: int, limits: seq<int>)
    requires Turns(starts, |starts|) > 0
    requires var end := PageRange(Turns(starts, |starts|), before, 1).end; |limits| >= end
    ensures var total := Turns(starts, |starts|);
            Joined(starts, Walk(total, before, limits))
              == Selected(starts, 0, PageRange(total, before, 1).end, |starts|)
    decreases |limits|
  {
    var total := Turns(starts, |starts|);
    var r := PageRange(total, before, limits[0]);
    if r.HasOlder() {
      WalkTiles(starts, r.start, limits[1..]);
      RangesTile(starts, 0, r.start, r.end, |starts|);
      assert Walk(total, before, limits)[1..] == Walk(total, r.start, limits[1..]);
    } else {
      assert Walk(total, before, limits)[1..] == [];
      assert Joined(starts, []) == [];
    }
  }

  /** historyPageFromMessages tiles: a walk from the newest page, with any page sizes and
      long enough to reach the first turn, joins to exactly the list of messages if and
      only if some message is a user turn or there is no message at all. */
  lemma MessagePagesTile<M>(messages: seq<M>, starts: seq<bool>, before: int, limits: seq<int>)
    requires |starts| == |messages|
    requires before <= 0 || before > Turns(starts, |starts|)
    requires limits != [] && |limits| >= Turns(starts, |starts|)
    ensures var joined := Joined(starts, Walk(Turns(starts, |starts|), before, limits));
            (joined == UpTo(|messages|) <==> Turns(starts, |starts|) > 0 || messages == [])
            && (Pick(messages, joined) == messages <==> Turns(starts, |starts|) > 0 || messages == [])
  {
    var total := Turns(starts, |starts|);
    if total > 0 {
      WalkTiles(starts, before, limits);
      AllTurnsSelectAll(starts, |starts|);
    } else {
      var r := PageRange(0, before, limits[0]);
      assert Walk(0, before, limits) == [r];
      assert Joined(starts, []) == [];
      assert Joined(starts, [r]) == [];
    }
  }

  // ---- Provider messages, rendered ----

  datatype Role = User | Assistant | Tool

  datatype ToolCall = ToolCall(id: string, name: string, arguments: string)

  /** A provider message with what the text functions say of it: `steer` is a mid-turn
      steer's text, `display` what a user message or a tool result shows, `synthetic` a
      message no user wrote, `authored` one a user did, `hash` its planner key. */
  datatype ProviderMessage = ProviderMessage(
    role: Role, localOnly: bool, content: string, steer: Option<string>, display: string, synthetic: bool,
    authored: bool, hash: string, reasoning: string, calls: seq<ToolCall>, callId: string, interrupted: bool)

  datatype Shown = ShownRole(role: Role) | WarningNotice | SteerNotice | CancelledNotice

  datatype HistoryMessage = HistoryMessage(
    shown: Shown, content: string, checkpoint: Option<int>, reasoning: string,
    calls: seq<(ToolCall, Option<string>)>, callId: string)

  function Notice(shown: Shown, content: string): HistoryMessage
  {
    HistoryMessage(shown, content, None, "", [], "")
  }

  /** What rendering looks up in the whole transcript, on every page alike. */
  datatype Lookups = Lookups(todoArgs: map<string, string>, results: map<string, string>)

  predicate VisibleUser(m: ProviderMessage)
  {
    m.role.User? && m.steer.None? && !m.synthetic
  }

  function Starts(msgs: seq<ProviderMessage>): (r: seq<bool>)
    ensures |r| == |msgs|
  {
    seq(|msgs|, i requires 0 <= i < |msgs| => VisibleUser(msgs[i]))
  }

  function Call(c: ToolCall, lookups: Lookups): (ToolCall, Option<string>)
  {
    (if c.name == "todo_write" && c.id in lookups.todoArgs then c.(arguments := lookups.todoArgs[c.id]) else c,
     if c.id in lookups.results then Some(lookups.results[c.id]) else None)
  }

  function Calls(calls: seq<ToolCall>, lookups: Lookups): (r: seq<(ToolCall, Option<string>)>)
    ensures |r| == |calls| && forall i :: 0 <= i < |calls| ==> r[i] == Call(calls[i], lookups)
  {
    if calls == [] then [] else Calls(calls[..|calls| - 1], lookups) + [Call(calls[|calls| - 1], lookups)]
  }

  /** What one message contributes to the history, outside planner displays. */
  function Rendered(m: ProviderMessage, checkpoint: Option<int>, lookups: Lookups): seq<HistoryMessage>
  {
    if m.localOnly && m.steer.Some? then [Notice(WarningNotice, m.steer.value)]
    else if m.role.User? && m.steer.Some? then [Notice(SteerNotice, m.steer.value)]
    else if m.role.User? && m.synthetic then []
    else
      var spoken := m.role.Assistant? || m.localOnly;
      var tool := m.role.Tool? && !m.localOnly;
      var hm := HistoryMessage(
        ShownRole(if m.localOnly then Assistant else m.role),
        if m.role.User? || tool then m.display else m.content,
        if m.role.User? then checkpoint else None,
        if spoken then m.reasoning else "",
        if spoken then Calls(m.calls, lookups) else [],
        if tool then m.callId else "");
      (if !m.localOnly || TrimSpace(hm.content) != "" || TrimSpace(hm.reasoning) != "" || hm.calls != []
       then [hm] else [])
      + if m.localOnly && m.interrupted then [Notice(CancelledNotice, "")] else []
  }

  function CheckpointAt(checkpoints: map<nat, int>, index: nat): Option<int>
  {
    if index in checkpoints then Some(checkpoints[index]) else None
  }

  /** desktopPlannerTurnsForHistory: per user text, the displays recorded, in order. */
  type Planner = map<string, seq<seq<HistoryMessage>>>

  /** Planner displays still to be consumed, by user text; a cancelled one suppresses
      the canonical messages up to the next turn a user wrote. */
  datatype Pending = Pending(planner: Planner, suppress: bool)

  /** plannerDisplaySuppressesCanonical. */
  predicate Cancels(turn: seq<HistoryMessage>)
  {
    exists k :: 0 <= k < |turn| && turn[k].shown.CancelledNotice?
  }

  predicate Skips(p: Pending, m: ProviderMessage)
  {
    p.suppress && !(m.localOnly && m.steer.Some?) && !(m.role.User? && m.authored)
  }

  function Planned(p: Pending, m: ProviderMessage): seq<HistoryMessage>
  {
    if VisibleUser(m) && m.hash in p.planner && p.planner[m.hash] != [] then p.planner[m.hash][0] else []
  }

  function NextPending(p: Pending, m: ProviderMessage): Pending
  {
    if m.localOnly && m.steer.Some? then p
    else
      var awake := p.(suppress := p.suppress && !(m.role.User? && m.authored));
      if !awake.suppress && VisibleUser(m) && m.hash in p.planner && p.planner[m.hash] != [] then
        Pending(p.planner[m.hash := p.planner[m.hash][1..]],
                Cancels(p.planner[m.hash][0]))
      else awake
  }

  /** The history and the planner state after one more message. */
  function After(before: (seq<HistoryMessage>, Pending), m: ProviderMessage, checkpoint: Option<int>, lookups: Lookups)
    : (seq<HistoryMessage>, Pending)
  {
    if Skips(before.1, m) then before
    else (before.0 + Rendered(m, checkpoint, lookups) + Planned(before.1, m), NextPending(before.1, m))
  }

  /** The history of the first n messages and the planner state behind them. */
  function RenderedPrefix(msgs: seq<ProviderMessage>, checkpoints: map<nat, int>, planner: Planner,
                          lookups: Lookups, n: nat): (seq<HistoryMessage>, Pending)
    requires n <= |msgs|
  {
    if n == 0 then ([], Pending(planner, false))
    else
      After(RenderedPrefix(msgs, checkpoints, planner, lookups, n - 1), msgs[n - 1], CheckpointAt(checkpoints, n - 1),
        lookups)
  }

  /** historyMessagesWithPlannerDisplaysAndLookups. */
  method Render(msgs: seq<ProviderMessage>, checkpoints: map<nat, int>, planner: Planner,
                lookups: Lookups) returns (out: seq<HistoryMessage>)
    ensures out == RenderedPrefix(msgs, checkpoints, planner, lookups, |msgs|).0
  {
    out := [];
    var left, suppress := planner, false;
    for i := 0 to |msgs|
      invariant (out, Pending(left, suppress)) == RenderedPrefix(msgs, checkpoints, planner, lookups, i)
    {
      var m := msgs[i];
      ghost var more := Rendered(m, CheckpointAt(checkpoints, i), lookups);
      assert out + more + [] == out + more && out + [] == out;
      if m.localOnly && m.steer.Some? {
        out := out + [Notice(WarningNotice, m.steer.value)];
        continue;
      }
      if suppress {
        if !m.role.User? || !m.authored {
          continue;
        }
        suppress := false;
      }
      if m.role.User? && m.steer.Some? {
        out := out + [Notice(SteerNotice, m.steer.value)];
        continue;
      }
      if m.role.User? && m.synthetic {
        continue;
      }
      out := out + Rendered(m, CheckpointAt(checkpoints, i), lookups);
      if m.role.User? && m.hash in left && left[m.hash] != [] {
        var turn: seq<HistoryMessage> := left[m.hash][0];
        out := out + turn;
        suppress := Cancels(turn);
        left := left[m.hash := left[m.hash][1..]];
      }
    }
  }

  /** checkpointTurnsForProviderWindow. */
  function Remapped(checkpoints: map<nat, int>, indexes: seq<nat>): map<nat, int>
  {
    map k: nat | k < |indexes| && indexes[k] in checkpoints :: checkpoints[indexes[k]]
  }

  /** The loop of checkpointTurnsForProviderWindow. */
  method RemapCheckpoints(checkpoints: map<nat, int>, indexes: seq<nat>) returns (out: map<nat, int>)
    ensures out == Remapped(checkpoints, indexes)
  {
    out := map[];
    if checkpoints == map[] || indexes == [] {
      return;
    }
    for k := 0 to |indexes|
      invariant out == map i: nat | i < k && indexes[i] in checkpoints :: checkpoints[indexes[i]]
    {
      if indexes[k] in checkpoints {
        out := out[k := checkpoints[indexes[k]]];
      }
    }
  }

  /** historyPageFromProviderMessages. */
  method ProviderHistoryPage(msgs: seq<ProviderMessage>, checkpoints: map<nat, int>, planner: Planner,
                             lookups: Lookups, before: int, limit: int) returns (r: Range, page: seq<HistoryMessage>)
    ensures r == PageRange(Turns(Starts(msgs), |msgs|), before, limit)
    ensures page == ProviderPage(msgs, checkpoints, planner, lookups, r)
  {
    var starts := Starts(msgs);
    var total := 0;
    for i := 0 to |msgs|
      invariant total == Turns(starts, i)
    {
      if VisibleUser(msgs[i]) {
        total := total + 1;
      }
    }
    r := PageRange(total, before, limit);
    if |msgs| == 0 || r.start >= r.end {
      assert Pick(msgs, []) == [];
      return r, [];
    }
    var selected, indexes := ForTurnRange(msgs, starts, r.start, r.end);
    var remapped := RemapCheckpoints(checkpoints, indexes);
    page := Render(selected, remapped, planner, lookups);
  }

  /** A provider page: select, remap the checkpoint indexes, render. */
  function ProviderPage(msgs: seq<ProviderMessage>, checkpoints: map<nat, int>, planner: Planner,
                        lookups: Lookups, r: Range): seq<HistoryMessage>
  {
    var indexes := PageIndexes(Starts(msgs), r);
    RenderedPrefix(Pick(msgs, indexes), Remapped(checkpoints, indexes), planner, lookups, |indexes|).0
  }

  /** The provider pages of a walk joined oldest first. */
  function JoinedPages(msgs: seq<ProviderMessage>, checkpoints: map<nat, int>, planner: Planner,
                       lookups: Lookups, ranges: seq<Range>): seq<HistoryMessage>
  {
    if ranges == [] then [] else
      JoinedPages(msgs, checkpoints, planner, lookups, ranges[1..])
      + ProviderPage(msgs, checkpoints, planner, lookups, ranges[0])
  }

  /** The messages at the given indexes, rendered with their original checkpoints. */
  function RenderedAt(msgs: seq<ProviderMessage>, checkpoints: map<nat, int>, lookups: Lookups, indexes: seq<nat>)
    : seq<HistoryMessage>
    requires forall k :: 0 <= k < |indexes| ==> indexes[k] < |msgs|
  {
    if indexes == [] then []
    else
      var i := indexes[|indexes| - 1];
      RenderedAt(msgs, checkpoints, lookups, indexes[..|indexes| - 1])
      + Rendered(msgs[i], CheckpointAt(checkpoints, i), lookups)
  }

  /** No planner display waits for any of these messages. */
  ghost predicate Unplanned(msgs: seq<ProviderMessage>, planner: Planner)
  {
    forall k :: 0 <= k < |msgs| ==> !Awaited(planner, msgs[k])
  }

  predicate Awaited(planner: Planner, m: ProviderMessage)
  {
    VisibleUser(m) && m.hash in planner && planner[m.hash] != []
  }

  lemma WithoutPlanner(out: seq<HistoryMessage>, m: ProviderMessage, checkpoint: Option<int>,
                       planner: Planner, lookups: Lookups)
    requires !Awaited(planner, m)
    ensures After((out, Pending(planner, false)), m, checkpoint, lookups)
            == (out + Rendered(m, checkpoint, lookups), Pending(planner, false))
  {
    var more := Rendered(m, checkpoint, lookups);
    assert Planned(Pending(planner, false), m) == [];
    assert out + more + [] == out + more;
  }

  /** Without planner turns a selection renders to what its messages render to in
      place: the remapped checkpoint indexes are the right ones. */
  lemma {:induction false} SelectionRendersInPlace(msgs: seq<ProviderMessage>, checkpoints: map<nat, int>,
                                                   planner: Planner, lookups: Lookups,
                                                   indexes: seq<nat>, n: nat)
    requires n <= |indexes| && forall k :: 0 <= k < |indexes| ==> indexes[k] < |msgs|
    requires Unplanned(msgs, planner)
    ensures RenderedPrefix(Pick(msgs, indexes), Remapped(checkpoints, indexes), planner, lookups, n)
         == (RenderedAt(msgs, checkpoints, lookups, indexes[..n]), Pending(planner, false))
  {
    if n > 0 {
      SelectionRendersInPlace(msgs, checkpoints, planner, lookups, indexes, n - 1);
      assert indexes[..n][..n - 1] == indexes[..n - 1];
      assert Pick(msgs, indexes)[n - 1] == msgs[indexes[n - 1]];
      WithoutPlanner(RenderedAt(msgs, checkpoints, lookups, indexes[..n - 1]), msgs[indexes[n - 1]],
                     CheckpointAt(checkpoints, indexes[n - 1]), planner, lookups);
      assert CheckpointAt(Remapped(checkpoints, indexes), n - 1) == CheckpointAt(checkpoints, indexes[n - 1]);
    }
  }

  lemma RenderedAtLast(msgs: seq<ProviderMessage>, checkpoints: map<nat, int>, lookups: Lookups, front: seq<nat>,
                       i: nat)
    requires i < |msgs| && forall k :: 0 <= k < |front| ==> front[k] < |msgs|
    ensures RenderedAt(msgs, checkpoints, lookups, front + [i])
         == RenderedAt(msgs, checkpoints, lookups, front) + Rendered(msgs[i], CheckpointAt(checkpoints, i), lookups)
  {
    assert (front + [i])[..|front|] == front;
  }

  lemma Regroup<T>(p: seq<T>, q: seq<T>, r: seq<T>)
    ensures p + (q + r) == (p + q) + r
  {
  }

  lemma {:induction false} RenderedAtConcat(msgs: seq<ProviderMessage>, checkpoints: map<nat, int>, lookups: Lookups,
                                            p: seq<nat>, q: seq<nat>)
    requires forall k :: 0 <= k < |p| ==> p[k] < |msgs|
    requires forall k :: 0 <= k < |q| ==> q[k] < |msgs|
    ensures RenderedAt(msgs, checkpoints, lookups, p + q)
         == RenderedAt(msgs, checkpoints, lookups, p) + RenderedAt(msgs, checkpoints, lookups, q)
    decreases |q|
  {
    if q == [] {
      assert p + q == p;
    } else {
      var front, i := q[..|q| - 1], q[|q| - 1];
      assert q == front + [i];
      RenderedAtConcat(msgs, checkpoints, lookups, p, front);
      OneMore(msgs, checkpoints, lookups, p, front, i);
    }
  }

  lemma OneMore(msgs: seq<ProviderMessage>, checkpoints: map<nat, int>, lookups: Lookups, p: seq<nat>, q: seq<nat>,
                i: nat)
    requires i < |msgs| && (forall k :: 0 <= k < |p| ==> p[k] < |msgs|) && (forall k :: 0 <= k < |q| ==> q[k] < |msgs|)
    requires RenderedAt(msgs, checkpoints, lookups, p + q)
          == RenderedAt(msgs, checkpoints, lookups, p) + RenderedAt(msgs, checkpoints, lookups, q)
    ensures RenderedAt(msgs, checkpoints, lookups, p + (q + [i]))
         == RenderedAt(msgs, checkpoints, lookups, p) + RenderedAt(msgs, checkpoints, lookups, q + [i])
  {
    Regroup(p, q, [i]);
    RenderedAtLast(msgs, checkpoints, lookups, p + q, i);
    RenderedAtLast(msgs, checkpoints, lookups, q, i);
    Regroup(RenderedAt(msgs, checkpoints, lookups, p), RenderedAt(msgs, checkpoints, lookups, q),
            Rendered(msgs[i], CheckpointAt(checkpoints, i), lookups));
  }

  lemma {:induction false} PagesRenderJoined(msgs: seq<ProviderMessage>, checkpoints: map<nat, int>,
                                             planner: Planner, lookups: Lookups, ranges: seq<Range>)
    requires Unplanned(msgs, planner)
    ensures JoinedPages(msgs, checkpoints, planner, lookups, ranges)
         == RenderedAt(msgs, checkpoints, lookups, Joined(Starts(msgs), ranges))
    decreases |ranges|
  {
    if ranges != [] {
      var indexes := PageIndexes(Starts(msgs), ranges[0]);
      PagesRenderJoined(msgs, checkpoints, planner, lookups, ranges[1..]);
      SelectionRendersInPlace(msgs, checkpoints, planner, lookups, indexes, |indexes|);
      assert indexes[..|indexes|] == indexes;
      RenderedAtConcat(msgs, checkpoints, lookups, Joined(Starts(msgs), ranges[1..]), indexes);
    }
  }

  /** historyPageFromProviderMessages tiles: with no planner display waiting for a message
      of the transcript, the rendered pages of a walk concatenate to the rendering of the
      whole transcript if and only if there is a visible user turn or nothing to show. */
  lemma ProviderPagesTile(msgs: seq<ProviderMessage>, checkpoints: map<nat, int>, planner: Planner,
                          lookups: Lookups, before: int, limits: seq<int>)
    requires Unplanned(msgs, planner)
    requires var total := Turns(Starts(msgs), |msgs|);
      (before <= 0 || before > total) && limits != [] && |limits| >= total
    ensures JoinedPages(msgs, checkpoints, planner, lookups, Walk(Turns(Starts(msgs), |msgs|), before, limits))
         == RenderedPrefix(msgs, checkpoints, planner, lookups, |msgs|).0
         <==> Turns(Starts(msgs), |msgs|) > 0
              || (forall i :: 0 <= i < |msgs| ==> Rendered(msgs[i], CheckpointAt(checkpoints, i), lookups) == [])
  {
    var starts := Starts(msgs);
    var walk := Walk(Turns(starts, |starts|), before, limits);
    MessagePagesTile(msgs, starts, before, limits);
    PagesRenderJoined(msgs, checkpoints, planner, lookups, walk);
    WholeRendersInPlace(msgs, checkpoints, planner, lookups);
    if Turns(starts, |starts|) == 0 {
      NoTurnsNoPages(starts, before, limits);
      EmptyRendering(msgs, checkpoints, lookups, |msgs|);
    }
  }

  lemma NoTurnsNoPages(starts: seq<bool>, before: int, limits: seq<int>)
    requires Turns(starts, |starts|) == 0 && limits != []
    ensures Joined(starts, Walk(0, before, limits)) == []
  {
    var r := PageRange(0, before, limits[0]);
    assert Walk(0, before, limits) == [r];
    assert Joined(starts, []) == [];
    assert [r][1..] == [];
  }

  /** The whole renders to nothing exactly if each message does. */
  lemma {:induction false} EmptyRendering(msgs: seq<ProviderMessage>, checkpoints: map<nat, int>, lookups: Lookups,
                                          n: nat)
    requires n <= |msgs|
    ensures RenderedAt(msgs, checkpoints, lookups, UpTo(n)) == []
            <==> forall i :: 0 <= i < n ==> Rendered(msgs[i], CheckpointAt(checkpoints, i), lookups) == []
  {
    if n > 0 {
      EmptyRendering(msgs, checkpoints, lookups, n - 1);
      assert UpTo(n)[..n - 1] == UpTo(n - 1);
    }
  }

  lemma WholeRendersInPlace(msgs: seq<ProviderMessage>, checkpoints: map<nat, int>, planner: Planner, lookups: Lookups)
    requires Unplanned(msgs, planner)
    ensures RenderedPrefix(msgs, checkpoints, planner, lookups, |msgs|).0
         == RenderedAt(msgs, checkpoints, lookups, UpTo(|msgs|))
  {
    var all := UpTo(|msgs|);
    SelectionRendersInPlace(msgs, checkpoints, planner, lookups, all, |msgs|);
    assert all[..|msgs|] == all;
    assert Pick(msgs, all) == msgs;
    SameCheckpoints(msgs, checkpoints, planner, lookups, |msgs|);
  }

  /** Remapping the identity only drops checkpoints outside the transcript. */
  lemma {:induction false} SameCheckpoints(msgs: seq<ProviderMessage>, checkpoints: map<nat, int>,
                                           planner: Planner, lookups: Lookups, n: nat)
    requires n <= |msgs|
    ensures RenderedPrefix(msgs, Remapped(checkpoints, UpTo(|msgs|)), planner, lookups, n)
         == RenderedPrefix(msgs, checkpoints, planner, lookups, n)
  {
    if n > 0 {
      SameCheckpoints(msgs, checkpoints, planner, lookups, n - 1);
      assert CheckpointAt(Remapped(checkpoints, UpTo(|msgs|)), n - 1) == CheckpointAt(checkpoints, n - 1);
    }
  }

  /** Planner turns can break it: each page starts again with the first display stored
      for a user text, so a text sent twice shows its first display on both pages. */
  lemma PlannerTurnsBreakTiling(lookups: Lookups, m: ProviderMessage, first: HistoryMessage, second: HistoryMessage)
    requires VisibleUser(m) && first.shown.WarningNotice? && second.shown.WarningNotice?
    ensures var planner := map[m.hash := [[first], [second]]];
            var shown := Rendered(m, None, lookups);
            JoinedPages([m, m], map[], planner, lookups, Walk(2, 0, [1, 1])) == shown + [first] + (shown + [first])
            && RenderedPrefix([m, m], map[], planner, lookups, 2).0 == shown + [first] + shown + [second]
  {
    var planner: Planner := map[m.hash := [[first], [second]]];
    var newer, older := Range(1, 2, 2), Range(0, 1, 2);
    TwoTurns(m);
    OneMessagePage([m, m], planner, lookups, newer, 1);
    OneMessagePage([m, m], planner, lookups, older, 0);
    assert [newer, older][1..] == [older];
    assert JoinedPages([m, m], map[], planner, lookups, [older])
      == ProviderPage([m, m], map[], planner, lookups, older);
    SameTextTwice(lookups, m, first, second);
  }

  lemma TwoTurns(m: ProviderMessage)
    requires VisibleUser(m)
    ensures Walk(2, 0, [1, 1]) == [Range(1, 2, 2), Range(0, 1, 2)]
    ensures PageIndexes(Starts([m, m]), Range(1, 2, 2)) == [1] && PageIndexes(Starts([m, m]), Range(0, 1, 2)) == [0]
  {
    var starts := Starts([m, m]);
    assert starts == [true, true];
    assert Turns(starts, 1) == 1 && Turns(starts, 2) == 2;
    assert [1, 1][1..] == [1];
    assert Walk(2, 1, [1]) == [Range(0, 1, 2)];
    assert TurnOf(starts, 0) == 0 && TurnOf(starts, 1) == 1;
    assert Selected(starts, 1, 2, 1) == [] && Selected(starts, 0, 1, 1) == [0];
  }

  lemma SameTextTwice(lookups: Lookups, m: ProviderMessage, first: HistoryMessage, second: HistoryMessage)
    requires VisibleUser(m) && first.shown.WarningNotice? && second.shown.WarningNotice?
    ensures RenderedPrefix([m, m], map[], map[m.hash := [[first], [second]]], lookups, 2).0
         == Rendered(m, None, lookups) + [first] + Rendered(m, None, lookups) + [second]
  {
    var planner: Planner := map[m.hash := [[first], [second]]];
    var shown := Rendered(m, None, lookups);
    var start := RenderedPrefix([m, m], map[], planner, lookups, 0);
    assert start == ([], Pending(planner, false));
    assert [[first], [second]][1..] == [[second]];
    assert planner[m.hash := [[second]]] == map[m.hash := [[second]]];
    var middle := After(start, m, None, lookups);
    assert [] + shown + [first] == shown + [first];
    assert middle == (shown + [first], Pending(map[m.hash := [[second]]], false));
    assert After(middle, m, None, lookups).0 == shown + [first] + shown + [second];
    assert RenderedPrefix([m, m], map[], planner, lookups, 1) == middle;
  }

  lemma OneMessagePage(msgs: seq<ProviderMessage>, planner: Planner, lookups: Lookups, r: Range, i: nat)
    requires i < |msgs| && PageIndexes(Starts(msgs), r) == [i]
    ensures ProviderPage(msgs, map[], planner, lookups, r)
         == Rendered(msgs[i], None, lookups) + Planned(Pending(planner, false), msgs[i])
  {
    assert Pick(msgs, [i]) == [msgs[i]];
    assert RenderedPrefix([msgs[i]], Remapped(map[], [i]), planner, lookups, 0) == ([], Pending(planner, false));
  }

  // ---- What is shown ----

  /** A page holds as many turns as were asked for, if there are as many, and ends where the
      one after it begins; 60 are asked for without a number, and never more than 200. */
  lemma PageHoldsWhatIsAsked(total: nat, before: int, limit: int)
    ensures var r := PageRange(total, before, limit);
            var asked := if limit <= 0 then 60 else if limit > 200 then 200 else limit;
            && r.end == (if 0 < before <= total then before else total)
            && r.end - r.start == (if r.end < asked then r.end else asked)
            && (r.HasOlder() <==> r.end > asked)
  {
  }

  /** A message a user wrote and sent shows its display, with its own checkpoint. */
  lemma UserIsShown(m: ProviderMessage, checkpoint: Option<int>, lookups: Lookups)
    requires m.role.User? && !m.localOnly && m.steer.None? && !m.synthetic
    ensures Rendered(m, checkpoint, lookups)
         == [HistoryMessage(ShownRole(User), m.display, checkpoint, "", [], "")]
  {
  }

  /** What an assistant said shows its text, its reasoning and its calls, each with the
      result found in the whole transcript, and no checkpoint. */
  lemma AssistantIsShown(m: ProviderMessage, checkpoint: Option<int>, lookups: Lookups)
    requires m.role.Assistant? && !m.localOnly
    ensures var out := Rendered(m, checkpoint, lookups);
      && |out| == 1 && out[0].shown == ShownRole(Assistant) && out[0].content == m.content
      && out[0].checkpoint == None && out[0].reasoning == m.reasoning && out[0].callId == ""
      && |out[0].calls| == |m.calls|
      && forall i :: 0 <= i < |m.calls| ==>
           var shown, call := out[0].calls[i], m.calls[i];
           && shown.0.id == call.id && shown.0.name == call.name
           && (call.name != "todo_write" || call.id !in lookups.todoArgs ==> shown.0.arguments == call.arguments)
           && (call.name == "todo_write" && call.id in lookups.todoArgs ==>
                 shown.0.arguments == lookups.todoArgs[call.id])
           && shown.1 == if call.id in lookups.results then Some(lookups.results[call.id]) else None
  {
  }

  /** A tool's result shows its display and names its call. */
  lemma ToolIsShown(m: ProviderMessage, checkpoint: Option<int>, lookups: Lookups)
    requires m.role.Tool? && !m.localOnly
    ensures Rendered(m, checkpoint, lookups)
         == [HistoryMessage(ShownRole(Tool), m.display, None, "", [], m.callId)]
  {
  }

  /** Steers are notices, with a warning if they were never sent; what no user wrote is not
      shown. */
  lemma NoticesAreShown(m: ProviderMessage, checkpoint: Option<int>, lookups: Lookups)
    ensures m.steer.Some? && m.localOnly ==>
              Rendered(m, checkpoint, lookups) == [HistoryMessage(WarningNotice, m.steer.value, None, "", [], "")]
    ensures m.steer.Some? && !m.localOnly && m.role.User? ==>
              Rendered(m, checkpoint, lookups) == [HistoryMessage(SteerNotice, m.steer.value, None, "", [], "")]
    ensures m.steer.None? && m.role.User? && m.synthetic ==> Rendered(m, checkpoint, lookups) == []
  {
  }

  /** What was never sent, and no user wrote, shows as an assistant's message, unless it has
      nothing to show, and says so if the turn was interrupted. */
  lemma UnsentIsShown(m: ProviderMessage, checkpoint: Option<int>, lookups: Lookups)
    requires m.localOnly && m.steer.None? && !m.role.User?
    ensures var hm := HistoryMessage(ShownRole(Assistant), m.content, None, m.reasoning, Calls(m.calls, lookups), "");
            var blank := TrimSpace(m.content) == "" && TrimSpace(m.reasoning) == "" && m.calls == [];
            Rendered(m, checkpoint, lookups)
            == (if blank then [] else [hm])
               + if m.interrupted then [HistoryMessage(CancelledNotice, "", None, "", [], "")] else []
  {
  }

  /** A visible message is followed by the first display that waits for its text.  If that
      tells of a cancelled turn, nothing is shown after it but steers that were never sent,
      up to the next message a user wrote; otherwise what follows is shown. */
  lemma DisplayFollows(p: Pending, out: seq<HistoryMessage>, m: ProviderMessage, checkpoint: Option<int>,
                       lookups: Lookups)
    requires !p.suppress && m.role.User? && m.steer.None? && !m.synthetic
    requires m.hash in p.planner && p.planner[m.hash] != []
    ensures var r := After((out, p), m, checkpoint, lookups);
      && r.0 == out + Rendered(m, checkpoint, lookups) + p.planner[m.hash][0]
      && r.1.planner == p.planner[m.hash := p.planner[m.hash][1..]]
      && (r.1.suppress <==>
            exists k :: 0 <= k < |p.planner[m.hash][0]| && p.planner[m.hash][0][k].shown.CancelledNotice?)
  {
  }

  lemma SilenceHolds(p: Pending, out: seq<HistoryMessage>, m: ProviderMessage, checkpoint: Option<int>,
                     lookups: Lookups)
    requires p.suppress
    ensures var r := After((out, p), m, checkpoint, lookups);
      && (m.localOnly && m.steer.Some? ==> r == (out + Rendered(m, checkpoint, lookups), p))
      && (!(m.localOnly && m.steer.Some?) && !(m.role.User? && m.authored) ==> r == (out, p))
      && (!(m.localOnly && m.steer.Some?) && m.role.User? && m.authored ==>
            r == After((out, p.(suppress := false)), m, checkpoint, lookups))
  {
    assert out + Rendered(m, checkpoint, lookups) + [] == out + Rendered(m, checkpoint, lookups);
  }
}
