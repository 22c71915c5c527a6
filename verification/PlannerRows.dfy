/**
 Rows of users in rendered pages (desktop/app.go).  A visible message shows one row of a
 user, no other message and no planner display shows any; so a turn begins with its only
 such row, unless it is silenced, and then it has none.

 This tells the turns in a joined text apart: of two texts joined from such stretches,
 one of them with no turn silenced, equal ones have equal stretches.

 Two facts about the shell are assumed where they are used: planner displays hold no
 rows of users, and messages that are never sent are not messages of a user.
 */
module PlannerRows {
  import opened Wrappers
  import opened HistoryPages
  import opened PlannerRuns
  import opened PlannerWalks

  // ---- Rows of users ----

  predicate IsUserRow(h: HistoryMessage)
  {
    h.shown == ShownRole(User)
  }

  function Rows(out: seq<HistoryMessage>): nat
  {
    if out == [] then 0 else Rows(out[..|out| - 1]) + if IsUserRow(out[|out| - 1]) then 1 else 0
  }

  lemma {:induction false} RowsConcat(a: seq<HistoryMessage>, b: seq<HistoryMessage>)
    ensures Rows(a + b) == Rows(a) + Rows(b)
    decreases |b|
  {
    if b == [] {
      assert a + b == a;
    } else {
      RowsConcat(a, b[..|b| - 1]);
      assert (a + b)[..|a + b| - 1] == a + b[..|b| - 1];
    }
  }

  lemma {:induction false} SomeRow(a: seq<HistoryMessage>, k: nat)
    requires k < |a| && IsUserRow(a[k])
    ensures Rows(a) >= 1
  {
    if k < |a| - 1 {
      SomeRow(a[..|a| - 1], k);
    }
  }

  /** Of two texts that end in a stretch which begins with its only user row, equal ones
      have equal stretches. */
  lemma LastTurn(x: seq<HistoryMessage>, s: seq<HistoryMessage>, y: seq<HistoryMessage>, t: seq<HistoryMessage>)
    requires x + s == y + t
    requires s != [] && IsUserRow(s[0]) && Rows(s) == 1 && t != [] && IsUserRow(t[0]) && Rows(t) == 1
    ensures x == y && s == t
  {
    NotLonger(x, s, y, t);
    NotLonger(y, t, x, s);
    assert x == (x + s)[..|x|] && y == (y + t)[..|y|];
    assert s == (x + s)[|x|..] && t == (y + t)[|y|..];
  }

  lemma NotLonger(x: seq<HistoryMessage>, s: seq<HistoryMessage>, y: seq<HistoryMessage>, t: seq<HistoryMessage>)
    requires x + s == y + t && s != [] && IsUserRow(s[0]) && t != [] && IsUserRow(t[0]) && Rows(t) == 1
    ensures |t| <= |s|
  {
    if |t| > |s| {
      var k := |t| - |s|;
      assert t[k] == (y + t)[|y| + k] == (x + s)[|x|] == s[0];
      TwoRows(t, k);
    }
  }

  lemma TwoRows(t: seq<HistoryMessage>, k: nat)
    requires 0 < k < |t| && IsUserRow(t[0]) && IsUserRow(t[k])
    ensures Rows(t) >= 2
  {
    assert t == t[..1] + t[1..];
    RowsConcat(t[..1], t[1..]);
    SomeRow(t[..1], 0);
    SomeRow(t[1..], k - 1);
  }

  /** No display holds a row of a user. */
  ghost predicate Recorded(planner: Planner)
  {
    forall hash, k :: hash in planner && 0 <= k < |planner[hash]| ==> Rows(planner[hash][k]) == 0
  }

  /** Exactly the visible messages give a user row, and nothing else. */
  ghost predicate RowsFit(items: seq<Item>, render: Render)
  {
    forall i {:trigger items[i]} :: 0 <= i < |items| ==>
      var out := render(items[i].m, items[i].checkpoint);
      if IsVisible(items, i) then |out| == 1 && IsUserRow(out[0]) else Rows(out) == 0
  }

  /** Messages that are never sent are not messages of a user. */
  predicate UsersAreSent(msgs: seq<ProviderMessage>)
  {
    forall i :: 0 <= i < |msgs| && msgs[i].localOnly ==> !msgs[i].role.User?
  }

  lemma RenderedRowsFit(msgs: seq<ProviderMessage>, checkpoints: map<nat, int>, lookups: Lookups)
    requires UsersAreSent(msgs)
    ensures RowsFit(Items(msgs, checkpoints), Rendering(lookups))
  {
    var items := Items(msgs, checkpoints);
    forall i | 0 <= i < |items|
      ensures var out := Rendering(lookups)(items[i].m, items[i].checkpoint);
              if IsVisible(items, i) then |out| == 1 && IsUserRow(out[0]) else Rows(out) == 0
    {
      assert items[i].m == msgs[i];
      RowsOfOne(msgs[i], items[i].checkpoint, lookups);
    }
  }

  lemma RowsOfOne(m: ProviderMessage, checkpoint: Option<int>, lookups: Lookups)
    requires m.localOnly ==> !m.role.User?
    ensures var out := Rendered(m, checkpoint, lookups);
            if VisibleUser(m) then |out| == 1 && IsUserRow(out[0]) else Rows(out) == 0
  {
    var out := Rendered(m, checkpoint, lookups);
    assert |out| <= 2;
    forall k | 0 <= k < |out| && !VisibleUser(m) ensures !IsUserRow(out[k]) {
    }
    NoRows(out);
  }

  lemma {:induction false} NoRows(out: seq<HistoryMessage>)
    ensures (forall k :: 0 <= k < |out| ==> !IsUserRow(out[k])) ==> Rows(out) == 0
  {
    if out != [] {
      NoRows(out[..|out| - 1]);
    }
  }

  // ---- One turn ----

  /** A turn from its visible message c up to d. */
  predicate IsTurn(items: seq<Item>, c: nat, d: nat)
  {
    c < d <= |items| && IsVisible(items, c) && forall i :: c < i < d ==> !IsVisible(items, i)
  }

  /** The state lets a visible message through. */
  predicate Speaks(p: Pending, m: ProviderMessage)
  {
    !p.suppress || Wakes(m)
  }

  /** What a turn shows if its text is answered with this display. */
  function TurnShown(items: seq<Item>, c: nat, d: nat, display: seq<HistoryMessage>, render: Render)
    : seq<HistoryMessage>
    requires c < d <= |items|
  {
    Fold(Pending(map[items[c].m.hash := [display]], false), items, c, d, render).0
  }

  /** A turn that is let through shows nothing but its own display. */
  lemma {:induction false} TurnDepends(p: Pending, items: seq<Item>, c: nat, d: nat, render: Render)
    requires IsTurn(items, c, d) && Speaks(p, items[c].m)
    ensures var display := Planned(p, items[c].m);
            var r, q := Fold(p, items, c, d, render),
              Fold(Pending(map[items[c].m.hash := [display]], false), items, c, d, render);
            r.0 == q.0 && r.1.suppress == q.1.suppress
  {
    if d == c + 1 {
      FirstOfTurn(p, items, c, render);
    } else {
      TurnDepends(p, items, c, d - 1, render);
      assert !IsVisible(items, d - 1);
    }
  }

  lemma FirstOfTurn(p: Pending, items: seq<Item>, c: nat, render: Render)
    requires c < |items| && IsVisible(items, c) && Speaks(p, items[c].m)
    ensures var m := items[c].m;
            var display := Planned(p, m);
            var r := Fold(p, items, c, c + 1, render);
            var q := Fold(Pending(map[m.hash := [display]], false), items, c, c + 1, render);
            r.0 == q.0 == render(m, items[c].checkpoint) + display && r.1.suppress == q.1.suppress == Cancels(display)
  {
    assert Fold(p, items, c, c, render) == ([], p);
    var x := render(items[c].m, items[c].checkpoint);
    assert [] + x == x;
  }

  /** A turn that is not let through shows no row of a user, one that is exactly one, as
      its first. */
  lemma {:induction false} TurnRows(p: Pending, items: seq<Item>, c: nat, d: nat, render: Render)
    requires IsTurn(items, c, d) && RowsFit(items, render) && Rows(Planned(p, items[c].m)) == 0
    ensures var out := Fold(p, items, c, d, render).0;
            if Speaks(p, items[c].m) then out != [] && IsUserRow(out[0]) && Rows(out) == 1 else Rows(out) == 0
  {
    if d == c + 1 {
      FirstRows(p, items, c, render);
    } else {
      TurnRows(p, items, c, d - 1, render);
      MoreRows(Fold(p, items, c, d - 1, render), items, d - 1, render);
    }
  }

  lemma FirstRows(p: Pending, items: seq<Item>, c: nat, render: Render)
    requires c < |items| && IsVisible(items, c) && RowsFit(items, render) && Rows(Planned(p, items[c].m)) == 0
    ensures var out := Fold(p, items, c, c + 1, render).0;
            if Speaks(p, items[c].m) then out != [] && IsUserRow(out[0]) && Rows(out) == 1 else Rows(out) == 0
  {
    var x, y := render(items[c].m, items[c].checkpoint), Planned(p, items[c].m);
    assert Fold(p, items, c, c, render) == ([], p);
    assert |x| == 1 && IsUserRow(x[0]);
    assert x[..0] == [] && [] + x == x;
    RowsConcat(x, y);
  }

  lemma MoreRows(r: (seq<HistoryMessage>, Pending), items: seq<Item>, i: nat, render: Render)
    requires i < |items| && !IsVisible(items, i) && RowsFit(items, render)
    ensures var out := Shows(r, items[i].m, items[i].checkpoint, render).0;
            Rows(out) == Rows(r.0) && (r.0 != [] ==> out != [] && out[0] == r.0[0])
  {
    var x := render(items[i].m, items[i].checkpoint);
    RowsConcat(r.0, x);
    assert r.0 + x + [] == r.0 + x;
  }

  /** Rendering never brings a user row into the displays that wait. */
  lemma {:induction false} WaitingRows(p: Pending, items: seq<Item>, c: nat, d: nat, render: Render)
    requires c <= d <= |items| && Recorded(p.planner)
    ensures Recorded(Fold(p, items, c, d, render).1.planner)
  {
    if d > c {
      WaitingRows(p, items, c, d - 1, render);
      NextRecorded(Fold(p, items, c, d - 1, render).1, items[d - 1].m);
    }
  }

  lemma NextRecorded(p: Pending, m: ProviderMessage)
    requires Recorded(p.planner)
    ensures Recorded(NextPending(p, m).planner)
  {
  }

  // ---- Stretches with a row of a user ----

  /** A stretch that begins with its only user row. */
  predicate Led(out: seq<HistoryMessage>)
  {
    out != [] && IsUserRow(out[0]) && Rows(out) == 1
  }

  lemma {:induction false} PiecesRows(piece: nat -> seq<HistoryMessage>, n: nat)
    requires n > 0 && forall k :: 1 <= k < n ==> Rows(piece(k)) <= 1
    ensures Rows(Pieces(piece, n)) <= Rows(piece(0)) + n - 1
    ensures (forall k :: 1 <= k < n ==> Led(piece(k))) ==> Rows(Pieces(piece, n)) == Rows(piece(0)) + n - 1
  {
    RowsConcat(Pieces(piece, n - 1), piece(n - 1));
    if n > 1 {
      PiecesRows(piece, n - 1);
    } else {
      assert Pieces(piece, 0) == [];
    }
  }

  /** Stretches led by user rows join to the same text as others, which are led so or hold
      no such row, exactly if they are the same one by one. */
  lemma {:induction false} PiecesEqual(p: nat -> seq<HistoryMessage>, q: nat -> seq<HistoryMessage>, n: nat)
    requires n > 0 && p(0) == q(0)
    requires forall k :: 1 <= k < n ==> Led(p(k)) && (Led(q(k)) || Rows(q(k)) == 0)
    ensures Pieces(p, n) == Pieces(q, n) <==> forall k :: 0 <= k < n ==> p(k) == q(k)
  {
    if n > 1 {
      PiecesEqual(p, q, n - 1);
      if Pieces(p, n) == Pieces(q, n) {
        PiecesPeel(p, q, n - 1);
      }
    } else {
      assert Pieces(p, 0) == Pieces(q, 0);
    }
  }

  lemma PiecesPeel(p: nat -> seq<HistoryMessage>, q: nat -> seq<HistoryMessage>, n: nat)
    requires n > 0 && p(0) == q(0)
    requires forall k :: 1 <= k <= n ==> Led(p(k)) && (Led(q(k)) || Rows(q(k)) == 0)
    requires Pieces(p, n) + p(n) == Pieces(q, n) + q(n)
    ensures Pieces(p, n) == Pieces(q, n) && p(n) == q(n)
  {
    PiecesRows(p, n);
    PiecesRows(q, n);
    RowsConcat(Pieces(p, n), p(n));
    RowsConcat(Pieces(q, n), q(n));
    LastTurn(Pieces(p, n), p(n), Pieces(q, n), q(n));
  }
}
