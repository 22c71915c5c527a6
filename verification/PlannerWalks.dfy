/**
 Walks over provider pages (desktop/app.go): the turn ranges that a walk comes by, and
 what its pages join to, in pieces of one turn.

 A page from one turn on shows each of its turns in a state of its own, since it begins
 with every display still to be consumed.  Joined oldest first, the pages of a walk are
 the pieces they show, turn by turn, and the whole transcript is the pieces of the one
 page from its first turn on.  Two kinds of walk are used to tell pages from the whole:
 the one by single turns, and those that lead through one larger page and otherwise take
 single turns.
 */
module PlannerWalks {
  import opened Wrappers
  import opened HistoryPages
  import opened PlannerRuns

  // ---- Walks ----

  function Total(msgs: seq<ProviderMessage>): nat
  {
    Turns(Starts(msgs), |msgs|)
  }

  function Ones(n: nat): seq<int>
  {
    seq(n, i => 1)
  }

  function JoinedBy(page: Range -> seq<HistoryMessage>, ranges: seq<Range>): seq<HistoryMessage>
  {
    if ranges == [] then [] else JoinedBy(page, ranges[1..]) + page(ranges[0])
  }

  lemma {:induction false} JoinedIsJoinedBy(msgs: seq<ProviderMessage>, checkpoints: map<nat, int>, planner: Planner,
                                            lookups: Lookups, ranges: seq<Range>, page: Range -> seq<HistoryMessage>)
    requires forall r :: page(r) == ProviderPage(msgs, checkpoints, planner, lookups, r)
    ensures JoinedPages(msgs, checkpoints, planner, lookups, ranges) == JoinedBy(page, ranges)
    decreases |ranges|
  {
    if ranges != [] {
      JoinedIsJoinedBy(msgs, checkpoints, planner, lookups, ranges[1..], page);
    }
  }

  function Pieces(piece: nat -> seq<HistoryMessage>, n: nat): seq<HistoryMessage>
  {
    if n == 0 then [] else Pieces(piece, n - 1) + piece(n - 1)
  }

  /** A page holds just the pieces of its turns. */
  predicate Spans(page: Range -> seq<HistoryMessage>, piece: nat -> seq<HistoryMessage>, r: Range)
  {
    Pieces(piece, r.end) == Pieces(piece, r.start) + page(r)
  }

  /** If each page of a walk holds the pieces of its turns, all are joined in the end. */
  lemma {:induction false} WalkJoins(page: Range -> seq<HistoryMessage>, piece: nat -> seq<HistoryMessage>, total: nat,
                                     before: int, limits: seq<int>)
    requires total > 0 && |limits| >= PageRange(total, before, 1).end
    requires forall r :: r in Walk(total, before, limits) ==> Spans(page, piece, r)
    ensures JoinedBy(page, Walk(total, before, limits)) == Pieces(piece, PageRange(total, before, 1).end)
    decreases |limits|
  {
    var r, walk := PageRange(total, before, limits[0]), Walk(total, before, limits);
    assert walk[0] == r && Spans(page, piece, r);
    if r.HasOlder() {
      assert walk[1..] == Walk(total, r.start, limits[1..]);
      WalkJoins(page, piece, total, r.start, limits[1..]);
    } else {
      assert walk == [r] && walk[1..] == [] && JoinedBy(page, []) == [];
      assert Pieces(piece, 0) == [];
    }
  }

  lemma {:induction false} WalkRanges(total: nat, before: int, limits: seq<int>, r: Range)
    requires total > 0 && r in Walk(total, before, limits)
    ensures r.start < r.end <= total && r.end <= r.start + MAX_TURNS
    decreases |limits|
  {
    var first := PageRange(total, before, limits[0]);
    if r != first {
      WalkRanges(total, first.start, limits[1..], r);
    }
  }

  lemma NewestWalk(total: nat, limits: seq<int>)
    requires total > 0
    ensures Walk(total, 0, limits) == Walk(total, total, limits)
  {
    assert limits != [] ==> PageRange(total, 0, limits[0]) == PageRange(total, total, limits[0]);
  }

  lemma {:induction false} OnesRanges(total: nat, end: nat, n: nat, r: Range)
    requires 0 < end <= total && r in Walk(total, end, Ones(n))
    ensures r.end == r.start + 1 <= end
    decreases n
  {
    assert n > 0 ==> Ones(n)[1..] == Ones(n - 1);
    if r != PageRange(total, end, 1) {
      OnesRanges(total, end - 1, n - 1, r);
    }
  }

  /** Page sizes that lead through one page from turn a up to turn e, and otherwise pages
      of one turn each. */
  function Through(end: nat, a: nat, e: nat, n: nat): seq<int>
    requires a < e <= end
  {
    Ones(end - e) + [e - a] + Ones(n)
  }

  predicate OneOrSingle(a: nat, e: nat, r: Range)
  {
    (r.start == a && r.end == e) || (r.end == r.start + 1 && !(a <= r.start < e))
  }

  lemma {:induction false} ThroughRanges(total: nat, end: nat, a: nat, e: nat, n: nat, r: Range)
    requires a < e <= end <= total && e - a <= MAX_TURNS && r in Walk(total, end, Through(end, a, e, n))
    ensures OneOrSingle(a, e, r)
    decreases end
  {
    ThroughStep(total, end, a, e, n, r);
    if end > e && r in Walk(total, end - 1, Through(end - 1, a, e, n)) {
      ThroughRanges(total, end - 1, a, e, n, r);
    } else if end == e && a > 0 && r in Walk(total, a, Ones(n)) {
      OnesRanges(total, a, n, r);
    }
  }

  lemma ThroughStep(total: nat, end: nat, a: nat, e: nat, n: nat, r: Range)
    requires a < e <= end <= total && e - a <= MAX_TURNS && r in Walk(total, end, Through(end, a, e, n))
    ensures end == e ==> (r.start == a && r.end == e) || (a > 0 && r in Walk(total, a, Ones(n)))
    ensures end > e ==> (r.start == end - 1 && r.end == end) || r in Walk(total, end - 1, Through(end - 1, a, e, n))
  {
    ThroughParts(end, a, e, n);
    InWalk(total, end, Through(end, a, e, n), r);
  }

  /** A range of a walk is its first, or one of the walk from there on. */
  lemma InWalk(total: nat, before: int, limits: seq<int>, r: Range)
    requires r in Walk(total, before, limits)
    ensures limits != []
    ensures var first := PageRange(total, before, limits[0]);
            r == first || (first.HasOlder() && r in Walk(total, first.start, limits[1..]))
  {
  }

  lemma ThroughParts(end: nat, a: nat, e: nat, n: nat)
    requires a < e <= end
    ensures var limits := Through(end, a, e, n);
            && limits != [] && limits[0] == (if end == e then e - a else 1)
            && limits[1..] == if end == e then Ones(n) else Through(end - 1, a, e, n)
  {
    assert end > e ==> Ones(end - e)[1..] == Ones(end - 1 - e);
  }

  // ---- Pages, turn by turn ----

  /** What a page from turn a up to turn t shows; from turn 0, the whole transcript. */
  function PageTo(planner: Planner, items: seq<Item>, starts: seq<bool>, a: nat, t: nat, render: Render)
    : seq<HistoryMessage>
    requires |starts| == |items| && a <= t
  {
    CutsGrow(starts, a, t);
    Fold(Pending(planner, false), items, Cut(starts, a), Cut(starts, t), render).0
  }

  /** The planner state of such a page before turn t. */
  function StateOnPage(planner: Planner, items: seq<Item>, starts: seq<bool>, a: nat, t: nat, render: Render): Pending
    requires |starts| == |items| && a <= t
  {
    CutsGrow(starts, a, t);
    Fold(Pending(planner, false), items, Cut(starts, a), Cut(starts, t), render).1
  }

  /** What turn t adds to it. */
  function TurnOnPage(planner: Planner, items: seq<Item>, starts: seq<bool>, a: nat, t: nat, render: Render)
    : seq<HistoryMessage>
    requires |starts| == |items| && a <= t
  {
    CutsGrow(starts, t, t + 1);
    Fold(StateOnPage(planner, items, starts, a, t, render), items, Cut(starts, t), Cut(starts, t + 1), render).0
  }

  lemma PageStep(planner: Planner, items: seq<Item>, starts: seq<bool>, a: nat, t: nat, render: Render)
    requires |starts| == |items| && a <= t
    ensures PageTo(planner, items, starts, a, t + 1, render)
         == PageTo(planner, items, starts, a, t, render) + TurnOnPage(planner, items, starts, a, t, render)
  {
    CutsGrow(starts, a, t);
    CutsGrow(starts, t, t + 1);
    FoldConcat(Pending(planner, false), items, Cut(starts, a), Cut(starts, t), Cut(starts, t + 1), render);
  }

  /** What turn t adds to a page from turn a, for every page and turn. */
  type OnPage = (nat, nat) -> seq<HistoryMessage>

  function OnPages(planner: Planner, items: seq<Item>, starts: seq<bool>, render: Render): OnPage
    requires |starts| == |items|
  {
    (a: nat, t: nat) => if a <= t then TurnOnPage(planner, items, starts, a, t, render) else []
  }

  /** The same of the pages of a transcript. */
  function PagesOf(msgs: seq<ProviderMessage>, checkpoints: map<nat, int>, planner: Planner, lookups: Lookups): OnPage
  {
    OnPages(planner, Items(msgs, checkpoints), Starts(msgs), Rendering(lookups))
  }

  /** What the pages of one turn each show. */
  function Singly(on: OnPage): nat -> seq<HistoryMessage>
  {
    (t: nat) => on(t, t)
  }

  /** What the whole transcript shows of each turn. */
  function Wholly(on: OnPage): nat -> seq<HistoryMessage>
  {
    (t: nat) => on(0, t)
  }

  /** What a page from turn a up to e shows, among pages of one turn each. */
  function Mostly(on: OnPage, a: nat, e: nat): nat -> seq<HistoryMessage>
  {
    (t: nat) => if a <= t < e then on(a, t) else on(t, t)
  }

  /** The pieces are what a page from turn a shows of its turns up to e. */
  ghost predicate ShownBy(on: OnPage, a: nat, e: nat, piece: nat -> seq<HistoryMessage>)
  {
    forall t :: a <= t < e ==> piece(t) == on(a, t)
  }

  /** What a page from turn a shows, for every turn it may reach. */
  function Prefixes(planner: Planner, items: seq<Item>, starts: seq<bool>, a: nat, render: Render)
    : nat -> seq<HistoryMessage>
    requires |starts| == |items|
  {
    (t: nat) => if a <= t then PageTo(planner, items, starts, a, t, render) else []
  }

  lemma PrefixStep(planner: Planner, items: seq<Item>, starts: seq<bool>, a: nat, t: nat, render: Render)
    requires |starts| == |items| && a <= t
    ensures var shown := Prefixes(planner, items, starts, a, render);
            shown(t + 1) == shown(t) + OnPages(planner, items, starts, render)(a, t)
  {
    PageStep(planner, items, starts, a, t, render);
  }

  lemma PageSpans(planner: Planner, items: seq<Item>, starts: seq<bool>, a: nat, e: nat, render: Render,
                  on: OnPage, piece: nat -> seq<HistoryMessage>)
    requires |starts| == |items| && on == OnPages(planner, items, starts, render)
    requires a <= e && ShownBy(on, a, e, piece)
    ensures Pieces(piece, e) == Pieces(piece, a) + Prefixes(planner, items, starts, a, render)(e)
  {
    var shown := Prefixes(planner, items, starts, a, render);
    forall t | a <= t < e ensures shown(t + 1) == shown(t) + piece(t) {
      PrefixStep(planner, items, starts, a, t, render);
    }
    PiecesFrom(piece, shown, a, e);
  }

  lemma {:induction false} PiecesFrom(piece: nat -> seq<HistoryMessage>, shown: nat -> seq<HistoryMessage>, a: nat,
                                      e: nat)
    requires a <= e && shown(a) == [] && forall t :: a <= t < e ==> shown(t + 1) == shown(t) + piece(t)
    ensures Pieces(piece, e) == Pieces(piece, a) + shown(e)
  {
    if e > a {
      PiecesFrom(piece, shown, a, e - 1);
      assert shown(e - 1 + 1) == shown(e - 1) + piece(e - 1);
    }
  }

  /** A walk joins the pieces that its pages show. */
  lemma WalkIsPieces(msgs: seq<ProviderMessage>, checkpoints: map<nat, int>, planner: Planner, lookups: Lookups,
                     before: int, limits: seq<int>, on: OnPage, piece: nat -> seq<HistoryMessage>)
    requires Total(msgs) > 0 && |limits| >= PageRange(Total(msgs), before, 1).end
    requires on == PagesOf(msgs, checkpoints, planner, lookups)
    requires forall r :: r in Walk(Total(msgs), before, limits) ==> ShownBy(on, r.start, r.end, piece)
    ensures JoinedPages(msgs, checkpoints, planner, lookups, Walk(Total(msgs), before, limits))
         == Pieces(piece, PageRange(Total(msgs), before, 1).end)
  {
    var walk, page := Walk(Total(msgs), before, limits), r => ProviderPage(msgs, checkpoints, planner, lookups, r);
    JoinedIsJoinedBy(msgs, checkpoints, planner, lookups, walk, page);
    forall r | r in walk ensures Spans(page, piece, r) {
      WalkRanges(Total(msgs), before, limits, r);
      PageIsFold(msgs, checkpoints, planner, lookups, r);
      PageSpans(planner, Items(msgs, checkpoints), Starts(msgs), r.start, r.end, Rendering(lookups), on, piece);
    }
    WalkJoins(page, piece, Total(msgs), before, limits);
  }

  /** The whole transcript is what it shows of each turn. */
  lemma WholeIsPieces(msgs: seq<ProviderMessage>, checkpoints: map<nat, int>, planner: Planner, lookups: Lookups,
                      on: OnPage)
    requires Total(msgs) > 0 && on == PagesOf(msgs, checkpoints, planner, lookups)
    ensures RenderedPrefix(msgs, checkpoints, planner, lookups, |msgs|).0 == Pieces(Wholly(on), Total(msgs))
  {
    PageSpans(planner, Items(msgs, checkpoints), Starts(msgs), 0, Total(msgs), Rendering(lookups), on, Wholly(on));
    LastCut(Starts(msgs), Total(msgs));
    FoldIsRendered(msgs, checkpoints, planner, lookups, |msgs|);
  }

  /** The walk by single turns joins what their pages show. */
  lemma SinglesWalk(msgs: seq<ProviderMessage>, checkpoints: map<nat, int>, planner: Planner, lookups: Lookups,
                    on: OnPage)
    requires Total(msgs) > 0 && on == PagesOf(msgs, checkpoints, planner, lookups)
    ensures JoinedPages(msgs, checkpoints, planner, lookups, Walk(Total(msgs), 0, Ones(Total(msgs))))
         == Pieces(Singly(on), Total(msgs))
  {
    SinglesShown(on, Total(msgs));
    WalkIsPieces(msgs, checkpoints, planner, lookups, 0, Ones(Total(msgs)), on, Singly(on));
  }

  lemma SinglesShown(on: OnPage, total: nat)
    requires total > 0
    ensures forall r :: r in Walk(total, 0, Ones(total)) ==> ShownBy(on, r.start, r.end, Singly(on))
  {
    NewestWalk(total, Ones(total));
    forall r | r in Walk(total, 0, Ones(total)) ensures ShownBy(on, r.start, r.end, Singly(on)) {
      OnesRanges(total, total, total, r);
    }
  }

  /** So does the walk through one larger page. */
  lemma ThroughWalk(msgs: seq<ProviderMessage>, checkpoints: map<nat, int>, planner: Planner, lookups: Lookups,
                    a: nat, e: nat, on: OnPage)
    requires a < e <= Total(msgs) && e - a <= MAX_TURNS && on == PagesOf(msgs, checkpoints, planner, lookups)
    ensures JoinedPages(msgs, checkpoints, planner, lookups,
                        Walk(Total(msgs), 0, Through(Total(msgs), a, e, Total(msgs))))
         == Pieces(Mostly(on, a, e), Total(msgs))
  {
    var limits := Through(Total(msgs), a, e, Total(msgs));
    ThroughShown(on, Total(msgs), a, e, limits);
    WalkIsPieces(msgs, checkpoints, planner, lookups, 0, limits, on, Mostly(on, a, e));
  }

  lemma ThroughShown(on: OnPage, total: nat, a: nat, e: nat, limits: seq<int>)
    requires a < e <= total && e - a <= MAX_TURNS && limits == Through(total, a, e, total)
    ensures forall r :: r in Walk(total, 0, limits) ==> ShownBy(on, r.start, r.end, Mostly(on, a, e))
  {
    NewestWalk(total, limits);
    forall r | r in Walk(total, 0, limits) ensures ShownBy(on, r.start, r.end, Mostly(on, a, e)) {
      ThroughRanges(total, total, a, e, total, r);
      MostlyShown(on, a, e, r);
    }
  }

  lemma MostlyShown(on: OnPage, a: nat, e: nat, r: Range)
    requires OneOrSingle(a, e, r)
    ensures ShownBy(on, r.start, r.end, Mostly(on, a, e))
  {
    var mostly := Mostly(on, a, e);
    forall t | r.start <= t < r.end ensures mostly(t) == on(r.start, t) {
      if a <= t < e {
        assert r.start == a;
      } else {
        assert r.start == t;
      }
    }
  }
}
