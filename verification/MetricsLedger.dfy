/**
 The metrics ledger (desktop/metrics_app.go): counts per signal and bucket move from
 memory through hands of persisting threads and a pending file to a delivery, or back.
 The module proves that under every interleaving no count is lost or made up.
 */
module MetricsLedger {
  import opened Wrappers

  type Buckets = map<string, nat>
  type Counters = map<string, Buckets>

  function Bucket(buckets: Buckets, bucket: string): nat
  {
    if bucket in buckets then buckets[bucket] else 0
  }

  function Count(c: Counters, signal: string, bucket: string): nat
  {
    if signal in c then Bucket(c[signal], bucket) else 0
  }

  /** r counts what c and d count together. */
  ghost predicate IsSum(r: Counters, c: Counters, d: Counters)
  {
    forall s, b :: Count(r, s, b) == Count(c, s, b) + Count(d, s, b)
  }

  /** counters.add. */
  method Add(c: Counters, signal: string, bucket: string, n: nat) returns (r: Counters)
    ensures Count(r, signal, bucket) == Count(c, signal, bucket) + n
    ensures forall s, b :: s != signal || b != bucket ==> Count(r, s, b) == Count(c, s, b)
    ensures r != map[]
  {
    r := c;
    if signal !in r {
      r := r[signal := map[]];
    }
    var buckets := r[signal];
    r := r[signal := buckets[bucket := Bucket(buckets, bucket) + n]];
    assert signal in r;
  }

  /** counters.merge, signal by signal and bucket by bucket in any order. */
  method Merge(c: Counters, other: Counters) returns (r: Counters)
    ensures IsSum(r, c, other)
  {
    r := c;
    var signals := other.Keys;
    while signals != {}
      invariant signals <= other.Keys
      invariant forall s, b :: Count(r, s, b) == Count(c, s, b) + if s in signals then 0 else Count(other, s, b)
      decreases |signals|
    {
      var signal :| signal in signals;
      r := MergeSignal(r, signal, other[signal]);
      signals := signals - {signal};
    }
  }

  /** The inner loop of merge. */
  method MergeSignal(c: Counters, signal: string, buckets: Buckets) returns (r: Counters)
    ensures forall b :: Count(r, signal, b) == Count(c, signal, b) + Bucket(buckets, b)
    ensures forall s, b :: s != signal ==> Count(r, s, b) == Count(c, s, b)
  {
    r := c;
    var left := buckets.Keys;
    while left != {}
      invariant left <= buckets.Keys
      invariant forall b :: Count(r, signal, b) == Count(c, signal, b) + if b in left then 0 else Bucket(buckets, b)
      invariant forall s, b :: s != signal ==> Count(r, s, b) == Count(c, s, b)
      decreases |left|
    {
      var bucket :| bucket in left;
      r := Add(r, signal, bucket, buckets[bucket]);
      left := left - {bucket};
    }
  }

  // ---- The payload ----

  datatype Counter = Counter(signal: string, bucket: string, count: nat)

  function Listed(flat: seq<Counter>, signal: string, bucket: string): nat
  {
    if flat == [] then 0
    else
      var last := flat[|flat| - 1];
      Listed(flat[..|flat| - 1], signal, bucket)
      + if last.signal == signal && last.bucket == bucket then last.count else 0
  }

  /** The list carries the counts, and only positive ones. */
  ghost predicate IsFlat(flat: seq<Counter>, c: Counters)
  {
    && (forall s, b :: Listed(flat, s, b) == Count(c, s, b))
    && (forall k :: 0 <= k < |flat| ==> flat[k].count > 0)
  }

  lemma ListedSnoc(flat: seq<Counter>, counter: Counter)
    ensures forall s, b :: Listed(flat + [counter], s, b)
              == Listed(flat, s, b) + if counter.signal == s && counter.bucket == b then counter.count else 0
  {
    assert (flat + [counter])[..|flat|] == flat;
  }

  /** flatten. */
  method Flatten(c: Counters) returns (flat: seq<Counter>)
    ensures IsFlat(flat, c)
  {
    flat := [];
    var signals := c.Keys;
    while signals != {}
      invariant signals <= c.Keys
      invariant forall s, b :: Listed(flat, s, b) == if s in signals then 0 else Count(c, s, b)
      invariant forall k :: 0 <= k < |flat| ==> flat[k].count > 0
      decreases |signals|
    {
      var signal :| signal in signals;
      flat := FlattenSignal(flat, signal, c[signal]);
      signals := signals - {signal};
    }
  }

  /** The inner loop of flatten. */
  method FlattenSignal(was: seq<Counter>, signal: string, buckets: Buckets) returns (flat: seq<Counter>)
    requires forall k :: 0 <= k < |was| ==> was[k].count > 0
    requires forall b :: Listed(was, signal, b) == 0
    ensures forall b :: Listed(flat, signal, b) == Bucket(buckets, b)
    ensures forall s, b :: s != signal ==> Listed(flat, s, b) == Listed(was, s, b)
    ensures forall k :: 0 <= k < |flat| ==> flat[k].count > 0
  {
    flat := was;
    var left := buckets.Keys;
    while left != {}
      invariant left <= buckets.Keys
      invariant forall b :: Listed(flat, signal, b) == if b in left then 0 else Bucket(buckets, b)
      invariant forall s, b :: s != signal ==> Listed(flat, s, b) == Listed(was, s, b)
      invariant forall k :: 0 <= k < |flat| ==> flat[k].count > 0
      decreases |left|
    {
      var bucket :| bucket in left;
      if buckets[bucket] > 0 {
        ListedSnoc(flat, Counter(signal, bucket, buckets[bucket]));
        flat := flat + [Counter(signal, bucket, buckets[bucket])];
      }
      left := left - {bucket};
    }
  }

  /** Nothing is listed exactly if nothing is counted. */
  lemma EmptyPayload(flat: seq<Counter>, c: Counters)
    requires IsFlat(flat, c)
    ensures flat == [] <==> forall s, b :: Count(c, s, b) == 0
  {
    if flat != [] {
      var last := flat[|flat| - 1];
      assert Listed(flat, last.signal, last.bucket) > 0;
      assert Count(c, last.signal, last.bucket) > 0;
    }
  }

  // ---- The objects ----

  /** metricsAggregator. */
  class MetricsAggregator {
    var c: Counters

    constructor ()
      ensures c == map[]
    {
      c := map[];
    }

    /** inc. */
    method Inc(signal: string, bucket: string)
      modifies this
      ensures Incremented(old(c), signal, bucket, c)
    {
      c := Add(c, signal, bucket, 1);
    }

    /** The first half of persist: the counts so far change hands. */
    method Take() returns (delta: Option<Counters>)
      modifies this
      ensures delta == if old(c) == map[] then None else Some(old(c))
      ensures c == map[]
    {
      if |c| == 0 {
        return None;
      }
      delta := Some(c);
      c := map[];
    }
  }

  /** The pending file and the one being sent. */
  class MetricsFiles {
    var pending: Option<Counters>
    var sending: Option<Counters>

    constructor ()
      ensures pending == None && sending == None
    {
      pending, sending := None, None;
    }

    /** The second half of persist, and the folding back of a failed flush: a section
        under metricsPendingMu. */
    method FoldIn(delta: Counters)
      modifies this
      ensures pending.Some? && IsSum(pending.value, OrEmpty(old(pending)), delta)
      ensures sending == old(sending)
    {
      var read := OrEmpty(pending);
      var merged := Merge(read, delta);
      pending := Some(merged);
    }

    /** The rename that opens a flush. */
    method StartSending() returns (ok: bool)
      modifies this
      ensures ok == old(pending).Some?
      ensures if ok then pending == None && sending == old(pending)
              else pending == old(pending) && sending == old(sending)
    {
      ok := pending.Some?;
      if ok {
        pending, sending := None, pending;
      }
    }

    /** flushMetrics, run without interruption: `accepted` is what posting would answer. */
    method Flush(accepted: bool) returns (posted: seq<Counter>)
      modifies this
      ensures forall s, b :: Count(OrEmpty(old(pending)), s, b) == Count(OrEmpty(pending), s, b) + Listed(posted, s, b)
      ensures !accepted ==> posted == []
      ensures forall k :: 0 <= k < |posted| ==> posted[k].count > 0
      ensures old(pending).None? ==> posted == [] && pending == None && sending == old(sending)
      ensures old(pending).Some? ==> sending == None
      ensures old(pending).Some? && accepted ==>
                pending == None && forall s, b :: Listed(posted, s, b) == Count(old(pending).value, s, b)
      ensures old(pending).Some? && !accepted ==>
                (pending == None <==> forall s, b :: Count(old(pending).value, s, b) == 0)
    {
      posted := [];
      var ok := StartSending();
      if !ok {
        return;
      }
      var flat := Flatten(OrEmpty(sending));
      EmptyPayload(flat, OrEmpty(sending));
      if |flat| == 0 || accepted {
        sending, posted := None, flat;
        return;
      }
      FoldIn(OrEmpty(sending));
      sending := None;
    }
  }

  /** readCounters: no file reads as no counts. */
  function OrEmpty(file: Option<Counters>): Counters
  {
    if file.Some? then file.value else map[]
  }

  ghost predicate Incremented(c: Counters, signal: string, bucket: string, r: Counters)
  {
    && Count(r, signal, bucket) == Count(c, signal, bucket) + 1
    && forall s, b :: s != signal || b != bucket ==> Count(r, s, b) == Count(c, s, b)
  }

  // ---- All threads together ----

  /** Where the one flush of a launch stands. */
  datatype Flush = NotStarted | Sending | Refused | Folded | Delivered | Over

  /** Aggregators, the counts taken from them and not yet written, the files, and what has
      been posted. */
  datatype State = State(
    memories: seq<Counters>, hands: seq<Counters>, pending: Option<Counters>, sending: Option<Counters>,
    flush: Flush, posted: seq<Counter>)

  datatype Event =
    | Open
    | Inc(memory: nat, signal: string, bucket: string)
    | Take(memory: nat)
    | Write(hand: nat)
    | FlushStart
    | FlushPost(flat: seq<Counter>, accepted: bool)
    | FlushFold
    | FlushRemove

  ghost predicate Step(s: State, e: Event, s': State)
  {
    match e
    case Open => s' == s.(memories := s.memories + [map[]])
    case Inc(i, signal, bucket) =>
      && i < |s.memories| == |s'.memories| && Incremented(s.memories[i], signal, bucket, s'.memories[i])
      && s' == s.(memories := s.memories[i := s'.memories[i]])
    case Take(i) =>
      && i < |s.memories|
      && if s.memories[i] == map[] then s' == s
         else s' == s.(memories := s.memories[i := map[]], hands := s.hands + [s.memories[i]])
    case Write(i) =>
      && i < |s.hands| && s'.pending.Some? && IsSum(s'.pending.value, OrEmpty(s.pending), s.hands[i])
      && s' == s.(pending := s'.pending, hands := s.hands[..i] + s.hands[i + 1..])
    case FlushStart =>
      && s.flush.NotStarted?
      && if s.pending.None? then s' == s.(flush := Over)
         else s' == s.(pending := None, sending := s.pending, flush := Sending)
    case FlushPost(flat, accepted) =>
      && s.flush.Sending? && IsFlat(flat, OrEmpty(s.sending))
      && if flat == [] || accepted then s' == s.(flush := Delivered, posted := s.posted + flat)
         else s' == s.(flush := Refused)
    case FlushFold =>
      && s.flush.Refused? && s'.pending.Some? && IsSum(s'.pending.value, OrEmpty(s.pending), OrEmpty(s.sending))
      && s' == s.(pending := s'.pending, flush := Folded)
    case FlushRemove =>
      && (s.flush.Folded? || s.flush.Delivered?) && s' == s.(sending := None, flush := Over)
  }

  function Sum(cs: seq<Counters>, signal: string, bucket: string): nat
  {
    if cs == [] then 0 else Count(cs[0], signal, bucket) + Sum(cs[1..], signal, bucket)
  }

  /** All there is of one count: a file being sent counts until it is posted or folded. */
  function Total(s: State, signal: string, bucket: string): nat
  {
    Sum(s.memories, signal, bucket) + Sum(s.hands, signal, bucket) + Count(OrEmpty(s.pending), signal, bucket)
    + (if s.flush.Sending? || s.flush.Refused? then Count(OrEmpty(s.sending), signal, bucket) else 0)
    + Listed(s.posted, signal, bucket)
  }

  lemma {:induction false} SumConcat(a: seq<Counters>, b: seq<Counters>, signal: string, bucket: string)
    ensures Sum(a + b, signal, bucket) == Sum(a, signal, bucket) + Sum(b, signal, bucket)
    decreases |a|
  {
    if a == [] {
      assert a + b == b;
    } else {
      SumConcat(a[1..], b, signal, bucket);
      assert (a + b)[1..] == a[1..] + b;
    }
  }

  lemma SumOne(c: Counters, signal: string, bucket: string)
    ensures Sum([c], signal, bucket) == Count(c, signal, bucket)
  {
    assert [c][1..] == [];
  }

  /** The sum, by one of its parts. */
  lemma SumAt(cs: seq<Counters>, i: nat, c: Counters, signal: string, bucket: string)
    requires i < |cs|
    ensures Sum(cs, signal, bucket) == Sum(cs[..i] + cs[i + 1..], signal, bucket) + Count(cs[i], signal, bucket)
    ensures Sum(cs[i := c], signal, bucket) == Sum(cs[..i] + cs[i + 1..], signal, bucket) + Count(c, signal, bucket)
  {
    SumConcat(cs[..i], cs[i + 1..], signal, bucket);
    Around(cs, i, signal, bucket);
    Around(cs[i := c], i, signal, bucket);
    assert cs[i := c][..i] == cs[..i] && cs[i := c][i + 1..] == cs[i + 1..];
  }

  lemma Around(cs: seq<Counters>, i: nat, signal: string, bucket: string)
    requires i < |cs|
    ensures Sum(cs, signal, bucket)
            == Sum(cs[..i], signal, bucket) + Count(cs[i], signal, bucket) + Sum(cs[i + 1..], signal, bucket)
  {
    assert cs == cs[..i] + cs[i..];
    SumConcat(cs[..i], cs[i..], signal, bucket);
    assert cs[i..][0] == cs[i] && cs[i..][1..] == cs[i + 1..];
  }

  lemma {:induction false} ListedConcat(a: seq<Counter>, b: seq<Counter>, signal: string, bucket: string)
    ensures Listed(a + b, signal, bucket) == Listed(a, signal, bucket) + Listed(b, signal, bucket)
    decreases |b|
  {
    if b == [] {
      assert a + b == a;
    } else {
      ListedConcat(a, b[..|b| - 1], signal, bucket);
      assert (a + b)[..|a + b| - 1] == a + b[..|b| - 1];
    }
  }

  /** A step makes a count only where something is counted, and loses none. */
  lemma StepConserves(s: State, e: Event, s': State, signal: string, bucket: string)
    requires Step(s, e, s')
    ensures Total(s', signal, bucket) == Total(s, signal, bucket) + if IsInc(e, signal, bucket) then 1 else 0
  {
    match e
    case Open =>
      SumConcat(s.memories, [map[]], signal, bucket);
      SumOne(map[], signal, bucket);
    case Inc(i, _, _) =>
      SumAt(s.memories, i, s'.memories[i], signal, bucket);
    case Take(i) =>
      SumAt(s.memories, i, map[], signal, bucket);
      SumConcat(s.hands, [s.memories[i]], signal, bucket);
      SumOne(s.memories[i], signal, bucket);
    case Write(i) =>
      SumAt(s.hands, i, map[], signal, bucket);
    case FlushStart =>
    case FlushPost(flat, accepted) =>
      ListedConcat(s.posted, flat, signal, bucket);
    case FlushFold =>
    case FlushRemove =>
  }

  predicate IsInc(e: Event, signal: string, bucket: string)
  {
    e.Inc? && e.signal == signal && e.bucket == bucket
  }

  /** How often a run counts one signal in one bucket. */
  function Incs(run: seq<(Event, State)>, signal: string, bucket: string): nat
  {
    if run == [] then 0 else Incs(run[1..], signal, bucket) + if IsInc(run[0].0, signal, bucket) then 1 else 0
  }

  ghost predicate IsRun(s: State, run: seq<(Event, State)>)
    decreases |run|
  {
    run == [] || (Step(s, run[0].0, run[0].1) && IsRun(run[0].1, run[1..]))
  }

  function Final(s: State, run: seq<(Event, State)>): State
  {
    if run == [] then s else run[|run| - 1].1
  }

  const INITIAL := State([], [], None, None, NotStarted, [])

  /** At the end of any run, what is counted is in memory, in hand, pending, being sent or
      delivered: each count once. */
  lemma {:induction false} RunConserves(s: State, run: seq<(Event, State)>, signal: string, bucket: string)
    requires IsRun(s, run)
    ensures Total(Final(s, run), signal, bucket) == Total(s, signal, bucket) + Incs(run, signal, bucket)
    decreases |run|
  {
    if run != [] {
      StepConserves(s, run[0].0, run[0].1, signal, bucket);
      RunConserves(run[0].1, run[1..], signal, bucket);
    }
  }

  /** With everything written and the flush over, the pending file and the deliveries hold
      exactly the counts made. */
  lemma NothingInFlight(run: seq<(Event, State)>, signal: string, bucket: string)
    requires IsRun(INITIAL, run)
    requires var s := Final(INITIAL, run);
             s.flush.Over? && s.hands == [] && forall i :: 0 <= i < |s.memories| ==> s.memories[i] == map[]
    ensures var s := Final(INITIAL, run);
            Incs(run, signal, bucket) == Count(OrEmpty(s.pending), signal, bucket) + Listed(s.posted, signal, bucket)
  {
    RunConserves(INITIAL, run, signal, bucket);
    SumEmpty(Final(INITIAL, run).memories, signal, bucket);
  }

  lemma {:induction false} SumEmpty(cs: seq<Counters>, signal: string, bucket: string)
    requires forall i :: 0 <= i < |cs| ==> cs[i] == map[]
    ensures Sum(cs, signal, bucket) == 0
  {
    if cs != [] {
      SumEmpty(cs[1..], signal, bucket);
    }
  }
}
