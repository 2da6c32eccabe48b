/**
  The batch writer as a step system: searches are sent to a bounded queue by any number of callers, one
  loop takes them into an aggregating map and flushes it, by size, on a timer and on shutdown. Every
  atomic action of a caller or of the loop is one event, so every interleaving is a run.
 */
module BatchSteps {
  import opened Recency
  import opened TrieSpec

  datatype Limits = Limits(bufCap: nat, batchSize: nat) {
    ghost predicate Valid() {
      bufCap >= 1 && batchSize >= 1
    }
  }

  /** Where the loop is. `final` marks the flush that ends the drain. */
  datatype Loop =
    | Idle
    | Applying(batch: map<string, int>, final: bool)
    | AddingUpserts(rows: nat, final: bool)
    | AddingFlush(final: bool)
    | Draining
    | Exited

  /**
    The writer's state, with the counts its flushes go to. The last three fields are the history the
    theorems speak about: all accepted searches, and how many of them came during the drain (`late`) and
    after the drain had seen the queue empty (`missed`).
   */
  datatype Batcher = Batcher(
    queue: seq<string>,
    pending: map<string, int>,
    total: nat,
    loop: Loop,
    quit: bool,
    counts: Counts,
    received: nat,
    uncounted: nat,  // sends whose caller has not yet added to `received`
    dropped: nat,
    upserts: nat,
    flushes: nat,
    accepted: multiset<string>,
    late: nat,
    missed: nat)

  datatype Event =
    | Send(query: string)
    | AddReceived
    | Drop
    | Take
    | Tick
    | Apply
    | AddUpserts
    | AddFlush
    | Close
    | SeeQuit
    | DrainTake
    | DrainEmpty

  function Initial(counts: Counts): Batcher {
    Batcher([], map[], 0, Idle, false, counts, 0, 0, 0, 0, 0, multiset{}, 0, 0)
  }

  /** The flush that ends the drain is under way, or over. */
  predicate Final(loop: Loop) {
    match loop
    case Applying(_, final) => final
    case AddingUpserts(_, final) => final
    case AddingFlush(final) => final
    case Exited => true
    case _ => false
  }

  predicate Closing(loop: Loop) {
    loop.Draining? || Final(loop)
  }

  predicate Enabled(l: Limits, s: Batcher, e: Event) {
    match e
    case Send(q) => q != "" && |s.queue| < l.bufCap
    case AddReceived => s.uncounted > 0
    case Drop => true
    case Take => s.loop.Idle? && s.queue != []
    case Tick => s.loop.Idle?
    case Apply => s.loop.Applying?
    case AddUpserts => s.loop.AddingUpserts?
    case AddFlush => s.loop.AddingFlush?
    case Close => !s.quit
    case SeeQuit => s.loop.Idle? && s.quit
    case DrainTake => s.loop.Draining? && s.queue != []
    case DrainEmpty => s.loop.Draining? && s.queue == []
  }

  function Tallied(m: map<string, int>, q: string): map<string, int> {
    m[q := CountOf(m, q) + 1]
  }

  /** flush: an empty map is not flushed; otherwise the map is swapped out before it is applied. */
  function Flush(s: Batcher, final: bool): Batcher {
    if s.pending == map[] then s.(loop := if final then Exited else Idle)
    else s.(pending := map[], total := 0, loop := Applying(s.pending, final))
  }

  function Next(l: Limits, s: Batcher, e: Event): Batcher
    requires Enabled(l, s, e)
  {
    match e
    case Send(q) =>
      s.(queue := s.queue + [q], uncounted := s.uncounted + 1, accepted := s.accepted + multiset{q},
         late := s.late + if s.loop.Draining? then 1 else 0,
         missed := s.missed + if Final(s.loop) then 1 else 0)
    case AddReceived => s.(received := s.received + 1, uncounted := s.uncounted - 1)
    case Drop => s.(dropped := s.dropped + 1)
    case Take =>
      var s' := s.(queue := s.queue[1..], pending := Tallied(s.pending, s.queue[0]), total := s.total + 1);
      if s'.total >= l.batchSize then Flush(s', false) else s'
    case Tick => Flush(s, false)
    case Apply =>
      s.(counts := AddDeltas(s.counts, s.loop.batch), loop := AddingUpserts(|s.loop.batch|, s.loop.final))
    case AddUpserts => s.(upserts := s.upserts + s.loop.rows, loop := AddingFlush(s.loop.final))
    case AddFlush => s.(flushes := s.flushes + 1, loop := if s.loop.final then Exited else Idle)
    case Close => s.(quit := true)
    case SeeQuit => s.(loop := Draining)
    case DrainTake => s.(queue := s.queue[1..], pending := Tallied(s.pending, s.queue[0]))  // total is left alone
    case DrainEmpty => Flush(s, true)
  }

  ghost predicate IsRun(l: Limits, run: seq<Batcher>, events: seq<Event>) {
    && |run| == |events| + 1 && run[0] == Initial(run[0].counts)
    && forall i | 0 <= i < |events| :: Enabled(l, run[i], events[i]) && run[i + 1] == Next(l, run[i], events[i])
  }

  // ----- Totals of a tally -----

  ghost function Sum(m: map<string, int>): int {
    if m == map[] then 0
    else
      var q :| q in m;
      m[q] + Sum(m - {q})
  }

  lemma {:induction false} SumWithout(m: map<string, int>, q: string)
    requires q in m
    ensures Sum(m) == m[q] + Sum(m - {q})
    decreases |m|
  {
    var x :| x in m && Sum(m) == m[x] + Sum(m - {x});
    if x != q {
      SumWithout(m - {x}, q);
      SumWithout(m - {q}, x);
      assert m - {x} - {q} == m - {q} - {x};
    }
  }

  lemma {:induction false} SumTallied(m: map<string, int>, q: string)
    ensures Sum(Tallied(m, q)) == Sum(m) + 1
  {
    SumWithout(Tallied(m, q), q);
    assert Tallied(m, q) - {q} == m - {q};
    if q in m {
      SumWithout(m, q);
    } else {
      assert m - {q} == m;
    }
  }

  ghost predicate GoodTally(m: map<string, int>) {
    forall q | q in m :: m[q] >= 1 && q != ""
  }

  /** A tally has at most as many distinct queries as searches. */
  lemma {:induction false} DistinctAtMostSum(m: map<string, int>)
    requires GoodTally(m)
    ensures |m| <= Sum(m)
    decreases |m|
  {
    if m != map[] {
      var q :| q in m;
      SumWithout(m, q);
      DistinctAtMostSum(m - {q});
      assert m.Keys == (m - {q}).Keys + {q};
      assert |m.Keys| == |m| && |(m - {q}).Keys| == |m - {q}|;
    }
  }

  lemma AddGoodTally(counts: Counts, batch: map<string, int>, q: string)
    requires GoodTally(batch)
    ensures CountOf(AddDeltas(counts, batch), q) == CountOf(counts, q) + CountOf(batch, q)
  {
  }

  // ----- The invariant -----

  function InFlight(loop: Loop): map<string, int> {
    if loop.Applying? then loop.batch else map[]
  }

  /** Accepted searches that have not reached the counts. */
  ghost function Unflushed(s: Batcher): int {
    |s.queue| + Sum(s.pending) + Sum(InFlight(s.loop))
  }

  /** A query's searches that have not reached the counts. */
  function UnflushedOf(s: Batcher, q: string): int {
    multiset(s.queue)[q] + CountOf(s.pending, q) + CountOf(InFlight(s.loop), q)
  }

  ghost predicate Conserved(start: Counts, s: Batcher) {
    forall q :: CountOf(start, q) + s.accepted[q] == CountOf(s.counts, q) + UnflushedOf(s, q)
  }

  ghost predicate Shape(l: Limits, s: Batcher) {
    && |s.queue| <= l.bufCap && "" !in s.queue
    && GoodTally(s.pending) && GoodTally(InFlight(s.loop))
    && (s.loop.Idle? ==> Sum(s.pending) == s.total < l.batchSize)
    && (!s.loop.Idle? && !s.loop.Draining? ==> s.pending == map[])
    && (s.loop.AddingUpserts? || s.loop.AddingFlush? ==> s.total == 0)
    && (s.loop.Applying? ==> s.total == 0 && s.loop.batch != map[])
    && (s.loop.AddingUpserts? ==> s.loop.rows >= 1)
  }

  /** The unflushed tail: before the drain part by part, from then on as a whole. */
  ghost predicate Tail(l: Limits, s: Batcher) {
    && (!Closing(s.loop) ==> Sum(InFlight(s.loop)) <= l.batchSize && s.late == 0)
    && (Closing(s.loop) ==> Unflushed(s) < l.bufCap + l.batchSize + s.late + s.missed)
    && s.missed == if Final(s.loop) then |s.queue| else 0
  }

  function Owed(loop: Loop): nat {
    if loop.AddingUpserts? then loop.rows else 0
  }

  ghost predicate Counters(s: Batcher) {
    && s.received + s.uncounted == |s.accepted|
    && s.upserts + Owed(s.loop) + Unflushed(s) <= |s.accepted|
    && s.flushes + (if s.loop.AddingFlush? then 1 else 0) <= s.upserts
  }

  ghost predicate Inv(l: Limits, start: Counts, s: Batcher) {
    Shape(l, s) && Conserved(start, s) && Tail(l, s) && Counters(s)
  }

  // ----- Every step keeps it -----

  lemma {:induction false} TallyOne(m: map<string, int>, q: string)
    requires GoodTally(m) && q != ""
    ensures GoodTally(Tallied(m, q)) && Tallied(m, q) != map[]
    ensures forall x :: CountOf(Tallied(m, q), x) == CountOf(m, x) + if x == q then 1 else 0
  {
    assert q in Tallied(m, q);
  }

  lemma {:induction false} HeadOf(queue: seq<string>)
    requires queue != []
    ensures multiset(queue) == multiset{queue[0]} + multiset(queue[1..])
  {
    assert queue == [queue[0]] + queue[1..];
  }

  /** Moving the head of the queue into the tally loses nothing. */
  lemma {:induction false} TakeKeeps(l: Limits, start: Counts, s: Batcher, s': Batcher)
    requires Shape(l, s) && Conserved(start, s) && s.queue != []
    requires s' == s.(queue := s.queue[1..], pending := Tallied(s.pending, s.queue[0]), total := s'.total)
    ensures Conserved(start, s') && Unflushed(s') == Unflushed(s) && GoodTally(s'.pending)
    ensures s'.pending != map[] && Sum(s'.pending) == Sum(s.pending) + 1 && "" !in s'.queue
  {
    var q := s.queue[0];
    assert q in s.queue;
    TallyOne(s.pending, q);
    SumTallied(s.pending, q);
    HeadOf(s.queue);
    hide Tallied, GoodTally, Sum;
    forall x ensures UnflushedOf(s', x) == UnflushedOf(s, x) {
    }
  }

  lemma FlushKeeps(l: Limits, start: Counts, s: Batcher, final: bool)
    requires l.Valid() && Conserved(start, s) && InFlight(s.loop) == map[]
    ensures Conserved(start, Flush(s, final)) && Unflushed(Flush(s, final)) == Unflushed(s)
  {
  }

  lemma {:induction false} ApplyKeeps(l: Limits, start: Counts, s: Batcher)
    requires Shape(l, s) && Conserved(start, s) && s.loop.Applying?
    ensures var s' := Next(l, s, Apply);
            Conserved(start, s') && Unflushed(s') == Unflushed(s) - Sum(s.loop.batch)
            && 1 <= |s.loop.batch| <= Sum(s.loop.batch)
  {
    var s' := Next(l, s, Apply);
    DistinctAtMostSum(s.loop.batch);
    forall x ensures CountOf(s.counts, x) + UnflushedOf(s, x) == CountOf(s'.counts, x) + UnflushedOf(s', x) {
      AddGoodTally(s.counts, s.loop.batch, x);
    }
    assert InFlight(s'.loop) == map[];
  }

  lemma {:induction false} StepKeeps(l: Limits, start: Counts, s: Batcher, e: Event)
    requires l.Valid() && Inv(l, start, s) && Enabled(l, s, e)
    ensures Inv(l, start, Next(l, s, e))
  {
    match e {
      case Send(q) => SendKeeps(l, start, s, q);
      case Take => TakeInv(l, start, s);
      case DrainTake => DrainTakeInv(l, start, s);
      case Tick => FlushInv(l, start, s, e);
      case DrainEmpty => FlushInv(l, start, s, e);
      case Apply => ApplyInv(l, start, s);
      case _ => CountingInv(l, start, s, e);
    }
  }

  lemma {:induction false} TakeInv(l: Limits, start: Counts, s: Batcher)
    requires l.Valid() && Inv(l, start, s) && Enabled(l, s, Take)
    ensures Inv(l, start, Next(l, s, Take))
  {
    hide Sum, GoodTally, Tallied, Conserved, Unflushed;
    var s1 := s.(queue := s.queue[1..], pending := Tallied(s.pending, s.queue[0]), total := s.total + 1);
    TakeKeeps(l, start, s, s1);
    EmptySums();
    if s1.total >= l.batchSize {
      FlushKeeps(l, start, s1, false);
    }
  }

  lemma {:induction false} DrainTakeInv(l: Limits, start: Counts, s: Batcher)
    requires l.Valid() && Inv(l, start, s) && Enabled(l, s, DrainTake)
    ensures Inv(l, start, Next(l, s, DrainTake))
  {
    hide Sum, GoodTally, Tallied, Conserved, Unflushed;
    TakeKeeps(l, start, s, Next(l, s, DrainTake));
  }

  lemma {:induction false} FlushInv(l: Limits, start: Counts, s: Batcher, e: Event)
    requires l.Valid() && Inv(l, start, s) && Enabled(l, s, e) && (e.Tick? || e.DrainEmpty?)
    ensures Inv(l, start, Next(l, s, e))
  {
    hide Sum, GoodTally, Conserved, Unflushed;
    EmptySums();
    FlushKeeps(l, start, s, e.DrainEmpty?);
  }

  lemma {:induction false} ApplyInv(l: Limits, start: Counts, s: Batcher)
    requires l.Valid() && Inv(l, start, s) && Enabled(l, s, Apply)
    ensures Inv(l, start, Next(l, s, Apply))
  {
    EmptySums();
    ApplyKeeps(l, start, s);
    hide Sum, GoodTally, Conserved, AddSome;
  }

  /** The remaining steps touch neither searches nor counts. */
  lemma {:induction false} CountingInv(l: Limits, start: Counts, s: Batcher, e: Event)
    requires l.Valid() && Inv(l, start, s) && Enabled(l, s, e)
    requires e in {AddReceived, Drop, AddUpserts, AddFlush, Close, SeeQuit}
    ensures Inv(l, start, Next(l, s, e))
  {
    hide Sum, GoodTally, Conserved;
    EmptySums();
    SameSearches(start, s, Next(l, s, e));
  }

  lemma SameSearches(start: Counts, s: Batcher, s': Batcher)
    requires s'.queue == s.queue && s'.pending == s.pending && InFlight(s'.loop) == InFlight(s.loop)
    requires s'.counts == s.counts && s'.accepted == s.accepted
    ensures Unflushed(s') == Unflushed(s) && (Conserved(start, s) ==> Conserved(start, s'))
  {
  }

  lemma EmptySums()
    ensures Sum(map[]) == 0 && GoodTally(map[])
  {
  }

  lemma SendKeeps(l: Limits, start: Counts, s: Batcher, q: string)
    requires l.Valid() && Inv(l, start, s) && Enabled(l, s, Send(q))
    ensures Inv(l, start, Next(l, s, Send(q)))
  {
  }

  lemma {:induction false} RunInv(l: Limits, run: seq<Batcher>, events: seq<Event>, i: nat)
    requires l.Valid() && IsRun(l, run, events) && i < |run|
    ensures Inv(l, run[0].counts, run[i])
  {
    if i == 0 {
      EmptySums();
    } else {
      RunInv(l, run, events, i - 1);
      StepKeeps(l, run[0].counts, run[i - 1], events[i - 1]);
    }
  }

  // ----- Conservation -----

  function Sends(events: seq<Event>): seq<string> {
    if events == [] then []
    else
      var e := events[|events| - 1];
      Sends(events[..|events| - 1]) + if e.Send? then [e.query] else []
  }

  lemma {:induction false} HistoryStep(l: Limits, s: Batcher, e: Event)
    requires Enabled(l, s, e)
    ensures var s' := Next(l, s, e);
            s'.accepted == s.accepted + (if e.Send? then multiset{e.query} else multiset{})
            && s'.late == s.late + (if e.Send? && s.loop.Draining? then 1 else 0)
            && s'.missed == s.missed + (if e.Send? && Final(s.loop) then 1 else 0)
  {
    hide Tallied, AddSome;
  }

  lemma {:induction false} AcceptedAreSends(l: Limits, run: seq<Batcher>, events: seq<Event>, i: nat)
    requires IsRun(l, run, events) && i < |run|
    ensures run[i].accepted == multiset(Sends(events[..i]))
  {
    if i > 0 {
      hide Next, Enabled;
      AcceptedAreSends(l, run, events, i - 1);
      HistoryStep(l, run[i - 1], events[i - 1]);
      assert events[..i][..i - 1] == events[..i - 1] && events[..i][i - 1] == events[i - 1];
    }
  }

  /**
    End-to-end conservation, in every interleaving: a query's starting count plus its accepted sends is its
    count plus its searches that are queued, pending or in the batch being applied.
   */
  lemma {:induction false} Conservation(l: Limits, run: seq<Batcher>, events: seq<Event>, i: nat, q: string)
    requires l.Valid() && IsRun(l, run, events) && i < |run|
    ensures var s := run[i];
            CountOf(run[0].counts, q) + multiset(Sends(events[..i]))[q]
            == CountOf(s.counts, q) + multiset(s.queue)[q] + CountOf(s.pending, q) + CountOf(InFlight(s.loop), q)
  {
    RunInv(l, run, events, i);
    AcceptedAreSends(l, run, events, i);
  }

  /** The searches the loop has taken so far, in the order it took them. */
  ghost function TakenSoFar(run: seq<Batcher>, events: seq<Event>, i: nat): seq<string>
    requires i <= |events| < |run|
  {
    if i == 0 then []
    else
      var s, e := run[i - 1], events[i - 1];
      TakenSoFar(run, events, i - 1) + if (e.Take? || e.DrainTake?) && s.queue != [] then [s.queue[0]] else []
  }

  /** First in, first out: what was taken, followed by what is queued, is what was sent, in its order. */
  lemma {:induction false} TakenInOrder(l: Limits, run: seq<Batcher>, events: seq<Event>, i: nat)
    requires IsRun(l, run, events) && i < |run|
    ensures TakenSoFar(run, events, i) + run[i].queue == Sends(events[..i])
  {
    if i > 0 {
      hide Next, Enabled, Sends;
      TakenInOrder(l, run, events, i - 1);
      QueueStep(l, run[i - 1], events[i - 1]);
      SendsStep(events, i);
      FifoStep(TakenSoFar(run, events, i - 1), run[i - 1].queue, Sends(events[..i - 1]), events[i - 1], run[i].queue);
      hide IsRun;
    }
  }

  lemma {:induction false} FifoStep(taken: seq<string>, queue: seq<string>, sent: seq<string>, e: Event,
                                    queue': seq<string>)
    requires taken + queue == sent && (e.Take? || e.DrainTake? ==> queue != [])
    requires queue' == if e.Send? then queue + [e.query] else if e.Take? || e.DrainTake? then queue[1..] else queue
    ensures (taken + if (e.Take? || e.DrainTake?) && queue != [] then [queue[0]] else []) + queue'
            == sent + if e.Send? then [e.query] else []
  {
    if e.Take? || e.DrainTake? {
      assert queue == [queue[0]] + queue[1..];
    }
  }

  lemma {:induction false} SendsStep(events: seq<Event>, i: nat)
    requires 0 < i <= |events|
    ensures Sends(events[..i]) == Sends(events[..i - 1]) + if events[i - 1].Send? then [events[i - 1].query] else []
  {
    assert events[..i][..i - 1] == events[..i - 1] && events[..i][i - 1] == events[i - 1];
  }

  lemma {:induction false} QueueStep(l: Limits, s: Batcher, e: Event)
    requires Enabled(l, s, e)
    ensures e.Take? || e.DrainTake? ==> s.queue != []
    ensures Next(l, s, e).queue == if e.Send? then s.queue + [e.query]
                                   else if e.Take? || e.DrainTake? then s.queue[1..] else s.queue
  {
    hide Tallied, AddSome;
  }

  /**
    When the loop flushes, and what: on the search that makes batchSize, on a tick with something pending,
    and at the end of the drain if something is pending; and always everything that is pending.
   */
  lemma {:induction false} FlushesExactly(l: Limits, run: seq<Batcher>, events: seq<Event>, i: nat)
    requires l.Valid() && IsRun(l, run, events) && i < |events| && !run[i].loop.Applying?
    ensures run[i + 1].loop.Applying?
            <==> (events[i].Take? && Sum(run[i].pending) + 1 == l.batchSize)
                 || ((events[i].Tick? || events[i].DrainEmpty?) && run[i].pending != map[])
    ensures run[i + 1].loop.Applying? ==>
              run[i + 1].pending == map[] && (run[i + 1].loop.final <==> events[i].DrainEmpty?)
    ensures run[i + 1].loop.Applying? ==>
              forall q :: CountOf(run[i + 1].loop.batch, q)
                          == CountOf(run[i].pending, q)
                             + if events[i].Take? && run[i].queue != [] && q == run[i].queue[0] then 1 else 0
  {
    RunInv(l, run, events, i);
    hide Inv, Sum, Sends;
    FlushStep(l, run[0].counts, run[i], events[i]);
    hide IsRun;
  }

  lemma {:induction false} FlushStep(l: Limits, start: Counts, s: Batcher, e: Event)
    requires l.Valid() && Inv(l, start, s) && Enabled(l, s, e) && !s.loop.Applying?
    ensures var s' := Next(l, s, e);
            (s'.loop.Applying? <==> (e.Take? && Sum(s.pending) + 1 == l.batchSize)
                                    || ((e.Tick? || e.DrainEmpty?) && s.pending != map[]))
            && (s'.loop.Applying? ==>
                  s'.pending == map[] && (s'.loop.final <==> e.DrainEmpty?)
                  && forall q ::
                       CountOf(s'.loop.batch, q)
                       == CountOf(s.pending, q) + if e.Take? && s.queue != [] && q == s.queue[0] then 1 else 0)
  {
    hide Conserved, Tail, Counters, Sum;
    match e {
      case Take =>
        assert s.queue[0] in s.queue;
        TallyOne(s.pending, s.queue[0]);
        hide Tallied;
      case Tick =>
      case DrainEmpty =>
      case _ =>
    }
  }

  /**
    Whatever is handed to apply is non-empty, names no empty query and holds positive counts, at most batchSize
    searches before the drain.
   */
  lemma {:induction false} AppliedBatchesAreGood(l: Limits, run: seq<Batcher>, events: seq<Event>, i: nat)
    requires l.Valid() && IsRun(l, run, events) && i < |run| && run[i].loop.Applying?
    ensures var batch := run[i].loop.batch;
            batch != map[] && PositiveDeltas(batch) && "" !in batch
            && (run[i].loop.final || Sum(batch) <= l.batchSize)
  {
    hide IsRun, Sum;
    RunInv(l, run, events, i);
  }

  // ----- The unflushed tail -----

  /** No send overlaps the shutdown: none is accepted once the loop has seen quit. */
  ghost predicate QuietShutdown(run: seq<Batcher>, events: seq<Event>, n: nat)
    requires n <= |events| && |run| == |events| + 1
  {
    forall i | 0 <= i < n && events[i].Send? :: !Closing(run[i].loop)
  }

  lemma {:induction false} QuietHasNoLate(l: Limits, run: seq<Batcher>, events: seq<Event>, i: nat)
    requires IsRun(l, run, events) && i < |run| && QuietShutdown(run, events, i)
    ensures run[i].late == 0 && run[i].missed == 0
  {
    if i > 0 {
      hide Next, Enabled;
      QuietHasNoLate(l, run, events, i - 1);
      HistoryStep(l, run[i - 1], events[i - 1]);
    }
  }

  /**
    The bounded loss tail: a crash before the drain loses at most bufCap + batchSize accepted searches; during
    the drain less than that, plus those accepted since quit was seen; and once the final batch is applied
    just those accepted after the drain had seen the queue empty, at most bufCap. So a shutdown that at most
    one send overlaps stays within bufCap + batchSize too.
   */
  lemma {:induction false} BoundedTail(l: Limits, run: seq<Batcher>, events: seq<Event>, i: nat)
    requires l.Valid() && IsRun(l, run, events) && i < |run|
    ensures !Closing(run[i].loop) ==> Unflushed(run[i]) <= l.bufCap + l.batchSize
    ensures Closing(run[i].loop) ==> Unflushed(run[i]) < l.bufCap + l.batchSize + run[i].late + run[i].missed
    ensures Final(run[i].loop) && !run[i].loop.Applying? ==> Unflushed(run[i]) == run[i].missed <= l.bufCap
    ensures run[i].late + run[i].missed <= 1 ==> Unflushed(run[i]) <= l.bufCap + l.batchSize
    ensures QuietShutdown(run, events, i) ==> Unflushed(run[i]) <= l.bufCap + l.batchSize
  {
    RunInv(l, run, events, i);
    EmptySums();
    if QuietShutdown(run, events, i) {
      QuietHasNoLate(l, run, events, i);
    }
  }

  /** The drain has searches of its own that are not applied yet. */
  predicate Unapplied(loop: Loop) {
    loop.Draining? || (loop.Applying? && loop.final)
  }

  /** While the drain's searches are not applied, the tail changes by sends only. */
  lemma {:induction false} DrainKeepsTail(l: Limits, start: Counts, s: Batcher, e: Event)
    requires l.Valid() && Inv(l, start, s) && Enabled(l, s, e) && (Closing(s.loop) || e.SeeQuit?)
    ensures var s' := Next(l, s, e);
            Closing(s'.loop)
            && (Unapplied(s'.loop) ==> Unapplied(s.loop) || e.SeeQuit?)
            && (Unapplied(s'.loop) ==> Unflushed(s') == Unflushed(s) + if e.Send? then 1 else 0)
  {
    var s' := Next(l, s, e);
    match e {
      case DrainTake => TakeKeeps(l, start, s, s');
      case DrainEmpty =>
        EmptySums();
        FlushKeeps(l, start, s, true);
      case _ =>
    }
  }

  lemma {:induction false} ClosingStays(l: Limits, run: seq<Batcher>, events: seq<Event>, i: nat, n: nat)
    requires l.Valid() && IsRun(l, run, events) && i < n < |run| && events[i].SeeQuit?
    ensures Closing(run[n].loop)
    decreases n
  {
    hide Next, Enabled, Inv;
    RunInv(l, run, events, n - 1);
    if i < n - 1 {
      ClosingStays(l, run, events, i, n - 1);
    }
    DrainKeepsTail(l, run[0].counts, run[n - 1], events[n - 1]);
  }

  /** Quit was seen at step i: until the final batch is applied, the tail is what it was then plus all sends since. */
  lemma {:induction false} DrainTail(l: Limits, run: seq<Batcher>, events: seq<Event>, i: nat, n: nat)
    requires l.Valid() && IsRun(l, run, events) && i < n < |run| && events[i].SeeQuit? && Unapplied(run[n].loop)
    ensures Unflushed(run[n]) == Unflushed(run[i]) + |Sends(events[i..n])|
    decreases n
  {
    hide Next, Enabled, Inv, Unflushed;
    RunInv(l, run, events, n - 1);
    SendsGrow(events, i, n);
    if i < n - 1 {
      ClosingStays(l, run, events, i, n - 1);
      DrainKeepsTail(l, run[0].counts, run[n - 1], events[n - 1]);
      NoSecondQuit(l, run[n - 1], events[n - 1]);
      DrainTail(l, run, events, i, n - 1);
    } else {
      DrainKeepsTail(l, run[0].counts, run[n - 1], events[n - 1]);
      assert events[i..i] == [];
    }
  }

  lemma NoSecondQuit(l: Limits, s: Batcher, e: Event)
    requires Closing(s.loop) && Enabled(l, s, e)
    ensures !e.SeeQuit?
  {
  }

  lemma {:induction false} SendsGrow(events: seq<Event>, i: nat, n: nat)
    requires i < n <= |events|
    ensures |Sends(events[i..n])| == |Sends(events[i..n - 1])| + if events[n - 1].Send? then 1 else 0
  {
    assert events[i..n][..n - 1 - i] == events[i..n - 1];
  }

  /**
    Exactly when the tail of a shutdown exceeds bufCap + batchSize: the final batch is not applied yet, and
    what was unflushed when quit was seen, together with the sends accepted since, exceeds it. What was
    unflushed then is below bufCap + batchSize, so it takes two sends.
   */
  lemma {:induction false} TailOverrunsExactly(l: Limits, run: seq<Batcher>, events: seq<Event>, i: nat, n: nat)
    requires l.Valid() && IsRun(l, run, events) && i < n < |run| && events[i].SeeQuit?
    ensures Unflushed(run[n]) > l.bufCap + l.batchSize
            <==> Unapplied(run[n].loop) && Unflushed(run[i]) + |Sends(events[i..n])| > l.bufCap + l.batchSize
    ensures Unflushed(run[i]) < l.bufCap + l.batchSize
  {
    ClosingStays(l, run, events, i, n);
    BoundedTail(l, run, events, n);
    TailAtQuit(l, run, events, i);
    hide Unflushed, Sends, IsRun;
    if Unapplied(run[n].loop) {
      DrainTail(l, run, events, i, n);
    }
  }

  lemma {:induction false} TailAtQuit(l: Limits, run: seq<Batcher>, events: seq<Event>, i: nat)
    requires l.Valid() && IsRun(l, run, events) && i < |events| && events[i].SeeQuit?
    ensures Unflushed(run[i]) < l.bufCap + l.batchSize
  {
    RunInv(l, run, events, i);
    EmptySums();
    assert Enabled(l, run[i], events[i]);
  }

  /**
    Two sends do it: under any limits there is a run with two sends during the drain that exceeds bufCap +
    batchSize.
   */
  lemma {:induction false} TailOverrun(l: Limits) returns (run: seq<Batcher>, events: seq<Event>)
    requires l.Valid()
    ensures IsRun(l, run, events) && Unflushed(run[|events|]) == l.bufCap + l.batchSize + 1
  {
    run, events := FullPending(l, l.batchSize - 1);
    run, events := FillQueue(l, run, events, l.bufCap);
    run, events := FullDrain(l, run, events);
    run, events := TakeThenSend(l, run, events);
    run, events := TakeThenSend(l, run, events);
  }

  /** A run of m searches that are all pending. */
  lemma {:induction false} FullPending(l: Limits, m: nat) returns (run: seq<Batcher>, events: seq<Event>)
    requires l.Valid() && m < l.batchSize
    ensures IsRun(l, run, events)
    ensures var s := run[|events|]; s.loop == Idle && !s.quit && s.queue == [] && Sum(s.pending) == s.total == m
    decreases m
  {
    EmptySums();
    if m == 0 {
      run, events := [Initial(map[])], [];
      StartsRun(l);
    } else {
      run, events := FullPending(l, m - 1);
      SumTallied(run[|events|].pending, "a");
      hide IsRun, Sum, Tallied;
      run, events := Extend(l, run, events, Send("a"));
      run, events := Extend(l, run, events, Take);
    }
  }

  lemma {:induction false} FillQueue(l: Limits, run: seq<Batcher>, events: seq<Event>, m: nat)
    returns (run': seq<Batcher>, events': seq<Event>)
    requires IsRun(l, run, events) && m <= l.bufCap
    requires var s := run[|events|]; s.loop == Idle && !s.quit && s.queue == []
    ensures IsRun(l, run', events')
    ensures var s, s' := run[|events|], run'[|events'|];
            s'.loop == Idle && !s'.quit && |s'.queue| == m && s'.pending == s.pending
    decreases m
  {
    if m == 0 {
      run', events' := run, events;
    } else {
      run', events' := FillQueue(l, run, events, m - 1);
      hide IsRun;
      run', events' := Extend(l, run', events', Send("a"));
    }
  }

  lemma {:induction false} FullDrain(l: Limits, run: seq<Batcher>, events: seq<Event>)
    returns (run': seq<Batcher>, events': seq<Event>)
    requires l.Valid() && IsRun(l, run, events)
    requires var s := run[|events|]; s.loop == Idle && !s.quit && |s.queue| == l.bufCap
    requires Sum(run[|events|].pending) == l.batchSize - 1
    ensures IsRun(l, run', events')
    ensures var s' := run'[|events'|];
            s'.loop == Draining && |s'.queue| == l.bufCap && Unflushed(s') == l.bufCap + l.batchSize - 1
  {
    EmptySums();
    hide IsRun, Sum;
    run', events' := Extend(l, run, events, Close);
    run', events' := Extend(l, run', events', SeeQuit);
  }

  /** A send during the drain, as soon as the loop has made room. */
  lemma {:induction false} TakeThenSend(l: Limits, run: seq<Batcher>, events: seq<Event>)
    returns (run': seq<Batcher>, events': seq<Event>)
    requires l.Valid() && IsRun(l, run, events)
    requires var s := run[|events|]; s.loop == Draining && |s.queue| == l.bufCap
    ensures IsRun(l, run', events')
    ensures var s, s' := run[|events|], run'[|events'|];
            s'.loop == Draining && |s'.queue| == l.bufCap && Unflushed(s') == Unflushed(s) + 1
  {
    hide Inv, Unflushed;
    RunInv(l, run, events, |events|);
    DrainKeepsTail(l, run[0].counts, run[|events|], DrainTake);
    run', events' := Extend(l, run, events, DrainTake);
    RunInv(l, run', events', |events'|);
    DrainKeepsTail(l, run'[0].counts, run'[|events'|], Send("a"));
    hide IsRun;
    run', events' := Extend(l, run', events', Send("a"));
  }

  lemma StartsRun(l: Limits)
    ensures IsRun(l, [Initial(map[])], [])
  {
  }

  lemma {:induction false} Extend(l: Limits, run: seq<Batcher>, events: seq<Event>, e: Event)
    returns (run': seq<Batcher>, events': seq<Event>)
    requires IsRun(l, run, events) && Enabled(l, run[|events|], e)
    ensures IsRun(l, run', events') && |events'| == |events| + 1 && run'[|events'|] == Next(l, run[|events|], e)
  {
    hide Enabled, Next;
    run', events' := run + [Next(l, run[|events|], e)], events + [e];
  }

  // ----- Counters -----

  /** Between flushes, and with every caller back from Submit: flushes <= upserts <= received. */
  lemma {:induction false} CountersSettle(l: Limits, run: seq<Batcher>, events: seq<Event>, i: nat)
    requires l.Valid() && IsRun(l, run, events) && i < |run|
    ensures run[i].flushes <= run[i].upserts <= run[i].received + run[i].uncounted == |Sends(events[..i])|
    ensures run[i].uncounted == 0 ==> run[i].upserts <= run[i].received
  {
    RunInv(l, run, events, i);
    AcceptedAreSends(l, run, events, i);
    UnflushedNonNegative(l, run[i]);
  }

  /** Rows of the batches applied so far. */
  ghost function RowsApplied(run: seq<Batcher>, events: seq<Event>, i: nat): nat
    requires i <= |events| < |run|
  {
    if i == 0 then 0
    else
      RowsApplied(run, events, i - 1)
      + if events[i - 1].Apply? && run[i - 1].loop.Applying? then |run[i - 1].loop.batch| else 0
  }

  /**
    What each counter counts: sends counted by their callers, timeouts, finished flushes, and the distinct
    queries of the applied batches, up to the flush being counted at the moment.
   */
  lemma {:induction false} CountersCount(l: Limits, run: seq<Batcher>, events: seq<Event>, i: nat)
    requires IsRun(l, run, events) && i < |run|
    ensures var s, past := run[i], multiset(events[..i]);
            s.dropped == past[Drop] && s.received == past[AddReceived] && s.flushes == past[AddFlush]
            && s.flushes + (if s.loop.AddingUpserts? || s.loop.AddingFlush? then 1 else 0) == past[Apply]
            && s.upserts + Owed(s.loop) == RowsApplied(run, events, i)
  {
    if i > 0 {
      hide Next, Enabled;
      CountersCount(l, run, events, i - 1);
      CounterStep(l, run[i - 1], events[i - 1]);
      PastStep(events, i);
      hide IsRun;
    }
  }

  lemma {:induction false} PastStep(events: seq<Event>, i: nat)
    requires 0 < i <= |events|
    ensures multiset(events[..i]) == multiset(events[..i - 1]) + multiset{events[i - 1]}
  {
    assert events[..i] == events[..i - 1] + [events[i - 1]];
  }

  lemma {:induction false} CounterStep(l: Limits, s: Batcher, e: Event)
    requires Enabled(l, s, e)
    ensures var s' := Next(l, s, e);
            s'.dropped == s.dropped + (if e == Drop then 1 else 0)
            && s'.received == s.received + (if e == AddReceived then 1 else 0)
            && s'.flushes == s.flushes + (if e == AddFlush then 1 else 0)
            && Counting(s') == Counting(s) + (if e == Apply then 1 else 0) - (if e == AddFlush then 1 else 0)
            && s'.upserts + Owed(s'.loop) == s.upserts + Owed(s.loop) + (if e == Apply then |s.loop.batch| else 0)
            && (e == Apply ==> s.loop.Applying?)
  {
    hide Tallied, AddSome;
  }

  function Counting(s: Batcher): nat {
    if s.loop.AddingUpserts? || s.loop.AddingFlush? then 1 else 0
  }

  lemma {:induction false} UnflushedNonNegative(l: Limits, s: Batcher)
    requires Shape(l, s)
    ensures Unflushed(s) >= 0
  {
    DistinctAtMostSum(s.pending);
    DistinctAtMostSum(InFlight(s.loop));
  }

  /** A send is counted by its caller only afterwards, so under any limits a flush can be counted first. */
  lemma {:induction false} UpsertsBeforeReceived(l: Limits) returns (run: seq<Batcher>, events: seq<Event>)
    requires l.Valid()
    ensures IsRun(l, run, events) && run[|events|].upserts == 1 && run[|events|].received == 0
  {
    run, events := [Initial(map[])], [];
    StartsRun(l);
    run, events := Extend(l, run, events, Send("a"));
    assert "a" in Tallied(map[], "a");
    run, events := Extend(l, run, events, Take);
    hide IsRun;
    if run[|events|].loop.Idle? {
      run, events := Extend(l, run, events, Tick);
    }
    assert run[|events|].loop.batch == map["a" := 1] && |map["a" := 1]| == 1;
    run, events := Extend(l, run, events, Apply);
    run, events := Extend(l, run, events, AddUpserts);
  }

  // ----- Shutdown -----

  /** An upper bound on the loop's remaining steps, once it is draining. */
  function Rank(s: Batcher): nat {
    match s.loop
    case Draining => |s.queue| + 4
    case Applying(_, _) => 3
    case AddingUpserts(_, _) => 2
    case AddingFlush(_) => 1
    case Exited => 0
    case Idle => 0
  }

  predicate LoopEvent(e: Event) {
    e in {Take, Tick, Apply, AddUpserts, AddFlush, SeeQuit, DrainTake, DrainEmpty}
  }

  /** The loop's only possible step while it shuts down. */
  function LoopMove(s: Batcher): Event {
    match s.loop
    case Draining => if s.queue != [] then DrainTake else DrainEmpty
    case Applying(_, _) => Apply
    case AddingUpserts(_, _) => AddUpserts
    case _ => AddFlush
  }

  /**
    A closing loop that has not exited can move, in one way only; each move lowers the rank, a send raises it by
    one at most.
   */
  lemma DrainMoves(l: Limits, s: Batcher, e: Event)
    requires Closing(s.loop)
    ensures !s.loop.Exited? ==> Enabled(l, s, LoopMove(s))
    ensures Enabled(l, s, e) && LoopEvent(e) ==> e == LoopMove(s) && Rank(Next(l, s, e)) < Rank(s)
    ensures Enabled(l, s, e) && !LoopEvent(e) ==> Rank(Next(l, s, e)) <= Rank(s) + if e.Send? then 1 else 0
    ensures Enabled(l, s, e) ==> Closing(Next(l, s, e).loop)
  {
  }

  function LoopMoves(events: seq<Event>): nat {
    if events == [] then 0
    else LoopMoves(events[..|events| - 1]) + if LoopEvent(events[|events| - 1]) then 1 else 0
  }

  /**
    The drain terminates: from any moment of it at most Rank loop steps are left, and one more for each send
    that overlaps it.
   */
  lemma {:induction false} DrainTerminates(l: Limits, run: seq<Batcher>, events: seq<Event>, i: nat, n: nat)
    requires IsRun(l, run, events) && i <= n < |run| && Closing(run[i].loop)
    ensures Closing(run[n].loop)
    ensures LoopMoves(events[i..n]) + Rank(run[n]) <= Rank(run[i]) + |Sends(events[i..n])|
    decreases n - i
  {
    if i < n {
      hide Next, Enabled;
      DrainTerminates(l, run, events, i, n - 1);
      DrainMoves(l, run[n - 1], events[n - 1]);
      MovesGrow(events, i, n);
      SendsGrow(events, i, n);
      hide LoopMoves, Closing, Rank, Sends;
    } else {
      assert events[i..n] == [];
    }
  }

  lemma {:induction false} MovesGrow(events: seq<Event>, i: nat, n: nat)
    requires i < n <= |events|
    ensures LoopMoves(events[i..n]) == LoopMoves(events[i..n - 1]) + if LoopEvent(events[n - 1]) then 1 else 0
  {
    assert events[i..n][..n - 1 - i] == events[i..n - 1];
  }

  /** At any moment of a shutdown the loop's remaining steps are bounded by the buffer. */
  lemma {:induction false} DrainIsShort(l: Limits, run: seq<Batcher>, events: seq<Event>, i: nat)
    requires l.Valid() && IsRun(l, run, events) && i < |run| && Closing(run[i].loop)
    ensures Rank(run[i]) <= l.bufCap + 4
  {
    RunInv(l, run, events, i);
  }

  /** No search was accepted after the drain had seen the queue empty. */
  ghost predicate NoneMissed(run: seq<Batcher>, events: seq<Event>, n: nat)
    requires n <= |events| && |run| == |events| + 1
  {
    forall i | 0 <= i < n && events[i].Send? :: !Final(run[i].loop)
  }

  lemma {:induction false} MissedAreLast(l: Limits, run: seq<Batcher>, events: seq<Event>, i: nat)
    requires IsRun(l, run, events) && i < |run|
    ensures run[i].missed == 0 <==> NoneMissed(run, events, i)
  {
    if i > 0 {
      hide Next, Enabled, NoneMissed, Final;
      MissedAreLast(l, run, events, i - 1);
      HistoryStep(l, run[i - 1], events[i - 1]);
      hide IsRun;
      NoneMissedGrows(run, events, i);
    }
  }

  lemma NoneMissedGrows(run: seq<Batcher>, events: seq<Event>, n: nat)
    requires 0 < n <= |events| && |run| == |events| + 1
    ensures NoneMissed(run, events, n)
            <==> NoneMissed(run, events, n - 1) && !(events[n - 1].Send? && Final(run[n - 1].loop))
  {
  }

  /**
    When the loop has exited, so that Stop returns: everything accepted has been applied exactly once if and
    only if no search was accepted after the drain had seen the queue empty.
   */
  lemma {:induction false} StopIsExact(l: Limits, run: seq<Batcher>, events: seq<Event>, i: nat)
    requires l.Valid() && IsRun(l, run, events) && i < |run| && run[i].loop.Exited?
    ensures (forall q :: CountOf(run[i].counts, q) == CountOf(run[0].counts, q) + multiset(Sends(events[..i]))[q])
            <==> NoneMissed(run, events, i)
  {
    RunInv(l, run, events, i);
    AcceptedAreSends(l, run, events, i);
    MissedAreLast(l, run, events, i);
    hide IsRun, Sends;
    var s := run[i];
    assert forall q :: UnflushedOf(s, q) == multiset(s.queue)[q];
    if s.queue != [] {
      HeadOf(s.queue);
      assert multiset(s.queue)[s.queue[0]] >= 1;
      assert CountOf(s.counts, s.queue[0]) != CountOf(run[0].counts, s.queue[0]) + s.accepted[s.queue[0]];
    }
  }
}
