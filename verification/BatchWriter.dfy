/**
  The batch writer: a bounded buffer of searches, an aggregating map, and flushes into the engine. Each
  method is one or more whole steps of BatchSteps, taken without interruption.
 */
module BatchWriter {
  import opened BatchSteps
  import opened Engine
  import EngineModel
  import opened Persistence
  import opened TrieSpec

  /** Five seconds, in nanoseconds. */
  const DEFAULT_INTERVAL := 5_000_000_000

  /** A step if it can be taken. */
  function Do(l: Limits, s: Batcher, e: Event): Batcher {
    if Enabled(l, s, e) then Next(l, s, e) else s
  }

  /** Carries a flush that has swapped out its batch through to its end. */
  function Settle(l: Limits, s: Batcher): Batcher {
    if s.loop.Applying? then Do(l, Do(l, Do(l, s, Apply), AddUpserts), AddFlush) else s
  }

  /** The drain: everything buffered is taken. */
  function Drain(l: Limits, s: Batcher): Batcher
    decreases |s.queue|
  {
    if s.loop.Draining? && s.queue != [] then Drain(l, Next(l, s, DrainTake)) else s
  }

  /** The whole shutdown: drain, flush once more, exit. */
  function DrainToEnd(l: Limits, s: Batcher): Batcher {
    Settle(l, Do(l, Drain(l, Do(l, s, SeeQuit)), DrainEmpty))
  }

  /** What a whole flush comes to. */
  function Flushed(s: Batcher, loop: Loop): Batcher {
    if s.pending == map[] then s.(loop := loop)
    else s.(pending := map[], total := 0, counts := AddDeltas(s.counts, s.pending),
            upserts := s.upserts + |s.pending|, flushes := s.flushes + 1, loop := loop)
  }

  lemma {:induction false} SettledFlush(l: Limits, s: Batcher, final: bool)
    requires !s.loop.Applying?
    ensures Settle(l, Flush(s, final)) == Flushed(s, if final then Exited else Idle)
  {
    hide AddDeltas;
  }

  function Taken(s: Batcher): Batcher
    requires s.queue != []
  {
    s.(queue := s.queue[1..], pending := Tallied(s.pending, s.queue[0]), total := s.total + 1)
  }

  lemma {:induction false} TakeIs(l: Limits, start: Counts, s: Batcher)
    requires l.Valid() && Inv(l, start, s) && s.loop.Idle? && s.queue != []
    ensures Inv(l, start, Settle(l, Do(l, s, Take))) && GoodTally(Taken(s).pending)
    ensures Settle(l, Do(l, s, Take)) == if Taken(s).total >= l.batchSize then Flushed(Taken(s), Idle) else Taken(s)
  {
    hide Inv, AddDeltas, Settle;
    TakenGood(l, start, s);
    SettledFlush(l, Taken(s), false);
    DoKeeps(l, start, s, Take);
    SettleKeeps(l, start, Do(l, s, Take));
    SettlesAtOnce(l, Taken(s));
  }

  lemma SettlesAtOnce(l: Limits, s: Batcher)
    requires !s.loop.Applying?
    ensures Settle(l, s) == s
  {
  }

  lemma TakenGood(l: Limits, start: Counts, s: Batcher)
    requires Inv(l, start, s) && s.queue != []
    ensures GoodTally(Taken(s).pending)
  {
  }

  lemma {:induction false} TickIs(l: Limits, start: Counts, s: Batcher)
    requires l.Valid() && Inv(l, start, s) && s.loop.Idle?
    ensures Inv(l, start, Settle(l, Do(l, s, Tick))) && GoodTally(s.pending)
    ensures Settle(l, Do(l, s, Tick)) == Flushed(s, Idle)
  {
    SettledFlush(l, s, false);
    DoKeeps(l, start, s, Tick);
    SettleKeeps(l, start, Do(l, s, Tick));
  }

  lemma {:induction false} QuitIs(l: Limits, start: Counts, s: Batcher)
    requires l.Valid() && Inv(l, start, s) && s.loop.Idle? && s.quit
    ensures var s' := Drain(l, s.(loop := Draining));
            Inv(l, start, DrainToEnd(l, s)) && GoodTally(s'.pending) && DrainToEnd(l, s) == Flushed(s', Exited)
  {
    hide Inv, Settle, AddDeltas;
    ShutdownAppliesAll(l, start, s, "");
    DoKeeps(l, start, s, SeeQuit);
    var s' := Drain(l, s.(loop := Draining));
    DrainKeeps(l, start, s.(loop := Draining));
    PendingGood(l, start, s');
    SettledFlush(l, s', true);
  }

  lemma InitialInv(l: Limits, counts: Counts)
    requires l.Valid()
    ensures Inv(l, counts, Initial(counts))
  {
  }

  lemma FlushedAnywhere(s: Batcher)
    ensures Flushed(s, s.loop).(loop := Exited) == Flushed(s.(loop := Draining), Exited)
  {
  }

  lemma PendingGood(l: Limits, start: Counts, s: Batcher)
    requires Inv(l, start, s)
    ensures GoodTally(s.pending)
  {
  }

  lemma {:induction false} DoKeeps(l: Limits, start: Counts, s: Batcher, e: Event)
    requires l.Valid() && Inv(l, start, s)
    ensures Inv(l, start, Do(l, s, e))
  {
    hide Inv;
    if Enabled(l, s, e) {
      StepKeeps(l, start, s, e);
    }
  }

  lemma {:induction false} SettleKeeps(l: Limits, start: Counts, s: Batcher)
    requires l.Valid() && Inv(l, start, s)
    ensures Inv(l, start, Settle(l, s))
  {
    hide Inv, Do;
    DoKeeps(l, start, s, Apply);
    DoKeeps(l, start, Do(l, s, Apply), AddUpserts);
    DoKeeps(l, start, Do(l, Do(l, s, Apply), AddUpserts), AddFlush);
  }

  lemma {:induction false} DrainKeeps(l: Limits, start: Counts, s: Batcher)
    requires l.Valid() && Inv(l, start, s)
    ensures Inv(l, start, Drain(l, s))
    ensures s.loop.Draining? ==> Drain(l, s).loop.Draining? && Drain(l, s).queue == []
    ensures Drain(l, s).accepted == s.accepted && Drain(l, s).counts == s.counts
    decreases |s.queue|
  {
    hide Inv;
    if s.loop.Draining? && s.queue != [] {
      StepKeeps(l, start, s, DrainTake);
      DrainKeeps(l, start, Next(l, s, DrainTake));
    }
  }

  /** A shutdown that nothing interrupts ends with an empty buffer and every accepted search in the counts. */
  lemma {:induction false} ShutdownAppliesAll(l: Limits, start: Counts, s: Batcher, q: string)
    requires l.Valid() && Inv(l, start, s) && Enabled(l, s, SeeQuit)
    ensures var s' := DrainToEnd(l, s);
            Inv(l, start, s') && s'.loop.Exited? && s'.queue == []
            && CountOf(s'.counts, q) == CountOf(start, q) + s.accepted[q]
  {
    hide Inv;
    var s1 := Do(l, s, SeeQuit);
    DoKeeps(l, start, s, SeeQuit);
    DrainKeeps(l, start, s1);
    var s2 := Drain(l, s1);
    DoKeeps(l, start, s2, DrainEmpty);
    SettleKeeps(l, start, Do(l, s2, DrainEmpty));
    NothingLeft(l, start, DrainToEnd(l, s), q);
  }

  /** With nothing left anywhere, the counts hold every accepted search. */
  lemma NothingLeft(l: Limits, start: Counts, s: Batcher, q: string)
    requires Inv(l, start, s) && s.loop.Exited? && s.queue == []
    ensures CountOf(s.counts, q) == CountOf(start, q) + s.accepted[q]
  {
  }

  function Sent(l: Limits, s: Batcher, query: string): Batcher {
    Do(l, Do(l, s, Send(query)), AddReceived)
  }

  /** A submission: sent at once, or sent after the loop has taken a search meanwhile, or dropped. */
  function Submitted(l: Limits, s: Batcher, query: string, waits: bool): Batcher {
    if |s.queue| < l.bufCap then Sent(l, s, query)
    else if waits then Sent(l, Settle(l, Do(l, s, Take)), query)
    else Do(l, s, Drop)
  }

  /** What the loop may still do before it notices quit: take a search if there is one, or flush on a tick. */
  datatype Turn = TakeTurn | TickTurn

  function Turned(l: Limits, s: Batcher, turn: Turn): Batcher {
    Settle(l, Do(l, s, if turn.TakeTurn? then Take else Tick))
  }

  function TurnedAll(l: Limits, s: Batcher, turns: seq<Turn>): Batcher {
    if turns == [] then s else Turned(l, TurnedAll(l, s, turns[..|turns| - 1]), turns[|turns| - 1])
  }

  lemma NothingToTake(l: Limits, s: Batcher)
    requires s.queue == [] && s.loop.Idle?
    ensures Settle(l, Do(l, s, Take)) == s
  {
  }

  /** A full buffer is not empty, and taking one search from it makes room. */
  lemma {:induction false} HasRoom(l: Limits, start: Counts, s: Batcher, query: string)
    requires l.Valid() && Inv(l, start, s) && |s.queue| >= l.bufCap
    ensures s.queue != [] && (s.loop.Idle? ==> |Settle(l, Do(l, s, Take)).queue| < l.bufCap)
  {
    if s.loop.Idle? {
      TakeIs(l, start, s);
      hide Settle, Do;
    }
  }

  /** A submission is accepted and counted once, or dropped and counted once. */
  lemma {:induction false} SubmittedCounts(l: Limits, start: Counts, s: Batcher, query: string, waits: bool)
    requires l.Valid() && Inv(l, start, s) && query != "" && (waits ==> s.loop.Idle?)
    ensures var s', taken := Submitted(l, s, query, waits), |s.queue| < l.bufCap || waits;
            s'.accepted == s.accepted + (if taken then multiset{query} else multiset{})
            && s'.received == s.received + (if taken then 1 else 0)
            && s'.dropped == s.dropped + (if taken then 0 else 1)
  {
    if |s.queue| < l.bufCap {
      SentCounts(l, s, query);
    } else if waits {
      HasRoom(l, start, s, query);
      TakeIs(l, start, s);
      SentCounts(l, Settle(l, Do(l, s, Take)), query);
      hide Settle, Do, Sent, Inv, AddDeltas;
    }
  }

  lemma {:induction false} SentCounts(l: Limits, s: Batcher, query: string)
    requires query != "" && |s.queue| < l.bufCap
    ensures var s' := Sent(l, s, query);
            s'.accepted == s.accepted + multiset{query} && s'.received == s.received + 1 && s'.dropped == s.dropped
  {
  }

  class Writer {
    const limits: Limits
    const interval: int        // between ticks, in nanoseconds
    const engine: Engine
    ghost const start: Counts  // the engine's counts when the writer was made
    var queue: seq<string>     // the channel's buffer
    var pending: map<string, int>
    var total: nat
    var quit: bool
    var exited: bool
    var received: nat
    var dropped: nat
    var upserts: nat
    var flushes: nat
    ghost var accepted: multiset<string>
    ghost var missed: nat

    /** The writer's state over given counts. */
    ghost function Over(counts: Counts): Batcher
      reads this
    {
      Batcher(queue, pending, total, if exited then Exited else Idle, quit, counts, received, 0, dropped,
              upserts, flushes, accepted, 0, missed)
    }

    ghost predicate Valid()
      reads this, engine, engine.trie, engine.trie.nodes.Values, engine.cache.ring, engine.cache.nodes.Values,
            engine.trending, engine.store
    {
      limits.Valid() && engine.Valid() && Inv(limits, start, Over(engine.Stored()))
    }

    constructor (bufCap: int, batchSize: int, interval: int, engine: Engine)
      requires engine.Valid()
      ensures Valid() && this.engine == engine && start == engine.Stored()
      ensures limits == Limits(if bufCap < 1 then 1000 else bufCap, if batchSize < 1 then 100 else batchSize)
      ensures this.interval == if interval <= 0 then 5_000_000_000 else interval
      ensures Over(engine.Stored()) == Initial(start)
    {
      hide Engine.Valid, Engine.Stored, Inv;
      limits := Limits(if bufCap < 1 then 1000 else bufCap, if batchSize < 1 then 100 else batchSize);
      this.interval := if interval <= 0 then DEFAULT_INTERVAL else interval;
      this.engine := engine;
      start := engine.Stored();
      queue, pending, total, quit, exited := [], map[], 0, false, false;
      received, dropped, upserts, flushes := 0, 0, 0, 0;
      accepted, missed := multiset{}, 0;
      new;
      InitialInv(limits, start);
    }

    // ----- Callers -----

    /** A send that does not block, counted on success. */
    method TrySend(query: string) returns (sent: bool)
      requires Valid() && query != ""
      modifies this
      ensures Valid() && engine.Stored() == old(engine.Stored())
      ensures sent <==> |old(queue)| < limits.bufCap
      ensures var s := old(Over(engine.Stored()));
              Over(engine.Stored()) == if sent then Sent(limits, s, query) else s
    {
      hide Engine.Valid, Engine.Stored, Inv;
      ghost var s := Over(engine.Stored());
      if |queue| >= limits.bufCap {
        return false;
      }
      DoKeeps(limits, start, s, Send(query));
      DoKeeps(limits, start, Do(limits, s, Send(query)), AddReceived);
      queue := queue + [query];
      accepted, missed := accepted + multiset{query}, missed + if exited then 1 else 0;
      received := received + 1;
      sent := true;
    }

    /**
      Submit: if the buffer is full, the call waits. Should the loop take a search in that time (`waits`), the
      second attempt finds room; otherwise the timer fires and the search is dropped and counted.
     */
    method Submit(query: string, waits: bool, now: nat, outcome: Outcome)
      requires Valid() && query != "" && engine.NotAfter(now) && (waits ==> !exited)
      modifies this, engine`retry, engine`clock, engine.trie`nodes, engine.trie.nodes.Values, engine.trending,
               engine.store, engine.cache.nodes.Values
      ensures Valid()
      ensures Over(engine.Stored()) == Submitted(limits, old(Over(engine.Stored())), query, waits)
      ensures accepted == old(accepted)
                          + if |old(queue)| < limits.bufCap || waits then multiset{query} else multiset{}
      ensures received == old(received) + if |old(queue)| < limits.bufCap || waits then 1 else 0
      ensures dropped == old(dropped) + if |old(queue)| < limits.bufCap || waits then 0 else 1
      ensures fresh(engine.trie.nodes.Values - old(engine.trie.nodes.Values))
    {
      hide Engine.Valid, Engine.Stored, Inv, Settle, Do;
      SubmittedCounts(limits, start, Over(engine.Stored()), query, waits);
      hide Submitted, Sent;
      Attempt(query, waits, now, outcome);
    }

    method Attempt(query: string, waits: bool, now: nat, outcome: Outcome)
      requires Valid() && query != "" && engine.NotAfter(now) && (waits ==> !exited)
      modifies this, engine`retry, engine`clock, engine.trie`nodes, engine.trie.nodes.Values, engine.trending,
               engine.store, engine.cache.nodes.Values
      ensures Valid() && Over(engine.Stored()) == Submitted(limits, old(Over(engine.Stored())), query, waits)
      ensures fresh(engine.trie.nodes.Values - old(engine.trie.nodes.Values))
    {
      hide Engine.Valid, Engine.Stored, Inv, Settle, Do;
      var sent := TrySend(query);
      if !sent {
        if waits {
          HasRoom(limits, start, Over(engine.Stored()), query);
          OnEvent(now, outcome);
          sent := TrySend(query);
        } else {
          CountDrop();
        }
      }
    }

    method CountDrop()
      requires Valid()
      modifies this
      ensures Valid() && engine.Stored() == old(engine.Stored())
      ensures Over(engine.Stored()) == Do(limits, old(Over(engine.Stored())), Drop)
    {
      hide Engine.Valid, Engine.Stored, Inv;
      DoKeeps(limits, start, Over(engine.Stored()), Drop);
      dropped := dropped + 1;
    }

    /** Recording a search: an empty query is turned away before it reaches the writer. */
    method Record(query: string, waits: bool, now: nat, outcome: Outcome) returns (recorded: bool)
      requires Valid() && engine.NotAfter(now) && (waits ==> !exited)
      modifies this, engine`retry, engine`clock, engine.trie`nodes, engine.trie.nodes.Values, engine.trending,
               engine.store, engine.cache.nodes.Values
      ensures Valid() && (recorded <==> query != "")
      ensures Over(engine.Stored()) ==
              if query == "" then old(Over(engine.Stored()))
              else Submitted(limits, old(Over(engine.Stored())), query, waits)
      ensures fresh(engine.trie.nodes.Values - old(engine.trie.nodes.Values))
    {
      hide Engine.Valid, Engine.Stored, Inv, Submitted;
      if query == "" {
        return false;
      }
      Submit(query, waits, now, outcome);
      recorded := true;
    }

    // ----- The loop -----

    /** Takes one search; a full batch is flushed. */
    method OnEvent(now: nat, outcome: Outcome)
      requires Valid() && !exited && queue != [] && engine.NotAfter(now)
      modifies this, engine`retry, engine`clock, engine.trie`nodes, engine.trie.nodes.Values, engine.trending,
               engine.store, engine.cache.nodes.Values
      ensures Valid() && Over(engine.Stored()) == Settle(limits, Do(limits, old(Over(engine.Stored())), Take))
      ensures exited == old(exited) && quit == old(quit) && engine.NotAfter(now)
      ensures fresh(engine.trie.nodes.Values - old(engine.trie.nodes.Values))
    {
      hide Engine.Valid, Engine.Stored, Inv, Do, Settle;
      TakeIs(limits, start, Over(engine.Stored()));
      TakeOne();
      if total >= limits.batchSize {
        Flush(now, outcome);
      }
    }

    method TakeOne()
      requires engine.Valid() && queue != []
      modifies this`queue, this`pending, this`total
      ensures engine.Valid() && Over(engine.Stored()) == Taken(old(Over(engine.Stored())))
    {
      hide Engine.Valid, Engine.Stored;
      TakeHead();
      total := total + 1;
    }

    /** The timer fired. */
    method OnTick(now: nat, outcome: Outcome)
      requires Valid() && !exited && engine.NotAfter(now)
      modifies this, engine`retry, engine`clock, engine.trie`nodes, engine.trie.nodes.Values, engine.trending,
               engine.store, engine.cache.nodes.Values
      ensures Valid() && Over(engine.Stored()) == Settle(limits, Do(limits, old(Over(engine.Stored())), Tick))
      ensures exited == old(exited) && quit == old(quit) && engine.NotAfter(now)
      ensures fresh(engine.trie.nodes.Values - old(engine.trie.nodes.Values))
    {
      hide Engine.Valid, Engine.Stored, Inv, Do, Settle;
      TickIs(limits, start, Over(engine.Stored()));
      Flush(now, outcome);
    }

    /** Moves the head of the queue into the pending tally. */
    method TakeHead()
      requires queue != []
      modifies this`queue, this`pending
      ensures queue == old(queue)[1..] && pending == Tallied(old(pending), old(queue)[0])
    {
      var q := queue[0];
      queue := queue[1..];
      pending := pending[q := (if q in pending then pending[q] else 0) + 1];
    }

    /** The flush closure: the map is swapped out first, and counted after it has been applied. */
    method Flush(now: nat, outcome: Outcome)
      requires engine.Valid() && GoodTally(pending) && engine.NotAfter(now)
      modifies this`pending, this`total, this`upserts, this`flushes, engine`retry, engine`clock, engine.trie`nodes,
               engine.trie.nodes.Values, engine.trending, engine.store, engine.cache.nodes.Values
      ensures engine.Valid() && engine.NotAfter(now)
      ensures Over(engine.Stored()) == Flushed(old(Over(engine.Stored())), old(Over(engine.Stored())).loop)
      ensures fresh(engine.trie.nodes.Values - old(engine.trie.nodes.Values))
    {
      hide Engine.Valid, Engine.Stored, AddDeltas;
      if |pending| == 0 {
        assert pending == map[];
        return;
      }
      var batch := SwapOut();
      Hand(batch, now, outcome);
      CountFlush(|batch|);
    }

    method SwapOut() returns (batch: map<string, int>)
      requires engine.Valid()
      modifies this`pending, this`total
      ensures engine.Valid() && batch == old(pending)
      ensures Over(engine.Stored()) == old(Over(engine.Stored())).(pending := map[], total := 0)
    {
      hide Engine.Valid, Engine.Stored;
      batch := pending;
      pending := map[];
      total := 0;
    }

    method CountFlush(rows: nat)
      requires engine.Valid()
      modifies this`upserts, this`flushes
      ensures engine.Valid()
      ensures Over(engine.Stored())
              == old(Over(engine.Stored())).(upserts := old(upserts) + rows, flushes := old(flushes) + 1)
    {
      hide Engine.Valid, Engine.Stored;
      upserts := upserts + rows;
      flushes := flushes + 1;
    }

    /** Calls apply, that is the engine. */
    method Hand(batch: map<string, int>, now: nat, outcome: Outcome)
      requires engine.Valid() && GoodTally(batch) && engine.NotAfter(now)
      modifies engine`retry, engine`clock, engine.trie`nodes, engine.trie.nodes.Values, engine.trending,
               engine.store, engine.cache.nodes.Values
      ensures engine.Valid() && engine.NotAfter(now) && engine.Stored() == AddDeltas(old(engine.Stored()), batch)
      ensures fresh(engine.trie.nodes.Values - old(engine.trie.nodes.Values))
    {
      hide AddDeltas, Engine.PartsValid, Engine.View, EngineModel.Inv, EngineModel.ApplyStep;
      ghost var w := engine.View();
      engine.ApplyBatch(batch, now, outcome);
      EngineModel.ApplyCounts(engine.Cfg(), w, engine.View(), batch, now, outcome);
    }

    /** Shutdown: drain whatever is buffered, flush once more, exit. */
    method OnQuit(now: nat, outcome: Outcome)
      requires Valid() && !exited && quit && engine.NotAfter(now)
      modifies this, engine`retry, engine`clock, engine.trie`nodes, engine.trie.nodes.Values, engine.trending,
               engine.store, engine.cache.nodes.Values
      ensures Valid() && Over(engine.Stored()) == DrainToEnd(limits, old(Over(engine.Stored())))
      ensures fresh(engine.trie.nodes.Values - old(engine.trie.nodes.Values))
    {
      hide Engine.Valid, Engine.Stored, Inv, Do, Settle, Drain, DrainToEnd;
      QuitIs(limits, start, Over(engine.Stored()));
      hide Writer.Over, Flushed;
      TakeAll();
      FlushedAnywhere(Over(engine.Stored()));
      Flush(now, outcome);
      Exit();
    }

    method Exit()
      requires engine.Valid()
      modifies this`exited
      ensures engine.Valid() && Over(engine.Stored()) == old(Over(engine.Stored())).(loop := Exited)
    {
      hide Engine.Valid, Engine.Stored;
      exited := true;
    }

    /** The drain loop: `total` is not kept up any more. */
    method TakeAll()
      requires engine.Valid()
      modifies this`queue, this`pending
      ensures engine.Valid() && engine.Stored() == old(engine.Stored())
      ensures Over(engine.Stored()).(loop := Draining) == Drain(limits, old(Over(engine.Stored())).(loop := Draining))
    {
      hide Engine.Valid, Engine.Stored;
      ghost var s := Over(engine.Stored()).(loop := Draining);
      while queue != []
        invariant engine.Valid() && engine.Stored() == old(engine.Stored())
        invariant Drain(limits, s) == Drain(limits, Over(engine.Stored()).(loop := Draining))
        decreases |queue|
      {
        TakeHead();
      }
    }

    /**
      Stop: signals quit and waits for the final flush. A ready quit is one case among others for the loop, which
      may serve any `turns` first; `outcome` gives what the database does at each of them and at the end.
     */
    method Stop(turns: seq<Turn>, now: nat, outcome: nat -> Outcome)
      requires Valid() && !exited && !quit && engine.NotAfter(now)
      modifies this, engine`retry, engine`clock, engine.trie`nodes, engine.trie.nodes.Values, engine.trending,
               engine.store, engine.cache.nodes.Values
      ensures Valid()
      ensures Over(engine.Stored()) ==
              DrainToEnd(limits, TurnedAll(limits, Do(limits, old(Over(engine.Stored())), Close), turns))
      ensures fresh(engine.trie.nodes.Values - old(engine.trie.nodes.Values))
    {
      hide Engine.Valid, Engine.Stored, Inv, Writer.Over, Do, Settle, DrainToEnd;
      CloseQuit();
      ghost var s := Over(engine.Stored());
      for i := 0 to |turns|
        invariant Valid() && !exited && quit && engine.NotAfter(now)
        invariant Over(engine.Stored()) == TurnedAll(limits, s, turns[..i])
        invariant fresh(engine.trie.nodes.Values - old(engine.trie.nodes.Values))
      {
        TakeOneTurn(turns[i], now, outcome(i));
        assert turns[..i + 1][..i] == turns[..i];
      }
      assert turns[..|turns|] == turns;
      OnQuit(now, outcome(|turns|));
    }

    method CloseQuit()
      requires Valid() && !exited && !quit
      modifies this`quit
      ensures Valid() && !exited && quit && Over(engine.Stored()) == Do(limits, old(Over(engine.Stored())), Close)
      ensures engine.Stored() == old(engine.Stored())
    {
      hide Engine.Valid, Engine.Stored, Inv;
      DoKeeps(limits, start, Over(engine.Stored()), Close);
      quit := true;
    }

    method TakeOneTurn(turn: Turn, now: nat, outcome: Outcome)
      requires Valid() && !exited && engine.NotAfter(now)
      modifies this, engine`retry, engine`clock, engine.trie`nodes, engine.trie.nodes.Values, engine.trending,
               engine.store, engine.cache.nodes.Values
      ensures Valid() && !exited && quit == old(quit) && engine.NotAfter(now)
      ensures Over(engine.Stored()) == Turned(limits, old(Over(engine.Stored())), turn)
      ensures fresh(engine.trie.nodes.Values - old(engine.trie.nodes.Values))
    {
      hide Engine.Valid, Engine.Stored, Inv, Settle;
      if turn.TickTurn? {
        OnTick(now, outcome);
      } else if queue != [] {
        OnEvent(now, outcome);
      } else {
        NothingToTake(limits, Over(engine.Stored()));
      }
    }
  }
}
