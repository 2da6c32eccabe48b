/**
  The serving and write path as a state machine over values. `Inv` is the invariant of every
  reachable world; the theorems at the end hold in every world of every run.
 */
module EngineModel {
  import opened LruCache
  import opened Model
  import opened Ordering
  import opened Persistence
  import opened Ranking
  import opened Recency
  import opened ShardedCache
  import opened TopLists
  import opened TrieSpec

  datatype Config = Config(p: Params, topK: nat, candidateN: nat, cap: nat) {
    /** topK fits into the trie's lists, whose length is candidateN. */
    ghost predicate Valid() {
      p.Valid() && topK <= candidateN && candidateN >= 1 && cap >= 1
    }
  }

  datatype World = World(
    counts: Counts,
    tops: Tops,
    tracked: map<string, State>,
    store: Rows,
    retry: Rows,
    cache: map<string, Value>,
    clock: nat)

  // ----- Rows -----

  /** The rows a restart with nothing lost would see: failed writes override the store. */
  function LatestRows(w: World): Rows {
    w.store + w.retry
  }

  function CountsOf(rows: Rows): Counts {
    map q | q in rows :: rows[q].count
  }

  /** The recency states worth seeding. */
  function RecentOf(rows: Rows): map<string, State> {
    map q | q in rows && rows[q].recentValue > 0.0 :: State(rows[q].recentValue, rows[q].recentTs)
  }

  ghost predicate GoodRows(rows: Rows) {
    forall q | q in rows :: q != "" && rows[q].query == q && rows[q].count > 0
  }

  // ----- The invariant -----

  /** Store, retry rows, trie counts and tracked recency agree; the store alone never runs ahead. */
  ghost predicate Durable(cfg: Config, w: World)
    requires cfg.Valid()
  {
    && GoodRows(w.store) && GoodRows(w.retry)
    && w.counts == CountsOf(LatestRows(w))
    && TopCut(cfg.p, RecentOf(LatestRows(w)), w.tracked, cfg.cap)
    && StampedBy(RecentOf(LatestRows(w)), w.clock)
    && forall q | q in w.store :: w.store[q].count <= w.counts[q]
  }

  /**
    A candidate set covers p: stored queries with their current counts, with the trie's list for p and every
    tracked query below p.
   */
  ghost predicate Covers(counts: Counts, tops: Tops, tracked: map<string, State>, p: string, val: Value) {
    && Collected(val, counts, p)
    && (p in tops ==> Names(tops[p]) <= Names(val))
    && (forall q | q in tracked && p <= q :: q in Names(val))
  }

  ghost predicate CacheCovers(w: World) {
    forall p | p in w.cache :: p != "" && Covers(w.counts, w.tops, w.tracked, p, w.cache[p])
  }

  ghost predicate Inv(cfg: Config, w: World)
    requires cfg.Valid()
  {
    TrieOk(w.counts, w.tops, cfg.candidateN) && Durable(cfg, w) && CacheCovers(w)
  }

  // ----- Steps -----

  /** The candidate set built on a cold read: the trie's list united with the tracked queries, in any order. */
  ghost predicate FreshSet(counts: Counts, tops: Tops, tracked: map<string, State>, p: string, val: Value) {
    && Collected(val, counts, p)
    && Names(val) == (if p in tops then Names(tops[p]) else {}) + set q | q in tracked && p <= q
  }

  ghost predicate SameButCache(w: World, w': World) {
    w' == w.(cache := w'.cache)
  }

  /** Entries expire and are evicted at will. */
  ghost predicate ForgetStep(w: World, w': World) {
    SameButCache(w, w') && Submap(w'.cache, w.cache)
  }

  /**
    Serving prefix p from candidates val, found cached or built cold and then stored. Held entries may have
    expired, and a stored one may at once be dropped again, so neither is forced here; `Engine.Lookup` says
    exactly which case is taken when.
   */
  ghost predicate SuggestStep(w: World, w': World, p: string, val: Value) {
    && p != "" && SameButCache(w, w')
    && ((p in w.cache && val == w.cache[p] && Submap(w'.cache, w.cache))
        || (FreshSet(w.counts, w.tops, w.tracked, p, val) && Submap(w'.cache, w.cache[p := val])))
  }

  /** The rows of a batch: absolute counts after it, and the recency it computed. */
  function BatchRows(counts: Counts, grown: map<string, State>, deltas: map<string, int>): Rows {
    map q | q in deltas && q in grown :: Candidate(q, CountOf(counts, q), grown[q].value, grown[q].ts)
  }

  /**
    A flushed batch: recency, counts, persisting with retry, then invalidation. That the lists are again
    top-k lists is part of the step here: it is what `Trie.ApplyBatch` guarantees, proved in TrieIndex from
    the upserts along each path, and `Engine.ApplyBatch` shows that the real flush is such a step.
   */
  ghost predicate ApplyStep(cfg: Config, w: World, w': World, deltas: map<string, int>, now: nat, outcome: Outcome)
    requires cfg.Valid()
  {
    && PositiveDeltas(deltas) && "" !in deltas && w.clock <= now && w'.clock == now
    && var grown := Bumped(cfg.p, w.tracked, deltas, now);
    TopCut(cfg.p, grown, w'.tracked, cfg.cap)
    && w'.counts == AddDeltas(w.counts, deltas)
    && TrieOk(w'.counts, w'.tops, cfg.candidateN)
    && SameElsewhere(w.tops, w'.tops, Changed(deltas))
    && var rows := w.retry + BatchRows(w'.counts, grown, deltas);
    w'.store == Written(w.store, rows, outcome)
    && w'.retry == (if outcome == Committed then map[] else rows)
    && Submap(w'.cache, w.cache)
    && forall p | p in w'.cache :: !Affected(p, deltas.Keys)
  }

  /** Start-up from a store: bulk-built trie, recency seeded row by row, nothing cached. */
  ghost predicate Boot(cfg: Config, w: World)
    requires cfg.Valid()
  {
    && GoodRows(w.store) && w.retry == map[] && w.cache == map[]
    && w.counts == CountsOf(w.store)
    && TrieOk(w.counts, w.tops, cfg.candidateN) && Rebuilt(w.counts, w.tops, cfg.candidateN)
    && TopCut(cfg.p, RecentOf(w.store), w.tracked, cfg.cap)
    && StampedBy(RecentOf(w.store), w.clock)
  }

  ghost predicate Step(cfg: Config, w: World, w': World)
    requires cfg.Valid()
  {
    || ForgetStep(w, w')
    || (exists p, val :: SuggestStep(w, w', p, val))
    || (exists deltas, now, outcome :: ApplyStep(cfg, w, w', deltas, now, outcome))
  }

  ghost predicate IsRun(cfg: Config, run: seq<World>)
    requires cfg.Valid()
  {
    |run| >= 1 && Boot(cfg, run[0]) && forall i | 0 <= i < |run| - 1 :: Step(cfg, run[i], run[i + 1])
  }

  // ----- Every step keeps the invariant -----

  lemma {:induction false} BootInv(cfg: Config, w: World)
    requires cfg.Valid() && Boot(cfg, w)
    ensures Inv(cfg, w)
  {
    assert LatestRows(w) == w.store;
  }

  lemma FreshCovers(w: World, p: string, val: Value)
    requires FreshSet(w.counts, w.tops, w.tracked, p, val)
    ensures Covers(w.counts, w.tops, w.tracked, p, val)
  {
  }

  lemma {:induction false} SuggestKeeps(cfg: Config, w: World, w': World, p: string, val: Value)
    requires cfg.Valid() && Inv(cfg, w) && SuggestStep(w, w', p, val)
    ensures Inv(cfg, w') && Covers(w.counts, w.tops, w.tracked, p, val)
  {
    hide Covers, TrieOk, FreshSet, Durable;
    if !(p in w.cache && val == w.cache[p]) {
      FreshCovers(w, p, val);
    }
    SameDurable(cfg, w, w');
  }

  lemma SameDurable(cfg: Config, w: World, w': World)
    requires cfg.Valid() && Durable(cfg, w) && SameButCache(w, w')
    ensures Durable(cfg, w')
  {
  }

  lemma ForgetKeeps(cfg: Config, w: World, w': World)
    requires cfg.Valid() && Inv(cfg, w) && ForgetStep(w, w')
    ensures Inv(cfg, w')
  {
  }

  /** Whatever the transaction did, the latest rows are the old ones overridden by the batch's. */
  lemma PersistMerges(store: Rows, retry: Rows, batch: Rows, outcome: Outcome)
    ensures Written(store, retry + batch, outcome) + (if outcome == Committed then map[] else retry + batch)
            == (store + retry) + batch
  {
  }

  lemma PersistGood(store: Rows, retry: Rows, batch: Rows, outcome: Outcome)
    requires GoodRows(store) && GoodRows(retry) && GoodRows(batch)
    ensures GoodRows(Written(store, retry + batch, outcome)) && GoodRows(retry + batch)
  {
  }

  /** Counts: the trie after the batch is what the latest rows say. */
  lemma {:induction false} BatchCounts(rows: Rows, deltas: map<string, int>, grown: map<string, State>, batch: Rows)
    requires GoodRows(rows) && PositiveDeltas(deltas) && "" !in deltas && deltas.Keys <= grown.Keys
    requires batch == BatchRows(AddDeltas(CountsOf(rows), deltas), grown, deltas)
    ensures AddDeltas(CountsOf(rows), deltas) == CountsOf(rows + batch)
    ensures GoodRows(batch) && Changed(deltas) == deltas.Keys == batch.Keys
    ensures forall q | q in rows :: rows[q].count <= (rows + batch)[q].count
  {
    assert Changed(deltas) == deltas.Keys;
  }

  /** Recency: the recent states of the latest rows are the old ones overridden by the grown index. */
  lemma BatchRecency(rows: Rows, tracked: map<string, State>, deltas: map<string, int>,
                     counts: Counts, grown: map<string, State>, batch: Rows)
    requires tracked.Keys <= RecentOf(rows).Keys && forall q | q in tracked :: tracked[q] == RecentOf(rows)[q]
    requires grown.Keys == tracked.Keys + deltas.Keys && forall q | q in deltas :: grown[q].value > 0.0
    requires forall q | q in tracked && q !in deltas :: grown[q] == tracked[q]
    requires batch == BatchRows(counts, grown, deltas)
    ensures RecentOf(rows + batch) == RecentOf(rows) + grown
  {
  }

  lemma {:induction false} RecencyAfterApply(cfg: Config, w: World, deltas: map<string, int>, now: nat,
                                             counts: Counts, tracked': map<string, State>)
    requires cfg.Valid() && Durable(cfg, w) && PositiveDeltas(deltas) && w.clock <= now
    requires TopCut(cfg.p, Bumped(cfg.p, w.tracked, deltas, now), tracked', cfg.cap)
    ensures var rows := LatestRows(w) + BatchRows(counts, Bumped(cfg.p, w.tracked, deltas, now), deltas);
            TopCut(cfg.p, RecentOf(rows), tracked', cfg.cap) && StampedBy(RecentOf(rows), now)
  {
    var recent, grown := RecentOf(LatestRows(w)), Bumped(cfg.p, w.tracked, deltas, now);
    TrackedFacts(cfg, w, now);
    BumpedRaises(cfg.p, w.tracked, deltas, now);
    GrownFacts(cfg.p, w.tracked, deltas, now);
    hide TopCut, Raises, Bumped;
    Absorb(cfg.p, recent, w.tracked, grown, tracked', cfg.cap);
    BatchRecency(LatestRows(w), w.tracked, deltas, counts, grown, BatchRows(counts, grown, deltas));
    MergedStamps(recent, grown, now);
  }

  lemma {:induction false} GrownFacts(p: Params, items: map<string, State>, deltas: map<string, int>, now: nat)
    requires p.Valid() && AllPositive(items) && StampedBy(items, now) && PositiveDeltas(deltas)
    ensures var grown := Bumped(p, items, deltas, now);
            grown.Keys == items.Keys + deltas.Keys
            && (forall q | q in deltas :: grown[q].value > 0.0)
            && (forall q | q in items && q !in deltas :: grown[q] == items[q])
  {
    BumpedRaises(p, items, deltas, now);
    hide BumpFrom, Raises;
  }

  lemma MergedStamps(a: map<string, State>, b: map<string, State>, now: nat)
    requires StampedBy(a, now) && StampedBy(b, now)
    ensures StampedBy(a + b, now)
  {
  }

  lemma TrackedFacts(cfg: Config, w: World, now: nat)
    requires cfg.Valid() && Durable(cfg, w) && w.clock <= now
    ensures var recent := RecentOf(LatestRows(w));
            w.tracked.Keys <= recent.Keys && forall q | q in w.tracked :: w.tracked[q] == recent[q]
    ensures StampedBy(w.tracked, now) && AllPositive(w.tracked)
  {
  }

  lemma {:induction false} ApplyDurable(cfg: Config, w: World, w': World, deltas: map<string, int>, now: nat,
                                        outcome: Outcome)
    requires cfg.Valid() && Durable(cfg, w) && ApplyStep(cfg, w, w', deltas, now, outcome)
    ensures Durable(cfg, w')
  {
    hide TrieOk, SameElsewhere, TopCut, Bumped, AddSome;
    var grown := Bumped(cfg.p, w.tracked, deltas, now);
    var batch := BatchRows(w'.counts, grown, deltas);
    BumpedKeys(cfg.p, w.tracked, deltas, now);
    PersistMerges(w.store, w.retry, batch, outcome);
    BatchCounts(LatestRows(w), deltas, grown, batch);
    PersistGood(w.store, w.retry, batch, outcome);
    RecencyAfterApply(cfg, w, deltas, now, w'.counts, w'.tracked);
    StoreBehind(w.store, w.retry, batch, outcome);
  }

  lemma BumpedKeys(p: Params, items: map<string, State>, deltas: map<string, int>, now: nat)
    ensures Bumped(p, items, deltas, now).Keys == items.Keys + deltas.Keys
  {
  }

  /** The store alone never runs ahead of the latest rows. */
  lemma StoreBehind(store: Rows, retry: Rows, batch: Rows, outcome: Outcome)
    requires forall q | q in store :: store[q].count <= (store + retry)[q].count
    requires forall q | q in store + retry :: (store + retry)[q].count <= (store + retry + batch)[q].count
    ensures forall q | q in Written(store, retry + batch, outcome) ::
              Written(store, retry + batch, outcome)[q].count <= (store + retry + batch)[q].count
  {
  }

  /** Coverage: what is still cached lies off every changed query's path, where nothing it needs changed. */
  lemma {:induction false} ApplyCoverage(cfg: Config, w: World, w': World, deltas: map<string, int>, now: nat,
                                         outcome: Outcome, p: string)
    requires cfg.Valid() && ApplyStep(cfg, w, w', deltas, now, outcome)
    requires p != "" && !Affected(p, deltas.Keys) && p in w.cache
    requires Covers(w.counts, w.tops, w.tracked, p, w.cache[p])
    ensures Covers(w'.counts, w'.tops, w'.tracked, p, w.cache[p])
  {
    ApplyElsewhere(cfg, w, w', deltas, now, outcome, p);
    hide ApplyStep, Affected;
    var val := w.cache[p];
    forall c | c in val ensures c.query in w'.counts && w'.counts[c.query] == c.count {
      assert c.query in w.counts && p <= c.query;
    }
  }

  lemma ChangedWithin(p: string, deltas: map<string, int>)
    ensures Affected(p, Changed(deltas)) ==> Affected(p, deltas.Keys)
  {
  }

  /** A batch none of whose queries extends p changes nothing that serving p depends on. */
  lemma ApplyElsewhere(cfg: Config, w: World, w': World, deltas: map<string, int>, now: nat,
                       outcome: Outcome, p: string)
    requires cfg.Valid() && ApplyStep(cfg, w, w', deltas, now, outcome)
    requires p != "" && !Affected(p, deltas.Keys)
    ensures forall q | p <= q :: q in w.counts <==> q in w'.counts
    ensures forall q | q in w.counts && p <= q :: w'.counts[q] == w.counts[q]
    ensures forall q | q in w'.tracked && p <= q :: q in w.tracked
    ensures p in w'.tops <==> p in w.tops
    ensures p in w.tops ==> w'.tops[p] == w.tops[p]
  {
  }

  lemma ApplyCounts(cfg: Config, w: World, w': World, deltas: map<string, int>, now: nat,
                    outcome: Outcome)
    requires cfg.Valid() && ApplyStep(cfg, w, w', deltas, now, outcome)
    ensures w'.counts == AddDeltas(w.counts, deltas)
  {
  }

  lemma {:induction false} ApplyKeeps(cfg: Config, w: World, w': World, deltas: map<string, int>, now: nat,
                                      outcome: Outcome)
    requires cfg.Valid() && Inv(cfg, w) && ApplyStep(cfg, w, w', deltas, now, outcome)
    ensures Inv(cfg, w')
  {
    ApplyDurable(cfg, w, w', deltas, now, outcome);
    hide Covers, Durable, TrieOk, SameElsewhere, TopCut, Bumped, AddSome;
    forall p | p in w'.cache ensures p != "" && Covers(w'.counts, w'.tops, w'.tracked, p, w'.cache[p]) {
      ApplyCoverage(cfg, w, w', deltas, now, outcome, p);
    }
  }

  lemma {:induction false} StepKeeps(cfg: Config, w: World, w': World)
    requires cfg.Valid() && Inv(cfg, w) && Step(cfg, w, w')
    ensures Inv(cfg, w')
  {
    hide Inv, ForgetStep, SuggestStep, ApplyStep;
    if ForgetStep(w, w') {
      ForgetKeeps(cfg, w, w');
    } else if p, val :| SuggestStep(w, w', p, val) {
      SuggestKeeps(cfg, w, w', p, val);
    } else {
      var deltas, now, outcome :| ApplyStep(cfg, w, w', deltas, now, outcome);
      ApplyKeeps(cfg, w, w', deltas, now, outcome);
    }
  }

  /** Every world of every run satisfies the invariant. */
  lemma {:induction false} RunInv(cfg: Config, run: seq<World>, i: nat)
    requires cfg.Valid() && IsRun(cfg, run) && i < |run|
    ensures Inv(cfg, run[i])
  {
    hide Inv, Step;
    if i == 0 {
      BootInv(cfg, run[0]);
    } else {
      RunInv(cfg, run, i - 1);
      StepKeeps(cfg, run[i - 1], run[i]);
    }
  }

  // ----- What Suggest returns -----

  /** A query's score: its count, or its count score plus its live recency. */
  function ScoreOf(cfg: Config, tracked: map<string, State>, q: string, count: int, recency: bool, now: nat): real {
    if !recency then count as real
    else cfg.p.Score(count, if q in tracked then cfg.p.Effective(tracked[q].value, tracked[q].ts, now) else 0.0)
  }

  /** The score board of a prefix: all stored queries below it, scored at `now`. */
  function ScoreBoard(cfg: Config, counts: Counts, tracked: map<string, State>, p: string, recency: bool,
                      now: nat): map<string, real> {
    map q | q in counts && p <= q :: ScoreOf(cfg, tracked, q, counts[q], recency, now)
  }

  function Scored(cfg: Config, tracked: map<string, State>, val: Value, recency: bool, now: nat): (rs: seq<Ranked>)
    ensures |rs| == |val|
    ensures forall i | 0 <= i < |val| ::
              rs[i] == Ranked(val[i].query, ScoreOf(cfg, tracked, val[i].query, val[i].count, recency, now))
  {
    seq(|val|, i requires 0 <= i < |val| =>
      Ranked(val[i].query, ScoreOf(cfg, tracked, val[i].query, val[i].count, recency, now)))
  }

  /** Re-ranking a candidate set: score, sort, keep topK. */
  function RankOf(cfg: Config, tracked: map<string, State>, val: Value, recency: bool, now: nat): seq<Ranked> {
    var sorted := SortBy(Before, Scored(cfg, tracked, val, recency, now));
    sorted[..Min(cfg.topK, |sorted|)]
  }

  /** Every entry of a ranking is a candidate with its score. */
  lemma {:induction false} RankMembers(cfg: Config, tracked: map<string, State>, val: Value, recency: bool, now: nat)
    ensures forall r | r in RankOf(cfg, tracked, val, recency, now) ::
              exists c :: c in val && r == Ranked(c.query, ScoreOf(cfg, tracked, c.query, c.count, recency, now))
  {
    hide ScoreOf;
    var arr := Scored(cfg, tracked, val, recency, now);
    MultisetMembers(SortBy(Before, arr), arr);
    forall r | r in RankOf(cfg, tracked, val, recency, now)
      ensures exists c :: c in val && r == Ranked(c.query, ScoreOf(cfg, tracked, c.query, c.count, recency, now))
    {
      assert r in SortBy(Before, arr);
      var i :| 0 <= i < |arr| && arr[i] == r;
      assert val[i] in val;
    }
  }

  /** An untracked query scores no more than any query with at least its count. */
  lemma {:induction false} UntrackedScoresLow(cfg: Config, tracked: map<string, State>, q: string, c: int, t: string,
                                              d: int,
                                              recency: bool, now: nat)
    requires cfg.Valid() && q !in tracked && 0 <= c <= d
    ensures ScoreOf(cfg, tracked, q, c, recency, now) <= ScoreOf(cfg, tracked, t, d, recency, now)
  {
    if recency {
      var eff := if t in tracked then cfg.p.Effective(tracked[t].value, tracked[t].ts, now) else 0.0;
      if t in tracked {
        EffectiveNonNegative(cfg.p, tracked[t].value, tracked[t].ts, now);
      }
      ScoreMonotone(cfg.p, c, 0.0, d, eff);
    }
  }

  /** The candidates that are scored are part of the board, and show its scores. */
  lemma {:induction false} ScoredPart(cfg: Config, counts: Counts, tracked: map<string, State>, p: string, val: Value,
                                      recency: bool, now: nat)
    requires Collected(val, counts, p)
    ensures var board := ScoreBoard(cfg, counts, tracked, p, recency, now);
            var part := map q | q in Names(val) && q in board :: board[q];
            part.Keys == Names(val) && IsFull(SortBy(Before, Scored(cfg, tracked, val, recency, now)), part)
  {
    var board := ScoreBoard(cfg, counts, tracked, p, recency, now);
    var part := map q | q in Names(val) && q in board :: board[q];
    var rs := Scored(cfg, tracked, val, recency, now);
    ScoredFacts(cfg, counts, tracked, p, val, recency, now);
    hide ScoreOf, Scored;
    SortedIsFull(rs, part);
  }

  lemma ScoredFacts(cfg: Config, counts: Counts, tracked: map<string, State>, p: string,
                    val: Value, recency: bool, now: nat)
    requires Collected(val, counts, p)
    ensures var board := ScoreBoard(cfg, counts, tracked, p, recency, now);
            var part := map q | q in Names(val) && q in board :: board[q];
            var rs := Scored(cfg, tracked, val, recency, now);
            part.Keys == Names(val) && Exact(rs, part) && Queries(rs) == part.Keys && DistinctQueries(rs)
  {
  }

  /**
    What an entry shows, said outright: a stored query below the prefix, with its count, or with its count
    score plus alpha times its stored recency decayed to `now`, 0 if it is not tracked.
   */
  ghost predicate Shows(p: Params, counts: Counts, tracked: map<string, State>, r: Ranked, prefix: string,
                        recency: bool, now: nat)
  {
    && r.query in counts && prefix <= r.query
    && r.score == if !recency then counts[r.query] as real
                  else p.countScore(counts[r.query])
                       + p.alpha * if r.query !in tracked then 0.0
                                   else p.Effective(tracked[r.query].value, tracked[r.query].ts, now)
  }

  lemma {:induction false} RankShows(cfg: Config, counts: Counts, tracked: map<string, State>, p: string, val: Value,
                                     recency: bool, now: nat)
    requires Collected(val, counts, p)
    ensures var out := RankOf(cfg, tracked, val, recency, now);
            (forall r | r in out :: Shows(cfg.p, counts, tracked, r, p, recency, now))
            && (forall i, j | 0 <= i < j < |out| ::
                  out[i].score > out[j].score || (out[i].score == out[j].score && LexLess(out[i].query, out[j].query)))
  {
    RankExact(cfg, counts, tracked, p, val, recency, now);
    hide RankOf, Params.Effective;
  }

  lemma {:induction false} RankExact(cfg: Config, counts: Counts, tracked: map<string, State>, p: string, val: Value,
                                     recency: bool, now: nat)
    requires Collected(val, counts, p)
    ensures var out := RankOf(cfg, tracked, val, recency, now);
            SortedBy(Before, out)
            && forall r | r in out ::
                 r.query in counts && p <= r.query
                 && r.score == ScoreOf(cfg, tracked, r.query, counts[r.query], recency, now)
  {
    ScoredPart(cfg, counts, tracked, p, val, recency, now);
    var s, n := SortBy(Before, Scored(cfg, tracked, val, recency, now)), |RankOf(cfg, tracked, val, recency, now)|;
    hide Scored, ScoreOf;
    var board := ScoreBoard(cfg, counts, tracked, p, recency, now);
    var part := map q | q in Names(val) && q in board :: board[q];
    PrefixTop(s, part, n);
    hide SortBy, IsFull, Names;
  }

  /**
    The best topK of the stored queries below a prefix: what is listed, in which order, and what is left out.
    No word of how it was found.
   */
  ghost predicate ShowsBest(cfg: Config, counts: Counts, tracked: map<string, State>, out: seq<Ranked>, prefix: string,
                            recency: bool, now: nat)
  {
    && |out| <= cfg.topK
    && (forall r | r in out ::
          r.query in counts && prefix <= r.query
          && r.score == ScoreOf(cfg, tracked, r.query, counts[r.query], recency, now))
    && (forall i, j | 0 <= i < j < |out| ::
          out[i].score > out[j].score || (out[i].score == out[j].score && LexLess(out[i].query, out[j].query)))
    && (forall q | q in counts && prefix <= q && q !in Queries(out) ::
          |out| == cfg.topK && forall r | r in out :: ScoreOf(cfg, tracked, q, counts[q], recency, now) <= r.score)
  }

  lemma {:induction false} RankShowsBest(cfg: Config, counts: Counts, tracked: map<string, State>, p: string,
                                         val: Value,
                                         out: seq<Ranked>, recency: bool, now: nat)
    requires Collected(val, counts, p) && out == RankOf(cfg, tracked, val, recency, now)
    requires IsTop(out, ScoreBoard(cfg, counts, tracked, p, recency, now), cfg.topK)
    ensures ShowsBest(cfg, counts, tracked, out, p, recency, now)
  {
    hide ScoreOf, SortedBy, RankOf, IsTop, ScoreBoard, Collected, Queries, LexLess;
    RankExact(cfg, counts, tracked, p, val, recency, now);
    LeftOut(cfg, counts, tracked, p, out, recency, now);
    Descending(out);
  }

  lemma Descending(out: seq<Ranked>)
    requires SortedBy(Before, out)
    ensures forall i, j | 0 <= i < j < |out| ::
              out[i].score > out[j].score || (out[i].score == out[j].score && LexLess(out[i].query, out[j].query))
  {
  }

  lemma {:induction false} LeftOut(cfg: Config, counts: Counts, tracked: map<string, State>, p: string,
                                   out: seq<Ranked>,
                                   recency: bool, now: nat)
    requires IsTop(out, ScoreBoard(cfg, counts, tracked, p, recency, now), cfg.topK)
    ensures |out| <= cfg.topK
    ensures forall q | q in counts && p <= q && q !in Queries(out) ::
              |out| == cfg.topK && forall r | r in out :: ScoreOf(cfg, tracked, q, counts[q], recency, now) <= r.score
  {
    hide ScoreOf;
    var board := ScoreBoard(cfg, counts, tracked, p, recency, now);
    forall q | q in counts && p <= q && q !in Queries(out) ensures q in board && q !in Queries(out) {
    }
  }

  /** A stored query that a covering set misses is matched by topK candidates that score no less. */
  lemma {:induction false} MissedIsDominated(cfg: Config, counts: Counts, tops: Tops, tracked: map<string, State>,
                                             p: string, val: Value,
                                             recency: bool, now: nat, q: string, part: map<string, real>)
    requires cfg.Valid() && TrieOk(counts, tops, cfg.candidateN) && Covers(counts, tops, tracked, p, val) && p != ""
    requires q in counts && p <= q && q !in Names(val)
    requires part.Keys == Names(val)
    requires forall t | t in part ::
               t in counts && part[t] == ScoreOf(cfg, tracked, t, counts[t], recency, now)
    ensures Dominated(ScoreOf(cfg, tracked, q, counts[q], recency, now), part, cfg.topK)
  {
    hide ScoreOf;
    var top := tops[p];
    var x := ScoreOf(cfg, tracked, q, counts[q], recency, now);
    TopForExact(top, counts, p, cfg.candidateN);
    RankedMembers(top);
    assert q in CountBoard(counts, p) && q !in Queries(AsRanked(top));
    forall t | t in Names(top) ensures t in part && part[t] >= x {
      var c :| c in top && c.query == t;
      assert RankedOf(c) in AsRanked(top);
      UntrackedScoresLow(cfg, tracked, q, counts[q], t, counts[t], recency, now);
    }
    assert AllReach(Names(top), part, x);
  }

  /**
    Re-ranking any covering candidate set, in either mode and at any time, gives a true top-K over all
    stored queries with the prefix.
   */
  lemma {:induction false} RankIsTop(cfg: Config, counts: Counts, tops: Tops, tracked: map<string, State>, p: string,
                                     val: Value,
                                     recency: bool, now: nat)
    requires cfg.Valid() && TrieOk(counts, tops, cfg.candidateN) && Covers(counts, tops, tracked, p, val) && p != ""
    ensures IsTop(RankOf(cfg, tracked, val, recency, now), ScoreBoard(cfg, counts, tracked, p, recency, now), cfg.topK)
  {
    hide TrieOk, ScoreOf, IsTop, IsFull, Dominated, Scored;
    var board := ScoreBoard(cfg, counts, tracked, p, recency, now);
    var part := map q | q in Names(val) && q in board :: board[q];
    ScoredPart(cfg, counts, tracked, p, val, recency, now);
    forall q | q in board && q !in part ensures Dominated(board[q], part, cfg.topK) {
      MissedIsDominated(cfg, counts, tops, tracked, p, val, recency, now, q, part);
    }
    CoverTop(SortBy(Before, Scored(cfg, tracked, val, recency, now)), part, board, cfg.topK);
  }

  /**
    The main theorem. In every world of every run, for every non-empty prefix, either mode and any
    time: serving from whatever is cached for the prefix, or from a fresh candidate set, returns exactly
    the first topK of the descending scores of all stored queries with that prefix; and where no tie
    crosses the cut, exactly the first topK entries of their full ranking.
   */
  lemma {:induction false} SuggestIsTopK(cfg: Config, run: seq<World>, i: nat, w': World, p: string, val: Value,
                                         recency: bool, now: nat)
    requires cfg.Valid() && IsRun(cfg, run) && i < |run| && SuggestStep(run[i], w', p, val)
    ensures var w := run[i];
            var out := RankOf(cfg, w.tracked, val, recency, now);
            var board := ScoreBoard(cfg, w.counts, w.tracked, p, recency, now);
            Scores(out) == Scores(FullRanking(board))[..Min(cfg.topK, |board|)]
            && (CleanCut(out, board) ==> out == BestOf(board, cfg.topK))
    ensures ShowsBest(cfg, run[i].counts, run[i].tracked, RankOf(cfg, run[i].tracked, val, recency, now), p,
                      recency, now)
  {
    hide Step, TrieOk, IsTop, RankOf, ScoreBoard, ShowsBest, Collected;
    var w := run[i];
    RunInv(cfg, run, i);
    SuggestKeeps(cfg, w, w', p, val);
    hide IsRun, SuggestStep, Durable, CacheCovers;
    var out, board := RankOf(cfg, w.tracked, val, recency, now), ScoreBoard(cfg, w.counts, w.tracked, p, recency, now);
    RankIsTop(cfg, w.counts, w.tops, w.tracked, p, val, recency, now);
    RankShowsBest(cfg, w.counts, w.tracked, p, val, out, recency, now);
    hide Covers, CleanCut, BestOf;
    TopIsFirstScores(out, board, cfg.topK);
    if CleanCut(out, board) {
      TopIsFirstEntries(out, board, cfg.topK);
    }
  }

  /**
    What the served list shows, in every world of every run: stored queries below the prefix, each with its
    count, or with its count score plus alpha times its stored recency decayed to `now`.
   */
  lemma {:induction false} SuggestShows(cfg: Config, run: seq<World>, i: nat, w': World, p: string, val: Value,
                                        recency: bool, now: nat)
    requires cfg.Valid() && IsRun(cfg, run) && i < |run| && SuggestStep(run[i], w', p, val)
    ensures forall r | r in RankOf(cfg, run[i].tracked, val, recency, now) ::
              Shows(cfg.p, run[i].counts, run[i].tracked, r, p, recency, now)
  {
    var w := run[i];
    hide IsRun, SuggestStep, Collected, RankOf, Shows;
    ServedIsCollected(cfg, run, i, w', p, val);
    RankShows(cfg, w.counts, w.tracked, p, val, recency, now);
  }

  lemma {:induction false} ServedIsCollected(cfg: Config, run: seq<World>, i: nat, w': World, p: string, val: Value)
    requires cfg.Valid() && IsRun(cfg, run) && i < |run| && SuggestStep(run[i], w', p, val)
    ensures Collected(val, run[i].counts, p)
  {
    hide IsRun, Inv, Collected;
    RunInv(cfg, run, i);
    SuggestKeeps(cfg, run[i], w', p, val);
  }

  /** The list served for a prefix by one step: some candidate set, found cached or built, re-ranked. */
  ghost predicate IsServed(cfg: Config, w: World, w': World, p: string, out: seq<Ranked>, recency: bool, now: nat) {
    exists val :: SuggestStep(w, w', p, val) && out == RankOf(cfg, w.tracked, val, recency, now)
  }

  /** The empty prefix serves the trending list, a true top-k over every recency state ever persisted. */
  lemma {:induction false} TrendingIsTopK(cfg: Config, run: seq<World>, i: nat, k: nat, now: nat)
    requires cfg.Valid() && IsRun(cfg, run) && i < |run| && run[i].clock <= now && k <= cfg.cap
    ensures var live := EffectiveBoard(cfg.p, run[i].tracked, now);
            var all := EffectiveBoard(cfg.p, RecentOf(LatestRows(run[i])), now);
            Scores(BestOf(live, k)) == Scores(FullRanking(all))[..Min(k, |all|)]
    ensures var rows, tracked := RecentOf(LatestRows(run[i])), run[i].tracked;
            var out := BestOf(EffectiveBoard(cfg.p, tracked, now), k);
            |out| == (if k <= |rows| then k else |rows|)
            && (forall r | r in out ::
                  r.query in tracked && r.score == cfg.p.Effective(tracked[r.query].value, tracked[r.query].ts, now))
            && (forall q, r | q in rows && r in out && q !in Queries(out) ::
                  cfg.p.Effective(rows[q].value, rows[q].ts, now) <= r.score)
  {
    hide Step, TrieOk, CacheCovers, TopCut, IsTop;
    var w := run[i];
    RunInv(cfg, run, i);
    TopOfKeptIsTopOfAll(cfg.p, RecentOf(LatestRows(w)), w.tracked, cfg.cap, k, now);
    var live := EffectiveBoard(cfg.p, w.tracked, now);
    TopIsFirstScores(BestOf(live, k), EffectiveBoard(cfg.p, RecentOf(LatestRows(w)), now), k);
  }

  // ----- Durability -----

  /** Under any failures: a query's count is in its retry row if it has one, else in the store. */
  lemma {:induction false} StoreAgrees(cfg: Config, run: seq<World>, i: nat, q: string)
    requires cfg.Valid() && IsRun(cfg, run) && i < |run|
    ensures var w := run[i];
            (if q in w.retry then w.retry[q].count == CountOf(w.counts, q)
             else CountOf(CountsOf(w.store), q) == CountOf(w.counts, q))
            && (q in w.tracked ==>
                  q in LatestRows(w)
                  && w.tracked[q] == State(LatestRows(w)[q].recentValue, LatestRows(w)[q].recentTs))
            && CountOf(CountsOf(w.store), q) <= CountOf(w.counts, q)
  {
    hide Step, TrieOk, CacheCovers;
    RunInv(cfg, run, i);
  }

  /** One successful flush heals everything: the store then holds every count and every recency state. */
  lemma {:induction false} SuccessHeals(cfg: Config, run: seq<World>, i: nat, w': World, deltas: map<string, int>,
                                        now: nat)
    requires cfg.Valid() && IsRun(cfg, run) && i < |run| && ApplyStep(cfg, run[i], w', deltas, now, Committed)
    ensures CountsOf(w'.store) == w'.counts
    ensures TopCut(cfg.p, RecentOf(w'.store), w'.tracked, cfg.cap)
  {
    RunInv(cfg, run, i);
    ApplyDurable(cfg, run[i], w', deltas, now, Committed);
    hide IsRun, Inv, TopCut, Bumped, TrieOk, SameElsewhere;
    NothingPending(w');
  }

  /**
    What a flush leaves in the store, said outright. A failed transaction leaves it as it was and keeps every
    row for the next flush. Any other puts in each searched query with its new count, and leaves alone every
    query that was neither searched nor waiting.
   */
  lemma {:induction false} FlushWrites(cfg: Config, w: World, w': World, deltas: map<string, int>, now: nat,
                                       outcome: Outcome)
    requires cfg.Valid() && ApplyStep(cfg, w, w', deltas, now, outcome)
    ensures outcome == Failed ==> w'.store == w.store
    ensures outcome != Committed ==>
              forall q | q in deltas :: q in w'.retry && w'.retry[q].count == CountOf(w'.counts, q)
    ensures outcome == Committed ==> w'.retry == map[]
    ensures outcome != Failed ==>
              (forall q | q in deltas :: q in w'.store && w'.store[q].count == CountOf(w'.counts, q))
              && (forall q | q !in deltas && q !in w.retry :: q in w'.store <==> q in w.store)
              && (forall q | q !in deltas && q !in w.retry && q in w.store :: w'.store[q] == w.store[q])
  {
    hide TrieOk, TopCut, SameElsewhere, AddSome, BumpFrom, CountOf;
    BumpedKeys(cfg.p, w.tracked, deltas, now);
  }

  /**
    A restart from the store of a failed flush shows the counts the store held before it: the live counts of
    before the flush, if nothing was waiting.
   */
  lemma {:induction false} RestartAfterFailure(cfg: Config, run: seq<World>, i: nat, w': World,
                                               deltas: map<string, int>,
                                               now: nat, booted: World)
    requires cfg.Valid() && IsRun(cfg, run) && i < |run| && ApplyStep(cfg, run[i], w', deltas, now, Failed)
    requires Boot(cfg, booted) && booted.store == w'.store
    ensures booted.store == run[i].store && booted.counts == CountsOf(run[i].store)
    ensures run[i].retry == map[] ==> booted.counts == run[i].counts
  {
    RunInv(cfg, run, i);
    FlushWrites(cfg, run[i], w', deltas, now, Failed);
    NothingPending(run[i]);
    hide IsRun, ApplyStep, TrieOk, TopCut;
  }

  lemma NothingPending(w: World)
    ensures w.retry == map[] ==> LatestRows(w) == w.store
  {
  }

  /** booted is a restart, with no failed rows pending, from the store of a world of a run. */
  ghost predicate IsRestart(cfg: Config, run: seq<World>, i: nat, booted: World)
    requires cfg.Valid()
  {
    && IsRun(cfg, run) && i < |run| && run[i].retry == map[]
    && Boot(cfg, booted) && booted.store == run[i].store
  }

  lemma {:induction false} RestartFacts(cfg: Config, run: seq<World>, i: nat, booted: World)
    requires cfg.Valid() && IsRestart(cfg, run, i, booted)
    ensures var w, rows := run[i], booted.store;
            w.counts == CountsOf(rows) == booted.counts
            && TopCut(cfg.p, RecentOf(rows), w.tracked, cfg.cap)
            && TopCut(cfg.p, RecentOf(rows), booted.tracked, cfg.cap)
            && StampedBy(RecentOf(rows), w.clock)
            && TrieOk(w.counts, w.tops, cfg.candidateN) && TrieOk(booted.counts, booted.tops, cfg.candidateN)
  {
    RunInv(cfg, run, i);
    hide IsRun, TrieOk, CacheCovers, TopCut;
    NothingPending(run[i]);
  }

  /** Restart fidelity, counts: the same counts, and at every prefix the same column of counts. */
  lemma {:induction false} RestartCounts(cfg: Config, run: seq<World>, i: nat, booted: World, p: string)
    requires cfg.Valid() && IsRestart(cfg, run, i, booted)
    ensures booted.counts == run[i].counts
    ensures p != "" ==> Scores(AsRanked(ListAt(run[i].tops, p))) == Scores(AsRanked(ListAt(booted.tops, p)))
  {
    RestartFacts(cfg, run, i, booted);
    hide IsRestart, TrieOk, TopCut;
    if p != "" {
      IncrementalEqualsRebuild(run[i].counts, run[i].tops, booted.tops, cfg.candidateN, p);
    }
  }

  /**
    Restart fidelity, lists: a restart shows the best k at every non-empty prefix, ties broken by query, whatever
    the row order; the live trie showed the same list if no tie crosses the cut (`GrownIsRebuilt` for the converse).
   */
  lemma {:induction false} RestartLists(cfg: Config, run: seq<World>, i: nat, booted: World, p: string)
    requires cfg.Valid() && IsRestart(cfg, run, i, booted) && p != ""
    ensures BestFor(ListAt(booted.tops, p), booted.counts, p, cfg.candidateN)
    ensures var board := CountBoard(booted.counts, p);
            CleanCut(BestOf(board, cfg.candidateN), board) ==>
              BestFor(ListAt(run[i].tops, p), booted.counts, p, cfg.candidateN)
  {
    RestartFacts(cfg, run, i, booted);
    RebuiltListAt(booted.counts, booted.tops, cfg.candidateN, p);
    GrownIsRebuilt(booted.counts, booted.tops, cfg.candidateN, p);
    hide IsRestart, TrieOk, BestFor, BestOf, CleanCut, TopCut;
    assert TrieOk(booted.counts, run[i].tops, cfg.candidateN);
  }

  /**
    Restart fidelity, tracking: equally many queries are tracked, and every query above the lowest key of
    the restarted index is tracked there with the same value and stamp. Rows may come in any order.
   */
  lemma {:induction false} RestartTracked(cfg: Config, run: seq<World>, i: nat, booted: World, q: string)
    requires cfg.Valid() && IsRestart(cfg, run, i, booted)
    ensures |booted.tracked| == |run[i].tracked|
    ensures (q in run[i].tracked && !BelowAll(cfg.p, run[i].tracked[q], booted.tracked))
            ==> (q in booted.tracked && booted.tracked[q] == run[i].tracked[q])
  {
    RestartFacts(cfg, run, i, booted);
    hide IsRestart, TrieOk, TopCut, BelowAll;
    var all := RecentOf(booted.store);
    CutsSameSize(cfg.p, all, run[i].tracked, booted.tracked, cfg.cap);
    if q in run[i].tracked && !BelowAll(cfg.p, run[i].tracked[q], booted.tracked) {
      CutsAgreeAboveTheCut(cfg.p, all, run[i].tracked, booted.tracked, cfg.cap, q);
    }
  }

  /** Restart fidelity, trending: the same scores at every later time, for every k up to the cap. */
  lemma {:induction false} RestartTrending(cfg: Config, run: seq<World>, i: nat, booted: World, k: nat, now: nat)
    requires cfg.Valid() && IsRestart(cfg, run, i, booted) && run[i].clock <= now && k <= cfg.cap
    ensures var before, after := EffectiveBoard(cfg.p, run[i].tracked, now), EffectiveBoard(cfg.p, booted.tracked, now);
            Scores(BestOf(before, k)) == Scores(BestOf(after, k))
  {
    RestartFacts(cfg, run, i, booted);
    hide IsRestart, TrieOk, TopCut, IsTop;
    var all := RecentOf(booted.store);
    TopOfKeptIsTopOfAll(cfg.p, all, run[i].tracked, cfg.cap, k, now);
    TopOfKeptIsTopOfAll(cfg.p, all, booted.tracked, cfg.cap, k, now);
    var before, after := EffectiveBoard(cfg.p, run[i].tracked, now), EffectiveBoard(cfg.p, booted.tracked, now);
    TopColumnUnique(BestOf(before, k), BestOf(after, k),
                    EffectiveBoard(cfg.p, all, now), k);
  }

  /** A restart at any moment, failed rows or not, is never ahead of the live counts. */
  lemma {:induction false} RestartNeverAhead(cfg: Config, run: seq<World>, i: nat, booted: World, q: string)
    requires cfg.Valid() && IsRun(cfg, run) && i < |run| && Boot(cfg, booted) && booted.store == run[i].store
    ensures CountOf(booted.counts, q) <= CountOf(run[i].counts, q)
  {
    hide Step, TrieOk, CacheCovers, TopCut;
    RunInv(cfg, run, i);
  }
}
