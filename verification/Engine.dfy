/**
  The engine: serving suggestions and applying flushed batches over the trie, the trending index, the
  store and the distributed cache. Each method is one step of the state machine in EngineModel.
 */
module Engine {
  import opened EngineModel
  import opened LruCache
  import opened Model
  import opened Ordering
  import opened Persistence
  import opened Ranking
  import opened Recency
  import opened ShardedCache
  import opened TopLists
  import opened Trending
  import opened TrieIndex
  import opened TrieSpec

  const MODE_COUNT := "count"
  const MODE_RECENCY := "recency"

  class Engine {
    const trie: Trie
    const cache: Distributed
    const store: Store
    const trending: Index
    const topK: nat
    const candidateN: nat
    const defaultMode: string
    var retry: Rows
    ghost var clock: nat  // the latest time seen by a batch

    ghost function Cfg(): Config {
      Config(trending.p, topK, candidateN, trending.cap)
    }

    ghost predicate PartsValid()
      reads trie, trie.nodes.Values, cache.ring, cache.nodes.Values, trending
    {
      && Cfg().Valid()
      && trie.Valid() && trie.k == candidateN
      && cache.Valid()
      && trending.Valid()
    }

    ghost function View(): World
      requires PartsValid()
      reads this, trie, trie.nodes.Values, cache.ring, cache.nodes.Values, trending, store
    {
      World(trie.CountMap(), trie.TopMap(), trending.items, store.rows, retry, cache.Contents(), clock)
    }

    ghost predicate Valid()
      reads this, trie, trie.nodes.Values, cache.ring, cache.nodes.Values, trending, store
    {
      Cfg().Valid() && PartsValid() && Inv(Cfg(), View())
    }

    /** The stored queries and their counts. */
    ghost function Stored(): Counts
      requires Valid()
      reads this, trie, trie.nodes.Values, cache.ring, cache.nodes.Values, trending, store
    {
      View().counts
    }

    ghost predicate NotAfter(now: nat)
      reads this
    {
      clock <= now
    }

    constructor (trie: Trie, cache: Distributed, store: Store, trending: Index, topK: nat, candidateN: nat,
                 defaultMode: string, ghost clock: nat)
      requires trie.Valid() && cache.Valid() && trending.Valid()
      ensures this.trie == trie && this.cache == cache && this.store == store && this.trending == trending
      ensures this.topK == topK && this.candidateN == candidateN
      ensures this.defaultMode == if defaultMode != "count" then "recency" else "count"
      ensures topK <= candidateN && candidateN >= 1 && trie.k == candidateN ==> PartsValid()
      ensures retry == map[] && this.clock == clock
    {
      this.trie, this.cache, this.store, this.trending := trie, cache, store, trending;
      this.topK, this.candidateN := topK, candidateN;
      this.defaultMode := if defaultMode != MODE_COUNT then MODE_RECENCY else defaultMode;
      retry := map[];
      this.clock := clock;
    }

    // ----- Serving -----

    /**
      Suggestions for a prefix, served from the cache or built cold. The clock is read at `now` for the
      ranking and, in finer units, when the cache is read and written. The empty mode stands for the default.
     */
    method Suggest(prefix: string, mode: string, now: nat, readAt: int, writtenAt: int) returns (out: seq<Ranked>)
      requires Valid()
      modifies cache`hits, cache`miss, cache.nodes.Values
      ensures Valid() && SameButCache(old(View()), View()) && (prefix == "" ==> View() == old(View()))
      ensures prefix == "" ==> out == BestOf(EffectiveBoard(trending.p, trending.items, now), topK)
      ensures prefix != "" ==>
                IsServed(Cfg(), old(View()), View(), prefix, out,
                         (if mode == "" then defaultMode else mode) == "recency", now)
      // what is listed, and in which order
      ensures prefix == "" ==>
                |out| == (if topK <= |trending.items| then topK else |trending.items|)
                && forall r | r in out :: r.query in trending.items && r.score == LiveRecency(r.query, now)
      ensures prefix != "" ==> |out| <= topK && forall r | r in out :: r.query in Stored() && prefix <= r.query
      ensures prefix != "" && (if mode == "" then defaultMode else mode) != "recency" ==>
                forall r | r in out :: r.query in Stored() && r.score == Stored()[r.query] as real
      ensures prefix != "" && (if mode == "" then defaultMode else mode) == "recency" ==>
                forall r | r in out ::
                  r.query in Stored()
                  && r.score == trending.p.countScore(Stored()[r.query]) + trending.p.alpha * LiveRecency(r.query, now)
      ensures forall i, j | 0 <= i < j < |out| ::
                out[i].score > out[j].score || (out[i].score == out[j].score && LexLess(out[i].query, out[j].query))
      ensures forall i, j | 0 <= i < |out| && 0 <= j < |out| && out[i].score == out[j].score
                            && out[i].query < out[j].query ::
                i < j
      // what is left out
      ensures prefix == "" ==>
                forall q, r | q in trending.items && r in out && q !in Queries(out) ::
                  LiveRecency(q, now) <= r.score
      ensures prefix != "" ==>
                forall q | q in Stored() && prefix <= q && q !in Queries(out) :: |out| == topK
      ensures prefix != "" && (if mode == "" then defaultMode else mode) != "recency" ==>
                forall q, r | q in Stored() && prefix <= q && r in out && q !in Queries(out) ::
                  Stored()[q] as real <= r.score
      ensures prefix != "" && (if mode == "" then defaultMode else mode) == "recency" ==>
                forall q, r | q in Stored() && prefix <= q && r in out && q !in Queries(out) ::
                  trending.p.countScore(Stored()[q]) + trending.p.alpha * LiveRecency(q, now) <= r.score
    {
      hide PartsValid, Inv, View, Engine.Stored, LiveRecency, SameButCache, IsServed, BestOf, Queries, LexLess;
      if prefix == "" {
        out := SuggestTrending(now);
        SameWorld(View());
        return;
      }
      var m := if mode == "" then defaultMode else mode;
      out := SuggestSpelled(prefix, m, now, readAt, writtenAt);
    }

    lemma SameWorld(w: World)
      ensures SameButCache(w, w)
    {
    }

    method SuggestTrending(now: nat) returns (out: seq<Ranked>)
      ensures out == BestOf(EffectiveBoard(trending.p, trending.items, now), topK)
      ensures |out| == if topK <= |trending.items| then topK else |trending.items|
      ensures forall r | r in out :: r.query in trending.items && r.score == LiveRecency(r.query, now)
      ensures forall i, j | 0 <= i < j < |out| ::
                out[i].score > out[j].score || (out[i].score == out[j].score && LexLess(out[i].query, out[j].query))
      ensures forall i, j | 0 <= i < |out| && 0 <= j < |out| && out[i].score == out[j].score
                            && out[i].query < out[j].query ::
                i < j
      ensures forall q, r | q in trending.items && r in out && q !in Queries(out) ::
                LiveRecency(q, now) <= r.score
    {
      hide BestOf, Params.Effective;
      out := trending.Top(topK, now);
      PrefixesFirst(out);
    }

    method SuggestSpelled(prefix: string, mode: string, now: nat, readAt: int, writtenAt: int)
      returns (out: seq<Ranked>)
      requires Valid() && prefix != ""
      modifies cache`hits, cache`miss, cache.nodes.Values
      ensures Valid() && SameButCache(old(View()), View())
      ensures IsServed(Cfg(), old(View()), View(), prefix, out, mode == "recency", now)
      ensures |out| <= topK && forall r | r in out :: r.query in Stored() && prefix <= r.query
      ensures mode != "recency" ==> forall r | r in out :: r.query in Stored() && r.score == Stored()[r.query] as real
      ensures mode == "recency" ==>
                forall r | r in out ::
                  r.query in Stored()
                  && r.score == trending.p.countScore(Stored()[r.query]) + trending.p.alpha * LiveRecency(r.query, now)
      ensures forall i, j | 0 <= i < j < |out| ::
                out[i].score > out[j].score || (out[i].score == out[j].score && LexLess(out[i].query, out[j].query))
      ensures forall i, j | 0 <= i < |out| && 0 <= j < |out| && out[i].score == out[j].score
                            && out[i].query < out[j].query ::
                i < j
      ensures forall q | q in Stored() && prefix <= q && q !in Queries(out) :: |out| == topK
      ensures mode != "recency" ==>
                forall q, r | q in Stored() && prefix <= q && r in out && q !in Queries(out) ::
                  Stored()[q] as real <= r.score
      ensures mode == "recency" ==>
                forall q, r | q in Stored() && prefix <= q && r in out && q !in Queries(out) ::
                  trending.p.countScore(Stored()[q]) + trending.p.alpha * LiveRecency(q, now) <= r.score
    {
      hide PartsValid, Inv, View, Engine.Stored, SameButCache, LiveRecency, ScoreOf, IsServed, Queries, LexLess;
      out := SuggestBelow(prefix, mode, now, readAt, writtenAt);
      Spelled(Stored(), out, prefix, mode == "recency", now);
      PrefixesFirst(out);
    }

    /** A tracked query's stored value decayed from its stamp to `now`; 0 for any other query. */
    ghost function LiveRecency(q: string, now: nat): real
      reads trending
    {
      if q in trending.items then trending.p.Effective(trending.items[q].value, trending.items[q].ts, now) else 0.0
    }

    method SuggestBelow(prefix: string, mode: string, now: nat, readAt: int, writtenAt: int) returns (out: seq<Ranked>)
      requires Valid() && prefix != ""
      modifies cache`hits, cache`miss, cache.nodes.Values
      ensures Valid() && SameButCache(old(View()), View())
      ensures IsServed(Cfg(), old(View()), View(), prefix, out, mode == "recency", now)
      ensures ShowsBest(Cfg(), Stored(), trending.items, out, prefix, mode == "recency", now)
    {
      hide Inv, PartsValid, View, IsTop, RankOf, ScoreBoard, SuggestStep, Collected, ShowsBest, SameButCache;
      ghost var val;
      out, val := SuggestRanked(prefix, mode, now, readAt, writtenAt);
      assert IsServed(Cfg(), old(View()), View(), prefix, out, mode == "recency", now);
      LiveRecencyIs();
      RankShowsBest(Cfg(), View().counts, View().tracked, prefix, val, out, mode == "recency", now);
    }

    /** The same, spelled out for the trending index of this engine. */
    lemma {:induction false} Spelled(counts: Counts, out: seq<Ranked>, prefix: string, recency: bool, now: nat)
      requires ShowsBest(Cfg(), counts, trending.items, out, prefix, recency, now)
      ensures forall r | r in out ::
                r.query in counts
                && r.score == if !recency then counts[r.query] as real
                              else trending.p.countScore(counts[r.query]) + trending.p.alpha * LiveRecency(r.query, now)
      ensures forall q, r | q in counts && prefix <= q && r in out && q !in Queries(out) ::
                r.score >= if !recency then counts[q] as real
                           else trending.p.countScore(counts[q]) + trending.p.alpha * LiveRecency(q, now)
    {
      forall q | q in counts
        ensures ScoreOf(Cfg(), trending.items, q, counts[q], recency, now)
                == if !recency then counts[q] as real
                   else trending.p.countScore(counts[q]) + trending.p.alpha * LiveRecency(q, now)
      {
      }
      hide ScoreOf, LiveRecency, Queries, LexLess;
    }

    lemma LiveRecencyIs()
      requires PartsValid()
      ensures View().tracked == trending.items
    {
    }

    method SuggestRanked(prefix: string, mode: string, now: nat, readAt: int, writtenAt: int)
      returns (out: seq<Ranked>, ghost val: Value)
      requires Valid() && prefix != ""
      modifies cache`hits, cache`miss, cache.nodes.Values
      ensures Valid() && SameButCache(old(View()), View())
      ensures SuggestStep(old(View()), View(), prefix, val) && Collected(val, View().counts, prefix)
      ensures View().tracked == old(View()).tracked
      ensures out == RankOf(Cfg(), View().tracked, val, mode == "recency", now)
      ensures IsTop(out, ScoreBoard(Cfg(), View().counts, View().tracked, prefix, mode == "recency", now), topK)
    {
      hide IsTop, RankOf, ScoreBoard, SuggestStep, TrieOk, Durable, CacheCovers, View, PartsValid;
      var cands := Lookup(prefix, readAt, writtenAt);
      val := cands;
      hide Covers;
      out := Rank(cands, mode, now);
      RankIsTop(Cfg(), View().counts, View().tops, View().tracked, prefix, cands, mode == "recency", now);
      CoveringIsCollected(View().counts, View().tops, View().tracked, prefix, cands);
    }

    /** The candidate set of a prefix: cached, or built and then cached. */
    method Lookup(prefix: string, readAt: int, writtenAt: int) returns (cands: Value)
      requires Valid() && prefix != ""
      modifies cache`hits, cache`miss, cache.nodes.Values
      ensures Valid() && SuggestStep(old(View()), View(), prefix, cands)
      ensures Covers(View().counts, View().tops, View().tracked, prefix, cands)
      ensures SameButCache(old(View()), View())
      ensures ServedFrom(old(cache.View()), cache.View(), cache.Owner(prefix), cache.Caps(), prefix, readAt,
                         writtenAt + cache.ttl, cands,
                         FreshSet(View().counts, View().tops, View().tracked, prefix, cands))
      ensures var hit := ShardVisible(old(cache.View()), cache.Owner(prefix), prefix, readAt);
              if hit.Some? then cands == hit.value
              else FreshSet(View().counts, View().tops, View().tracked, prefix, cands)
    {
      hide PartsValid, View, Inv, FreshSet, Covers, ShardStep, ShardVisible, Distributed.View, Distributed.Caps;
      ghost var w := View();
      WorldStored(Cfg(), w);
      var hit := ReadCache(prefix, readAt);
      ghost var w1 := View();
      if hit.Some? {
        cands := hit.value;
      } else {
        cands := Candidates(prefix);
        WriteCache(prefix, cands, writtenAt);
      }
      ServingIsStep(w, w1, View(), prefix, cands, hit.Some?);
      hide SuggestStep;
      SuggestKeeps(Cfg(), w, View(), prefix, cands);
    }

    /** A cache read changes nothing but the cache, which may lose entries. */
    method ReadCache(prefix: string, readAt: int) returns (hit: Option<Value>)
      requires PartsValid()
      modifies cache`hits, cache`miss, cache.nodes.Values
      ensures PartsValid() && ForgetStep(old(View()), View())
      ensures hit.Some? ==> prefix in old(View()).cache && hit.value == old(View()).cache[prefix]
      ensures hit == ShardVisible(old(cache.View()), cache.Owner(prefix), prefix, readAt)
      ensures cache.View() == ShardStep(old(cache.View()), cache.Owner(prefix), GetOp(prefix, readAt), cache.Caps())
    {
      hide Trie.Valid, Trie.CountMap, Trie.TopMap, Distributed.Valid, Distributed.Contents, Distributed.View,
           Index.Valid, Params.Valid;
      hit := cache.Get(prefix, readAt);
    }

    method WriteCache(prefix: string, cands: Value, writtenAt: int)
      requires PartsValid()
      modifies cache.nodes.Values
      ensures PartsValid() && SameButCache(old(View()), View())
      ensures Submap(View().cache, old(View()).cache[prefix := cands])
      ensures cache.View() == ShardStep(old(cache.View()), cache.Owner(prefix),
                                        SetOp(prefix, cands, writtenAt + cache.ttl), cache.Caps())
    {
      hide Trie.Valid, Trie.CountMap, Trie.TopMap, Distributed.Valid, Distributed.Contents, Distributed.View,
           Index.Valid, Params.Valid;
      cache.Set(prefix, cands, writtenAt);
    }

    /** Scores a candidate set by mode and keeps the best topK. */
    method Rank(cands: Value, mode: string, now: nat) returns (out: seq<Ranked>)
      requires PartsValid()
      ensures out == RankOf(Cfg(), View().tracked, cands, mode == "recency", now)
      ensures forall r | r in out ::
                exists c ::
                  c in cands && c.query == r.query
                  && r.score == if mode != "recency" then c.count as real
                                else trending.p.countScore(c.count) + trending.p.alpha * LiveRecency(c.query, now)
    {
      hide Trie.Valid, Distributed.Valid, Trie.CountMap, Trie.TopMap, Distributed.Contents, Scored, SortBy, LiveRecency;
      var arr := ScoreAll(cands, mode, now);
      var sorted := SortBy(Before, arr);
      out := sorted[..if topK > |sorted| then |sorted| else topK];
      RankedFrom(cands, mode == "recency", now);
    }

    /** The scoring loop. */
    method ScoreAll(cands: Value, mode: string, now: nat) returns (arr: seq<Ranked>)
      requires PartsValid()
      ensures arr == Scored(Cfg(), trending.items, cands, mode == "recency", now)
    {
      hide Trie.Valid, Distributed.Valid, Trie.CountMap, Trie.TopMap, Distributed.Contents, Params.Effective;
      arr := [];
      for i := 0 to |cands|
        invariant arr == Scored(Cfg(), trending.items, cands, mode == "recency", now)[..i]
      {
        var c := cands[i];
        var s := c.count as real;
        if mode == MODE_RECENCY {
          s := trending.p.Score(c.count, trending.Effective(c.query, now));
        }
        arr := arr + [Ranked(c.query, s)];
      }
      assert arr == Scored(Cfg(), trending.items, cands, mode == "recency", now);
    }

    lemma {:induction false} RankedFrom(cands: Value, recency: bool, now: nat)
      ensures forall r | r in RankOf(Cfg(), trending.items, cands, recency, now) ::
                exists c ::
                  c in cands && c.query == r.query
                  && r.score == if !recency then c.count as real
                                else trending.p.countScore(c.count) + trending.p.alpha * LiveRecency(c.query, now)
    {
      hide RankOf, ScoreOf, LiveRecency;
      RankMembers(Cfg(), trending.items, cands, recency, now);
      forall r | r in RankOf(Cfg(), trending.items, cands, recency, now)
        ensures exists c ::
                  c in cands && c.query == r.query
                  && r.score == if !recency then c.count as real
                                else trending.p.countScore(c.count) + trending.p.alpha * LiveRecency(c.query, now)
      {
        var c :| c in cands && r == Ranked(c.query, ScoreOf(Cfg(), trending.items, c.query, c.count, recency, now));
        ScoreSpelled(c.query, c.count, recency, now);
      }
    }

    lemma {:induction false} ScoreSpelled(q: string, n: int, recency: bool, now: nat)
      ensures ScoreOf(Cfg(), trending.items, q, n, recency, now)
              == if !recency then n as real
                 else trending.p.countScore(n) + trending.p.alpha * LiveRecency(q, now)
    {
      hide Params.Effective;
    }

    /** The trie's candidates for a prefix, united with the tracked queries that extend it, in any order. */
    method Candidates(prefix: string) returns (out: Value)
      requires PartsValid() && View().tracked.Keys <= View().counts.Keys && prefix != ""
      ensures FreshSet(View().counts, View().tops, View().tracked, prefix, out)
    {
      hide FreshSet, Trie.Valid, Distributed.Valid, Distributed.Contents, Trie.CountMap, Trie.TopMap;
      out := Gather(prefix);
    }

    method Gather(prefix: string) returns (out: Value)
      requires trie.Valid() && trie.k == candidateN && trending.items.Keys <= trie.CountMap().Keys && prefix != ""
      ensures FreshSet(trie.CountMap(), trie.TopMap(), trending.items, prefix, out)
    {
      hide TrieOk, Collected, FreshSet, SeenOk, Names, FirstOf, Trie.CountMap, Trie.TopMap, Trie.Linked, Trie.Named;
      ghost var counts, tops := trie.CountMap(), trie.TopMap();
      var top := trie.TopK(prefix, candidateN);
      ServedWhole(counts, tops, candidateN, prefix, top);
      var seen := Seen(top, counts, prefix);
      var qs := trending.MatchingPrefix(prefix);
      seen := AddTracked(seen, qs, prefix);
      out := Listing(seen, counts, prefix);
      UnionIsFresh(counts, tops, trending.items, prefix, top, qs, out);
    }

    method AddTracked(seen: Rows, qs: seq<string>, ghost prefix: string) returns (all: Rows)
      requires trie.Valid() && SeenOk(seen, trie.CountMap(), prefix)
      requires forall q | q in qs :: q in trie.CountMap() && prefix <= q
      ensures SeenOk(all, trie.CountMap(), prefix) && all.Keys == seen.Keys + set q | q in qs
    {
      hide TrieOk, Trie.Linked, Trie.Named, Trie.CountMap;
      all := seen;
      for i := 0 to |qs|
        invariant SeenOk(all, trie.CountMap(), prefix) && all.Keys == seen.Keys + set q | q in qs[..i]
      {
        assert qs[i] in qs && qs[..i + 1] == qs[..i] + [qs[i]];
        if qs[i] !in all {
          var n := trie.Count(qs[i]);
          all := all[qs[i] := Candidate(qs[i], n, 0.0, 0)];
        }
      }
      assert qs[..|qs|] == qs;
    }

    // ----- Applying a batch -----

    /**
      The flush callback: recency, then counts, then persisting with retry, then invalidation. `outcome` is
      what the database does with the transaction.
     */
    method ApplyBatch(deltas: map<string, int>, now: nat, outcome: Outcome)
      requires Valid() && PositiveDeltas(deltas) && "" !in deltas && NotAfter(now)
      modifies this`retry, this`clock, trie`nodes, trie.nodes.Values, trending, store, cache.nodes.Values
      ensures Valid() && ApplyStep(Cfg(), old(View()), View(), deltas, now, outcome) && NotAfter(now)
      ensures forall q | q in deltas ::
                q in Stored()
                && Stored()[q] == (if q in old(Stored()) then old(Stored())[q] else 0) + deltas[q]
      ensures forall q | q !in deltas ::
                (q in Stored() <==> q in old(Stored())) && (q in Stored() ==> Stored()[q] == old(Stored())[q])
      ensures outcome == Failed ==> View().store == old(View()).store
      ensures outcome != Failed ==>
                forall q | q in deltas :: q in View().store && View().store[q].count == CountOf(View().counts, q)
      ensures forall p | p in old(View()).cache && !Affected(p, deltas.Keys) ::
                p in View().cache && View().cache[p] == old(View()).cache[p]
      ensures fresh(trie.nodes.Values - old(trie.nodes.Values))
    {
      hide PartsValid, View, Inv, TopCut, Bumped, BatchRows, Written, Affected, ApplyStep, MemoryStep;
      ghost var w := View();
      ClockIs();
      var rows := UpdateMemory(deltas, now);
      ghost var w1 := View();
      Persist(rows, outcome);
      ghost var w2 := View();
      InvalidatePrefixes(deltas);
      ghost var w3 := View();
      Advance(now);
      PartsMakeApply(Cfg(), w, w1, w2, w3, deltas, now, outcome, rows);
      FlushWrites(Cfg(), w, View(), deltas, now, outcome);
      ApplyKeeps(Cfg(), w, View(), deltas, now, outcome);
      BatchCounted(Cfg(), w, View(), deltas, now, outcome);
    }

    /** The in-memory half of a flush, and the rows to persist. */
    method UpdateMemory(deltas: map<string, int>, now: nat) returns (rows: Rows)
      requires PartsValid() && PositiveDeltas(deltas)
      modifies trie`nodes, trie.nodes.Values, trending
      ensures PartsValid() && MemoryStep(Cfg(), old(View()), View(), deltas, now)
      ensures rows == View().retry + BatchRows(View().counts, Bumped(Cfg().p, old(View()).tracked, deltas, now), deltas)
      ensures View().retry.Keys <= rows.Keys
      ensures fresh(trie.nodes.Values - old(trie.nodes.Values))
    {
      hide PartsValid, View, TopCut, Bumped, TrieOk, SameElsewhere, AddSome, BatchRows;
      ghost var grown := Bumped(Cfg().p, View().tracked, deltas, now);
      BumpedKeys(Cfg().p, View().tracked, deltas, now);
      var recency := UpdateTrending(deltas, now);
      UpdateTrie(deltas);
      var batch := NewRows(deltas, recency, grown);
      rows := FoldRetry(batch);
    }

    lemma ClockIs()
      requires PartsValid()
      ensures View().clock == clock
    {
    }

    ghost method Advance(now: nat)
      requires PartsValid()
      modifies this`clock
      ensures PartsValid() && View() == old(View()).(clock := now) && clock == now
    {
      hide Trie.Valid, Trie.CountMap, Trie.TopMap, Distributed.Valid, Distributed.Contents, Index.Valid;
      clock := now;
    }

    method UpdateTrending(deltas: map<string, int>, now: nat) returns (recency: map<string, Candidate>)
      requires PartsValid()
      modifies trending
      ensures PartsValid() && View() == old(View()).(tracked := View().tracked)
      ensures TopCut(Cfg().p, Bumped(Cfg().p, old(View()).tracked, deltas, now), View().tracked, Cfg().cap)
      ensures recency.Keys == deltas.Keys
      ensures forall q | q in deltas ::
                recency[q] == RecencyRow(q, Bumped(Cfg().p, old(View()).tracked, deltas, now)[q])
    {
      hide Trie.Valid, Trie.CountMap, Trie.TopMap, Distributed.Valid, Distributed.Contents, Params.Valid, TopCut,
           Bumped, Params.Effective;
      recency := trending.Update(deltas, now);
    }

    method UpdateTrie(deltas: map<string, int>)
      requires PartsValid() && PositiveDeltas(deltas)
      modifies trie`nodes, trie.nodes.Values
      ensures PartsValid() && View() == old(View()).(counts := View().counts, tops := View().tops)
      ensures View().counts == AddDeltas(old(View()).counts, deltas)
      ensures TrieOk(View().counts, View().tops, candidateN)
      ensures SameElsewhere(old(View()).tops, View().tops, Changed(deltas))
      ensures fresh(trie.nodes.Values - old(trie.nodes.Values))
    {
      hide Trie.Built, Trie.CountMap, Trie.TopMap, Distributed.Valid, Distributed.Contents, TrieOk, Index.Valid,
           SameElsewhere, AddDeltas;
      trie.ApplyBatch(deltas);
    }

    /** A row for every searched query: the recency just computed, and the absolute count from the trie. */
    method NewRows(deltas: map<string, int>, recency: map<string, Candidate>, ghost grown: map<string, State>)
      returns (rows: Rows)
      requires PartsValid() && recency.Keys == deltas.Keys <= grown.Keys
      requires forall q | q in deltas :: recency[q] == RecencyRow(q, grown[q])
      ensures rows == BatchRows(View().counts, grown, deltas)
    {
      hide Distributed.Valid, Distributed.Contents, TrieOk, Trie.Linked, Trie.Named, Trie.CountMap, Trie.TopMap,
           Index.Valid;
      rows := map[];
      var rest := deltas.Keys;
      while rest != {}
        invariant rest <= deltas.Keys && rows.Keys == deltas.Keys - rest
        invariant forall q | q in rows ::
                    rows[q] == Candidate(q, CountOf(trie.CountMap(), q), grown[q].value, grown[q].ts)
      {
        var q :| q in rest;
        rest := rest - {q};
        var n := trie.Count(q);
        rows := rows[q := recency[q].(count := n)];
      }
    }

    /** Folds in the rows of earlier failures; this batch's rows win. */
    method FoldRetry(batch: Rows) returns (rows: Rows)
      requires PartsValid()
      ensures rows == View().retry + batch && View().retry.Keys <= rows.Keys
    {
      hide PartsValid, Trie.CountMap, Trie.TopMap, Distributed.Contents;
      rows := batch;
      var rest := retry.Keys;
      while rest != {}
        invariant rest <= retry.Keys && rows.Keys == batch.Keys + (retry.Keys - rest)
        invariant forall q | q in batch :: rows[q] == batch[q]
        invariant forall q | q in rows && q !in batch :: q in retry && rows[q] == retry[q]
      {
        var q :| q in rest;
        rest := rest - {q};
        if q !in rows {
          rows := rows[q := retry[q]];
        }
      }
    }

    /** Writes the rows; if that fails they are kept for the next flush. */
    method Persist(rows: Rows, outcome: Outcome)
      requires PartsValid() && View().retry.Keys <= rows.Keys
      modifies this`retry, store
      ensures PartsValid() && View() == old(View()).(store := View().store, retry := View().retry)
      ensures View().store == Written(old(View()).store, rows, outcome)
      ensures View().retry == if outcome == Committed then map[] else rows
      ensures outcome == Failed ==> View().store == old(View()).store
      ensures outcome != Failed ==> forall q | q in rows :: q in View().store && View().store[q] == rows[q]
    {
      hide PartsValid, View;
      var ok := WriteRows(rows, outcome);
      if !ok {
        KeepRows(rows);
      } else if |retry| > 0 {
        KeepRows(map[]);
      } else {
        NothingKept();
      }
    }

    method WriteRows(rows: Rows, outcome: Outcome) returns (ok: bool)
      requires PartsValid()
      modifies store
      ensures PartsValid() && View() == old(View()).(store := Written(old(View()).store, rows, outcome))
      ensures ok <==> rows == map[] || outcome == Committed
    {
      hide Trie.Valid, Trie.CountMap, Trie.TopMap, Distributed.Valid, Distributed.Contents, Index.Valid, Written;
      ok := store.PersistBatch(rows, outcome);
    }

    method KeepRows(rows: Rows)
      requires PartsValid()
      modifies this`retry
      ensures PartsValid() && View() == old(View()).(retry := rows)
    {
      hide Trie.Valid, Trie.CountMap, Trie.TopMap, Distributed.Valid, Distributed.Contents, Index.Valid;
      retry := rows;
    }

    lemma NothingKept()
      requires PartsValid() && |retry| == 0
      ensures View().retry == map[]
    {
    }

    /** Drops every cached prefix of every changed query, each once. */
    method InvalidatePrefixes(deltas: map<string, int>)
      requires PartsValid()
      modifies cache.nodes.Values
      ensures PartsValid() && ForgetStep(old(View()), View())
      ensures forall p | p in View().cache :: !Affected(p, deltas.Keys)
      ensures forall p | p in old(View()).cache && !Affected(p, deltas.Keys) ::
                p in View().cache && View().cache[p] == old(View()).cache[p]
    {
      hide PartsValid, View;
      ghost var w := View();
      var seen: set<string> := {};
      var rest := deltas.Keys;
      while rest != {}
        invariant PartsValid() && SameButCache(w, View()) && View().cache == w.cache - seen
        invariant forall p | p in seen :: Affected(p, deltas.Keys)
        invariant rest <= deltas.Keys && forall q, i | q in deltas && q !in rest && 1 <= i <= |q| :: q[..i] in seen
      {
        var q :| q in rest;
        rest := rest - {q};
        ghost var known := seen;
        for i := 1 to |q| + 1
          invariant PartsValid() && SameButCache(w, View()) && View().cache == w.cache - seen
          invariant forall p | p in seen :: Affected(p, deltas.Keys)
          invariant known <= seen && forall j | 1 <= j < i :: q[..j] in seen
        {
          var p := q[..i];
          if p in seen {
            continue;
          }
          AffectedBy(p, q, deltas.Keys);
          DropMore(w.cache, seen, p);
          seen := seen + {p};
          InvalidateOne(p);
        }
      }
      AllDropped(View().cache, w.cache, seen, deltas.Keys);
    }

    method InvalidateOne(p: string)
      requires PartsValid()
      modifies cache.nodes.Values
      ensures PartsValid() && SameButCache(old(View()), View())
      ensures View().cache == old(View()).cache - {p}
    {
      hide Trie.Valid, Trie.CountMap, Trie.TopMap, Distributed.Valid, Distributed.Contents, Distributed.View,
           Index.Valid, Params.Valid;
      cache.Invalidate(p);
    }
  }

  /** What a flush does in memory: recency first, then counts; the clock has not been recorded yet. */
  ghost predicate MemoryStep(cfg: Config, w: World, w': World, deltas: map<string, int>, now: nat)
    requires cfg.Valid()
  {
    && w' == w.(tracked := w'.tracked, counts := w'.counts, tops := w'.tops)
    && TopCut(cfg.p, Bumped(cfg.p, w.tracked, deltas, now), w'.tracked, cfg.cap)
    && w'.counts == AddDeltas(w.counts, deltas)
    && TrieOk(w'.counts, w'.tops, cfg.candidateN) && SameElsewhere(w.tops, w'.tops, Changed(deltas))
  }

  /** The parts of a flush, in their order, make up one step. */
  lemma PartsMakeApply(cfg: Config, w: World, w1: World, w2: World, w3: World,
                       deltas: map<string, int>, now: nat, outcome: Outcome, rows: Rows)
    requires cfg.Valid() && PositiveDeltas(deltas) && "" !in deltas && w.clock <= now
    requires MemoryStep(cfg, w, w1, deltas, now)
    requires rows == w1.retry + BatchRows(w1.counts, Bumped(cfg.p, w.tracked, deltas, now), deltas)
    requires w2 == w1.(store := w2.store, retry := w2.retry) && w2.store == Written(w1.store, rows, outcome)
    requires w2.retry == if outcome == Committed then map[] else rows
    requires ForgetStep(w2, w3) && forall p | p in w3.cache :: !Affected(p, deltas.Keys)
    ensures ApplyStep(cfg, w, w3.(clock := now), deltas, now, outcome) && w2.cache == w.cache
  {
  }

  /** Every searched query gains exactly its searches, and no other count moves. */
  lemma {:induction false} BatchCounted(cfg: Config, w: World, w': World, deltas: map<string, int>, now: nat,
                                        outcome: Outcome)
    requires cfg.Valid() && ApplyStep(cfg, w, w', deltas, now, outcome)
    ensures forall q | q in deltas ::
              q in w'.counts && w'.counts[q] == (if q in w.counts then w.counts[q] else 0) + deltas[q]
    ensures forall q | q !in deltas ::
              (q in w'.counts <==> q in w.counts) && (q in w'.counts ==> w'.counts[q] == w.counts[q])
  {
    ApplyCounts(cfg, w, w', deltas, now, outcome);
    AddDeltasMeans(w.counts, deltas);
    hide AddSome, TrieOk, SameElsewhere, TopCut, Bumped;
  }

  lemma AffectedBy(p: string, q: string, changed: set<string>)
    requires p != "" && q in changed && p <= q
    ensures Affected(p, changed)
  {
  }

  lemma DropMore(cache: map<string, Value>, seen: set<string>, p: string)
    ensures (cache - seen) - {p} == cache - (seen + {p})
  {
  }

  /** Once every non-empty prefix of every changed query has been dropped, no affected one is cached. */
  lemma {:induction false} AllDropped(cache: map<string, Value>, was: map<string, Value>, seen: set<string>,
                                      changed: set<string>)
    requires cache == was - seen
    requires forall q, i | q in changed && 1 <= i <= |q| :: q[..i] in seen
    ensures forall p | p in cache :: !Affected(p, changed)
  {
    forall p | p in cache ensures !Affected(p, changed) {
      forall q | q in changed && p <= q ensures p == "" {
        assert q[..|p|] == p;
      }
    }
  }

  /** A cache read, and after a miss a cache write, make up one step. */
  lemma {:induction false} ServingIsStep(w: World, w1: World, w2: World, p: string, val: Value, hit: bool)
    requires p != "" && ForgetStep(w, w1)
    requires hit ==> w2 == w1 && p in w.cache && val == w.cache[p]
    requires !hit ==> FreshSet(w1.counts, w1.tops, w1.tracked, p, val) && SameButCache(w1, w2)
                      && Submap(w2.cache, w1.cache[p := val])
    ensures SuggestStep(w, w2, p, val)
  {
    hide FreshSet;
  }

  /** A live hit is served as it is; after a miss a fresh set is served, and stored with its expiry. */
  ghost predicate ServedFrom(before: Shards, after: Shards, owner: string, caps: map<string, nat>, p: string,
                             readAt: int, expiresAt: int, val: Value, isFresh: bool)
    requires before.Keys == caps.Keys
  {
    var hit, read := ShardVisible(before, owner, p, readAt), ShardStep(before, owner, GetOp(p, readAt), caps);
    if hit.Some? then val == hit.value && after == read
    else isFresh && after == ShardStep(read, owner, SetOp(p, val, expiresAt), caps)
  }

  lemma CoveringIsCollected(counts: Counts, tops: Tops, tracked: map<string, State>, p: string, val: Value)
    requires Covers(counts, tops, tracked, p, val)
    ensures Collected(val, counts, p)
  {
  }

  lemma WorldStored(cfg: Config, w: World)
    requires cfg.Valid() && Inv(cfg, w)
    ensures w.tracked.Keys <= w.counts.Keys
  {
  }

  // ----- Building a candidate set -----

  lemma UnionIsFresh(counts: Counts, tops: Tops, tracked: map<string, State>, p: string,
                     top: seq<Candidate>, qs: seq<string>, val: Value)
    requires Collected(val, counts, p) && Names(val) == Names(top) + set q | q in qs
    requires top == if p in tops then tops[p] else []
    requires forall q :: q in qs <==> q in tracked && p <= q
    ensures FreshSet(counts, tops, tracked, p, val)
  {
  }

  /** Entries name stored queries below p with their counts. */
  ghost predicate SeenOk(seen: Rows, counts: Counts, p: string) {
    forall q | q in seen :: seen[q].query == q && q in counts && p <= q && seen[q].count == counts[q]
  }

  /** candidateN is the length bound of the trie's lists, so TopK returns the whole list. */
  lemma ServedWhole(counts: Counts, tops: Tops, n: nat, p: string, top: seq<Candidate>)
    requires TrieOk(counts, tops, n) && p != ""
    requires top == if p in tops then FirstOf(tops[p], n) else []
    ensures top == if p in tops then tops[p] else []
    ensures forall c | c in top :: c.query in counts && p <= c.query && counts[c.query] == c.count
  {
  }

  method Seen(top: seq<Candidate>, ghost counts: Counts, ghost p: string) returns (seen: Rows)
    requires forall c | c in top :: c.query in counts && p <= c.query && counts[c.query] == c.count
    ensures SeenOk(seen, counts, p) && seen.Keys == Names(top)
  {
    seen := map[];
    for i := 0 to |top|
      invariant SeenOk(seen, counts, p) && seen.Keys == Names(top[..i])
    {
      assert top[i] in top;
      NamesGrow(top, i);
      seen := seen[top[i].query := top[i]];
    }
    assert top[..|top|] == top;
  }

  lemma NamesGrow(top: seq<Candidate>, i: nat)
    requires i < |top|
    ensures Names(top[..i + 1]) == Names(top[..i]) + {top[i].query}
  {
  }

  /** Lists a map's entries in whatever order the map is walked. */
  method Listing(seen: Rows, ghost counts: Counts, ghost p: string) returns (out: Value)
    requires SeenOk(seen, counts, p)
    ensures Collected(out, counts, p) && Names(out) == seen.Keys
  {
    out := [];
    var rest := seen.Keys;
    while rest != {}
      invariant rest <= seen.Keys && Names(out) == seen.Keys - rest
      invariant Collected(out, counts, p)
    {
      var q :| q in rest;
      rest := rest - {q};
      CollectOne(out, counts, p, seen[q]);
      out := out + [seen[q]];
    }
  }

  lemma CollectOne(val: Value, counts: Counts, p: string, c: Candidate)
    requires Collected(val, counts, p) && c.query !in Names(val)
    requires c.query in counts && p <= c.query && counts[c.query] == c.count
    ensures Collected(val + [c], counts, p) && Names(val + [c]) == Names(val) + {c.query}
  {
  }

  // ----- Start-up -----

  /**
    Builds the engine from the store: every row is inserted into the trie and, if it carries recency, seeded
    into the trending index, in whatever order the rows come; then the trie's lists are computed.
   */
  method StartUp(store: Store, cache: Distributed, p: Params, trendingCap: int, topK: nat, candidateN: nat,
                 defaultMode: string, ghost clock: nat) returns (e: Engine)
    requires p.Valid() && topK <= candidateN && candidateN >= 1
    requires cache.Valid() && cache.Contents() == map[]
    requires GoodRows(store.rows) && StampedBy(RecentOf(store.rows), clock)
    ensures fresh(e) && e.Valid() && Boot(e.Cfg(), e.View())
    ensures e.store == store && e.cache == cache && e.View().store == store.rows && e.View().clock == clock
    ensures e.Cfg() == Config(p, topK, candidateN, if trendingCap < 1 then 200 else trendingCap)
    ensures e.defaultMode == if defaultMode == "count" then "count" else "recency"
  {
    hide Trie.Built, Trie.CountMap, Trie.TopMap, Distributed.Valid, Distributed.Contents, TopCut, GoodRows,
         StampedBy, TrieOk;
    var trie, trend := Load(store.rows, p, trendingCap, candidateN);
    e := new Engine(trie, cache, store, trend, topK, candidateN, defaultMode, clock);
    BootInv(e.Cfg(), e.View());
  }

  /** The loading loop, and Finalize. */
  method Load(rows: Rows, p: Params, trendingCap: int, candidateN: nat) returns (trie: Trie, trend: Index)
    requires p.Valid() && candidateN >= 1 && GoodRows(rows)
    ensures fresh(trie) && fresh(trend) && fresh(trie.nodes.Values)
    ensures trie.Valid() && trie.k == candidateN && trie.CountMap() == CountsOf(rows)
    ensures Rebuilt(trie.CountMap(), trie.TopMap(), candidateN)
    ensures trend.Valid() && trend.p == p && trend.cap == if trendingCap < 1 then 200 else trendingCap
    ensures TopCut(p, RecentOf(rows), trend.items, trend.cap)
  {
    hide Trie.Built, Trie.Valid, Trie.CountMap, Trie.TopMap, TopCut, TrieOk, Index.Valid, CountsOf, RecentOf;
    trend := new Index(p, trendingCap);
    trie := new Trie(candidateN);
    ValidIsBuilt(trie);
    NothingLoaded(p, trend.cap);
    LoadRows(rows, trie, trend);
    trie.Finalize();
  }

  method LoadRows(rows: Rows, trie: Trie, trend: Index)
    requires trie.Built() && trie.CountMap() == map[] && trend.Valid() && trend.items == map[] && GoodRows(rows)
    modifies trie`nodes, trie.nodes.Values, trend
    ensures fresh(trie.nodes.Values - old(trie.nodes.Values))
    ensures trie.Built() && trie.CountMap() == CountsOf(rows)
    ensures trend.Valid() && TopCut(trend.p, RecentOf(rows), trend.items, trend.cap)
  {
    hide Trie.Built, Trie.CountMap, Trie.TopMap, TopCut, CountsOf, RecentOf;
    NothingLoaded(trend.p, trend.cap);
    var rest := rows.Keys;
    assert rows - rest == map[];
    while rest != {}
      invariant rest <= rows.Keys
      invariant fresh(trie.nodes.Values - old(trie.nodes.Values)) && trie.Built()
                && trie.CountMap() == CountsOf(rows - rest)
      invariant trend.Valid() && TopCut(trend.p, RecentOf(rows - rest), trend.items, trend.cap)
    {
      var q :| q in rest;
      LoadRow(trie, trend, rows[q], rows - rest);
      OneMoreRow(rows, rest, q);
      rest := rest - {q};
    }
    assert rows - rest == rows;
  }

  method LoadRow(trie: Trie, trend: Index, row: Candidate, ghost done: Rows)
    requires trie.Built() && trie.CountMap() == CountsOf(done) && row.count > 0 && row.query !in done
    requires trend.Valid() && TopCut(trend.p, RecentOf(done), trend.items, trend.cap)
    modifies trie`nodes, trie.nodes.Values, trend
    ensures fresh(trie.nodes.Values - old(trie.nodes.Values))
    ensures trie.Built() && trie.CountMap() == CountsOf(done[row.query := row])
    ensures trend.Valid() && TopCut(trend.p, RecentOf(done[row.query := row]), trend.items, trend.cap)
  {
    hide Trie.Built, Trie.CountMap, Trie.TopMap, TopCut, Params.Valid, Index.Valid;
    trie.Insert(row.query, row.count);
    assert CountsOf(done[row.query := row]) == CountsOf(done)[row.query := row.count];
    if row.recentValue > 0.0 {
      ghost var items := trend.items;
      trend.Seed(row.query, row.recentValue, row.recentTs);
      SeedAbsorbed(trend.p, done, row, items, trend.items, trend.cap);
    } else {
      RecentGrows(done, row);
    }
  }

  lemma ValidIsBuilt(trie: Trie)
    requires trie.Valid()
    ensures trie.Built()
  {
  }

  lemma NothingLoaded(p: Params, cap: nat)
    requires p.Valid()
    ensures forall rows: Rows :: rows == map[] ==> CountsOf(rows) == map[] && RecentOf(rows) == map[]
    ensures TopCut(p, map[], map[], cap)
  {
  }

  lemma OneMoreRow(rows: Rows, rest: set<string>, q: string)
    requires q in rest && rest <= rows.Keys && rows[q].query == q
    ensures (rows - rest)[q := rows[q]] == rows - (rest - {q})
  {
  }

  /** Seeding a row nobody has seeded yet keeps the index a cut of all rows seeded so far. */
  lemma {:induction false} SeedAbsorbed(p: Params, done: Rows, row: Candidate, items: map<string, State>,
                                        items': map<string, State>, cap: nat)
    requires p.Valid() && row.query !in done && row.recentValue > 0.0
    requires TopCut(p, RecentOf(done), items, cap)
    requires TopCut(p, items[row.query := State(row.recentValue, row.recentTs)], items', cap)
    ensures TopCut(p, RecentOf(done[row.query := row]), items', cap)
  {
    var s := State(row.recentValue, row.recentTs);
    NewKeyRaises(p, RecentOf(done), items, row.query, s, cap);
    RecentGrows(done, row);
    hide TopCut, KeyOf, RecentOf;
    Absorb(p, RecentOf(done), items, items[row.query := s], items', cap);
    SameUnion(RecentOf(done), items, row.query, s);
  }

  lemma RecentGrows(done: Rows, row: Candidate)
    ensures row.recentValue > 0.0 ==>
              RecentOf(done[row.query := row]) == RecentOf(done)[row.query := State(row.recentValue, row.recentTs)]
    ensures row.query !in done && row.recentValue <= 0.0 ==> RecentOf(done[row.query := row]) == RecentOf(done)
  {
  }

  lemma SameUnion(all: map<string, State>, items: map<string, State>, q: string, s: State)
    requires forall t | t in items :: t in all && items[t] == all[t]
    ensures all + items[q := s] == all[q := s]
  {
  }

  lemma NewKeyRaises(p: Params, all: map<string, State>, items: map<string, State>, q: string,
                     s: State, cap: nat)
    requires p.Valid() && q !in all && TopCut(p, all, items, cap)
    ensures Raises(p, items, items[q := s]) && q !in items
    ensures forall t | t in items :: t in all && items[t] == all[t]
  {
  }
}
