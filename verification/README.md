# Search typeahead: a verified model of the serving and write path

The backend answers a prefix with the best stored queries that extend it and learns from every search. To do
so quickly it keeps several structures that must agree: a trie with a precomputed top-k at every node, a capped
index of recently searched queries, a cache of candidate sets spread over nodes by consistent hashing, a
batching queue in front of all writes, and a durable store written with retries. This project models that path
in Dafny and proves that the fast structures agree with simple specifications in every run.

## How it is laid out

| file | what it holds |
|---|---|
| `Model`, `Sets`, `Ordering` | shared values, set sizes, lexicographic order, insertion sort and its uniqueness |
| `TopLists`, `TopUpdates` | what a top-k list is, when it is unique, when part of a board is enough, upserting into it |
| `Ranking`, `Recency`, `Trending` | decay and keys, capped sets of recency states over whole histories, the trending index |
| `TrieSpec`, `TrieIndex` | the meaning of the per-node lists, and the trie as linked heap nodes |
| `HashRing`, `LruCache`, `ShardedCache` | the ring, one LRU and TTL node, and the cache routed over both |
| `Persistence`, `EngineModel`, `Engine` | the store, the engine as a state machine over values, the engine object |
| `BatchSteps`, `BatchWriter`, `EndToEnd` | the batch writer as a step system, the writer object, writer and engine together |
| `Staleness` | reads and flushes interleaved at the grain of single locked sections |

Objects that the backend updates in place are classes (`Trie` and its nodes, `Index`, `Ring`, `Memory`,
`Distributed`, `Store`, `Engine`, `Writer`). Each method is proved against a function of the old state; the
theorems are about those functions and about runs of state machines whose steps the methods take.

## Main results

* **Suggest is a true top-K.** In every world of every run of batches, evictions, expiries and write failures, for
  any non-empty prefix and either mode, served cached or cold, the returned scores are the first topK of the
  descending scores of all stored queries with the prefix (`EngineModel.SuggestIsTopK`; `Engine.Engine.Suggest`
  for the object, which also spells out each score shown and what is left out). The cached set is only known to cover the fresh one, because eviction from the trending index
  invalidates nothing.
* **The trie keeps a top-k at every non-root node**, built in bulk or grown batch by batch. The bulk build gives the
  best k with ties broken by query; a grown list is the same, whatever its history, if and only if no tie crosses the cut.
* **Store, retry rows, trie and trending index agree** under arbitrary write failures; a restart in any row order
  gives the same counts and the same tracked set up to equal keys at the cut.
* **Eviction is right for all later times**, and tracked recency is bounded by an exact model, with equality
  exactly for queries that were never evicted.
* **The ring depends only on the set of nodes**, for any hash, with exactly one entry per node and index, at the hash
  of the node's name, "#" and the index in decimal; keys move only to a new node or away from a removed one.
* **The cache is one map**: a hit is the latest value set and not invalidated, and an entry untouched for fewer than
  maxKeys other keys is still there, exactly.
* **No search is lost or doubled** in any interleaving of the writer; the unflushed tail is bounded; the drain ends.
* **A stale entry needs a race**: a necessary condition is stated for every interleaving, the race is shown to happen, and
  nothing is served past its time to live.

Some promises hold only under a condition. Each has its exact condition where one is known, and inputs that fail it:

* A list in the trie equals a rebuilt one, whatever its history, if and only if no tie crosses the k-th place
  (`TrieSpec.GrownIsRebuilt`). With such a tie it does depend on the history: the query that a rebuild lists last, arriving
  last, stays out (`TrieSpec.LastToArrive`, for every prefix and k; `TrieSpec.TieAcrossTheCut` is an instance). The column
  of counts always agrees.
* A search raises a positive key if and only if the clock has not gone back behind its stamp, or the search outweighs what
  the value would have gained in between (`Ranking.BumpRaisesExactly`; `Ranking.BackwardClockLowersKey` is a failing input).
* Debug and Get disagree exactly when the ring is empty and Get would hit, which takes a node registered under the empty
  name (`ShardedCache.Distributed.Debug`, `ShardedCache.DebugBlindOnEmptyRing`).
* The drain does not flush by size. The unflushed tail of a shutdown exceeds bufCap + batchSize if and only if the final
  batch is not applied yet and what was unflushed when quit was seen, with the searches accepted since, exceeds it
  (`BatchSteps.TailOverrunsExactly`). One such search never suffices; two can, under any limits (`BatchSteps.TailOverrun`).
* Stop returns with a search unapplied if and only if one was accepted after the drain had seen the queue empty
  (`BatchSteps.StopIsExact`). The server calls Stop after a shutdown with a five second limit, so a handler that outlasts it
  can cause this, and the overrun.
* `upserts` is at most `received` once every caller is back; before that, under any limits, it can be ahead
  (`BatchSteps.UpsertsBeforeReceived`).
* A cold read that straddles a flush can cache an outdated set after the invalidation (`Staleness.RaceLeavesStale`). An
  entry that lost this race may still be right, so the race is necessary for a stale entry and not sufficient.

## Modelling decisions

* Queries are sequences of characters, already normalized; on them `<=` is Dafny's prefix order and `<` its proper
  part, while `LexLess` is the lexicographic order. Counts are unbounded integers, recency values reals.
* Timestamps are whole seconds, so decay is a power of a ratio between 0 and 1. The eviction key is the value
  scaled back to time zero; the backend's `Key` is its logarithm, so the order is the same. `log(1 + count)` is an
  arbitrary monotone function, and the hash of the ring is an arbitrary function.
* Go's map iteration order is arbitrary: every such loop picks keys with `:|`, and the contracts hold for every choice.
* `sort.Slice` is insertion sort; by `Ordering.SortedUnique` every correct sort gives the same list. `sort.Search` is
  written out as a binary search.
* Locked sections are atomic steps. In `EngineModel` a whole suggestion or flush is one step; `Staleness` splits both.
* The clock, the outcome of a transaction and the scheduler are parameters or existentials of the steps.
* The comment at `backend/internal/store/store.go:146-148` says that a failed flush needs no retry. The engine does
  retry (`backend/internal/engine/engine.go:164-183`), and the model follows the engine.
* Assumptions, written as `requires` or as `Valid`: stored counts and deltas are positive, queries non-empty, alpha is
  not negative, the weight positive, topK at most candidateN, which is the trie's k, and the clock does not run backwards.

## Model

| member | source | states |
|---|---|---|
| EngineModel.SuggestIsTopK | backend/internal/engine/engine.go:66-140 | in every run, for any non-empty prefix, mode and time, cached or cold: the scores are the first topK of the descending scores of all stored queries below the prefix; without a tie at the cut, the entries are too; every entry is a stored query with its own score, in order, and no query left out scores higher |
| EngineModel.SuggestShows | backend/internal/engine/engine.go:112-140 | in every run each entry served is a stored query below the prefix with its count, or its count score plus alpha times its stored recency decayed to now, 0 if untracked |
| EngineModel.RankIsTop | backend/internal/engine/engine.go:112-140 | re-ranking any covering candidate set, in either mode, gives a top-K over all stored queries below the prefix |
| EngineModel.RankShows | backend/internal/engine/engine.go:112-140 | re-ranking shows for each candidate its own count or score, in strictly descending order of score, then query |
| EngineModel.RankShowsBest | backend/internal/engine/engine.go:125-140 | a re-ranked covering set has at most topK entries, and exactly topK, none scoring lower, if any stored query below the prefix is left out |
| EngineModel.UntrackedScoresLow | backend/internal/ranking/ranking.go:46-50 | a query that is not tracked scores no more than any query with at least its count, in both modes |
| EngineModel.MissedIsDominated | backend/internal/engine/engine.go:90-108 | a stored query that a covering set misses is matched by topK candidates that score no less |
| EngineModel.TrendingIsTopK | backend/internal/engine/engine.go:69-71 | the empty prefix shows the scores of a top-k over every recency state ever persisted, not only the tracked ones: each entry its stored value decayed to now, and nothing left out is worth more |
| EngineModel.RunInv | backend/internal/engine/engine.go:66-202 | every world of every run satisfies the trie, durability and coverage invariants |
| EngineModel.StepKeeps | backend/internal/engine/engine.go:66-202 | each step keeps the invariant |
| EngineModel.SuggestKeeps | backend/internal/engine/engine.go:75-80 | serving keeps the invariant, and the candidates served cover the prefix |
| EngineModel.ForgetKeeps | backend/internal/cache/memory.go:52-55 | entries may expire or be evicted at any time without breaking the invariant |
| EngineModel.ApplyKeeps | backend/internal/engine/engine.go:159-202 | given that the trie's lists are top-k lists again, a flush keeps coverage and durability whatever the transaction does and whatever the trending index evicts |
| EngineModel.ApplyCoverage | backend/internal/engine/engine.go:187-202 | an entry that survives the invalidation of a flush still covers its prefix |
| EngineModel.ApplyElsewhere | backend/internal/engine/engine.go:187-202 | a batch none of whose queries extends p leaves the stored queries below p, their counts and the list as they were, and tracks no new query below p |
| EngineModel.ApplyDurable | backend/internal/engine/engine.go:159-185 | a flush keeps store, retry rows, counts and recency in agreement under every outcome |
| EngineModel.PersistMerges | backend/internal/engine/engine.go:164-183 | store overridden by retry rows is the old merge overridden by the batch, whatever the transaction did |
| EngineModel.BatchRecency | backend/internal/engine/engine.go:167-172 | the recency states of the latest rows are the old ones overridden by the bumped index |
| EngineModel.RecencyAfterApply | backend/internal/engine/engine.go:159-185 | after a flush the tracked set is again a cut, by highest key, of all persisted recency states |
| EngineModel.StoreAgrees | backend/internal/engine/engine.go:159-185 | in every run: a query's count is in its retry row if it has one, else in the store; tracked recency likewise; the store never runs ahead |
| EngineModel.SuccessHeals | backend/internal/engine/engine.go:178-183 | one committed flush makes store and trie agree on every query, and the tracked set a cut of the store |
| EngineModel.FlushWrites | backend/internal/engine/engine.go:164-183 | a failed transaction leaves the store as it was; any other stores the new count of each searched query and leaves alone what was neither searched nor waiting; rows wait unless committed |
| EngineModel.RestartAfterFailure | backend/internal/store/store.go:149-181 | a restart after a failed flush shows the counts the store held before it: the counts before the flush, if nothing was waiting |
| EngineModel.RestartCounts | backend/cmd/server/main.go:55-64 | a restart with nothing pending shows the same counts, and at every prefix the same column of counts |
| EngineModel.RestartLists | backend/cmd/server/main.go:55-64 | every restart from a store shows the best k at every non-empty prefix, ties broken by query; the live list was the same if no tie crosses the cut |
| EngineModel.RestartTracked | backend/cmd/server/main.go:55-64 | it tracks equally many queries, and every query above the lowest key with the same value and stamp, whatever the row order |
| EngineModel.RestartTrending | backend/cmd/server/main.go:55-64 | it shows the same trending scores at every later time for every k up to the cap |
| EngineModel.RestartNeverAhead | backend/cmd/server/main.go:55-64 | a restart at any moment, with failed rows or not, is never ahead of the live counts |
| EngineModel.BootInv | backend/cmd/server/main.go:50-64 | the state built at start-up satisfies the invariant |
| Engine.Engine.Suggest | backend/internal/engine/engine.go:66-88 | the empty prefix shows tracked queries with their stored value decayed to now; mode "count" shows stored counts; mode "recency" shows countScore(count) + alpha * decayed recency, 0 if untracked; "" follows the default mode; scores descend, ties by query, a query before its extensions; nothing left out scores higher, and something is left out only when topK are listed; cached or cold; only the cache changes |
| Engine.Engine.Lookup | backend/internal/engine/engine.go:75-80 | a live hit is served as held and moved up; after a miss a fresh set is served and stored on the owner with the ttl; either covers the prefix |
| Engine.Engine.Candidates | backend/internal/engine/engine.go:93-108 | the trie's whole list for the prefix united with the tracked queries below it, each once and with its count, in any order |
| Engine.Engine.Rank | backend/internal/engine/engine.go:112-140 | scores each candidate by its count or by countScore(count) + alpha * decayed recency at one time, sorts by score then query, keeps topK |
| Engine.Engine.ApplyBatch | backend/internal/engine/engine.go:159-185 | is one flush step of the state machine and keeps the engine valid, for any transaction outcome: each searched query gains exactly its searches and no other count moves; a failed transaction leaves the store as it was, any other puts in the new counts; only entries for prefixes of searched queries leave the cache |
| Engine.Engine.UpdateMemory | backend/internal/engine/engine.go:161-177 | recency and counts are updated, and the rows to write are the retry rows overridden by the batch's absolute rows |
| Engine.Engine.NewRows | backend/internal/engine/engine.go:167-172 | one row per searched query: the recency just computed with the absolute count |
| Engine.Engine.FoldRetry | backend/internal/engine/engine.go:173-177 | earlier failures are folded in and never override the batch |
| Engine.Engine.Persist | backend/internal/engine/engine.go:178-183 | a failed transaction leaves the store as it was; a failed write keeps all rows for the next flush, a committed one clears them |
| Engine.Engine.InvalidatePrefixes | backend/internal/engine/engine.go:189-202 | afterwards no non-empty prefix of a changed query is cached, every other entry is kept, and nothing else was changed |
| Engine.Engine.constructor | backend/internal/engine/engine.go:47-57 | an unknown default mode becomes recency; nothing is pending; fit to serve if topK is at most candidateN, the trie's k |
| Engine.StartUp | backend/cmd/server/main.go:50-100 | the engine built from the store, in any row order, is a boot state with the invariant |
| Engine.Load | backend/cmd/server/main.go:55-64 | after loading, the trie holds every stored count and at every node the best k, and the trending index a cut of the stored recency |
| Engine.LoadRow | backend/cmd/server/main.go:56-61 | one row is inserted, and seeded only if it carries recency |
| Engine.SeedAbsorbed | backend/cmd/server/main.go:56-61 | seeding row by row keeps the index a cut of all rows seeded so far |
| TrieIndex.Trie.ApplyBatch | backend/internal/trie/trie.go:84-110 | each searched query gains exactly its delta, no other count moves, the empty query and zero deltas are skipped; every non-root list is again a top-k, lists off the changed paths are untouched, in any order of the batch |
| TrieIndex.Trie.Raise | backend/internal/trie/trie.go:88-109 | one query's part of a batch, with the same guarantees |
| TrieIndex.Trie.UpsertPath | backend/internal/trie/trie.go:106-108 | upserting a risen query into each node on its path restores the trie invariant |
| TrieIndex.Trie.EnsurePath | backend/internal/trie/trie.go:92-101 | missing nodes are made with empty lists and the tree stays well linked |
| TrieIndex.Trie.Insert | backend/internal/trie/trie.go:43-55 | the query has the given count, every other count is as before |
| TrieIndex.Trie.Finalize | backend/internal/trie/trie.go:61-79 | afterwards every node lists the best k of the queries below it, ties broken by query: at equal counts a query stands before its extensions, and none is left out for one of them; for any order of children; counts are unchanged |
| TrieIndex.Trie.Dfs | backend/internal/trie/trie.go:64-77 | below the visited node every list is the best k, ties broken by query, elsewhere nothing changes |
| TrieIndex.Trie.TopK | backend/internal/trie/trie.go:114-131 | the first k of the node's list, or nothing without a node |
| TrieIndex.Trie.Count | backend/internal/trie/trie.go:134-145 | the query's count, 0 if it is not stored |
| TrieIndex.Trie.Walk | backend/internal/trie/trie.go:117-123 | finds the node of a prefix exactly when there is one |
| TrieIndex.Trie.constructor | backend/internal/trie/trie.go:34-39 | an empty valid trie; k below 1 becomes 10 |
| TrieIndex.Node.UpsertTop | backend/internal/trie/trie.go:148-165 | the list becomes the upserted list: raised in place, appended while short, or replacing the last only on a strictly larger count |
| TrieSpec.UpsertOnPath | backend/internal/trie/trie.go:148-165 | the upserted list is a top-k of the grown counts |
| TrieSpec.MergedTop | backend/internal/trie/trie.go:56-79 | sorting a node's own entry with its children's best k and keeping k gives the node's best k, ties broken by query, in whatever order they were collected |
| TrieSpec.TopForExact | backend/internal/trie/trie.go:22-27 | a top-k list holds min(k, number of queries below) distinct stored queries with their exact counts |
| TrieSpec.FirstOfTopFor | backend/internal/trie/trie.go:126-130 | the first n of a node's list are a top-min(n, k) of the queries below it |
| TrieSpec.ListAtIsTop | backend/internal/trie/trie.go:114-131 | what a lookup of any non-empty prefix finds, node or not, is a top-k of the stored queries below it |
| TrieSpec.IncrementalEqualsRebuild | backend/internal/trie/trie.go:43-110 | two tries with the same counts show the same column of counts at every non-empty prefix; a list there is shared by all such tries if and only if no tie crosses its cut |
| TrieSpec.GrownIsRebuilt | backend/internal/trie/trie.go:43-110 | every trie with these counts shows the rebuilt list at a non-empty prefix if and only if no tie crosses the k-th place of the rebuilt list |
| TrieSpec.LastToArrive | backend/internal/trie/trie.go:148-165 | for every prefix and k: the query a rebuild lists last, arriving last with its whole count, brings about the rebuilt list if and only if no tie crosses the k-th place |
| TrieSpec.RebuiltIsOk | backend/internal/trie/trie.go:56-79 | lists of the best k satisfy the trie invariant |
| TrieSpec.TieAcrossTheCut | backend/internal/trie/trie.go:160-163 | an instance of a tie: with one place, the query stored first keeps it, while a rebuild lists the lexicographically smaller one |
| TrieSpec.SortCommutes | backend/internal/trie/trie.go:169-176 | sorting candidates by count descending, query ascending is sorting their ranked images |
| TrieSpec.BestIsTieBroken | backend/internal/trie/trie.go:169-176 | in a finished list counts descend, at equal counts a query stands before its own extensions, and it is never left out while one of them is listed |
| TopUpdates.UpsertKeepsTop | backend/internal/trie/trie.go:148-165 | upserting a query whose score rose keeps a top-k list a top-k of the updated board |
| TopUpdates.ReplaceLast | backend/internal/trie/trie.go:160-163 | replacing the last entry by a strictly better newcomer gives a top-k |
| TopUpdates.LeaveOut | backend/internal/trie/trie.go:160-163 | leaving out a newcomer no better than the last entry gives a top-k |
| TopUpdates.TopOfTop | backend/internal/trie/trie.go:126-130 | the first n of a top-k list are a top-min(n, k) list |
| TopUpdates.LateArrival | backend/internal/trie/trie.go:148-165 | upserting the last of the best k into the best k of the rest gives the best k if and only if no tie crosses the cut |
| TopLists.TopIsFirstScores | backend/internal/engine/engine.go:125-139 | the scores of any top-k list are the first k of the full ranking's scores |
| TopLists.TopIsFirstEntries | backend/internal/engine/engine.go:125-139 | without a tie at the cut the list is the head of the full ranking |
| TopLists.TopColumnUnique | backend/internal/trie/trie.go:169-176 | any two top-k lists of a board show the same scores |
| TopLists.TopUnique | backend/internal/trie/trie.go:169-176 | without a tie at the cut they are the same list |
| TopLists.UniqueExactlyIfClean | backend/internal/trie/trie.go:169-176 | a top-k list is the only one if and only if no tie crosses the cut |
| TopLists.LeadsIsBest | backend/internal/trie/trie.go:167-176 | a top-k list whose entries precede everything left out, ties included, is the head of the full ranking |
| TopLists.BestPrefixesFirst | backend/internal/trie/trie.go:169-176 | among the best k, a query with the same score as one of its extensions stands first, and is listed if the extension is |
| TopLists.CoverBest | backend/internal/trie/trie.go:56-79 | ranking a part of a board gives the best k of the whole if every entry left out is preceded by k entries of the part |
| TopLists.TopLength | backend/internal/engine/engine.go:131-134 | a top-k list has min(k, size of the board) entries |
| TopLists.CoverTop | backend/internal/engine/engine.go:90-108 | ranking a part of a board gives a top-k of the whole if every entry left out is matched by k entries of the part |
| TopLists.FullUnique | backend/internal/engine/engine.go:125-130 | a board has one full ranking |
| Ordering.SortSorts | backend/internal/engine/engine.go:125-130 | the sort orders strictly and keeps the members |
| Ordering.LexMeans | backend/internal/trie/trie.go:174 | a string is smaller than another if and only if it is a proper prefix of it, or the first position at which they differ has the smaller character |
| Ordering.SortedUnique | backend/internal/engine/engine.go:125-130 | a strict order has one sorted list of given members, so any correct sort gives it |
| Ordering.SortOrderIrrelevant | backend/internal/engine/engine.go:103-107 | the order in which a map was walked does not change the sorted result |
| Ranking.KeyOrderIsEffectiveOrder | backend/internal/ranking/ranking.go:52-60 | key order is the order of effective values at every time from both stamps on |
| Ranking.BumpAddsToKey | backend/internal/ranking/ranking.go:40-44 | a search adds the key of its own weight to the query's key |
| Ranking.BumpRaisesKey | backend/internal/ranking/ranking.go:52-60 | a search strictly raises the key if the clock has not run backwards |
| Ranking.BumpRaisesExactly | backend/internal/ranking/ranking.go:40-60 | for any clock: a search raises the key if and only if the value is not positive, or the clock is not behind the stamp, or the search's weight exceeds the growth of the value over the skew |
| Ranking.BackwardClockLowersKey | backend/internal/ranking/ranking.go:34-37 | an input for which a clock that ran backwards lowers the key |
| Ranking.DecayInLegs | backend/internal/ranking/ranking.go:28-38 | decaying to a time in between and on is decaying once |
| Ranking.EffectiveNonNegative | backend/internal/ranking/ranking.go:29-38 | an effective value is never negative, and positive for a positive value |
| Ranking.DecaysEachSecond | backend/internal/ranking/ranking.go:28-38 | an effective value is 0 for a value that is not positive, the value itself up to its stamp, and from then on loses one factor of decay each second |
| Ranking.PowOne | backend/internal/ranking/ranking.go:37 | one second decays once |
| Ranking.ScoreMonotone | backend/internal/ranking/ranking.go:46-50 | a higher count and more recency never score lower |
| Ranking.ScoreStrict | backend/internal/ranking/ranking.go:46-50 | at equal counts and with a positive alpha, more recency scores strictly higher |
| Recency.DroppedNeverWorthMore | backend/internal/trending/trending.go:117-128 | at every time from all stamps on, a dropped entry is worth no more than any kept one |
| Recency.TopOfKeptIsTopOfAll | backend/internal/trending/trending.go:90-128 | up to the cap, the best kept entries are a top-k of everything that was ever there: min(k, all) of them with their decayed values, and nothing left out is worth more |
| Recency.BestByEffective | backend/internal/trending/trending.go:90-115 | the best k by effective value are min(k, number of states) states with their value decayed from stamp to now, descending, ties by query, and none left out is worth more |
| Recency.Absorb | backend/internal/trending/trending.go:51-63 | evicting again after keys rose gives a cut of everything seen so far, evicted queries searched again included |
| Recency.CutsAgreeAboveTheCut | backend/internal/trending/trending.go:117-128 | two cuts of the same states agree on every entry above the lowest key |
| Recency.CutsSameSize | backend/internal/trending/trending.go:117-128 | two cuts of the same states keep equally many |
| Recency.BumpedRaises | backend/internal/trending/trending.go:55-60 | a batch loses no entry, lowers no key and stamps what it touches |
| Recency.BoundedRecency | backend/internal/trending/trending.go:51-74 | over any history the live value is at most the seeded value and each search's weight decayed on their own, with equality if and only if the query was never evicted |
| Trending.Index.Update | backend/internal/trending/trending.go:51-63 | each row returned is the value decayed to now plus the weight of the searches, stamped now; tracked states are those rows or as before; as many stay as the cap allows, those with the highest keys |
| Trending.Index.Seed | backend/internal/trending/trending.go:43-48 | the row is added, then the index is cut to the cap by key |
| Trending.Index.Evict | backend/internal/trending/trending.go:118-128 | terminates with at most cap entries, and everything dropped has a key no higher than everything kept |
| Trending.Index.LowestKey | backend/internal/trending/trending.go:120-125 | the entry with the lowest key, in whatever order the map is walked |
| Trending.Index.MatchingPrefix | backend/internal/trending/trending.go:77-87 | exactly the tracked queries below the prefix, each once |
| Trending.Index.Top | backend/internal/trending/trending.go:90-115 | min(k, tracked) tracked queries, each with its stored value decayed from its stamp to now, in descending order, ties by query; no tracked query left out is worth more |
| Trending.Index.constructor | backend/internal/trending/trending.go:35-40 | an empty index; a cap below 1 becomes 200 |
| HashRing.RunCanonical | backend/internal/hashring/ring.go:51-93 | after any Adds and Removes the array is strictly sorted by position, node, index and holds exactly one entry for each present node and index below perNode, at the hash of name, "#" and the index in decimal, and nothing else |
| HashRing.CanonicalIsLaid | backend/internal/hashring/ring.go:51-63 | a canonical ring has exactly one entry for each present node and index below perNode, at the hash of name, "#" and a decimal numeral of the index |
| HashRing.ItoaIsNumeral | backend/internal/hashring/ring.go:59 | the conversion yields digits only, with the value of the index and no leading zero |
| HashRing.NumeralUnique | backend/internal/hashring/ring.go:59 | a number has one decimal numeral |
| HashRing.LabelsDiffer | backend/internal/hashring/ring.go:59 | different indices of a node have different labels |
| HashRing.RunsAgree | backend/internal/hashring/ring.go:51-93 | the array depends only on the set of present nodes, for any hash, colliding or not |
| HashRing.CanonicalShares | backend/internal/hashring/ring.go:59-61 | each present node has exactly perNode entries, an absent one none |
| HashRing.AddThenRemoveRestores | backend/internal/hashring/ring.go:51-80 | adding an absent node and removing it restores the array |
| HashRing.MovesOnlyToNewNodes | backend/internal/hashring/ring.go:51-63 | when nodes are added, a key keeps its owner or moves to a new node |
| HashRing.MovesWhenCloser | backend/internal/hashring/ring.go:114-124 | a key moves to an added node if and only if one of its entries is closer clockwise than the old owner's |
| HashRing.SeriesOfAdds | backend/internal/hashring/ring.go:51-63 | over a series of Adds no key moves between two old nodes |
| HashRing.RemoveMovesOnlyItsOwn | backend/internal/hashring/ring.go:65-80 | removing a node moves only keys it owned |
| HashRing.ScanIsClosest | backend/internal/hashring/ring.go:114-124 | the entry found is the first clockwise of the hash, wrapping around, among all present nodes' entries |
| HashRing.ClosestIsFirst | backend/internal/hashring/ring.go:114-124 | the closest entry is in the array: at or past the hash with nothing before it there, or the first of all when every entry is before the hash |
| HashRing.Ring.LookupHash | backend/internal/hashring/ring.go:114-124 | the binary search agrees with a linear clockwise scan for every hash: the first entry at or past it, the first of all beyond the last |
| HashRing.Ring.Lookup | backend/internal/hashring/ring.go:105-112 | owner, hash and position of a key, those of the first entry clockwise; fails exactly on an empty ring |
| HashRing.Ring.Get | backend/internal/hashring/ring.go:96-102 | the node of the first entry clockwise of the key's hash, the empty name on an empty ring |
| HashRing.Ring.AddNode | backend/internal/hashring/ring.go:51-63 | nothing changes for a present node; else the node and its perNode entries are added, each at the hash of name, "#" and its index in decimal, and the array sorted |
| HashRing.Ring.RemoveNode | backend/internal/hashring/ring.go:65-80 | the node and its entries are compacted away, the order kept |
| HashRing.Ring.constructor | backend/internal/hashring/ring.go:33-43 | the canonical ring of the given nodes; fewer than 1 vnode becomes 100 |
| LruCache.HeldIsLatest | backend/internal/cache/memory.go:45-107 | after any history a held entry is the latest one set for its key |
| LruCache.LatestMeans | backend/internal/cache/memory.go:62-99 | the latest entry of a key is that of a Set with no Set or Delete of the key after it |
| LruCache.GetMeans | backend/internal/cache/memory.go:45-59 | a read hits if and only if a live entry of the key is there; a hit moves it to the front and loses nothing, anything else leaves no entry of the key and all others |
| LruCache.ProbeMeans | backend/internal/cache/memory.go:79-90 | miss, expired or hit exactly when there is no entry of the key, an expired one, or a live one |
| LruCache.RunWellFormed | backend/internal/cache/memory.go:45-107 | distinct keys, at most maxKeys, after any history |
| LruCache.LruHistory | backend/internal/cache/memory.go:45-107 | if fewer than maxKeys distinct other keys were touched since k's last Set or hit, Get(k) returns the last value set unless it has expired |
| LruCache.LruExact | backend/internal/cache/memory.go:62-76 | without removals since, k is held if and only if fewer than maxKeys distinct other keys were touched |
| LruCache.Memory.Get | backend/internal/cache/memory.go:45-59 | the live entry of the key is returned and moved to the front, nothing else lost; a missing or expired one gives nothing, and an expired one is removed |
| LruCache.Memory.Set | backend/internal/cache/memory.go:62-76 | the key comes to the front with its value and expiry, the oldest entries beyond maxKeys go |
| LruCache.Memory.Peek | backend/internal/cache/memory.go:79-90 | hit, expired or miss, changing nothing |
| LruCache.Memory.Delete | backend/internal/cache/memory.go:93-99 | the key is gone, the rest and its order stay |
| LruCache.Memory.RemoveElement | backend/internal/cache/memory.go:101-107 | list and map lose the key together |
| LruCache.Memory.Len | backend/internal/cache/memory.go:37-41 | the number of entries, at most maxKeys |
| LruCache.Memory.constructor | backend/internal/cache/memory.go:28-33 | an empty node; fewer than 1 key becomes 1024 |
| ShardedCache.HitIsLatestSet | backend/internal/cache/cache.go:52-79 | for every history a hit returns the latest value set with no Invalidate since, before it expires |
| ShardedCache.HeldByOwnerOnly | backend/internal/cache/cache.go:52-79 | each key is held only by its owner on the ring |
| ShardedCache.ShardRunsItsPart | backend/internal/cache/cache.go:52-79 | each node sees exactly the operations on the keys it owns, in order |
| ShardedCache.StepHeld | backend/internal/cache/cache.go:52-79 | an operation changes the held map at most by its own key and by losing entries |
| ShardedCache.DeleteHeld | backend/internal/cache/cache.go:75-79 | invalidating a key takes it out and leaves everything else |
| ShardedCache.VisibleMeans | backend/internal/cache/cache.go:52-65 | a lookup finds a value if and only if a live entry of the key with that value is on its node |
| ShardedCache.Distributed.Get | backend/internal/cache/cache.go:52-65 | the value of the live entry on the key's owner, if there is one; exactly one counter goes up, hits on a hit and miss otherwise |
| ShardedCache.Distributed.Set | backend/internal/cache/cache.go:68-72 | the owner holds the value in front with the ttl, other nodes are untouched |
| ShardedCache.Distributed.Invalidate | backend/internal/cache/cache.go:75-79 | exactly this key is no longer held; other nodes are untouched |
| ShardedCache.Distributed.Debug | backend/internal/cache/cache.go:92-101 | changes nothing; "hit" exactly when the ring has a node and Get would hit now; names the owning entry |
| ShardedCache.Distributed.constructor | backend/internal/cache/cache.go:47-49 | holds the given ring, nodes and ttl |
| ShardedCache.DebugBlindOnEmptyRing | backend/internal/cache/cache.go:52-101 | on an empty ring with a node under the empty name, Get hits while Debug reports a miss |
| Persistence.Store.PersistBatch | backend/internal/store/store.go:149-181 | a failed transaction leaves every row as it was; any other makes each batch row the stored one and leaves the rest; a commit may report failure although it took effect; an empty batch succeeds |
| BatchSteps.Conservation | backend/internal/batch/writer.go:68-138 | in every interleaving, start count plus accepted sends equals count plus pending, in-flight and queued searches of the query |
| BatchSteps.TakenInOrder | backend/internal/batch/writer.go:110-127 | first in, first out: what the loop has taken, followed by what is queued, is what was sent, in order |
| BatchSteps.FlushesExactly | backend/internal/batch/writer.go:96-129 | a flush begins exactly on the search that makes batchSize, on a tick or at the end of the drain with something pending, and takes everything pending |
| BatchSteps.BoundedTail | backend/internal/batch/writer.go:89-131 | unflushed searches: at most bufCap + batchSize before the drain; during it fewer than that plus the sends since quit was seen; then just those accepted after the drain saw the queue empty, at most bufCap; with at most one send during shutdown, bufCap + batchSize throughout |
| BatchSteps.DrainTail | backend/internal/batch/writer.go:118-131 | until the final batch is applied, the unflushed searches are those at the moment quit was seen plus all sends since |
| BatchSteps.TailOverrunsExactly | backend/internal/batch/writer.go:118-131 | in a shutdown the tail exceeds bufCap + batchSize if and only if the final batch is not applied and the unflushed searches when quit was seen plus the sends since exceed it; the former are fewer than bufCap + batchSize |
| BatchSteps.TailOverrun | backend/internal/batch/writer.go:120-127 | under any limits there is a run whose drain, with two sends, exceeds bufCap + batchSize |
| BatchSteps.StopIsExact | backend/internal/batch/writer.go:118-138 | once the loop has exited, everything accepted is applied exactly once if and only if nothing was accepted after the drain saw the queue empty |
| BatchSteps.DrainTerminates | backend/internal/batch/writer.go:118-129 | the shutdown takes at most Rank further loop steps, and one more for each send that overlaps it |
| BatchSteps.DrainMoves | backend/internal/batch/writer.go:118-129 | until it exits the closing loop can always move, in one way only, and every move lowers the rank |
| BatchSteps.DrainIsShort | backend/internal/batch/writer.go:118-129 | at any moment of a shutdown at most bufCap + 4 loop steps are left |
| BatchSteps.AppliedBatchesAreGood | backend/internal/batch/writer.go:96-106 | whatever is handed to apply is non-empty with positive counts and no empty query, at most batchSize searches before the drain |
| BatchSteps.CountersSettle | backend/internal/batch/writer.go:140-148 | flushes <= upserts <= accepted always, and upserts <= received once every caller is back |
| BatchSteps.CountersCount | backend/internal/batch/writer.go:68-106 | dropped counts timeouts, received the sends counted by their callers, flushes the finished flushes, upserts the distinct queries of applied batches |
| BatchSteps.UpsertsBeforeReceived | backend/internal/batch/writer.go:68-81 | under any limits there is a run in which a row is counted as upserted while no search is counted as received |
| BatchSteps.RunInv | backend/internal/batch/writer.go:89-131 | every state of every run has the shape, conservation, tail and counter invariants |
| BatchSteps.StepKeeps | backend/internal/batch/writer.go:89-131 | each event keeps them |
| BatchWriter.ShutdownAppliesAll | backend/internal/batch/writer.go:118-138 | a shutdown that nothing interrupts ends with an empty queue and every accepted search in the counts |
| BatchWriter.Writer.TrySend | backend/internal/batch/writer.go:69-74 | sends exactly when there is room, and counts it |
| BatchWriter.Writer.Submit | backend/internal/batch/writer.go:68-81 | with room the search is sent and counted; with a full buffer it is sent after the loop has taken a search meanwhile, or dropped and counted; exactly one of received and dropped goes up |
| BatchWriter.SubmittedCounts | backend/internal/batch/writer.go:68-81 | a submitted search is accepted and received once if there was room or room was made, and otherwise dropped once |
| BatchWriter.Writer.Record | backend/internal/engine/engine.go:148-155 | an empty query is turned away and changes nothing, any other is submitted |
| BatchWriter.Writer.OnEvent | backend/internal/batch/writer.go:110-115 | takes one search and flushes a full batch: the Take event carried to its end |
| BatchWriter.Writer.OnTick | backend/internal/batch/writer.go:116-117 | flushes what is pending: the Tick event carried to its end |
| BatchWriter.Writer.Flush | backend/internal/batch/writer.go:96-106 | the pending map is swapped out, added to the engine's counts and counted; an empty map is not flushed |
| BatchWriter.Writer.OnQuit | backend/internal/batch/writer.go:118-129 | drains, flushes once more and exits, as the step system does |
| BatchWriter.Writer.Stop | backend/internal/batch/writer.go:135-138 | closes, lets the loop take any turns it still may, then the whole shutdown |
| BatchWriter.Writer.constructor | backend/internal/batch/writer.go:41-60 | an empty writer; bufCap, batchSize and interval without a positive value become 1000, 100 and five seconds |
| EndToEnd.SystemRunSound | backend/cmd/server/main.go:97-100 | writer and engine interleaved keep both invariants over the same counts |
| EndToEnd.FlushIsWelcome | backend/internal/engine/engine.go:157-159 | every batch the loop is about to apply is one the engine accepts |
| EndToEnd.StoreLag | backend/internal/batch/writer.go:89-131 | for a query that awaits no retry, what the store lacks of its accepted searches is exactly what is queued, pending or in flight, through any write failures |
| EndToEnd.CleanShutdown | backend/cmd/server/main.go:124-128 | after a clean stop a restart shows every accepted search of a query whose last write succeeded, and the live counts if nothing awaits a retry |
| Staleness.StaleOnlyByRace | backend/internal/engine/engine.go:75-80 | in every interleaving a cached count is at most the current one, and an entry fails to cover its prefix only while a flush touching it is under way, or if its read began before the latest trie update there and it was stored after the invalidation |
| Staleness.RaceLeavesStale | backend/internal/engine/engine.go:75-80 | the race does occur: after the flush is over the cached set misses a stored and tracked query |
| Staleness.CurrentServesTopK | backend/internal/engine/engine.go:112-140 | an entry that covers its prefix ranks to a true top-K |
| Staleness.ServedWithinTtl | backend/internal/cache/memory.go:45-66 | no entry is served later than its Set plus the ttl |
| Staleness.StepKeepsSound | backend/internal/engine/engine.go:159-202 | each locked section, of reads and of flushes, keeps the staleness invariant |
| Staleness.StoredOk | backend/internal/engine/engine.go:75-80 | a set is right when stored, or its prefix is being flushed, or it lost the race |

## Left out

- BatchWriter.Writer.Submit: lets the loop take at most one search during the wait, which is enough to make room; other interleavings are runs of `BatchSteps`. It takes non-empty queries only, as `Record`, its one caller, passes no other.
- Engine.Engine.Suggest: is atomic here, so the recency read while ranking belongs to one moment; interleaved reads of cached sets are in `Staleness`, ranking beside a running flush is not.
- Engine.Engine.ApplyBatch: requires a clock that has not run backwards, because a key may then fall (`Ranking.BumpRaisesExactly`) and evicted rows need not stay below the tracked ones.
- EngineModel.ApplyKeeps: takes the trie's part of the new state from the step relation; that the batch restores it is `TrieIndex.Trie.ApplyBatch`.
- Engine.StartUp: requires rows with a positive count and a non-empty query, as the CSV loader and the flushes write no others (`backend/internal/store/store.go:125-132`).
- Engine.Load: requires such rows too.
- Engine.LoadRow: requires such a row too.
- TrieIndex.Trie.Insert: requires a positive count for the same reason.
- TrieIndex.Trie.ApplyBatch: requires that no increment is negative, since falling counts would need the siblings' lists; the writer only counts up.
- ShardedCache.Distributed.constructor: requires a different node object for each id, as the server makes them.
- Ranking.KeyOrderIsEffectiveOrder: is over reals and the exponential of the backend's key; floating-point rounding, overflow, infinities and NaN are not modelled, nor is the conversion of a half-life to a decay rate.
- Integer width: counts are `int64` in the backend and unbounded here.
- Unicode: decoding, case folding and `Normalize` are not modelled; prefixes are taken from normalized character sequences, and order between queries is by character code, which for UTF-8 bytes and code points is the same.
- `container/list`: the node's list is a sequence of keys and its map holds the entries; sharing of list elements is not modelled.
- Backing arrays: `Remove` compacts slices in place and list results may share storage with trie nodes; sequences here are values.
- SQLite, CSV loading, prepared statements: the store is a map with an all-or-nothing upsert that may fail or fail after taking effect.
- Redis nodes: only the in-memory node is modelled.
- MD5 and statistical balance of the ring: the hash is arbitrary, only structural facts are proved.
- HTTP handlers, configuration, metrics, latency histograms, `Stats` and the tools under `backend/cmd` other than the server's start-up order.
- Fairness: that the loop eventually picks the quit case, timers and mutexes; each locked section is one step and ticks and timeouts may come at any time.
