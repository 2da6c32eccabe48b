/**
  Bounded recency tracking, as mathematics over maps.

  `TopCut(all, kept, cap)` says that `kept` is what an index of capacity `cap` may keep of the states
  `all`: the highest keys, ties broken any way. The absorption lemma makes it an invariant of
  the running index with respect to *every* state ever persisted, tracked or not.
 */
module Recency {
  import opened Model
  import opened Ordering
  import opened Ranking
  import opened Sets
  import opened TopLists

  function KeyOf(p: Params, s: State): real
    requires p.decay > 0.0
  {
    p.Key(s.value, s.ts)
  }

  ghost predicate AllPositive(m: map<string, State>) {
    forall q | q in m :: m[q].value > 0.0
  }

  ghost predicate StampedBy(m: map<string, State>, now: nat) {
    forall q | q in m :: m[q].ts <= now
  }

  ghost predicate BelowAll(p: Params, s: State, m: map<string, State>)
    requires p.decay > 0.0
  {
    forall t | t in m :: KeyOf(p, s) <= KeyOf(p, m[t])
  }

  ghost predicate TopCut(p: Params, all: map<string, State>, kept: map<string, State>, cap: nat)
    requires p.decay > 0.0
  {
    && kept.Keys <= all.Keys
    && (forall q | q in kept :: kept[q] == all[q])
    && |kept| <= cap
    && (forall q | q in all && q !in kept :: |kept| == cap && BelowAll(p, all[q], kept))
  }

  /** Nothing is lost and no key falls. */
  ghost predicate Raises(p: Params, m: map<string, State>, m': map<string, State>)
    requires p.decay > 0.0
  {
    && m.Keys <= m'.Keys
    && forall q | q in m :: KeyOf(p, m[q]) <= KeyOf(p, m'[q])
  }

  lemma {:induction false} CutKeepsCap(p: Params, all: map<string, State>, kept: map<string, State>, cap: nat)
    requires p.decay > 0.0 && TopCut(p, all, kept, cap) && |all| >= cap
    ensures |kept| == cap
  {
    if all.Keys <= kept.Keys {
      SubsetSize(all.Keys, kept.Keys);
      assert |all.Keys| == |all| && |kept.Keys| == |kept|;
    } else {
      var q :| q in all && q !in kept;
    }
  }

  /**
    Absorption: let `kept` be the cut of `all`, let it grow to `grown` (keys rise, newcomers join, maybe
    queries that were dropped before and restart lower), and cut that again. The result is the cut of
    `all` overwritten by `grown`: what was dropped earlier never deserves its place back.
   */
  lemma {:induction false} Absorb(p: Params, all: map<string, State>, kept: map<string, State>,
               grown: map<string, State>, next: map<string, State>, cap: nat)
    requires p.decay > 0.0
    requires TopCut(p, all, kept, cap) && Raises(p, kept, grown) && TopCut(p, grown, next, cap)
    ensures TopCut(p, all + grown, next, cap)
  {
    forall q | q in all + grown && q !in next
      ensures |next| == cap && BelowAll(p, (all + grown)[q], next)
    {
      if q !in grown {
        SubsetSize(kept.Keys, grown.Keys);
        CutKeepsCap(p, grown, next, cap);
        forall c | c in next ensures KeyOf(p, all[q]) <= KeyOf(p, next[c]) {
          DroppedStaysBelow(p, all[q], kept, grown, next, cap, c);
        }
      }
    }
  }

  lemma {:induction false} DroppedStaysBelow(p: Params, s: State, kept: map<string, State>,
                          grown: map<string, State>, next: map<string, State>, cap: nat, c: string)
    requires p.decay > 0.0
    requires Raises(p, kept, grown) && TopCut(p, grown, next, cap)
    requires BelowAll(p, s, kept) && |kept| == cap && c in next
    ensures KeyOf(p, s) <= KeyOf(p, next[c])
  {
    if KeyOf(p, next[c]) < KeyOf(p, s) {
      forall q | q in kept ensures q in next {
        assert KeyOf(p, next[c]) < KeyOf(p, kept[q]) <= KeyOf(p, grown[q]);
      }
      SubsetSame(kept.Keys, next.Keys);
    }
  }

  /** Two cuts of the same states: equal size, and they share every state above the other's minimum. */
  lemma {:induction false} CutsAgreeAboveTheCut(p: Params, all: map<string, State>, a: map<string, State>,
                                                b: map<string, State>,
                             cap: nat, q: string)
    requires p.decay > 0.0 && TopCut(p, all, a, cap) && TopCut(p, all, b, cap)
    requires q in a && !BelowAll(p, a[q], b)
    ensures |a| == |b| && q in b && a[q] == b[q]
  {
    CutsSameSize(p, all, a, b, cap);
  }

  lemma {:induction false} CutsSameSize(p: Params, all: map<string, State>, a: map<string, State>,
                                        b: map<string, State>, cap: nat)
    requires p.decay > 0.0 && TopCut(p, all, a, cap) && TopCut(p, all, b, cap)
    ensures |a| == |b|
  {
    CutSize(p, all, a, cap);
    CutSize(p, all, b, cap);
  }

  lemma {:induction false} CutKeepsAll(p: Params, all: map<string, State>, kept: map<string, State>, cap: nat)
    requires p.decay > 0.0 && TopCut(p, all, kept, cap) && |all| < cap
    ensures kept == all
  {
    SubsetSize(kept.Keys, all.Keys);
    assert |kept.Keys| == |kept| && |all.Keys| == |all|;
  }

  lemma {:induction false} CutSize(p: Params, all: map<string, State>, kept: map<string, State>, cap: nat)
    requires p.decay > 0.0 && TopCut(p, all, kept, cap)
    ensures |kept| == if |all| <= cap then |all| else cap
  {
    if |all| >= cap {
      CutKeepsCap(p, all, kept, cap);
    } else {
      CutKeepsAll(p, all, kept, cap);
    }
  }

  // ----- Effective values -----

  function EffectiveBoard(p: Params, m: map<string, State>, now: nat): map<string, real> {
    map q | q in m :: p.Effective(m[q].value, m[q].ts, now)
  }

  /**
    Eviction is right for all future times: at every `now` from all stamps on, nothing dropped is
    worth more than anything kept.
   */
  lemma {:induction false} DroppedNeverWorthMore(p: Params, all: map<string, State>, kept: map<string, State>, cap: nat,
                              q: string, t: string, now: nat)
    requires p.Valid() && TopCut(p, all, kept, cap) && StampedBy(all, now)
    requires q in all && q !in kept && t in kept
    ensures p.Effective(all[q].value, all[q].ts, now) <= p.Effective(kept[t].value, kept[t].ts, now)
  {
    KeyOrderIsEffectiveOrder(p, all[q].value, all[q].ts, kept[t].value, kept[t].ts, now);
  }

  /**
    What the best k by effective value are, said outright: queries with their stored value decayed to `now`,
    in descending order, ties by query, min(k, number of states) of them, and none left out is worth more.
   */
  lemma {:induction false} BestByEffective(p: Params, m: map<string, State>, k: nat, now: nat)
    ensures var out := BestOf(EffectiveBoard(p, m, now), k);
            |out| == (if k <= |m| then k else |m|)
            && (forall r | r in out :: r.query in m && r.score == p.Effective(m[r.query].value, m[r.query].ts, now))
            && (forall i, j | 0 <= i < j < |out| ::
                  out[i].score > out[j].score || (out[i].score == out[j].score && LexLess(out[i].query, out[j].query)))
            && (forall q, r | q in m && r in out && q !in Queries(out) ::
                  p.Effective(m[q].value, m[q].ts, now) <= r.score)
  {
    hide Params.Effective;
    var board := EffectiveBoard(p, m, now);
    assert board.Keys == m.Keys && |board.Keys| == |board| && |m.Keys| == |m|;
    BestLeads(board, k);
    TopLength(BestOf(board, k), board, k);
    hide BestOf;
  }

  lemma {:induction false} KeptIsTop(p: Params, all: map<string, State>, kept: map<string, State>, cap: nat,
                                     k: nat, now: nat)
    requires p.Valid() && TopCut(p, all, kept, cap) && StampedBy(all, now) && k <= cap
    ensures IsTop(BestOf(EffectiveBoard(p, kept, now), k), EffectiveBoard(p, all, now), k)
  {
    var part, board := EffectiveBoard(p, kept, now), EffectiveBoard(p, all, now);
    BoardOfAll(p, kept, now);
    assert |kept.Keys| == |kept|;
    forall q | q in board && q !in part ensures Dominated(board[q], part, k) {
      forall t | t in kept ensures part[t] >= board[q] {
        DroppedNeverWorthMore(p, all, kept, cap, q, t, now);
      }
      assert AllReach(kept.Keys, part, board[q]);
    }
    CoverTop(FullRanking(part), part, board, k);
  }

  /**
    Hence, for every k up to the cap, the best k of the kept states are a true top-k of all of them: nothing
    that was ever there, kept or dropped, and is not listed, is worth more than an entry listed.
   */
  lemma {:induction false} TopOfKeptIsTopOfAll(p: Params, all: map<string, State>, kept: map<string, State>, cap: nat,
                                               k: nat, now: nat)
    requires p.Valid() && TopCut(p, all, kept, cap) && StampedBy(all, now) && k <= cap
    ensures var out := BestOf(EffectiveBoard(p, kept, now), k);
            IsTop(out, EffectiveBoard(p, all, now), k)
            && |out| == (if k <= |all| then k else |all|)
            && (forall r | r in out ::
                  r.query in kept && r.score == p.Effective(kept[r.query].value, kept[r.query].ts, now))
            && (forall q, r | q in all && r in out && q !in Queries(out) ::
                  p.Effective(all[q].value, all[q].ts, now) <= r.score)
  {
    KeptIsTop(p, all, kept, cap, k, now);
    BestByEffective(p, kept, k, now);
    BoardOfAll(p, all, now);
    TopLength(BestOf(EffectiveBoard(p, kept, now), k), EffectiveBoard(p, all, now), k);
    hide BestOf, Params.Effective, EffectiveBoard, TopCut, StampedBy;
  }

  lemma {:induction false} BoardOfAll(p: Params, m: map<string, State>, now: nat)
    ensures var board := EffectiveBoard(p, m, now);
            |board| == |m| && board.Keys == m.Keys
            && forall q | q in m :: board[q] == p.Effective(m[q].value, m[q].ts, now)
  {
    var board := EffectiveBoard(p, m, now);
    assert board.Keys == m.Keys && |board.Keys| == |board| && |m.Keys| == |m|;
  }

  // ----- A batch of searches -----

  ghost predicate PositiveDeltas(deltas: map<string, int>) {
    forall q | q in deltas :: deltas[q] > 0
  }

  function BumpFrom(p: Params, items: map<string, State>, q: string, d: int, now: nat): State {
    var s := if q in items then items[q] else State(0.0, 0);
    var (v, ts) := p.Bump(s.value, s.ts, d, now);
    State(v, ts)
  }

  lemma BumpReadsOneState(p: Params, a: map<string, State>, b: map<string, State>, q: string,
                          d: int, now: nat)
    requires q in a <==> q in b
    requires q in a ==> a[q] == b[q]
    ensures BumpFrom(p, a, q, d, now) == BumpFrom(p, b, q, d, now)
  {
  }

  /** Every searched query is bumped from its tracked state, or from zero when it is not tracked. */
  function Bumped(p: Params, items: map<string, State>, deltas: map<string, int>, now: nat): map<string, State> {
    map q | q in items.Keys + deltas.Keys ::
      if q in deltas then BumpFrom(p, items, q, deltas[q], now) else items[q]
  }

  lemma {:induction false} BumpedRaises(p: Params, items: map<string, State>, deltas: map<string, int>, now: nat)
    requires p.Valid() && StampedBy(items, now) && PositiveDeltas(deltas)
    ensures Raises(p, items, Bumped(p, items, deltas, now))
    ensures StampedBy(Bumped(p, items, deltas, now), now)
    ensures AllPositive(items) ==> AllPositive(Bumped(p, items, deltas, now))
  {
    forall q | q in deltas
      ensures var s := BumpFrom(p, items, q, deltas[q], now);
              s.ts == now && s.value > 0.0 && (q in items ==> KeyOf(p, items[q]) <= KeyOf(p, s))
    {
      var s := if q in items then items[q] else State(0.0, 0);
      BumpAddsToKey(p, s.value, s.ts, deltas[q], now);
      BumpRaisesKey(p, s.value, s.ts, deltas[q], now);
    }
  }

  /** What a batch does to each state, said outright. */
  lemma {:induction false} BumpedMeans(p: Params, items: map<string, State>, deltas: map<string, int>, now: nat)
    ensures Bumped(p, items, deltas, now).Keys == items.Keys + deltas.Keys
    ensures forall q | q in deltas ::
              Bumped(p, items, deltas, now)[q]
              == State((if q in items then p.Effective(items[q].value, items[q].ts, now) else 0.0)
                       + deltas[q] as real * p.weight, now)
    ensures forall q | q in items && q !in deltas :: Bumped(p, items, deltas, now)[q] == items[q]
  {
    assert p.Effective(0.0, 0, now) == 0.0;
  }

  // ----- Bounded tracking against an exact model -----

  datatype Batch = Batch(deltas: map<string, int>, now: nat)

  /** Index contents over time: tracked[i+1] follows tracked[i] by the batch hist[i]. */
  ghost predicate IsHistory(p: Params, tracked: seq<map<string, State>>, hist: seq<Batch>, cap: nat)
    requires p.decay > 0.0
  {
    && |tracked| == |hist| + 1
    && AllPositive(tracked[0])
    && (forall i | 0 <= i < |hist| :: PositiveDeltas(hist[i].deltas) && StampedBy(tracked[i], hist[i].now))
    && (forall i | 0 <= i < |hist| ::
          TopCut(p, Bumped(p, tracked[i], hist[i].deltas, hist[i].now), tracked[i + 1], cap))
  }

  /** q was dropped by the eviction that closed batch i. */
  ghost predicate EvictedAt(p: Params, tracked: seq<map<string, State>>, hist: seq<Batch>, i: nat, q: string)
    requires i < |hist| && |tracked| == |hist| + 1
  {
    (q in tracked[i] || q in hist[i].deltas) && q !in tracked[i + 1]
  }

  ghost predicate NeverEvicted(p: Params, tracked: seq<map<string, State>>, hist: seq<Batch>, q: string)
    requires |tracked| == |hist| + 1
  {
    forall i: nat | i < |hist| :: !EvictedAt(p, tracked, hist, i, q)
  }

  /** The exact model: the seeded value and each batch's weight, each decayed on its own from its own time. */
  ghost function ExactEffective(p: Params, seeds: map<string, State>, hist: seq<Batch>, q: string, now: nat): real {
    if hist == [] then
      if q in seeds then p.Effective(seeds[q].value, seeds[q].ts, now) else 0.0
    else
      var b := hist[|hist| - 1];
      ExactEffective(p, seeds, hist[..|hist| - 1], q, now) + DecayedGain(p, b, q, now)
  }

  ghost function DecayedGain(p: Params, b: Batch, q: string, now: nat): real {
    if q in b.deltas then p.Effective(b.deltas[q] as real * p.weight, b.now, now) else 0.0
  }

  ghost function ExactKey(p: Params, seeds: map<string, State>, hist: seq<Batch>, q: string): real
    requires p.decay > 0.0
  {
    if hist == [] then
      if q in seeds then KeyOf(p, seeds[q]) else 0.0
    else
      var b := hist[|hist| - 1];
      ExactKey(p, seeds, hist[..|hist| - 1], q)
      + Gain(p, b, q)
  }

  ghost predicate StampedHistory(p: Params, tracked: seq<map<string, State>>, hist: seq<Batch>, now: nat) {
    (forall i | 0 <= i < |hist| :: hist[i].now <= now) && |tracked| > 0 && StampedBy(tracked[0], now)
  }

  lemma {:induction false} ExactIsScaledKey(p: Params, tracked: seq<map<string, State>>, hist: seq<Batch>, q: string,
                                            now: nat)
    requires p.Valid() && StampedHistory(p, tracked, hist, now)
    requires forall i | 0 <= i < |hist| :: PositiveDeltas(hist[i].deltas)
    ensures ExactEffective(p, tracked[0], hist, q, now) == DecayedTo(p, ExactKey(p, tracked[0], hist, q), now)
  {
    if hist == [] {
      SeedIsScaledKey(p, tracked[0], q, now);
    } else {
      hide DecayedGain, Gain, DecayedTo, Params.Effective, Params.Key, KeyOf;
      var n := |hist| - 1;
      ExactIsScaledKey(p, tracked, hist[..n], q, now);
      assert PositiveDeltas(hist[n].deltas) && hist[n].now <= now;
      DecayedGainIsScaled(p, hist[n], q, now);
      DecayAdds(p, ExactKey(p, tracked[0], hist[..n], q), Gain(p, hist[n], q), now);
    }
  }

  lemma {:induction false} SeedIsScaledKey(p: Params, seeds: map<string, State>, q: string, now: nat)
    requires p.Valid() && StampedBy(seeds, now)
    ensures ExactEffective(p, seeds, [], q, now) == DecayedTo(p, ExactKey(p, seeds, [], q), now)
  {
    if q in seeds {
      EffectiveIsScaledKey(p, seeds[q].value, seeds[q].ts, now);
    }
  }

  /** A key's worth at `now`. */
  ghost function DecayedTo(p: Params, key: real, now: nat): real {
    key * Pow(p.decay, now)
  }

  lemma DecayAdds(p: Params, a: real, b: real, now: nat)
    ensures DecayedTo(p, a + b, now) == DecayedTo(p, a, now) + DecayedTo(p, b, now)
  {
  }

  lemma {:induction false} DecayedGainIsScaled(p: Params, b: Batch, q: string, now: nat)
    requires p.Valid() && PositiveDeltas(b.deltas) && b.now <= now
    ensures DecayedGain(p, b, q, now) == DecayedTo(p, Gain(p, b, q), now)
  {
    if q in b.deltas {
      var gain := b.deltas[q] as real * p.weight;
      assert DecayedGain(p, b, q, now) == p.Effective(gain, b.now, now);
      assert Gain(p, b, q) == p.Key(gain, b.now);
      EffectiveIsScaledKey(p, gain, b.now, now);
    } else {
      DecayAdds(p, 0.0, 0.0, now);
    }
  }

  ghost function TrackedKey(p: Params, items: map<string, State>, q: string): real
    requires p.decay > 0.0
  {
    if q in items then KeyOf(p, items[q]) else 0.0
  }

  /** What one batch adds to a query's key. */
  ghost function Gain(p: Params, b: Batch, q: string): real
    requires p.decay > 0.0
  {
    if q in b.deltas then p.Key(b.deltas[q] as real * p.weight, b.now) else 0.0
  }

  lemma {:induction false} BumpedKey(p: Params, items: map<string, State>, b: Batch, q: string)
    requires p.Valid() && PositiveDeltas(b.deltas) && StampedBy(items, b.now)
    ensures TrackedKey(p, Bumped(p, items, b.deltas, b.now), q) == TrackedKey(p, items, q) + Gain(p, b, q)
  {
    if q in b.deltas {
      var s := if q in items then items[q] else State(0.0, 0);
      BumpAddsToKey(p, s.value, s.ts, b.deltas[q], b.now);
    }
  }

  /** A cut leaves a query's key as it is, or drops it to nothing. */
  lemma {:induction false} CutKey(p: Params, all: map<string, State>, kept: map<string, State>, cap: nat, q: string)
    requires p.Valid() && AllPositive(all) && TopCut(p, all, kept, cap)
    ensures AllPositive(kept)
    ensures q in all && q !in kept ==> TrackedKey(p, kept, q) < TrackedKey(p, all, q)
    ensures !(q in all && q !in kept) ==> TrackedKey(p, kept, q) == TrackedKey(p, all, q)
  {
    if q in all {
      KeyNonNegative(p, all[q].value, all[q].ts);
    }
  }

  lemma {:induction false} KeyAgainstExact(p: Params, tracked: seq<map<string, State>>, hist: seq<Batch>, cap: nat,
                                           q: string)
    requires p.Valid() && IsHistory(p, tracked, hist, cap)
    ensures AllPositive(tracked[|hist|])
    ensures TrackedKey(p, tracked[|hist|], q) <= ExactKey(p, tracked[0], hist, q)
    ensures TrackedKey(p, tracked[|hist|], q) == ExactKey(p, tracked[0], hist, q) <==> NeverEvicted(p, tracked, hist, q)
  {
    if hist != [] {
      var n := |hist| - 1;
      var b := hist[n];
      HistoryPrefix(p, tracked, hist, cap);
      KeyAgainstExact(p, tracked[..n + 1], hist[..n], cap, q);
      var grown := Bumped(p, tracked[n], b.deltas, b.now);
      BumpedRaises(p, tracked[n], b.deltas, b.now);
      BumpedKey(p, tracked[n], b, q);
      CutKey(p, grown, tracked[n + 1], cap, q);
      NeverEvictedStep(p, tracked, hist, q);
      assert EvictedAt(p, tracked, hist, n, q) <==> q in grown && q !in tracked[n + 1];
    }
  }

  lemma HistoryPrefix(p: Params, tracked: seq<map<string, State>>, hist: seq<Batch>, cap: nat)
    requires p.Valid() && hist != [] && IsHistory(p, tracked, hist, cap)
    ensures IsHistory(p, tracked[..|hist|], hist[..|hist| - 1], cap)
  {
  }

  lemma {:induction false} NeverEvictedStep(p: Params, tracked: seq<map<string, State>>, hist: seq<Batch>, q: string)
    requires hist != [] && |tracked| == |hist| + 1
    ensures var n := |hist| - 1;
            NeverEvicted(p, tracked, hist, q)
            <==> NeverEvicted(p, tracked[..n + 1], hist[..n], q) && !EvictedAt(p, tracked, hist, n, q)
  {
    var n := |hist| - 1;
    var before, past := tracked[..n + 1], hist[..n];
    if NeverEvicted(p, tracked, hist, q) {
      forall i: nat | i < n ensures !EvictedAt(p, before, past, i, q) {
        assert !EvictedAt(p, tracked, hist, i, q);
      }
    }
    if NeverEvicted(p, before, past, q) && !EvictedAt(p, tracked, hist, n, q) {
      forall i: nat | i < |hist| ensures !EvictedAt(p, tracked, hist, i, q) {
        assert i < n ==> !EvictedAt(p, before, past, i, q);
      }
    }
  }

  lemma {:induction false} BoundedByKey(p: Params, tracked: seq<map<string, State>>, hist: seq<Batch>, cap: nat,
                                        q: string, now: nat, exact: real)
    requires p.Valid() && IsHistory(p, tracked, hist, cap) && StampedBy(tracked[|hist|], now) && q in tracked[|hist|]
    requires var s := tracked[|hist|][q];
             var key, live := ExactKey(p, tracked[0], hist, q), LiveValue(p, tracked[|hist|], q, now);
             (KeyOf(p, s) <= key <==> live <= exact) && (KeyOf(p, s) == key <==> live == exact)
    ensures LiveValue(p, tracked[|hist|], q, now) <= exact
    ensures LiveValue(p, tracked[|hist|], q, now) == exact <==> NeverEvicted(p, tracked, hist, q)
  {
    KeyAgainstExact(p, tracked, hist, cap, q);
  }

  ghost function LiveValue(p: Params, items: map<string, State>, q: string, now: nat): real
    requires q in items
  {
    p.Effective(items[q].value, items[q].ts, now)
  }

  /**
    Bounded recency: a tracked query's effective value is at most what an unbounded tracker would
    show, and equal to it exactly when the query was never evicted.
   */
  lemma {:induction false} BoundedRecency(p: Params, tracked: seq<map<string, State>>, hist: seq<Batch>, cap: nat,
                                          q: string, now: nat)
    requires p.Valid() && IsHistory(p, tracked, hist, cap) && StampedHistory(p, tracked, hist, now)
    requires StampedBy(tracked[|hist|], now) && q in tracked[|hist|]
    ensures LiveValue(p, tracked[|hist|], q, now) <= ExactEffective(p, tracked[0], hist, q, now)
    ensures LiveValue(p, tracked[|hist|], q, now) == ExactEffective(p, tracked[0], hist, q, now)
            <==> NeverEvicted(p, tracked, hist, q)
  {
    hide ExactEffective, ExactKey, NeverEvicted, DecayedTo, Params.Effective, Params.Key;
    ExactIsScaledKey(p, tracked, hist, q, now);
    LiveAgainst(p, tracked[|hist|][q], now, ExactKey(p, tracked[0], hist, q),
                ExactEffective(p, tracked[0], hist, q, now));
    BoundedByKey(p, tracked, hist, cap, q, now, ExactEffective(p, tracked[0], hist, q, now));
  }

  lemma {:induction false} LiveAgainst(p: Params, s: State, now: nat, key: real, effective: real)
    requires p.Valid() && s.ts <= now && effective == DecayedTo(p, key, now)
    ensures KeyOf(p, s) <= key <==> p.Effective(s.value, s.ts, now) <= effective
    ensures KeyOf(p, s) == key <==> p.Effective(s.value, s.ts, now) == effective
  {
    EffectiveIsScaledKey(p, s.value, s.ts, now);
    PowPositive(p.decay, now);
    ScaledCompare(KeyOf(p, s), key, Pow(p.decay, now), p.Effective(s.value, s.ts, now), effective);
  }

  lemma {:induction false} ScaledCompare(a: real, b: real, c: real, x: real, y: real)
    requires c > 0.0 && x == a * c && y == b * c
    ensures a <= b <==> x <= y
    ensures a == b <==> x == y
  {
    ScaledOrder(a, b, c);
    ScaledOrder(b, a, c);
  }
}
