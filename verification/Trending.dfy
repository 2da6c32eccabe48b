/**
  The trending index: at most `cap` recency states, the ones with the highest keys.
 */
module Trending {
  import opened Model
  import opened Ordering
  import opened Ranking
  import opened Recency
  import opened TopLists

  function RecencyRow(q: string, s: State): Candidate {
    Candidate(q, 0, s.value, s.ts)
  }

  /** The rows of a batch, said outright: the decayed value plus the weight of the searches, stamped now. */
  lemma {:induction false} RowsMean(p: Params, items: map<string, State>, deltas: map<string, int>, now: nat,
                                    out: map<string, Candidate>)
    requires out.Keys == deltas.Keys
    requires forall q | q in deltas :: q in items.Keys + deltas.Keys
                                       && out[q] == RecencyRow(q, Bumped(p, items, deltas, now)[q])
    ensures forall q | q in deltas ::
              out[q].query == q && out[q].recentTs == now
              && out[q].recentValue
                 == (if q in items then p.Effective(items[q].value, items[q].ts, now) else 0.0)
                    + deltas[q] as real * p.weight
  {
    BumpedMeans(p, items, deltas, now);
    hide Params.Effective, Bumped, BumpFrom;
    forall q | q in deltas
      ensures out[q].query == q && out[q].recentTs == now
              && out[q].recentValue
                 == (if q in items then p.Effective(items[q].value, items[q].ts, now) else 0.0)
                    + deltas[q] as real * p.weight
    {
      assert out[q] == RecencyRow(q, Bumped(p, items, deltas, now)[q]);
    }
  }

  /** What is kept of them: the lot, or as many as fit. */
  lemma {:induction false} CutMeans(p: Params, items: map<string, State>, deltas: map<string, int>, now: nat,
                                    kept: map<string, State>, cap: nat)
    requires p.Valid() && TopCut(p, Bumped(p, items, deltas, now), kept, cap)
    ensures forall q | q in kept && q !in deltas :: q in items && kept[q] == items[q]
    ensures |kept| == if |items.Keys + deltas.Keys| <= cap then |items.Keys + deltas.Keys| else cap
  {
    var grown := Bumped(p, items, deltas, now);
    BumpedMeans(p, items, deltas, now);
    assert |grown| == |grown.Keys|;
    CutSize(p, grown, kept, cap);
  }

  class Index {
    const p: Params
    const cap: nat
    var items: map<string, State>

    ghost predicate Valid()
      reads this
    {
      p.Valid() && cap >= 1 && |items| <= cap
    }

    constructor (p: Params, cap: int)
      requires p.Valid()
      ensures Valid() && items == map[]
      ensures this.p == p && this.cap == if cap < 1 then 200 else cap
    {
      this.p := p;
      this.cap := if cap < 1 then 200 else cap;
      items := map[];
    }

    method Seed(query: string, value: real, ts: nat)
      requires Valid()
      modifies this
      ensures Valid()
      ensures TopCut(p, old(items)[query := State(value, ts)], items, cap)
    {
      items := items[query := State(value, ts)];
      Evict();
    }

    method Update(deltas: map<string, int>, now: nat) returns (out: map<string, Candidate>)
      requires Valid()
      modifies this
      ensures Valid()
      ensures TopCut(p, Bumped(p, old(items), deltas, now), items, cap)
      ensures out.Keys == deltas.Keys
      ensures forall q | q in deltas :: out[q] == RecencyRow(q, Bumped(p, old(items), deltas, now)[q])
      ensures forall q | q in deltas ::
                out[q].query == q && out[q].recentTs == now
                && out[q].recentValue
                   == (if q in old(items) then p.Effective(old(items)[q].value, old(items)[q].ts, now) else 0.0)
                      + deltas[q] as real * p.weight
      ensures forall q | q in items && q in deltas :: items[q] == State(out[q].recentValue, out[q].recentTs)
      ensures forall q | q in items && q !in deltas :: q in old(items) && items[q] == old(items)[q]
      ensures |items| == if |old(items).Keys + deltas.Keys| <= cap then |old(items).Keys + deltas.Keys| else cap
    {
      hide Params.Effective, Bumped, BumpFrom, TopCut;
      out := BumpAll(deltas, now);
      Evict();
      RowsMean(p, old(items), deltas, now, out);
      CutMeans(p, old(items), deltas, now, items, cap);
    }

    /** The loop of Update: every searched query is bumped once, in whatever order they come. */
    method BumpAll(deltas: map<string, int>, now: nat) returns (out: map<string, Candidate>)
      modifies this
      ensures items == Bumped(p, old(items), deltas, now)
      ensures out.Keys == deltas.Keys
      ensures forall q | q in deltas :: out[q] == RecencyRow(q, items[q])
    {
      hide BumpFrom;
      ghost var target := Bumped(p, items, deltas, now);
      out := map[];
      var rest := deltas.Keys;
      while rest != {}
        invariant rest <= deltas.Keys
        invariant items.Keys + rest == target.Keys && old(items).Keys <= items.Keys
        invariant forall q | q in items && q !in rest :: items[q] == target[q]
        invariant forall q | q in rest :: q in items <==> q in old(items)
        invariant forall q | q in rest && q in items :: items[q] == old(items)[q]
        invariant out.Keys + rest == deltas.Keys
        invariant forall q | q in out && q !in rest :: out[q] == RecencyRow(q, target[q])
      {
        var q :| q in rest;
        rest := rest - {q};
        BumpReadsOneState(p, items, old(items), q, deltas[q], now);
        var s := BumpFrom(p, items, q, deltas[q], now);
        items := items[q := s];
        out := out[q := RecencyRow(q, s)];
      }
    }

    /** A query's decayed recency; 0 when it is not tracked. */
    function Effective(query: string, now: nat): real
      reads this
    {
      if query in items then p.Effective(items[query].value, items[query].ts, now) else 0.0
    }

    method MatchingPrefix(prefix: string) returns (out: seq<string>)
      ensures forall q :: q in out <==> q in items && prefix <= q
      ensures forall i, j | 0 <= i < j < |out| :: out[i] != out[j]
    {
      out := [];
      var rest := items.Keys;
      while rest != {}
        invariant rest <= items.Keys
        invariant forall q :: q in out <==> q in items && q !in rest && prefix <= q
        invariant forall i, j | 0 <= i < j < |out| :: out[i] != out[j]
      {
        var q :| q in rest;
        rest := rest - {q};
        if prefix <= q {
          out := out + [q];
        }
      }
    }

    /** The best k tracked queries by effective recency: the head of their full ranking. */
    method Top(k: nat, now: nat) returns (out: seq<Ranked>)
      ensures out == BestOf(EffectiveBoard(p, items, now), k)
      ensures |out| == if k <= |items| then k else |items|
      ensures forall r | r in out ::
                r.query in items && r.score == p.Effective(items[r.query].value, items[r.query].ts, now)
      ensures forall i, j | 0 <= i < j < |out| ::
                out[i].score > out[j].score || (out[i].score == out[j].score && LexLess(out[i].query, out[j].query))
      ensures forall q, r | q in items && r in out && q !in Queries(out) ::
                p.Effective(items[q].value, items[q].ts, now) <= r.score
    {
      hide Params.Effective, IsFull;
      ghost var board := EffectiveBoard(p, items, now);
      var arr: seq<Ranked> := [];
      var rest := items.Keys;
      while rest != {}
        invariant rest <= items.Keys
        invariant Exact(arr, board) && Queries(arr) == items.Keys - rest
        invariant DistinctQueries(arr)
      {
        var q :| q in rest;
        rest := rest - {q};
        var x := Ranked(q, p.Effective(items[q].value, items[q].ts, now));
        ghost var before := arr;
        arr := arr + [x];
        AppendRanked(before, x, board);
      }
      SortedIsFull(arr, board);
      var sorted := SortBy(Before, arr);
      out := sorted[..if k > |sorted| then |sorted| else k];
      BestByEffective(p, items, k, now);
    }

    /** Drops the entry with the lowest key while over capacity, whichever order the map is walked in. */
    method Evict()
      requires p.Valid() && cap >= 1
      modifies this
      ensures Valid()
      ensures TopCut(p, old(items), items, cap)
    {
      while |items| > cap
        invariant items.Keys <= old(items).Keys
        invariant forall q | q in items :: items[q] == old(items)[q]
        invariant forall q | q in old(items) && q !in items :: |items| >= cap && BelowAll(p, old(items)[q], items)
        decreases |items|
      {
        var minQ := LowestKey();
        ghost var before := items;
        items := items - {minQ};
        assert before.Keys == items.Keys + {minQ};
        assert |before.Keys| == |before| && |items.Keys| == |items|;
      }
    }

    /** The inner loop of eviction: minK starts at plus infinity (None), so the first entry is always taken. */
    method LowestKey() returns (minQ: string)
      requires p.Valid() && |items| > 0
      ensures minQ in items && BelowAll(p, items[minQ], items)
    {
      minQ := "";
      var minK: Option<real> := None;
      var rest := items.Keys;
      assert rest != {} by { assert |items.Keys| == |items|; }
      while rest != {}
        invariant rest <= items.Keys
        invariant minK.None? ==> rest == items.Keys
        invariant minK.Some? ==> minQ in items && minK.value == KeyOf(p, items[minQ])
        invariant forall q | q in items && q !in rest :: minK.Some? && minK.value <= KeyOf(p, items[q])
      {
        var q :| q in rest;
        rest := rest - {q};
        var k := p.Key(items[q].value, items[q].ts);
        if minK.None? || k < minK.value {
          minK, minQ := Some(k), q;
        }
      }
    }
  }

}
