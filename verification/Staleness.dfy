/**
  Serving and flushing interleaved at the grain of single locked sections: a cold read consults the trie,
  then the trending index, then single counts, and only later stores its set; a flush updates the trending
  index, then the trie, then invalidates prefix by prefix. Logical time counts steps; the wall clock drives
  expiry.
 */
module Staleness {
  import opened EngineModel
  import opened LruCache
  import opened Model
  import opened Recency
  import opened TopLists
  import opened TrieSpec

  /** A cached candidate set, as counts by query; when its read began and when it was stored. */
  datatype Entry = Entry(val: Counts, began: nat, stored: nat, expires: int)

  /** A cold read under way: what it has collected, and the tracked queries whose counts it has yet to read. */
  datatype Reader = Reader(p: string, began: nat, seen: Counts, todo: set<string>, matched: bool)

  datatype Phase =
    | Resting
    | Bumped(deltas: map<string, int>)  // the trending index is updated, the trie is not
    | Dropping(left: set<string>)       // the trie is updated, these prefixes are still to be invalidated

  /** raised and dropped: when the trie was last updated at a prefix, and when the prefix was last invalidated. */
  datatype Shared = Shared(
    counts: Counts,
    tops: Tops,
    tracked: map<string, State>,
    phase: Phase,
    cache: map<string, Entry>,
    readers: map<nat, Reader>,
    raised: map<string, nat>,
    dropped: map<string, nat>,
    time: nat,
    wall: int)

  datatype Event =
    | Begin(id: nat, p: string)
    | Match(id: nat)
    | ReadCount(id: nat, q: string)
    | Store(id: nat)
    | Serve(p: string)
    | Forget(p: string)
    | UpdateTrending(deltas: map<string, int>, now: nat)
    | UpdateTrie
    | Invalidate(p: string)
    | Finish
    | Wait

  /** All non-empty prefixes of the changed queries. */
  function PrefixesOf(changed: set<string>): set<string> {
    set q, i | q in changed && 1 <= i <= |q| :: q[..i]
  }

  ghost predicate ListedIn(top: seq<Candidate>, seen: Counts) {
    seen.Keys == Names(top) && forall c | c in top :: seen[c.query] == c.count
  }

  ghost predicate Step(cfg: Config, ttl: int, s: Shared, s': Shared, e: Event)
    requires cfg.Valid()
  {
    s'.time == s.time + 1 && s'.wall >= s.wall && (e.Wait? || s'.wall == s.wall) &&
    match e
    case Begin(id, p) =>
      p != "" && id !in s.readers && exists seen ::
        ListedIn(if p in s.tops then s.tops[p] else [], seen)
        && s' == s.(time := s'.time, readers := s.readers[id := Reader(p, s'.time, seen, {}, false)])
    case Match(id) =>
      id in s.readers && !s.readers[id].matched
      && s' == s.(time := s'.time, readers := s.readers[id := Matched(s.readers[id], s.tracked)])
    case ReadCount(id, q) =>
      id in s.readers && q in s.readers[id].todo
      && s' == s.(time := s'.time, readers := s.readers[id := Counted(s.readers[id], q, s.counts)])
    case Store(id) =>
      id in s.readers && s.readers[id].matched && s.readers[id].todo == {}
      && var r := s.readers[id];
      s' == s.(time := s'.time, readers := s.readers - {id},
               cache := s.cache[r.p := Entry.Entry(r.seen, r.began, s'.time, s.wall + ttl)])
    case Serve(p) => p in s.cache && s.wall <= s.cache[p].expires && s' == s.(time := s'.time)
    case Forget(p) => s' == s.(time := s'.time, cache := s.cache - {p})
    case UpdateTrending(deltas, now) =>
      s.phase.Resting? && PositiveDeltas(deltas) && "" !in deltas
      && TopCut(cfg.p, Recency.Bumped(cfg.p, s.tracked, deltas, now), s'.tracked, cfg.cap)
      && s' == s.(time := s'.time, tracked := s'.tracked, phase := Phase.Bumped(deltas))
    case UpdateTrie =>
      s.phase.Bumped? && var deltas := s.phase.deltas;
      s'.counts == AddDeltas(s.counts, deltas) && TrieOk(s'.counts, s'.tops, cfg.candidateN)
      && SameElsewhere(s.tops, s'.tops, Changed(deltas))
      && s' == s.(time := s'.time, counts := s'.counts, tops := s'.tops, phase := Dropping(PrefixesOf(deltas.Keys)),
                  raised := Stamp(s.raised, PrefixesOf(deltas.Keys), s'.time))
    case Invalidate(p) =>
      s.phase.Dropping? && p in s.phase.left
      && s' == s.(time := s'.time, cache := s.cache - {p}, phase := Dropping(s.phase.left - {p}),
                  dropped := s.dropped[p := s'.time])
    case Finish => s.phase == Dropping({}) && s' == s.(time := s'.time, phase := Resting)
    case Wait => s' == s.(time := s'.time, wall := s'.wall)
  }

  function Stamp(at: map<string, nat>, ps: set<string>, time: nat): map<string, nat> {
    map p | p in at.Keys + ps :: if p in ps then time else at[p]
  }

  function Matched(r: Reader, tracked: map<string, State>): Reader {
    r.(matched := true, todo := (set q | q in tracked && r.p <= q) - r.seen.Keys)
  }

  function Counted(r: Reader, q: string, counts: Counts): Reader {
    r.(seen := r.seen[q := CountOf(counts, q)], todo := r.todo - {q})
  }

  ghost predicate Start(cfg: Config, s: Shared)
    requires cfg.Valid()
  {
    && TrieOk(s.counts, s.tops, cfg.candidateN) && s.tracked.Keys <= s.counts.Keys
    && s.phase == Resting && s.cache == map[] && s.readers == map[]
    && s.raised == map[] && s.dropped == map[] && s.time == 0
  }

  ghost predicate IsRun(cfg: Config, ttl: int, run: seq<Shared>, events: seq<Event>)
    requires cfg.Valid()
  {
    && |run| == |events| + 1 && Start(cfg, run[0])
    && forall i | 0 <= i < |events| :: Step(cfg, ttl, run[i], run[i + 1], events[i])
  }

  // ----- The invariant -----

  /** A set collected for p is right as far as it goes. */
  ghost predicate Partial(s: Shared, p: string, seen: Counts, todo: set<string>, matched: bool) {
    && (forall q | q in seen :: q in s.counts && p <= q && seen[q] == s.counts[q])
    && (forall q | q in todo :: q in s.counts && p <= q)
    && (p in s.tops ==> Names(s.tops[p]) <= seen.Keys)
    && (matched ==> forall q | q in s.tracked && p <= q :: q in seen || q in todo)
  }

  /** The entry covers p: current counts, the trie's whole list, every tracked query. */
  ghost predicate Current(s: Shared, p: string, val: Counts) {
    Partial(s, p, val, {}, true)
  }

  /** A flush touching p has begun and has not invalidated p yet. */
  ghost predicate InProgress(s: Shared, p: string) {
    match s.phase
    case Resting => false
    case Bumped(deltas) => Affected(p, deltas.Keys)
    case Dropping(left) => p in left
  }

  ghost predicate TrieDue(s: Shared, p: string) {
    s.phase.Bumped? && Affected(p, s.phase.deltas.Keys)
  }

  function At(at: map<string, nat>, p: string): nat {
    if p in at then at[p] else 0
  }

  ghost predicate LowCounts(val: Counts, counts: Counts) {
    forall q | q in val :: val[q] <= CountOf(counts, q)
  }

  /** A read that began after the last trie update at its prefix is right, unless the next one is due. */
  ghost predicate ReaderOk(s: Shared, r: Reader) {
    && r.p != "" && 1 <= r.began <= s.time && r.began != At(s.raised, r.p) && (!r.matched ==> r.todo == {})
    && LowCounts(r.seen, s.counts)
    && (At(s.raised, r.p) < r.began && !TrieDue(s, r.p) ==> Partial(s, r.p, r.seen, r.todo, r.matched))
  }

  /** The read began before the latest trie update at p, and its set was stored after the invalidation that followed. */
  ghost predicate Raced(s: Shared, p: string, e: Entry) {
    e.began < At(s.raised, p) && At(s.dropped, p) < e.stored
  }

  ghost predicate EntryOk(s: Shared, p: string, e: Entry) {
    && p != "" && e.began < e.stored <= s.time && e.began != At(s.raised, p) && LowCounts(e.val, s.counts)
    && (At(s.raised, p) < e.began && !TrieDue(s, p) ==> Current(s, p, e.val))
    && (e.began < At(s.raised, p) ==> InProgress(s, p) || Raced(s, p, e))
  }

  ghost predicate Stamps(s: Shared) {
    && (forall p | p in s.raised :: 1 <= s.raised[p] <= s.time)
    && (forall p | p in s.dropped :: s.dropped[p] <= s.time)
    && (forall p | p in s.raised && !InDropping(s, p) :: p in s.dropped && s.raised[p] < s.dropped[p])
  }

  ghost predicate InDropping(s: Shared, p: string) {
    s.phase.Dropping? && p in s.phase.left
  }

  ghost predicate Base(cfg: Config, s: Shared)
    requires cfg.Valid()
  {
    && TrieOk(s.counts, s.tops, cfg.candidateN)
    && (s.phase.Bumped? ==> PositiveDeltas(s.phase.deltas) && "" !in s.phase.deltas)
    && (forall q | q in s.tracked :: q in s.counts || (s.phase.Bumped? && q in s.phase.deltas))
    && Stamps(s)
  }

  ghost predicate Sound(cfg: Config, s: Shared)
    requires cfg.Valid()
  {
    && Base(cfg, s)
    && (forall id | id in s.readers :: ReaderOk(s, s.readers[id]))
    && (forall p | p in s.cache :: EntryOk(s, p, s.cache[p]))
  }

  lemma {:induction false} PrefixesAreAffected(p: string, changed: set<string>)
    ensures p in PrefixesOf(changed) <==> Affected(p, changed)
  {
    if Affected(p, changed) {
      var q :| q in changed && p <= q;
      assert q[..|p|] == p;
    }
    if p in PrefixesOf(changed) {
      var q, i :| q in changed && 1 <= i <= |q| && q[..i] == p;
      assert p <= q;
    }
  }

  lemma NotBelow(p: string, changed: set<string>)
    requires p != "" && !Affected(p, changed)
    ensures forall q | q in changed :: !(p <= q)
  {
  }

  // ----- Each kind of step -----

  /** What a set for p depends on did not change. */
  ghost predicate SameBelow(s: Shared, s': Shared, p: string) {
    && (forall q | q in s.counts && p <= q :: q in s'.counts && s'.counts[q] == s.counts[q])
    && (forall q | q in s'.tracked && p <= q :: q in s.tracked)
    && (p in s'.tops ==> p in s.tops && s'.tops[p] == s.tops[p])
  }

  lemma PartialKept(s: Shared, s': Shared, p: string, seen: Counts, todo: set<string>, matched: bool)
    requires Partial(s, p, seen, todo, matched) && SameBelow(s, s', p)
    ensures Partial(s', p, seen, todo, matched)
  {
  }

  lemma TrendingElsewhere(cfg: Config, ttl: int, s: Shared, s': Shared, e: Event, p: string)
    requires cfg.Valid() && Step(cfg, ttl, s, s', e) && e.UpdateTrending? && p != "" && !TrieDue(s', p)
    ensures SameBelow(s, s', p) && InProgress(s, p) == InProgress(s', p)
  {
  }

  lemma {:induction false} TrieElsewhere(cfg: Config, ttl: int, s: Shared, s': Shared, p: string)
    requires cfg.Valid() && Base(cfg, s) && Step(cfg, ttl, s, s', UpdateTrie) && p != "" && !TrieDue(s, p)
    ensures SameBelow(s, s', p) && At(s'.raised, p) == At(s.raised, p)
  {
    var deltas := s.phase.deltas;
    NotBelow(p, deltas.Keys);
    PrefixesAreAffected(p, deltas.Keys);
    hide TrieOk;
    ChangedWithin(p, deltas);
  }

  lemma {:induction false} TrieRaises(cfg: Config, ttl: int, s: Shared, s': Shared, p: string)
    requires cfg.Valid() && Base(cfg, s) && Step(cfg, ttl, s, s', UpdateTrie) && TrieDue(s, p)
    ensures At(s'.raised, p) == s'.time && InProgress(s', p)
  {
    PrefixesAreAffected(p, s.phase.deltas.Keys);
  }

  /** Counts only grow. */
  lemma {:induction false} CountsGrow(cfg: Config, ttl: int, s: Shared, s': Shared, e: Event, q: string)
    requires cfg.Valid() && Base(cfg, s) && Step(cfg, ttl, s, s', e)
    ensures CountOf(s.counts, q) <= CountOf(s'.counts, q)
  {
    hide TrieOk, TopCut;
  }

  lemma {:induction false} LowStays(cfg: Config, ttl: int, s: Shared, s': Shared, e: Event, val: Counts)
    requires cfg.Valid() && Base(cfg, s) && Step(cfg, ttl, s, s', e) && LowCounts(val, s.counts)
    ensures LowCounts(val, s'.counts)
  {
    hide Base, Step;
    forall q | q in val ensures val[q] <= CountOf(s'.counts, q) {
      CountsGrow(cfg, ttl, s, s', e, q);
    }
  }

  lemma {:induction false} BaseStays(cfg: Config, ttl: int, s: Shared, s': Shared, e: Event)
    requires cfg.Valid() && Base(cfg, s) && Step(cfg, ttl, s, s', e)
    ensures Base(cfg, s')
  {
    hide TrieOk, SameElsewhere, BumpFrom, KeyOf, Stamps, PrefixesOf, Stamp, ListedIn;
    StampsStay(cfg, ttl, s, s', e);
    if e.UpdateTrie? {
      assert Changed(s.phase.deltas) == s.phase.deltas.Keys;
    }
  }

  lemma {:induction false} StampsStay(cfg: Config, ttl: int, s: Shared, s': Shared, e: Event)
    requires cfg.Valid() && Stamps(s) && Step(cfg, ttl, s, s', e)
    ensures Stamps(s')
  {
    hide Step, Stamps;
    if e.UpdateTrie? {
      TrieStamps(cfg, ttl, s, s');
    } else if e.Invalidate? {
      DropStamps(cfg, ttl, s, s', e.p);
    } else {
      QuietStamps(cfg, ttl, s, s', e);
    }
  }

  lemma {:induction false} TrieStamps(cfg: Config, ttl: int, s: Shared, s': Shared)
    requires cfg.Valid() && Stamps(s) && Step(cfg, ttl, s, s', UpdateTrie)
    ensures Stamps(s')
  {
    hide TrieOk, SameElsewhere, AddSome, PrefixesOf;
  }

  lemma DropStamps(cfg: Config, ttl: int, s: Shared, s': Shared, p: string)
    requires cfg.Valid() && Stamps(s) && Step(cfg, ttl, s, s', Invalidate(p))
    ensures Stamps(s')
  {
  }

  lemma {:induction false} QuietStamps(cfg: Config, ttl: int, s: Shared, s': Shared, e: Event)
    requires cfg.Valid() && Stamps(s) && Step(cfg, ttl, s, s', e) && !e.UpdateTrie? && !e.Invalidate?
    ensures Stamps(s')
  {
    QuietPhase(cfg, ttl, s, s', e);
    hide Step;
  }

  lemma {:induction false} QuietPhase(cfg: Config, ttl: int, s: Shared, s': Shared, e: Event)
    requires cfg.Valid() && Step(cfg, ttl, s, s', e) && !e.UpdateTrie? && !e.Invalidate?
    ensures s'.time == s.time + 1 && s'.raised == s.raised && s'.dropped == s.dropped
    ensures s'.phase == s.phase || s.phase == Resting || s.phase == Dropping({})
    ensures s'.phase == s.phase || !s'.phase.Dropping?
  {
    hide TrieOk, TopCut, ListedIn, Recency.Bumped, Matched, Counted;
    match e {
      case Begin(_, _) =>
      case Match(_) =>
      case ReadCount(_, _) =>
      case Store(_) =>
      case Serve(_) =>
      case Forget(_) =>
      case _ =>
    }
  }

  /** A read that this step leaves alone. */
  lemma {:induction false} ReaderStays(cfg: Config, ttl: int, s: Shared, s': Shared, e: Event, r: Reader)
    requires cfg.Valid() && Base(cfg, s) && Step(cfg, ttl, s, s', e) && ReaderOk(s, r)
    ensures ReaderOk(s', r)
  {
    hide Base, Step, Partial, SameBelow, TrieDue, LowCounts;
    LowStays(cfg, ttl, s, s', e, r.seen);
    PhaseFacts(cfg, ttl, s, s', e, r.p);
    if At(s'.raised, r.p) < r.began && !TrieDue(s', r.p) {
      PartialKept(s, s', r.p, r.seen, r.todo, r.matched);
    }
  }

  lemma {:induction false} TimeMoves(cfg: Config, ttl: int, s: Shared, s': Shared, e: Event)
    requires cfg.Valid() && Step(cfg, ttl, s, s', e)
    ensures s'.time == s.time + 1
    ensures e.UpdateTrending? ==> s'.raised == s.raised && s.phase.Resting?
    ensures e.UpdateTrie? ==> s'.phase.Dropping?
  {
    hide TrieOk, TopCut, AddSome, SameElsewhere, PrefixesOf, Stamp, ListedIn;
  }

  /** How a step relates to a prefix p: it leaves everything p depends on alone, or is part of a flush touching p. */
  lemma {:induction false} PhaseFacts(cfg: Config, ttl: int, s: Shared, s': Shared, e: Event, p: string)
    requires cfg.Valid() && Base(cfg, s) && Step(cfg, ttl, s, s', e) && p != ""
    ensures s'.time == s.time + 1 && At(s.raised, p) <= s.time
    ensures At(s'.raised, p) == At(s.raised, p) || (At(s'.raised, p) == s'.time && InProgress(s', p))
    ensures At(s'.raised, p) == At(s.raised, p) && !TrieDue(s', p) ==> SameBelow(s, s', p) && !TrieDue(s, p)
  {
    TimeMoves(cfg, ttl, s, s', e);
    hide Step;
    if e.UpdateTrie? {
      if TrieDue(s, p) {
        TrieRaises(cfg, ttl, s, s', p);
      } else {
        TrieElsewhere(cfg, ttl, s, s', p);
      }
    } else if e.UpdateTrending? {
      if !TrieDue(s', p) {
        TrendingElsewhere(cfg, ttl, s, s', e, p);
      }
    } else {
      QuietStep(cfg, ttl, s, s', e);
    }
  }

  /** No other step changes what cached sets depend on. */
  lemma {:induction false} QuietStep(cfg: Config, ttl: int, s: Shared, s': Shared, e: Event)
    requires cfg.Valid() && Step(cfg, ttl, s, s', e) && !e.UpdateTrie? && !e.UpdateTrending?
    ensures s'.counts == s.counts && s'.tops == s.tops && s'.tracked == s.tracked && s'.raised == s.raised
    ensures s'.phase.Bumped? <==> s.phase.Bumped?
    ensures s.phase.Bumped? ==> s'.phase == s.phase
  {
    hide TrieOk, TopCut, AddSome, SameElsewhere, PrefixesOf, Stamp, ListedIn;
    match e {
      case Begin(_, _) =>
      case Match(_) =>
      case ReadCount(_, _) =>
      case Store(_) =>
      case Serve(_) =>
      case Forget(_) =>
      case Invalidate(_) =>
      case _ =>
    }
  }

  /** An entry that this step leaves in the cache. */
  lemma {:induction false} EntryStays(cfg: Config, ttl: int, s: Shared, s': Shared, e: Event, p: string, x: Entry)
    requires cfg.Valid() && Base(cfg, s) && Step(cfg, ttl, s, s', e) && EntryOk(s, p, x)
    requires !(e.Invalidate? && e.p == p)
    ensures EntryOk(s', p, x)
  {
    hide Base, Step, Partial, SameBelow, TrieDue, InProgress, LowCounts;
    LowStays(cfg, ttl, s, s', e, x.val);
    PhaseFacts(cfg, ttl, s, s', e, p);
    RaceStays(cfg, ttl, s, s', e, p);
    if At(s'.raised, p) < x.began && !TrieDue(s', p) {
      PartialKept(s, s', p, x.val, {}, true);
    }
  }

  lemma {:induction false} RaceStays(cfg: Config, ttl: int, s: Shared, s': Shared, e: Event, p: string)
    requires cfg.Valid() && Base(cfg, s) && Step(cfg, ttl, s, s', e) && p != "" && !(e.Invalidate? && e.p == p)
    ensures At(s'.dropped, p) == At(s.dropped, p)
    ensures InProgress(s, p) ==> InProgress(s', p)
  {
    hide TrieOk, TopCut, AddSome;
    if e.UpdateTrie? {
      PrefixesAreAffected(p, s.phase.deltas.Keys);
    }
  }

  /** The entry that Store puts in. */
  lemma {:induction false} StoredOk(cfg: Config, ttl: int, s: Shared, s': Shared, id: nat)
    requires cfg.Valid() && Base(cfg, s) && Step(cfg, ttl, s, s', Store(id)) && ReaderOk(s, s.readers[id])
    ensures EntryOk(s', s.readers[id].p, s'.cache[s.readers[id].p])
  {
    hide TrieOk;
  }

  lemma {:induction false} BegunOk(cfg: Config, ttl: int, s: Shared, s': Shared, id: nat, p: string)
    requires cfg.Valid() && Base(cfg, s) && Step(cfg, ttl, s, s', Begin(id, p))
    ensures ReaderOk(s', s'.readers[id])
  {
    hide TrieOk;
    if p in s.tops {
      ListIsRight(cfg, s, p);
    }
  }

  lemma ListIsRight(cfg: Config, s: Shared, p: string)
    requires cfg.Valid() && TrieOk(s.counts, s.tops, cfg.candidateN) && p in s.tops && p != ""
    ensures forall c | c in s.tops[p] :: c.query in s.counts && p <= c.query && s.counts[c.query] == c.count
  {
  }

  lemma {:induction false} MatchedOk(cfg: Config, ttl: int, s: Shared, s': Shared, id: nat)
    requires cfg.Valid() && Base(cfg, s) && Step(cfg, ttl, s, s', Match(id)) && ReaderOk(s, s.readers[id])
    ensures ReaderOk(s', s'.readers[id])
  {
    hide TrieOk;
    var r := s.readers[id];
    if !TrieDue(s, r.p) && s.phase.Bumped? {
      NotBelow(r.p, s.phase.deltas.Keys);
    }
  }

  lemma {:induction false} CountedOk(cfg: Config, ttl: int, s: Shared, s': Shared, id: nat, q: string)
    requires cfg.Valid() && Base(cfg, s) && Step(cfg, ttl, s, s', ReadCount(id, q)) && ReaderOk(s, s.readers[id])
    ensures ReaderOk(s', s'.readers[id])
  {
    hide TrieOk;
  }

  lemma {:induction false} StepKeepsSound(cfg: Config, ttl: int, s: Shared, s': Shared, e: Event)
    requires cfg.Valid() && Sound(cfg, s) && Step(cfg, ttl, s, s', e)
    ensures Sound(cfg, s')
  {
    BaseStays(cfg, ttl, s, s', e);
    ReadersStay(cfg, ttl, s, s', e);
    EntriesStay(cfg, ttl, s, s', e);
    hide Base, Step, ReaderOk, EntryOk;
  }

  lemma {:induction false} ReadersStay(cfg: Config, ttl: int, s: Shared, s': Shared, e: Event)
    requires cfg.Valid() && Sound(cfg, s) && Step(cfg, ttl, s, s', e)
    ensures forall id | id in s'.readers :: ReaderOk(s', s'.readers[id])
  {
    hide Base, ReaderOk, EntryOk, TrieOk, TopCut, AddSome;
    forall id | id in s'.readers ensures ReaderOk(s', s'.readers[id]) {
      if e.Begin? && e.id == id {
        BegunOk(cfg, ttl, s, s', id, e.p);
      } else if e.Match? && e.id == id {
        MatchedOk(cfg, ttl, s, s', id);
      } else if e.ReadCount? && e.id == id {
        CountedOk(cfg, ttl, s, s', id, e.q);
      } else {
        ReaderStays(cfg, ttl, s, s', e, s.readers[id]);
      }
    }
  }

  lemma {:induction false} EntriesStay(cfg: Config, ttl: int, s: Shared, s': Shared, e: Event)
    requires cfg.Valid() && Sound(cfg, s) && Step(cfg, ttl, s, s', e)
    ensures forall p | p in s'.cache :: EntryOk(s', p, s'.cache[p])
  {
    hide Base, ReaderOk, EntryOk, TrieOk, TopCut, AddSome;
    forall p | p in s'.cache ensures EntryOk(s', p, s'.cache[p]) {
      if e.Store? && s.readers[e.id].p == p {
        StoredOk(cfg, ttl, s, s', e.id);
      } else {
        EntryStays(cfg, ttl, s, s', e, p, s.cache[p]);
      }
    }
  }

  lemma {:induction false} RunSound(cfg: Config, ttl: int, run: seq<Shared>, events: seq<Event>, i: nat)
    requires cfg.Valid() && IsRun(cfg, ttl, run, events) && i < |run|
    ensures Sound(cfg, run[i]) && run[i].time == i
  {
    hide TrieOk, ReaderOk, EntryOk;
    if i > 0 {
      RunSound(cfg, ttl, run, events, i - 1);
      StepKeepsSound(cfg, ttl, run[i - 1], run[i], events[i - 1]);
    }
  }

  // ----- The theorems -----

  /**
    Staleness in every interleaving. A cached count never exceeds the current one; and an entry fails to
    cover its prefix only while a flush touching the prefix is under way and has not invalidated it, or if
    its read began before the latest trie update there and it was stored after the invalidation.
   */
  lemma {:induction false} StaleOnlyByRace(cfg: Config, ttl: int, run: seq<Shared>, events: seq<Event>, i: nat,
                                           p: string)
    requires cfg.Valid() && IsRun(cfg, ttl, run, events) && i < |run| && p in run[i].cache
    ensures var s, x := run[i], run[i].cache[p];
            LowCounts(x.val, s.counts) && (Current(s, p, x.val) || InProgress(s, p) || Raced(s, p, x))
  {
    RunSound(cfg, ttl, run, events, i);
    hide Base, Current, LowCounts, IsRun;
  }

  /**
    Whatever order a current entry's candidates are listed in, re-ranking them gives a true top-K over all
    stored queries.
   */
  lemma {:induction false} CurrentServesTopK(cfg: Config, s: Shared, p: string, val: Counts, listed: Value,
                                             recency: bool, now: nat)
    requires cfg.Valid() && TrieOk(s.counts, s.tops, cfg.candidateN) && p != "" && Current(s, p, val)
    requires DistinctQueries(AsRanked(listed)) && ListedIn(listed, val)
    ensures IsTop(RankOf(cfg, s.tracked, listed, recency, now),
                  ScoreBoard(cfg, s.counts, s.tracked, p, recency, now), cfg.topK)
  {
    hide TrieOk, RankOf, ScoreBoard, IsTop;
    assert forall c | c in listed :: c.query in val;
    RankIsTop(cfg, s.counts, s.tops, s.tracked, p, listed, recency, now);
  }

  /** x was stored at step x.stored, from a read that began at step x.began, and expires ttl after that. */
  ghost predicate StoredThen(ttl: int, run: seq<Shared>, events: seq<Event>, p: string, x: Entry) {
    && 1 <= x.began < x.stored <= |events| < |run|
    && events[x.stored - 1].Store? && events[x.began - 1].Begin? && events[x.began - 1].p == p
    && p in run[x.stored].cache && run[x.stored].cache[p] == x && x.expires == run[x.stored].wall + ttl
  }

  /** A read under way began at the step it says. */
  ghost predicate BegunThen(run: seq<Shared>, events: seq<Event>, r: Reader) {
    1 <= r.began <= |events| && events[r.began - 1].Begin? && events[r.began - 1].p == r.p
  }

  ghost predicate Traced(ttl: int, run: seq<Shared>, events: seq<Event>, s: Shared) {
    && (forall p | p in s.cache :: StoredThen(ttl, run, events, p, s.cache[p]))
    && (forall id | id in s.readers :: BegunThen(run, events, s.readers[id]) && s.readers[id].began <= s.time)
  }

  lemma {:induction false} RunTraced(cfg: Config, ttl: int, run: seq<Shared>, events: seq<Event>, i: nat)
    requires cfg.Valid() && IsRun(cfg, ttl, run, events) && i < |run|
    ensures Traced(ttl, run, events, run[i])
  {
    if i > 0 {
      hide Step, Traced;
      RunTraced(cfg, ttl, run, events, i - 1);
      RunTimes(cfg, ttl, run, events, i);
      StepTraced(cfg, ttl, run, events, i - 1);
    }
  }

  lemma {:induction false} RunTimes(cfg: Config, ttl: int, run: seq<Shared>, events: seq<Event>, i: nat)
    requires cfg.Valid() && IsRun(cfg, ttl, run, events) && i < |run|
    ensures run[i].time == i && (i > 0 ==> run[i - 1].time == i - 1)
  {
    hide Step, Sound;
    RunSound(cfg, ttl, run, events, i);
    if i > 0 {
      RunSound(cfg, ttl, run, events, i - 1);
    }
  }

  lemma {:induction false} StepTraced(cfg: Config, ttl: int, run: seq<Shared>, events: seq<Event>, i: nat)
    requires cfg.Valid() && i < |events| == |run| - 1 && Step(cfg, ttl, run[i], run[i + 1], events[i])
    requires Traced(ttl, run, events, run[i]) && run[i].time == i && run[i + 1].time == i + 1
    ensures Traced(ttl, run, events, run[i + 1])
  {
    hide Step, StoredThen, BegunThen;
    var s, s' := run[i], run[i + 1];
    forall p | p in s'.cache ensures StoredThen(ttl, run, events, p, s'.cache[p]) {
      EntryTraced(cfg, ttl, run, events, i, p);
    }
    forall id | id in s'.readers ensures BegunThen(run, events, s'.readers[id]) && s'.readers[id].began <= s'.time {
      ReaderTraced(cfg, ttl, run, events, i, id);
    }
  }

  lemma {:induction false} EntryTraced(cfg: Config, ttl: int, run: seq<Shared>, events: seq<Event>, i: nat, p: string)
    requires cfg.Valid() && i < |events| == |run| - 1 && Step(cfg, ttl, run[i], run[i + 1], events[i])
    requires Traced(ttl, run, events, run[i]) && run[i].time == i && run[i + 1].time == i + 1 && p in run[i + 1].cache
    ensures StoredThen(ttl, run, events, p, run[i + 1].cache[p])
  {
    var s, s', e := run[i], run[i + 1], events[i];
    CacheStep(cfg, ttl, s, s', e, p);
    hide Step;
    if p in s.cache && s'.cache[p] == s.cache[p] {
      assert StoredThen(ttl, run, events, p, s.cache[p]);
    } else {
      assert BegunThen(run, events, s.readers[e.id]);
    }
  }

  /** A step only puts in the set of a read that has finished. */
  lemma {:induction false} CacheStep(cfg: Config, ttl: int, s: Shared, s': Shared, e: Event, p: string)
    requires cfg.Valid() && Step(cfg, ttl, s, s', e) && p in s'.cache
    ensures (p in s.cache && s'.cache[p] == s.cache[p])
            || (e.Store? && e.id in s.readers && s.readers[e.id].p == p
                && s'.cache[p] == Entry.Entry(s.readers[e.id].seen, s.readers[e.id].began, s'.time, s'.wall + ttl))
  {
    hide TrieOk, TopCut, AddSome, PrefixesOf, SameElsewhere, Stamp, ListedIn;
  }

  lemma {:induction false} ReaderTraced(cfg: Config, ttl: int, run: seq<Shared>, events: seq<Event>, i: nat, id: nat)
    requires cfg.Valid() && i < |events| == |run| - 1 && Step(cfg, ttl, run[i], run[i + 1], events[i])
    requires Traced(ttl, run, events, run[i]) && run[i].time == i && run[i + 1].time == i + 1
             && id in run[i + 1].readers
    ensures BegunThen(run, events, run[i + 1].readers[id]) && run[i + 1].readers[id].began <= i + 1
  {
    hide TrieOk, TopCut, AddSome, PrefixesOf, SameElsewhere, Stamp, ListedIn, StoredThen;
    var s, s', e := run[i], run[i + 1], events[i];
    if !(e.Begin? && e.id == id) {
      assert id in s.readers && s'.readers[id].began == s.readers[id].began && s'.readers[id].p == s.readers[id].p;
    }
  }

  /** No entry is served later than ttl after it was stored. */
  lemma {:induction false} ServedWithinTtl(cfg: Config, ttl: int, run: seq<Shared>, events: seq<Event>, i: nat)
    requires cfg.Valid() && IsRun(cfg, ttl, run, events) && i < |events| && events[i].Serve?
    ensures var p := events[i].p;
            p in run[i].cache && StoredThen(ttl, run, events, p, run[i].cache[p]) && run[i].cache[p].stored <= i
            && run[i].wall <= run[run[i].cache[p].stored].wall + ttl
  {
    RunTraced(cfg, ttl, run, events, i);
    RunSound(cfg, ttl, run, events, i);
    assert Step(cfg, ttl, run[i], run[i + 1], events[i]);
    hide IsRun, TrieOk;
  }

  // ----- The race is real -----

  lemma {:induction false} OneStored(k: nat)
    requires k >= 1
    ensures TrieOk(map["a" := 1], map["" := [], "a" := [Candidate("a", 1, 0.0, 0)]], k)
  {
    var counts, c := map["a" := 1], Candidate("a", 1, 0.0, 0);
    assert AsRanked([c]) == [RankedOf(c)];
    assert CountBoard(counts, "a") == map["a" := 1.0];
    assert RankedOf(c).query in CountBoard(counts, "a");
    var tops: Tops := map["" := [], "a" := [c]];
    forall q, p | q in counts && p <= q ensures p in tops {
      assert q == "a" && q[..|p|] == p;
      if |p| == 0 {
        assert p == "";
      } else {
        assert p == q;
      }
    }
  }

  /**
    A read that began before the first search of "a" was applied stores its empty set after "a" was
    invalidated: the flush is over, and the cached set misses a stored, tracked query until it expires.
   */
  lemma {:induction false} RaceLeavesStale(cfg: Config, ttl: int) returns (run: seq<Shared>, events: seq<Event>)
    requires cfg.Valid()
    ensures IsRun(cfg, ttl, run, events)
    ensures var s := run[|events|];
            s.phase == Resting && "a" in s.cache && Raced(s, "a", s.cache["a"]) && !Current(s, "a", s.cache["a"].val)
  {
    var s0 := Shared(map[], map[], map[], Resting, map[], map[], map[], map[], 0, 0);
    EmptyStart(cfg, s0);
    run, events := [s0], [];
    hide TrieOk, Step, Start, IsRun;
    run, events := ColdRead(cfg, ttl, run, events);
    run, events := FirstFlush(cfg, ttl, run, events);
    var s := run[|events|];
    assert "a" in s.tracked && "a" <= "a";
  }

  /** A read of "a" that finds nothing. */
  lemma {:induction false} ColdRead(cfg: Config, ttl: int, run0: seq<Shared>, events0: seq<Event>)
    returns (run: seq<Shared>, events: seq<Event>)
    requires cfg.Valid() && IsRun(cfg, ttl, run0, events0)
    requires run0[|events0|] == Shared(map[], map[], map[], Resting, map[], map[], map[], map[], 0, 0)
    ensures IsRun(cfg, ttl, run, events)
    ensures run[|events|] == run0[|events0|].(time := 2, readers := map[0 := Reader("a", 1, map[], {}, true)])
  {
    var s0 := run0[|events0|];
    hide TrieOk, Step, Start, IsRun;
    var s1, s2 := ReadOfNothing(cfg, ttl, s0);
    run, events := Extend(cfg, ttl, run0, events0, s1, Begin(0, "a"));
    run, events := Extend(cfg, ttl, run, events, s2, Match(0));
  }

  /** The first search of "a" is applied, and only then the read stores what it found. */
  lemma {:induction false} FirstFlush(cfg: Config, ttl: int, run0: seq<Shared>, events0: seq<Event>)
    returns (run: seq<Shared>, events: seq<Event>)
    requires cfg.Valid() && IsRun(cfg, ttl, run0, events0)
    requires run0[|events0|] == Shared(map[], map[], map[], Resting, map[], map[0 := Reader("a", 1, map[], {}, true)],
                                       map[], map[], 2, 0)
    ensures IsRun(cfg, ttl, run, events)
    ensures var s := run[|events|];
            s.phase == Resting && s.cache == map["a" := Entry.Entry(map[], 1, 7, ttl)] && "a" in s.tracked
            && s.raised == map["a" := 4] && s.dropped == map["a" := 5]
  {
    var s2 := run0[|events0|];
    hide TrieOk, Step, Start, IsRun;
    var s3 := FirstBump(cfg, ttl, s2);
    var s4 := s3.(time := 4, counts := map["a" := 1], tops := map["" := [], "a" := [Candidate("a", 1, 0.0, 0)]],
                  phase := Dropping({"a"}), raised := map["a" := 4]);
    FirstSearch(cfg, ttl, s3, s4);
    var s5, s6, s7 := FlushEnds(cfg, ttl, s4);
    run, events := Extend(cfg, ttl, run0, events0, s3, UpdateTrending(map["a" := 1], 0));
    run, events := Extend(cfg, ttl, run, events, s4, UpdateTrie);
    run, events := Extend(cfg, ttl, run, events, s5, Invalidate("a"));
    run, events := Extend(cfg, ttl, run, events, s6, Finish);
    run, events := Extend(cfg, ttl, run, events, s7, Store(0));
  }

  lemma {:induction false} Extend(cfg: Config, ttl: int, run: seq<Shared>, events: seq<Event>, s: Shared, e: Event)
    returns (run': seq<Shared>, events': seq<Event>)
    requires cfg.Valid() && IsRun(cfg, ttl, run, events) && Step(cfg, ttl, run[|events|], s, e)
    ensures IsRun(cfg, ttl, run', events') && run'[|events'|] == s
  {
    hide Step, Start;
    run', events' := run + [s], events + [e];
  }

  lemma {:induction false} ReadOfNothing(cfg: Config, ttl: int, s0: Shared) returns (s1: Shared, s2: Shared)
    requires cfg.Valid() && s0 == Shared(map[], map[], map[], Resting, map[], map[], map[], map[], 0, 0)
    ensures Step(cfg, ttl, s0, s1, Begin(0, "a")) && Step(cfg, ttl, s1, s2, Match(0))
    ensures s2 == s0.(time := 2, readers := map[0 := Reader("a", 1, map[], {}, true)])
  {
    var r := Reader("a", 1, map[], {}, false);
    s1 := s0.(time := 1, readers := map[0 := r]);
    s2 := s1.(time := 2, readers := map[0 := r.(matched := true)]);
    assert ListedIn([], map[]);
    assert Matched(r, map[]) == r.(matched := true);
  }

  lemma {:induction false} FirstBump(cfg: Config, ttl: int, s2: Shared) returns (s3: Shared)
    requires cfg.Valid() && s2.phase == Resting && s2.tracked == map[] && s2.time == 2
    ensures Step(cfg, ttl, s2, s3, UpdateTrending(map["a" := 1], 0)) && s3.tracked.Keys == {"a"}
    ensures s3 == s2.(time := 3, tracked := s3.tracked, phase := Phase.Bumped(map["a" := 1]))
  {
    var tracked := Recency.Bumped(cfg.p, map[], map["a" := 1], 0);
    assert tracked.Keys == {"a"} && |tracked| == |tracked.Keys|;
    hide Recency.Bumped, BumpFrom, TrieOk;
    s3 := s2.(time := 3, tracked := tracked, phase := Phase.Bumped(map["a" := 1]));
  }

  lemma {:induction false} FlushEnds(cfg: Config, ttl: int, s4: Shared) returns (s5: Shared, s6: Shared, s7: Shared)
    requires cfg.Valid() && s4.phase == Dropping({"a"}) && s4.cache == map[] && s4.dropped == map[]
    requires s4.readers == map[0 := Reader("a", 1, map[], {}, true)] && s4.time == 4 && s4.wall == 0
    ensures Step(cfg, ttl, s4, s5, Invalidate("a")) && Step(cfg, ttl, s5, s6, Finish)
            && Step(cfg, ttl, s6, s7, Store(0))
    ensures s7 == s4.(time := 7, phase := Resting, dropped := map["a" := 5], readers := map[],
                      cache := map["a" := Entry.Entry(map[], 1, 7, ttl)])
  {
    hide TrieOk;
    assert {"a"} - {"a"} == {} && s4.cache - {"a"} == map[];
    s5 := s4.(time := 5, phase := Dropping({}), dropped := map["a" := 5]);
    s6 := s5.(time := 6, phase := Resting);
    s7 := s6.(time := 7, readers := map[], cache := map["a" := Entry.Entry(map[], 1, 7, ttl)]);
  }

  lemma EmptyStart(cfg: Config, s: Shared)
    requires cfg.Valid() && s == Shared(map[], map[], map[], Resting, map[], map[], map[], map[], 0, 0)
    ensures Start(cfg, s)
  {
  }

  lemma {:induction false} PrefixOfA()
    ensures PrefixesOf({"a"}) == {"a"}
  {
    assert "a"[..1] == "a";
  }

  lemma {:induction false} FirstSearch(cfg: Config, ttl: int, s: Shared, s': Shared)
    requires cfg.Valid() && s.phase == Phase.Bumped(map["a" := 1]) && s.counts == map[] && s.tops == map[]
             && s.raised == map[]
    requires s' == s.(time := s.time + 1, counts := map["a" := 1],
                      tops := map["" := [], "a" := [Candidate("a", 1, 0.0, 0)]],
                      phase := Dropping({"a"}), raised := map["a" := s.time + 1])
    ensures Step(cfg, ttl, s, s', UpdateTrie)
  {
    PrefixOfA();
    OneStored(cfg.candidateN);
    hide TrieOk, PrefixesOf;
    assert map["a" := 1].Keys == {"a"};
    assert Changed(map["a" := 1]) == {"a"};
    assert AddDeltas(map[], map["a" := 1]) == map["a" := 1];
    assert Stamp(map[], {"a"}, s.time + 1) == map["a" := s.time + 1];
  }
}
