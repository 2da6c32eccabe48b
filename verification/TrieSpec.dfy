/**
  What the trie's per-node lists mean: `TopFor` says a list is a top-k by count of the stored queries
  that extend a prefix. Counts are integers; the general theory of top-k lists is over reals.
 */
module TrieSpec {
  import opened Model
  import opened Ordering
  import opened TopLists
  import opened TopUpdates

  type Counts = map<string, int>

  predicate CandidateLess(a: Candidate, b: Candidate) {
    a.count > b.count || (a.count == b.count && LexLess(a.query, b.query))
  }

  function RankedOf(c: Candidate): Ranked {
    Ranked(c.query, c.count as real)
  }

  function AsRanked(top: seq<Candidate>): (rs: seq<Ranked>)
    ensures |rs| == |top|
    ensures forall i | 0 <= i < |top| :: rs[i] == RankedOf(top[i])
  {
    if top == [] then [] else [RankedOf(top[0])] + AsRanked(top[1..])
  }

  /** The score board of a prefix: every stored query that extends it, by count. */
  function CountBoard(counts: Counts, p: string): map<string, real> {
    map q | q in counts && p <= q :: counts[q] as real
  }

  ghost predicate TopFor(top: seq<Candidate>, counts: Counts, p: string, k: nat) {
    IsTop(AsRanked(top), CountBoard(counts, p), k)
  }

  /** The list a bulk build computes: the best k, ties broken by query. */
  ghost predicate BestFor(top: seq<Candidate>, counts: Counts, p: string, k: nat) {
    AsRanked(top) == BestOf(CountBoard(counts, p), k)
  }

  lemma {:induction false} BestForIsTop(top: seq<Candidate>, counts: Counts, p: string, k: nat)
    requires BestFor(top, counts, p, k)
    ensures TopFor(top, counts, p, k)
  {
    BestLeads(CountBoard(counts, p), k);
  }

  /**
    The order of a finished list, said outright: counts descend, at equal counts a query stands before its own
    extensions, and no listed query has a stored prefix below p with the same count that is left out.
   */
  ghost predicate TieBroken(top: seq<Candidate>, counts: Counts, p: string) {
    && (forall i, j | 0 <= i < j < |top| :: top[i].count >= top[j].count)
    && (forall i, j | 0 <= i < |top| && 0 <= j < |top| && top[i].count == top[j].count && top[i].query < top[j].query ::
          i < j)
    && (forall q, c | q in counts && p <= q && c in top && counts[q] == c.count && q < c.query ::
          exists d :: d in top && d.query == q)
  }

  lemma {:induction false} BestIsTieBroken(top: seq<Candidate>, counts: Counts, p: string, k: nat)
    requires BestFor(top, counts, p, k)
    ensures TieBroken(top, counts, p)
  {
    hide CountBoard, Queries;
    BestPrefixesFirst(CountBoard(counts, p), k);
    BestLeads(CountBoard(counts, p), k);
    assert SortedBy(Before, AsRanked(top));
    hide BestOf, Leads, IsTop, Before, SortedBy;
    CountsDescend(top);
    PrefixesListed(top, counts, p);
    forall i, j | 0 <= i < |top| && 0 <= j < |top| && top[i].count == top[j].count && top[i].query < top[j].query
      ensures i < j
    {
      assert AsRanked(top)[i].score == AsRanked(top)[j].score && AsRanked(top)[i].query < AsRanked(top)[j].query;
    }
  }

  lemma {:induction false} CountsDescend(top: seq<Candidate>)
    requires SortedBy(Before, AsRanked(top))
    ensures forall i, j | 0 <= i < j < |top| :: top[i].count >= top[j].count
  {
    forall i, j | 0 <= i < j < |top| ensures top[i].count >= top[j].count {
      assert Before(AsRanked(top)[i], AsRanked(top)[j]);
    }
  }

  lemma {:induction false} PrefixesListed(top: seq<Candidate>, counts: Counts, p: string)
    requires var rs, board := AsRanked(top), CountBoard(counts, p);
             forall q, r | q in board && r in rs && board[q] == r.score && q < r.query :: q in Queries(rs)
    ensures forall q, c | q in counts && p <= q && c in top && counts[q] == c.count && q < c.query ::
              exists d :: d in top && d.query == q
  {
    RankedMembers(top);
    hide AsRanked;
    forall q, c | q in counts && p <= q && c in top && counts[q] == c.count && q < c.query
      ensures exists d :: d in top && d.query == q
    {
      assert RankedOf(c) in AsRanked(top) && q in CountBoard(counts, p);
      assert q in Names(top);
    }
  }

  ghost function Names(top: seq<Candidate>): set<string> {
    set c | c in top :: c.query
  }

  lemma RankedMembers(top: seq<Candidate>)
    ensures Queries(AsRanked(top)) == Names(top)
    ensures forall c | c in top :: RankedOf(c) in AsRanked(top)
    ensures forall r | r in AsRanked(top) :: exists c :: c in top && RankedOf(c) == r
  {
  }

  /** Listed counts are the stored counts, and every listed query extends the prefix. */
  lemma {:induction false} TopForExact(top: seq<Candidate>, counts: Counts, p: string, k: nat)
    requires TopFor(top, counts, p, k)
    ensures forall c | c in top :: c.query in counts && p <= c.query && counts[c.query] == c.count
    ensures |Names(top)| == |top| == Min(k, |CountBoard(counts, p)|)
  {
    RankedMembers(top);
    forall c | c in top ensures c.query in counts && p <= c.query && counts[c.query] == c.count {
      assert RankedOf(c) in AsRanked(top);
    }
    TopLength(AsRanked(top), CountBoard(counts, p), k);
    QueriesCount(AsRanked(top), CountBoard(counts, p));
  }

  lemma {:induction false} InsertCommutes(c: Candidate, s: seq<Candidate>)
    ensures AsRanked(InsertBy(CandidateLess, c, s)) == InsertBy(Before, RankedOf(c), AsRanked(s))
  {
    if s != [] && !CandidateLess(c, s[0]) {
      InsertCommutes(c, s[1..]);
      assert AsRanked(s)[1..] == AsRanked(s[1..]);
      var t := InsertBy(CandidateLess, c, s[1..]);
      assert ([s[0]] + t)[1..] == t;
    }
  }

  /** Sorting candidates by (count desc, query asc) is sorting their ranked images. */
  lemma {:induction false} SortCommutes(s: seq<Candidate>)
    ensures AsRanked(SortBy(CandidateLess, s)) == SortBy(Before, AsRanked(s))
  {
    if s != [] {
      SortCommutes(s[1..]);
      assert AsRanked(s)[1..] == AsRanked(s[1..]);
      InsertCommutes(s[0], SortBy(CandidateLess, s[1..]));
    }
  }

  lemma AsRankedSlice(s: seq<Candidate>, n: nat)
    requires n <= |s|
    ensures AsRanked(s[..n]) == AsRanked(s)[..n]
  {
  }

  function FirstOf(s: seq<Candidate>, k: nat): seq<Candidate> {
    if |s| > k then s[..k] else s
  }

  /** The first n of a node's list are a top-n. */
  lemma {:induction false} FirstOfTopFor(top: seq<Candidate>, counts: Counts, p: string, k: nat, n: nat)
    requires TopFor(top, counts, p, k)
    ensures TopFor(FirstOf(top, n), counts, p, Min(n, k))
  {
    TopOfTop(AsRanked(top), CountBoard(counts, p), k, n);
    AsRankedSlice(top, Min(n, |top|));
    assert top[..|top|] == top;
  }

  /** Candidates with pairwise different, stored queries below p and their stored counts. */
  ghost predicate Collected(cands: seq<Candidate>, counts: Counts, p: string) {
    && DistinctQueries(AsRanked(cands))
    && forall c | c in cands :: c.query in counts && p <= c.query && counts[c.query] == c.count
  }

  /** q is listed itself, or is left out by the best k of some part below p that are all collected. */
  ghost predicate Accounted(cands: seq<Candidate>, counts: Counts, k: nat, q: string) {
    q in Names(cands) ||
    exists sub, p' :: p' <= q && BestFor(sub, counts, p', k) && forall c | c in sub :: c in cands
  }

  /**
    Merging: if every stored query below p is accounted for by the collected candidates, sorting them and
    keeping k gives the best k for p, whatever the order they were collected in.
   */
  lemma {:induction false} MergedTop(cands: seq<Candidate>, counts: Counts, p: string, k: nat)
    requires Collected(cands, counts, p)
    requires forall q | q in counts && p <= q :: Accounted(cands, counts, k, q)
    ensures BestFor(FirstOf(SortBy(CandidateLess, cands), k), counts, p, k)
  {
    var board := CountBoard(counts, p);
    var part := map q | q in Names(cands) && q in board :: board[q];
    CollectedIsPart(cands, counts, p, part);
    SortedCollected(cands, part);
    var s := SortBy(CandidateLess, cands);
    hide BestOf;
    forall q | q in board && q !in part ensures Preceded(Ranked(q, board[q]), part, k) {
      PartPrecedes(cands, counts, k, q, part);
    }
    CoverBest(AsRanked(s), part, board, k);
    CutRanked(s, k);
  }

  lemma CutRanked(s: seq<Candidate>, k: nat)
    ensures AsRanked(FirstOf(s, k)) == AsRanked(s)[..Min(k, |AsRanked(s)|)]
  {
  }

  lemma CollectedIsPart(cands: seq<Candidate>, counts: Counts, p: string, part: map<string, real>)
    requires Collected(cands, counts, p)
    requires part == map q | q in Names(cands) && q in CountBoard(counts, p) :: CountBoard(counts, p)[q]
    ensures part.Keys == Names(cands) && forall c | c in cands :: part[c.query] == c.count as real
  {
  }

  lemma {:induction false} SortedCollected(cands: seq<Candidate>, part: map<string, real>)
    requires DistinctQueries(AsRanked(cands))
    requires part.Keys == Names(cands) && forall c | c in cands :: part[c.query] == c.count as real
    ensures IsFull(AsRanked(SortBy(CandidateLess, cands)), part)
  {
    RankedMembers(cands);
    SortedIsFull(AsRanked(cands), part);
    SortCommutes(cands);
  }

  lemma {:induction false} PartPrecedes(cands: seq<Candidate>, counts: Counts, k: nat, q: string,
                                        part: map<string, real>)
    requires q in counts && q !in Names(cands) && Accounted(cands, counts, k, q)
    requires part.Keys == Names(cands) && forall c | c in cands :: part[c.query] == c.count as real
    ensures Preceded(Ranked(q, counts[q] as real), part, k)
  {
    var sub: seq<Candidate>, p': string :| p' <= q && BestFor(sub, counts, p', k) && forall c | c in sub :: c in cands;
    var x := Ranked(q, counts[q] as real);
    RankedMembers(sub);
    BestForIsTop(sub, counts, p', k);
    TopForExact(sub, counts, p', k);
    BestLeads(CountBoard(counts, p'), k);
    assert q in CountBoard(counts, p') && q !in Queries(AsRanked(sub));
    hide BestOf;
    forall t | t in Names(sub) ensures t in part && Before(Ranked(t, part[t]), x) {
      var c :| c in sub && c.query == t;
      assert RankedOf(c) in AsRanked(sub) && RankedOf(c) == Ranked(t, part[t]);
    }
    assert AllPrecede(Names(sub), part, x);
  }

  // ----- A batch of count increments -----

  /** The queries a batch really changes: the empty query and zero increments are skipped. */
  function Changed(deltas: map<string, int>): set<string> {
    set q | q in deltas && q != "" && deltas[q] != 0
  }

  function CountOf(counts: Counts, q: string): int {
    if q in counts then counts[q] else 0
  }

  function AddTo(counts: Counts, q: string, d: int): Counts {
    counts[q := CountOf(counts, q) + d]
  }

  /** The counts once the queries of `done` have been raised. */
  function AddSome(counts: Counts, deltas: map<string, int>, done: set<string>): Counts {
    map q | q in counts.Keys + done ::
      CountOf(counts, q) + if q in done && q in deltas then deltas[q] else 0
  }

  function AddDeltas(counts: Counts, deltas: map<string, int>): Counts {
    AddSome(counts, deltas, Changed(deltas))
  }

  /** What a batch does to the counts, said outright. */
  lemma AddDeltasMeans(counts: Counts, deltas: map<string, int>)
    ensures var after := AddDeltas(counts, deltas);
            (forall q | q in deltas && q != "" && deltas[q] != 0 ::
               q in after && after[q] == (if q in counts then counts[q] else 0) + deltas[q])
            && (forall q | q !in deltas || q == "" || deltas[q] == 0 ::
                  (q in after <==> q in counts) && (q in after ==> after[q] == counts[q]))
  {
  }

  lemma NoneAdded(counts: Counts, deltas: map<string, int>, tops: Tops)
    ensures AddSome(counts, deltas, {}) == counts && SameElsewhere(tops, tops, {})
  {
  }

  lemma AddOneMore(counts: Counts, deltas: map<string, int>, done: set<string>, q: string)
    requires q in deltas && q !in done
    ensures AddTo(AddSome(counts, deltas, done), q, deltas[q]) == AddSome(counts, deltas, done + {q})
  {
  }

  ghost predicate NonNegative(deltas: map<string, int>) {
    forall q | q in deltas :: deltas[q] >= 0
  }

  ghost predicate PositiveCounts(counts: Counts) {
    forall q | q in counts :: counts[q] > 0
  }

  /** p is a non-empty prefix of a changed query: the nodes a batch may touch. */
  ghost predicate Affected(p: string, changed: set<string>) {
    p != "" && exists q :: q in changed && p <= q
  }

  type Tops = map<string, seq<Candidate>>

  /** The trie invariant: every non-root node lists a top-k, and every stored query's path is there. */
  ghost predicate TrieOk(counts: Counts, tops: Tops, k: nat) {
    && k >= 1
    && PositiveCounts(counts)
    && (forall p | p in tops && p != "" :: TopFor(tops[p], counts, p, k))
    && (forall q, p | q in counts && p <= q :: p in tops)
  }

  /** Every node lists the best k: what Finalize leaves behind, the root included. */
  ghost predicate Rebuilt(counts: Counts, tops: Tops, k: nat) {
    forall p | p in tops :: BestFor(tops[p], counts, p, k)
  }

  /** Lists off the changed queries' paths are the same, and nodes appear only on those paths. */
  ghost predicate SameElsewhere(tops: Tops, tops': Tops, changed: set<string>) {
    forall p | p != "" && !Affected(p, changed) :: (p in tops <==> p in tops') && (p in tops ==> tops[p] == tops'[p])
  }

  lemma ElsewhereGrows(a: Tops, b: Tops, c: Tops, done: set<string>, q: string)
    requires SameElsewhere(a, b, done) && SameElsewhere(b, c, {q})
    ensures SameElsewhere(a, c, done + {q})
  {
  }

  function UpsertedTop(top: seq<Candidate>, q: string, n: int, k: nat): seq<Ranked>
    requires k >= 1
  {
    Upserted(AsRanked(top), Ranked(q, n as real), k)
  }

  /** One node on the path of a risen query. */
  lemma {:induction false} UpsertOnPath(top: seq<Candidate>, counts: Counts, p: string, k: nat, q: string, d: int,
                                        top': seq<Candidate>)
    requires k >= 1 && d >= 0 && p <= q && TopFor(top, counts, p, k)
    requires AsRanked(top') == UpsertedTop(top, q, CountOf(counts, q) + d, k)
    ensures TopFor(top', AddTo(counts, q, d), p, k)
  {
    hide IsTop, Upserted;
    var n := CountOf(counts, q) + d;
    BoardRises(counts, p, q, d);
    UpsertKeepsTop(AsRanked(top), CountBoard(counts, p), Ranked(q, n as real), k);
  }

  lemma BoardRises(counts: Counts, p: string, q: string, d: int)
    requires p <= q && d >= 0
    ensures var x, board := Ranked(q, (CountOf(counts, q) + d) as real), CountBoard(counts, p);
            (x.query in board ==> board[x.query] <= x.score)
            && CountBoard(AddTo(counts, q, d), p) == board[x.query := x.score]
  {
  }

  /** A node off the path. */
  lemma TopOffPath(top: seq<Candidate>, counts: Counts, p: string, k: nat, q: string, d: int)
    requires !(p <= q) && TopFor(top, counts, p, k)
    ensures TopFor(top, AddTo(counts, q, d), p, k)
  {
  }

  // ----- Consequences -----

  /** What a lookup of p finds: nothing where there is no node. */
  function ListAt(tops: Tops, p: string): seq<Candidate> {
    if p in tops then tops[p] else []
  }

  lemma ListAtIsTop(counts: Counts, tops: Tops, k: nat, p: string)
    requires TrieOk(counts, tops, k) && p != ""
    ensures TopFor(ListAt(tops, p), counts, p, k)
  {
  }

  lemma {:induction false} RebuiltIsOk(counts: Counts, tops: Tops, k: nat)
    requires k >= 1 && PositiveCounts(counts) && Rebuilt(counts, tops, k)
    requires forall q, p | q in counts && p <= q :: p in tops
    ensures TrieOk(counts, tops, k)
  {
    forall p | p in tops ensures TopFor(tops[p], counts, p, k) {
      BestForIsTop(tops[p], counts, p, k);
    }
  }

  lemma {:induction false} RebuiltListAt(counts: Counts, tops: Tops, k: nat, p: string)
    requires Rebuilt(counts, tops, k) && TrieOk(counts, tops, k)
    ensures BestFor(ListAt(tops, p), counts, p, k)
  {
    if p !in tops {
      assert CountBoard(counts, p) == map[];
    }
  }

  /** A ranked list that is exact for a prefix is the image of a list of candidates. */
  lemma {:induction false} Unranked(rs: seq<Ranked>, counts: Counts, p: string) returns (top: seq<Candidate>)
    requires Exact(rs, CountBoard(counts, p))
    ensures AsRanked(top) == rs
  {
    forall i | 0 <= i < |rs| ensures rs[i].query in counts && rs[i].score == counts[rs[i].query] as real {
      assert rs[i] in rs;
    }
    top := seq(|rs|, i requires 0 <= i < |rs| => Candidate(rs[i].query, counts[rs[i].query], 0.0, 0));
    assert forall i | 0 <= i < |rs| :: AsRanked(top)[i] == rs[i];
  }

  /**
    Incremental equals rebuild: two tries with the same counts, however they were built up, show the
    same column of counts at every non-empty prefix. They show the same list there, in whatever way they
    were built, if and only if no tie crosses the k-th place.
   */
  lemma {:induction false} IncrementalEqualsRebuild(counts: Counts, a: Tops, b: Tops, k: nat, p: string)
    requires TrieOk(counts, a, k) && TrieOk(counts, b, k) && p != ""
    ensures Scores(AsRanked(ListAt(a, p))) == Scores(AsRanked(ListAt(b, p)))
    ensures CleanCut(AsRanked(ListAt(a, p)), CountBoard(counts, p))
            <==> forall c | TrieOk(counts, c, k) :: AsRanked(ListAt(c, p)) == AsRanked(ListAt(a, p))
  {
    ListAtIsTop(counts, a, k, p);
    ListAtIsTop(counts, b, k, p);
    var board, rs := CountBoard(counts, p), AsRanked(ListAt(a, p));
    TopColumnUnique(rs, AsRanked(ListAt(b, p)), board, k);
    UniqueExactlyIfClean(rs, board, k);
    hide ListAt, CountBoard, CleanCut, IsTop;
    if CleanCut(rs, board) {
      forall c | TrieOk(counts, c, k) ensures AsRanked(ListAt(c, p)) == rs {
        ListAtIsTop(counts, c, k, p);
      }
    } else {
      var other :| IsTop(other, board, k) && other != rs;
      var c := Relisted(counts, a, k, p, other);
      assert TrieOk(counts, c, k) && AsRanked(ListAt(c, p)) == other;
    }
  }

  /** Any top-k can stand in a trie's node. */
  lemma {:induction false} Relisted(counts: Counts, tops: Tops, k: nat, p: string, rs: seq<Ranked>)
    returns (tops': Tops)
    requires TrieOk(counts, tops, k) && p != "" && IsTop(rs, CountBoard(counts, p), k)
    ensures TrieOk(counts, tops', k) && AsRanked(ListAt(tops', p)) == rs
  {
    var top := Unranked(rs, counts, p);
    tops' := tops[p := top];
    hide IsTop;
  }

  /**
    Against a rebuild: an incrementally grown node shows the rebuilt list, whatever its history, if and
    only if no tie crosses the k-th place of the rebuilt list.
   */
  lemma {:induction false} GrownIsRebuilt(counts: Counts, rebuilt: Tops, k: nat, p: string)
    requires TrieOk(counts, rebuilt, k) && Rebuilt(counts, rebuilt, k) && p != ""
    ensures CleanCut(BestOf(CountBoard(counts, p), k), CountBoard(counts, p))
            <==> forall grown | TrieOk(counts, grown, k) :: BestFor(ListAt(grown, p), counts, p, k)
  {
    RebuiltListAt(counts, rebuilt, k, p);
    IncrementalEqualsRebuild(counts, rebuilt, rebuilt, k, p);
    hide TrieOk, ListAt, CleanCut, BestOf;
  }

  /** The query that a rebuild lists last. */
  ghost function LastListed(counts: Counts, p: string, k: nat): (q: string)
    requires k >= 1 && CountBoard(counts, p) != map[]
    ensures q in counts && p <= q && LastBest(CountBoard(counts, p), k) == Ranked(q, counts[q] as real)
  {
    LastBest(CountBoard(counts, p), k).query
  }

  /**
    The tie does decide it, for every prefix and every k: let all queries but the one that a rebuild lists
    last be in place, and let that one arrive with its whole count. The node then shows the rebuilt list if
    and only if no tie crosses the k-th place.
   */
  lemma {:induction false} LastToArrive(counts: Counts, p: string, k: nat, before: seq<Candidate>)
    requires k >= 1 && CountBoard(counts, p) != map[]
    requires BestFor(before, counts - {LastListed(counts, p, k)}, p, k)
    ensures var q, board := LastListed(counts, p, k), CountBoard(counts, p);
            UpsertedTop(before, q, counts[q], k) == BestOf(board, k) <==> CleanCut(BestOf(board, k), board)
  {
    var q, board := LastListed(counts, p, k), CountBoard(counts, p);
    assert CountBoard(counts - {q}, p) == board - {q};
    hide BestOf, LastBest, LastListed, Upserted, CleanCut, CountBoard;
    LateArrival(board, k);
  }

  /**
    With a tie across the cut the lists may differ: "b" stored first with count 1 keeps its only place
    when "a" arrives with count 1, while a rebuild would list "a".
   */
  lemma {:induction false} TieAcrossTheCut()
    ensures var counts := map["xa" := 1, "xb" := 1];
            var first, rebuilt := [Candidate("xb", 1, 0.0, 0)], [Candidate("xa", 1, 0.0, 0)];
            TopFor(first, counts, "x", 1) && TopFor(rebuilt, counts, "x", 1)
            && AsRanked(first) == UpsertedTop(first, "xa", 1, 1)
            && SortBy(CandidateLess, first + rebuilt)[..1] == rebuilt
  {
    var counts := map["xa" := 1, "xb" := 1];
    var xa, xb := Candidate("xa", 1, 0.0, 0), Candidate("xb", 1, 0.0, 0);
    assert "xa" != "xb" && CountBoard(counts, "x") == map["xa" := 1.0, "xb" := 1.0];
    OneOfTwo(counts, xa);
    OneOfTwo(counts, xb);
    assert LexLess("xa"[1..], "xb"[1..]) && LexLess("xa", "xb");
    assert !LexLess("xb"[1..], "xa"[1..]) && !CandidateLess(xb, xa);
    assert SortBy(CandidateLess, [xa]) == [xa] && ([xb] + [xa])[1..] == [xa] && [xa][1..] == [];
  }

  lemma OneOfTwo(counts: Counts, c: Candidate)
    requires CountBoard(counts, "x") == map["xa" := 1.0, "xb" := 1.0]
    requires c == Candidate("xa", 1, 0.0, 0) || c == Candidate("xb", 1, 0.0, 0)
    ensures AsRanked([c]) == [RankedOf(c)] && TopFor([c], counts, "x", 1)
  {
  }
}
