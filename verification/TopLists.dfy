/**
  Top-k lists over a score board.

  A board gives the score of every query under consideration. `IsTop` says that a list is *a*
  top-k of the board; ties at the cut may be broken either way. `FullRanking` is the reference:
  the whole board, sorted. Any two top-k lists show the same column of scores, which is
  the first k scores of the full ranking, and are the same list when no tie crosses the cut.
 */
module TopLists {
  import opened Ordering
  import opened Sets

  datatype Ranked = Ranked(query: string, score: real)

  predicate Before(a: Ranked, b: Ranked) {
    a.score > b.score || (a.score == b.score && LexLess(a.query, b.query))
  }

  lemma {:induction false} BeforeStrict()
    ensures Strict(Before)
  {
    forall x: Ranked ensures !Before(x, x) { LexIrreflexive(x.query); }
    forall x: Ranked, y: Ranked, z: Ranked | Before(x, y) && Before(y, z) ensures Before(x, z) {
      if LexLess(x.query, y.query) && LexLess(y.query, z.query) {
        LexTransitive(x.query, y.query, z.query);
      }
    }
  }

  lemma {:induction false} BeforeTotal(a: Ranked, b: Ranked)
    ensures a == b || Before(a, b) || Before(b, a)
  {
    LexTotal(a.query, b.query);
  }

  /** At equal scores a query stands before its own extensions. */
  lemma {:induction false} PrefixBefore(a: Ranked, b: Ranked)
    requires a.score == b.score && a.query < b.query
    ensures Before(a, b) && !Before(b, a) && a != b
  {
    LexMeans(a.query, b.query);
    NeverBothBefore(a, b);
  }

  ghost function Queries(rs: seq<Ranked>): set<string> {
    set r | r in rs :: r.query
  }

  function Scores(rs: seq<Ranked>): (s: seq<real>)
    ensures |s| == |rs| && forall i | 0 <= i < |rs| :: s[i] == rs[i].score
  {
    seq(|rs|, i requires 0 <= i < |rs| => rs[i].score)
  }

  function Min(a: nat, b: nat): nat {
    if a <= b then a else b
  }

  /** Every entry shows the score the board gives its query. */
  ghost predicate Exact(rs: seq<Ranked>, board: map<string, real>) {
    forall r | r in rs :: r.query in board && board[r.query] == r.score
  }

  /** `rs` is a top-k of `board`: sorted, exact, and nothing left out beats anything listed. */
  ghost predicate IsTop(rs: seq<Ranked>, board: map<string, real>, k: nat) {
    && SortedBy(Before, rs)
    && Exact(rs, board)
    && |rs| <= k
    && (forall q | q in board && q !in Queries(rs) ::
          |rs| == k && forall r | r in rs :: board[q] <= r.score)
  }

  ghost predicate DistinctQueries(rs: seq<Ranked>) {
    forall i, j | 0 <= i < j < |rs| :: rs[i].query != rs[j].query
  }

  lemma {:induction false} TopDistinct(rs: seq<Ranked>, board: map<string, real>)
    requires SortedBy(Before, rs) && Exact(rs, board)
    ensures DistinctQueries(rs)
  {
    forall i, j | 0 <= i < j < |rs| ensures rs[i].query != rs[j].query {
      assert rs[i] in rs && rs[j] in rs && Before(rs[i], rs[j]);
      LexIrreflexive(rs[i].query);
    }
  }

  lemma {:induction false} DistinctCount(rs: seq<Ranked>)
    requires DistinctQueries(rs)
    ensures |Queries(rs)| == |rs|
  {
    if rs != [] {
      var t, last := rs[..|rs| - 1], rs[|rs| - 1];
      assert rs == t + [last];
      DistinctCount(t);
      assert Queries(rs) == Queries(t) + {last.query};
    }
  }

  lemma {:induction false} QueriesCount(rs: seq<Ranked>, board: map<string, real>)
    requires SortedBy(Before, rs) && Exact(rs, board)
    ensures |Queries(rs)| == |rs|
  {
    TopDistinct(rs, board);
    DistinctCount(rs);
  }

  /** The length of a top-k list is min(k, size of the board). */
  lemma {:induction false} TopLength(rs: seq<Ranked>, board: map<string, real>, k: nat)
    requires IsTop(rs, board, k)
    ensures |rs| == Min(k, |board|)
  {
    QueriesCount(rs, board);
    assert Queries(rs) <= board.Keys;
    SubsetSize(Queries(rs), board.Keys);
    if |rs| < |board| {
      assert exists q :: q in board && q !in Queries(rs) by {
        if forall q | q in board :: q in Queries(rs) {
          SubsetSize(board.Keys, Queries(rs));
        }
      }
    }
  }

  lemma PrefixTop(rs: seq<Ranked>, board: map<string, real>, n: nat)
    requires SortedBy(Before, rs) && Exact(rs, board) && n <= |rs|
    ensures SortedBy(Before, rs[..n]) && Exact(rs[..n], board)
  {
  }

  /** Where a query stands in a list that holds it. */
  lemma {:induction false} Position(rs: seq<Ranked>, q: string) returns (i: nat)
    requires q in Queries(rs)
    ensures i < |rs| && rs[i].query == q
  {
    var r :| r in rs && r.query == q;
    i :| i < |rs| && rs[i] == r;
  }

  /** In a sorted exact list, whatever outscores position i stands before it. */
  lemma OutscoresStandsBefore(rs: seq<Ranked>, board: map<string, real>, i: nat, q: string)
    requires SortedBy(Before, rs) && Exact(rs, board) && i < |rs|
    requires q in Queries(rs) && q in board && board[q] > rs[i].score
    ensures q in Queries(rs[..i])
  {
  }

  lemma {:induction false} ColumnNotAbove(a: seq<Ranked>, b: seq<Ranked>, board: map<string, real>, k: nat, i: nat)
    requires IsTop(a, board, k) && IsTop(b, board, k) && i < |a| && i < |b|
    ensures a[i].score <= b[i].score
  {
    if a[i].score > b[i].score {
      var hi, lo := a[..i + 1], b[..i];
      forall q | q in Queries(hi) ensures q in Queries(lo) {
        var j := Position(hi, q);
        assert hi[j] == a[j] && a[j] in a && b[i] in b;
        assert j == i || Before(a[j], a[i]);
        OutscoresStandsBefore(b, board, i, q);
      }
      PrefixTop(a, board, i + 1);
      PrefixTop(b, board, i);
      QueriesCount(hi, board);
      QueriesCount(lo, board);
      SubsetSize(Queries(hi), Queries(lo));
    }
  }

  /** Any two top-k lists of one board show the same column of scores. */
  lemma {:induction false} TopColumnUnique(a: seq<Ranked>, b: seq<Ranked>, board: map<string, real>, k: nat)
    requires IsTop(a, board, k) && IsTop(b, board, k)
    ensures Scores(a) == Scores(b)
  {
    TopLength(a, board, k);
    TopLength(b, board, k);
    forall i | 0 <= i < |a| ensures a[i].score == b[i].score {
      ColumnNotAbove(a, b, board, k, i);
      ColumnNotAbove(b, a, board, k, i);
    }
  }

  /** No tie crosses the cut: everything left out scores strictly below everything listed. */
  ghost predicate CleanCut(rs: seq<Ranked>, board: map<string, real>) {
    forall q, r | q in board && q !in Queries(rs) && r in rs :: board[q] < r.score
  }

  lemma {:induction false} MissingFromBoth(a: seq<Ranked>, b: seq<Ranked>, board: map<string, real>, k: nat, p: string)
    requires IsTop(a, board, k) && IsTop(b, board, k) && CleanCut(a, board) && |a| == |b|
    requires p in Queries(b)
    ensures p in Queries(a)
  {
    QueriesCount(a, board);
    QueriesCount(b, board);
    var j := Position(b, p);
    assert b[j] in b;
    if Queries(a) <= Queries(b) {
      SubsetSame(Queries(a), Queries(b));
    } else {
      var q :| q in Queries(a) && q !in Queries(b);
      var i := Position(a, q);
      assert a[i] in a;
      assert board[q] <= b[j].score == board[p];
    }
  }

  /** Where no tie crosses the cut, the top-k list is unique, order included. */
  lemma {:induction false} TopUnique(a: seq<Ranked>, b: seq<Ranked>, board: map<string, real>, k: nat)
    requires IsTop(a, board, k) && IsTop(b, board, k) && CleanCut(a, board)
    ensures a == b
  {
    TopLength(a, board, k);
    TopLength(b, board, k);
    QueriesCount(a, board);
    QueriesCount(b, board);
    forall p | p in Queries(b) ensures p in Queries(a) {
      MissingFromBoth(a, b, board, k, p);
    }
    SubsetSame(Queries(b), Queries(a));
    SameQueriesSameList(a, b, board);
  }

  lemma {:induction false} SameQueriesSameList(a: seq<Ranked>, b: seq<Ranked>, board: map<string, real>)
    requires SortedBy(Before, a) && SortedBy(Before, b) && Exact(a, board) && Exact(b, board)
    requires Queries(a) == Queries(b)
    ensures a == b
  {
    BeforeStrict();
    forall x ensures x in a <==> x in b {
      if x in a {
        assert x.query in Queries(b);
        var y :| y in b && y.query == x.query;
      }
      if x in b {
        assert x.query in Queries(a);
        var y :| y in a && y.query == x.query;
      }
    }
    SortedUnique(Before, a, b);
  }

  /** Every query on the board with its score, best first. */
  ghost predicate IsFull(rs: seq<Ranked>, board: map<string, real>) {
    SortedBy(Before, rs) && Exact(rs, board) && Queries(rs) == board.Keys && |rs| == |board|
  }

  /** The reference: there is one such list (`FullUnique`), and this is it. */
  ghost function FullRanking(board: map<string, real>): (rs: seq<Ranked>)
    ensures IsFull(rs, board)
  {
    FullExists(board);
    var rs :| IsFull(rs, board);
    rs
  }

  /** The first k entries of the full ranking. */
  ghost function BestOf(board: map<string, real>, k: nat): seq<Ranked> {
    FullRanking(board)[..Min(k, |board|)]
  }

  lemma {:induction false} FullUnique(a: seq<Ranked>, b: seq<Ranked>, board: map<string, real>)
    requires IsFull(a, board) && IsFull(b, board)
    ensures a == b
  {
    SameQueriesSameList(a, b, board);
  }

  lemma {:induction false} FullExists(board: map<string, real>)
    ensures exists rs :: IsFull(rs, board)
  {
    if board == map[] {
      assert IsFull([], board);
    } else {
      var q :| q in board;
      FullExists(board - {q});
      var s :| IsFull(s, board - {q});
      FullRankingStep(board, q, s);
    }
  }

  /** Inserting a query that is not listed yet keeps a list sorted. */
  lemma {:induction false} InsertRanked(x: Ranked, s: seq<Ranked>)
    requires SortedBy(Before, s) && x.query !in Queries(s)
    ensures SortedBy(Before, InsertBy(Before, x, s))
    ensures forall r :: r in InsertBy(Before, x, s) <==> r in s || r == x
  {
    MultisetMembers(InsertBy(Before, x, s), s + [x]);
    forall y | y in s ensures Before(x, y) || Before(y, x) {
      BeforeTotal(x, y);
    }
    BeforeStrict();
    InsertSorted(Before, x, s);
  }

  lemma {:induction false} FullRankingStep(board: map<string, real>, q: string, s: seq<Ranked>)
    requires q in board && IsFull(s, board - {q})
    ensures IsFull(InsertBy(Before, Ranked(q, board[q]), s), board)
  {
    var x := Ranked(q, board[q]);
    BoardSize(board, q);
    InsertRanked(x, s);
    hide SortedBy;
    assert Queries(InsertBy(Before, x, s)) == Queries(s) + {q};
  }

  lemma {:induction false} BoardSize(board: map<string, real>, q: string)
    requires q in board
    ensures board.Keys == (board - {q}).Keys + {q} && |board| == |board - {q}| + 1
  {
    var rest := board - {q};
    assert board.Keys == rest.Keys + {q};
    assert |board.Keys| == |board| && |rest.Keys| == |rest|;
  }

  /** The first k of the full ranking is a top-k. */
  lemma FirstOfFull(full: seq<Ranked>, board: map<string, real>, k: nat)
    requires IsFull(full, board)
    ensures IsTop(full[..Min(k, |board|)], board, k)
  {
  }

  /** The scores of any top-k list are the first k scores of the whole board in descending order. */
  lemma {:induction false} TopIsFirstScores(rs: seq<Ranked>, board: map<string, real>, k: nat)
    requires IsTop(rs, board, k)
    ensures Scores(rs) == Scores(FullRanking(board))[..Min(k, |board|)]
  {
    var full := FullRanking(board);
    var n := Min(k, |board|);
    FirstOfFull(full, board, k);
    TopColumnUnique(rs, full[..n], board, k);
    assert Scores(full[..n]) == Scores(full)[..n];
  }

  /** With no tie across the cut, the list itself is the head of the full ranking. */
  lemma {:induction false} TopIsFirstEntries(rs: seq<Ranked>, board: map<string, real>, k: nat)
    requires IsTop(rs, board, k) && CleanCut(rs, board)
    ensures rs == BestOf(board, k)
  {
    FirstOfFull(FullRanking(board), board, k);
    TopUnique(rs, BestOf(board, k), board, k);
  }

  // ----- A tie at the cut leaves a choice -----

  /** The last entry of a top-k list gives way to a query that was left out with the same score. */
  lemma {:induction false} Swapped(rs: seq<Ranked>, board: map<string, real>, k: nat, q: string)
    returns (other: seq<Ranked>)
    requires IsTop(rs, board, k) && rs != [] && q in board && q !in Queries(rs) && board[q] >= rs[|rs| - 1].score
    ensures IsTop(other, board, k) && q in Queries(other)
  {
    hide LexLess, SortBy;
    var front, last, x := rs[..|rs| - 1], rs[|rs| - 1], Ranked(q, board[q]);
    assert rs == front + [last];
    assert forall r | r in front :: r in rs;
    TopDistinct(rs, board);
    AppendRanked(front, x, board);
    other := SortBy(Before, front + [x]);
    SortRanked(front + [x]);
    assert Queries(other) == Queries(front + [x]) && |other| == |rs|;
    forall t | t in board && t !in Queries(other) ensures |other| == k && board[t] <= board[q] {
      assert t in Queries(rs) ==> t == last.query;
      assert last in rs;
    }
    forall r | r in other ensures board[q] <= r.score {
      assert r == x || r in rs;
    }
  }

  /** A top-k list is the only one if and only if no tie crosses the cut. */
  lemma {:induction false} UniqueExactlyIfClean(rs: seq<Ranked>, board: map<string, real>, k: nat)
    requires IsTop(rs, board, k)
    ensures CleanCut(rs, board) <==> forall other | IsTop(other, board, k) :: other == rs
  {
    if CleanCut(rs, board) {
      forall other | IsTop(other, board, k) ensures other == rs {
        TopUnique(rs, other, board, k);
      }
    } else {
      var q, r :| q in board && q !in Queries(rs) && r in rs && !(board[q] < r.score);
      LastScoresLeast(rs, board, r);
      var other := Swapped(rs, board, k, q);
      assert IsTop(other, board, k) && other != rs;
    }
  }

  lemma {:induction false} LastScoresLeast(rs: seq<Ranked>, board: map<string, real>, r: Ranked)
    requires SortedBy(Before, rs) && r in rs
    ensures rs[|rs| - 1].score <= r.score
  {
    var i :| 0 <= i < |rs| && rs[i] == r;
    assert i == |rs| - 1 || Before(rs[i], rs[|rs| - 1]);
  }

  // ----- The best k, ties broken by query -----

  /** A top-k list whose entries all stand before everything left out, ties included. */
  ghost predicate Leads(rs: seq<Ranked>, board: map<string, real>, k: nat) {
    && SortedBy(Before, rs)
    && Exact(rs, board)
    && |rs| <= k
    && (forall q | q in board && q !in Queries(rs) ::
          |rs| == k && forall r | r in rs :: Before(r, Ranked(q, board[q])))
  }

  lemma LeadsIsTop(rs: seq<Ranked>, board: map<string, real>, k: nat)
    requires Leads(rs, board, k)
    ensures IsTop(rs, board, k)
  {
  }

  lemma {:induction false} BestLeads(board: map<string, real>, k: nat)
    ensures Leads(BestOf(board, k), board, k) && IsTop(BestOf(board, k), board, k)
  {
    var full := FullRanking(board);
    var n := Min(k, |board|);
    PrefixTop(full, board, n);
    forall q | q in board && q !in Queries(full[..n])
      ensures n == k && forall r | r in full[..n] :: Before(r, Ranked(q, board[q]))
    {
      var i := Position(full, q);
      HeadMembers(full, n);
      assert full[i] in full && full[i] == Ranked(q, board[q]);
    }
    LeadsIsTop(BestOf(board, k), board, k);
  }

  lemma {:induction false} HeadMembers(rs: seq<Ranked>, n: nat)
    requires n <= |rs|
    ensures forall i | 0 <= i < n :: rs[i].query in Queries(rs[..n])
  {
    forall i | 0 <= i < n ensures rs[i].query in Queries(rs[..n]) {
      assert rs[..n][i] in rs[..n];
    }
  }

  lemma {:induction false} LedByBoth(a: seq<Ranked>, b: seq<Ranked>, board: map<string, real>, k: nat, p: string)
    requires Leads(a, board, k) && Leads(b, board, k) && |a| == |b|
    requires p in Queries(b)
    ensures p in Queries(a)
  {
    QueriesCount(a, board);
    QueriesCount(b, board);
    var j := Position(b, p);
    assert b[j] in b;
    if Queries(a) <= Queries(b) {
      SubsetSame(Queries(a), Queries(b));
    } else {
      var q :| q in Queries(a) && q !in Queries(b);
      var i := Position(a, q);
      assert a[i] in a && a[i] == Ranked(q, board[q]) && b[j] == Ranked(p, board[p]);
      NeverBothBefore(a[i], b[j]);
    }
  }

  lemma {:induction false} NeverBothBefore(a: Ranked, b: Ranked)
    ensures !(Before(a, b) && Before(b, a))
  {
    BeforeStrict();
  }

  /** Ties in the best k: a listed query's own prefixes stand before it, and are listed if it is. */
  lemma {:induction false} BestPrefixesFirst(board: map<string, real>, k: nat)
    ensures var rs := BestOf(board, k);
            (forall i, j | 0 <= i < |rs| && 0 <= j < |rs| && rs[i].score == rs[j].score && rs[i].query < rs[j].query ::
               i < j)
            && (forall q, r | q in board && r in rs && board[q] == r.score && q < r.query :: q in Queries(rs))
  {
    BestLeads(board, k);
    var rs := BestOf(board, k);
    hide BestOf;
    PrefixesFirst(rs);
    forall q, r | q in board && r in rs && board[q] == r.score && q < r.query ensures q in Queries(rs) {
      PrefixBefore(Ranked(q, board[q]), r);
    }
  }

  lemma {:induction false} PrefixesFirst(rs: seq<Ranked>)
    requires SortedBy(Before, rs)
    ensures forall i, j | 0 <= i < |rs| && 0 <= j < |rs| && rs[i].score == rs[j].score && rs[i].query < rs[j].query ::
              i < j
  {
    forall i, j | 0 <= i < |rs| && 0 <= j < |rs| && rs[i].score == rs[j].score && rs[i].query < rs[j].query
      ensures i < j
    {
      PrefixBefore(rs[i], rs[j]);
      SortedAt(rs, j, i);
    }
  }

  /** There is one leading list, and it is the head of the full ranking. */
  lemma {:induction false} LeadsIsBest(rs: seq<Ranked>, board: map<string, real>, k: nat)
    requires Leads(rs, board, k)
    ensures rs == BestOf(board, k)
  {
    var best := BestOf(board, k);
    LeadsIsTop(rs, board, k);
    BestLeads(board, k);
    TopLength(rs, board, k);
    TopLength(best, board, k);
    QueriesCount(rs, board);
    QueriesCount(best, board);
    hide BestOf;
    forall p | p in Queries(best) ensures p in Queries(rs) {
      LedByBoth(rs, best, board, k, p);
    }
    SubsetSame(Queries(best), Queries(rs));
    SameQueriesSameList(rs, best, board);
  }

  /** At least k entries of the part stand before x. */
  ghost predicate Preceded(x: Ranked, part: map<string, real>, k: nat) {
    exists above: set<string> :: |above| >= k && AllPrecede(above, part, x)
  }

  ghost predicate AllPrecede(above: set<string>, part: map<string, real>, x: Ranked) {
    forall q | q in above :: q in part && Before(Ranked(q, part[q]), x)
  }

  lemma {:induction false} PrecedesAt(x: Ranked, full: seq<Ranked>, part: map<string, real>, above: set<string>, j: nat)
    requires IsFull(full, part) && j < |full| && j < |above| && AllPrecede(above, part, x)
    ensures Before(full[j], x)
  {
    if !Before(full[j], x) {
      forall q | q in above ensures q in Queries(full[..j]) {
        StandsEarlier(x, full, part, q, j);
      }
      PrefixTop(full, part, j);
      QueriesCount(full[..j], part);
      SubsetSize(above, Queries(full[..j]));
    }
  }

  lemma {:induction false} StandsEarlier(x: Ranked, full: seq<Ranked>, part: map<string, real>, q: string, j: nat)
    requires IsFull(full, part) && j < |full| && q in part && Before(Ranked(q, part[q]), x) && !Before(full[j], x)
    ensures q in Queries(full[..j])
  {
    var i := Position(full, q);
    assert full[i] in full && full[i] == Ranked(q, part[q]);
    BeforeStrict();
    HeadMembers(full, j);
    SortedAt(full, j, i);
  }

  lemma SortedAt(rs: seq<Ranked>, i: nat, j: nat)
    requires SortedBy(Before, rs) && i < |rs| && j < |rs|
    ensures i == j || Before(rs[i], rs[j]) || j < i
  {
  }

  /**
    The same cut, with ties: if all that the part misses is preceded by k of its members, its best k are the
    best k of the board.
   */
  lemma {:induction false} CoverBest(full: seq<Ranked>, part: map<string, real>, board: map<string, real>, k: nat)
    requires IsFull(full, part)
    requires forall q | q in part :: q in board && board[q] == part[q]
    requires forall q | q in board && q !in part :: Preceded(Ranked(q, board[q]), part, k)
    ensures full[..Min(k, |full|)] == BestOf(board, k)
  {
    var n := Min(k, |full|);
    FullUnique(full, FullRanking(part), part);
    BestLeads(part, k);
    assert BestOf(part, k) == full[..n];
    forall q | q in board && q !in Queries(full[..n])
      ensures n == k && forall r | r in full[..n] :: Before(r, Ranked(q, board[q]))
    {
      if q !in part {
        PrecededCut(Ranked(q, board[q]), full, part, k);
      }
    }
    LeadsIsBest(full[..n], board, k);
  }

  lemma {:induction false} PrecededCut(x: Ranked, full: seq<Ranked>, part: map<string, real>, k: nat)
    requires IsFull(full, part) && Preceded(x, part, k)
    ensures k <= |part| && forall r | r in full[..k] :: Before(r, x)
  {
    var above: set<string> :| |above| >= k && AllPrecede(above, part, x);
    assert above <= part.Keys;
    SubsetSize(above, part.Keys);
    forall j: nat | j < k ensures Before(full[j], x) {
      PrecedesAt(x, full, part, above, j);
    }
  }

  // ----- Cutting a part that covers the board -----

  /** At least k entries of the part score no less than x. */
  ghost predicate Dominated(x: real, part: map<string, real>, k: nat) {
    exists above: set<string> :: |above| >= k && AllReach(above, part, x)
  }

  ghost predicate AllReach(above: set<string>, part: map<string, real>, x: real) {
    forall q | q in above :: q in part && part[q] >= x
  }

  lemma {:induction false} DominatedCut(x: real, full: seq<Ranked>, part: map<string, real>, k: nat)
    requires IsFull(full, part) && Dominated(x, part, k)
    ensures k <= |part|
    ensures forall r | r in full[..k] :: x <= r.score
  {
    var above: set<string> :| |above| >= k && AllReach(above, part, x);
    assert above <= part.Keys;
    SubsetSize(above, part.Keys);
    forall j: nat | j < k ensures x <= full[j].score {
      ReachedAt(x, full, part, above, j);
    }
  }

  lemma {:induction false} ReachedAt(x: real, full: seq<Ranked>, part: map<string, real>, above: set<string>, j: nat)
    requires IsFull(full, part) && j < |full| && j < |above| && AllReach(above, part, x)
    ensures x <= full[j].score
  {
    if full[j].score < x {
      forall q | q in above ensures q in Queries(full[..j]) {
        OutscoresStandsBefore(full, part, j, q);
      }
      PrefixTop(full, part, j);
      QueriesCount(full[..j], part);
      SubsetSize(above, Queries(full[..j]));
    }
  }

  /**
    Cutting a covering part: everything the part of the board misses is matched by at least k
    members of the part that score no less. The best k of the part are then a top-k of the board.
   */
  lemma {:induction false} CoverTop(full: seq<Ranked>, part: map<string, real>, board: map<string, real>, k: nat)
    requires IsFull(full, part)
    requires forall q | q in part :: q in board && board[q] == part[q]
    requires forall q | q in board && q !in part :: Dominated(board[q], part, k)
    ensures IsTop(full[..Min(k, |full|)], board, k)
  {
    var n := Min(k, |full|);
    FirstOfFull(full, part, k);
    forall q | q in board && q !in Queries(full[..n])
      ensures n == k && forall r | r in full[..n] :: board[q] <= r.score
    {
      if q !in part {
        DominatedCut(board[q], full, part, k);
      }
    }
  }

  lemma AppendRanked(rs: seq<Ranked>, x: Ranked, board: map<string, real>)
    requires DistinctQueries(rs) && Exact(rs, board)
    requires x.query !in Queries(rs) && x.query in board && board[x.query] == x.score
    ensures DistinctQueries(rs + [x]) && Exact(rs + [x], board)
    ensures Queries(rs + [x]) == Queries(rs) + {x.query}
  {
  }

  /** Sorting any arrangement of a whole board gives its full ranking. */
  lemma {:induction false} SortedIsFull(arr: seq<Ranked>, board: map<string, real>)
    requires Exact(arr, board) && Queries(arr) == board.Keys && DistinctQueries(arr)
    ensures SortBy(Before, arr) == FullRanking(board) && |FullRanking(board)| == |board|
  {
    var s := SortBy(Before, arr);
    SortRanked(arr);
    assert Queries(s) == Queries(arr);
    SameQueriesSameList(s, FullRanking(board), board);
  }

  lemma {:induction false} SortRanked(arr: seq<Ranked>)
    requires DistinctQueries(arr)
    ensures SortedBy(Before, SortBy(Before, arr))
    ensures forall r :: r in SortBy(Before, arr) <==> r in arr
  {
    forall i, j | 0 <= i < j < |arr| ensures Before(arr[i], arr[j]) || Before(arr[j], arr[i]) {
      BeforeTotal(arr[i], arr[j]);
    }
    BeforeStrict();
    SortSorts(Before, arr);
  }
}
