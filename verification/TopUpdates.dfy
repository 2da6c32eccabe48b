/**
  Keeping a top-k list up to date when one query's score rises, without looking at the rest of the
  board.
 */
module TopUpdates {
  import opened Ordering
  import opened Sets
  import opened TopLists

  /** Where a query stands in a list; the length of the list if nowhere. */
  function IndexOf(rs: seq<Ranked>, q: string): (i: nat)
    ensures i <= |rs|
    ensures i < |rs| ==> rs[i].query == q
    ensures i == |rs| ==> q !in Queries(rs)
  {
    if rs == [] || rs[0].query == q then 0
    else
      assert rs == [rs[0]] + rs[1..];
      1 + IndexOf(rs[1..], q)
  }

  /** Update in place if listed, append if there is room, else replace a strictly smaller last entry. */
  function Upserted(rs: seq<Ranked>, x: Ranked, k: nat): seq<Ranked>
    requires k >= 1
  {
    var i := IndexOf(rs, x.query);
    if i < |rs| then SortBy(Before, rs[i := x])
    else if |rs| < k then SortBy(Before, rs + [x])
    else if x.score > rs[|rs| - 1].score then SortBy(Before, rs[..|rs| - 1] + [x])
    else rs
  }

  /** What sorting does to a candidate for the new list: same members, sorted. */
  lemma {:induction false} SortedCandidate(s: seq<Ranked>, board: map<string, real>)
    requires DistinctQueries(s) && Exact(s, board)
    ensures var r := SortBy(Before, s);
            SortedBy(Before, r) && Exact(r, board) && |r| == |s| && Queries(r) == Queries(s)
            && (forall x :: x in r <==> x in s)
  {
    SortRanked(s);
  }

  /**
    The incremental invariant: if a list is a top-k of the board and one query's score rises, or a new
    query appears, then the upserted list is a top-k of the new board.
   */
  lemma {:induction false} UpsertKeepsTop(rs: seq<Ranked>, board: map<string, real>, x: Ranked, k: nat)
    requires k >= 1 && IsTop(rs, board, k)
    requires x.query in board ==> board[x.query] <= x.score
    ensures IsTop(Upserted(rs, x, k), board[x.query := x.score], k)
  {
    TopDistinct(rs, board);
    var i := IndexOf(rs, x.query);
    if i < |rs| {
      UpdateInPlace(rs, board, x, k, i);
    } else if |rs| < k {
      AppendNew(rs, board, x, k);
    } else if x.score > rs[|rs| - 1].score {
      ReplaceLast(rs, board, x, k);
    } else {
      LeaveOut(rs, board, x, k);
    }
  }

  lemma {:induction false} UpdateInPlace(rs: seq<Ranked>, board: map<string, real>, x: Ranked, k: nat, i: nat)
    requires IsTop(rs, board, k) && DistinctQueries(rs)
    requires i < |rs| && rs[i].query == x.query && x.query in board && board[x.query] <= x.score
    ensures IsTop(SortBy(Before, rs[i := x]), board[x.query := x.score], k)
  {
    var s, board' := rs[i := x], board[x.query := x.score];
    forall r | r in s ensures r.query in board' && board'[r.query] == r.score && (r == x || r in rs) {
      var j :| 0 <= j < |s| && s[j] == r;
      assert j == i || r == rs[j];
    }
    forall r | r in rs ensures r.query in Queries(s) {
      var j :| 0 <= j < |rs| && rs[j] == r;
      assert s[j].query == r.query && s[j] in s;
    }
    assert Queries(s) == Queries(rs);
    SortedCandidate(s, board');
    assert rs[i] in rs;
  }

  lemma {:induction false} AppendNew(rs: seq<Ranked>, board: map<string, real>, x: Ranked, k: nat)
    requires IsTop(rs, board, k) && DistinctQueries(rs) && |rs| < k && x.query !in Queries(rs)
    ensures IsTop(SortBy(Before, rs + [x]), board[x.query := x.score], k)
  {
    var board' := board[x.query := x.score];
    assert Exact(rs, board');
    AppendRanked(rs, x, board');
    SortedCandidate(rs + [x], board');
  }

  lemma {:induction false} ReplaceLast(rs: seq<Ranked>, board: map<string, real>, x: Ranked, k: nat)
    requires IsTop(rs, board, k) && DistinctQueries(rs) && |rs| == k >= 1
    requires x.query !in Queries(rs) && x.score > rs[k - 1].score
    ensures IsTop(SortBy(Before, rs[..k - 1] + [x]), board[x.query := x.score], k)
  {
    var last, front, board' := rs[k - 1], rs[..k - 1], board[x.query := x.score];
    assert rs == front + [last];
    assert forall r | r in front :: r in rs;
    assert Queries(rs) == Queries(front) + {last.query};
    AppendRanked(front, x, board');
    SortedCandidate(front + [x], board');
    forall q | q in board' && q !in Queries(front + [x])
      ensures forall r | r in front + [x] :: board'[q] <= r.score
    {
      LastIsLeast(rs, board, q);
    }
  }

  /** Nothing left out, nor the last entry itself, scores above any entry. */
  lemma LastIsLeast(rs: seq<Ranked>, board: map<string, real>, q: string)
    requires IsTop(rs, board, |rs|) && rs != []
    requires q in board && (q !in Queries(rs) || q == rs[|rs| - 1].query)
    ensures forall r | r in rs :: board[q] <= r.score
  {
  }

  lemma LeaveOut(rs: seq<Ranked>, board: map<string, real>, x: Ranked, k: nat)
    requires IsTop(rs, board, k) && |rs| == k >= 1
    requires x.query !in Queries(rs) && x.score <= rs[k - 1].score
    ensures IsTop(rs, board[x.query := x.score], k)
  {
  }

  /** The last of the best k. */
  ghost function LastBest(board: map<string, real>, k: nat): (x: Ranked)
    requires k >= 1 && board != map[]
    ensures BestOf(board, k) != [] && x == BestOf(board, k)[|BestOf(board, k)| - 1]
    ensures x.query in board && board[x.query] == x.score
  {
    BestLeads(board, k);
    TopLength(BestOf(board, k), board, k);
    var best := BestOf(board, k);
    assert best[|best| - 1] in best;
    best[|best| - 1]
  }

  /**
    A query that belongs last in the best k, and arrives last with its whole score, gets its place if and
    only if no tie crosses the cut: the last entry is replaced only on a strictly larger score.
   */
  lemma {:induction false} LateArrival(board: map<string, real>, k: nat)
    requires k >= 1 && board != map[]
    ensures var x := LastBest(board, k);
            Upserted(BestOf(board - {x.query}, k), x, k) == BestOf(board, k) <==> CleanCut(BestOf(board, k), board)
  {
    var best, before := BestOf(board, k), BestOf(board - {LastBest(board, k).query}, k);
    BestLeads(board, k);
    BestLeads(board - {LastBest(board, k).query}, k);
    Arrival(board, best, before, k);
  }

  lemma {:induction false} Arrival(board: map<string, real>, best: seq<Ranked>, before: seq<Ranked>, k: nat)
    requires k >= 1 && best != [] && IsTop(best, board, k)
    requires IsTop(before, board - {best[|best| - 1].query}, k)
    ensures Upserted(before, best[|best| - 1], k) == best <==> CleanCut(best, board)
  {
    hide CleanCut, IsTop, Upserted;
    if CleanCut(best, board) {
      CleanArrival(board, best, before, k);
    } else {
      TiedStaysOut(board, best, before, k);
    }
  }

  lemma {:induction false} CleanArrival(board: map<string, real>, best: seq<Ranked>, before: seq<Ranked>, k: nat)
    requires k >= 1 && best != [] && IsTop(best, board, k) && CleanCut(best, board)
    requires IsTop(before, board - {best[|best| - 1].query}, k)
    ensures Upserted(before, best[|best| - 1], k) == best
  {
    var last := best[|best| - 1];
    assert last in best && board[last.query] == last.score;
    assert (board - {last.query})[last.query := last.score] == board;
    UpsertKeepsTop(before, board - {last.query}, last, k);
    TopUnique(best, Upserted(before, last, k), board, k);
  }

  lemma {:induction false} TiedStaysOut(board: map<string, real>, best: seq<Ranked>, before: seq<Ranked>, k: nat)
    requires k >= 1 && best != [] && IsTop(best, board, k) && !CleanCut(best, board)
    requires IsTop(before, board - {best[|best| - 1].query}, k)
    ensures Upserted(before, best[|best| - 1], k) == before != best
  {
    var last := best[|best| - 1];
    var above := TiedMany(board, best, k);
    var without := board - {last.query};
    ManyFillTheList(without, before, above, last.score, k);
    hide IsTop, CleanCut;
    assert last in best && last.query !in Queries(before);
  }

  /** With a tie across the cut, k queries other than the last one score no less than it. */
  lemma {:induction false} TiedMany(board: map<string, real>, best: seq<Ranked>, k: nat) returns (above: set<string>)
    requires best != [] && IsTop(best, board, k) && !CleanCut(best, board)
    ensures |above| == k && AllReach(above, board - {best[|best| - 1].query}, best[|best| - 1].score)
  {
    var q, r :| q in board && q !in Queries(best) && r in best && !(board[q] < r.score);
    LastScoresLeast(best, board, r);
    TopDistinct(best, board);
    above := TiedSet(board, best, q);
  }

  lemma {:induction false} TiedSet(board: map<string, real>, best: seq<Ranked>, q: string) returns (above: set<string>)
    requires best != [] && SortedBy(Before, best) && Exact(best, board) && DistinctQueries(best)
    requires q in board && q !in Queries(best) && board[q] >= best[|best| - 1].score
    ensures |above| == |best| && AllReach(above, board - {best[|best| - 1].query}, best[|best| - 1].score)
  {
    var front, x := best[..|best| - 1], Ranked(q, board[q]);
    assert best == front + [best[|best| - 1]];
    AppendRanked(front, x, board);
    above := Queries(front + [x]);
    DistinctCount(front + [x]);
    hide Exact, SortedBy, DistinctQueries, Queries;
    forall t | t in above ensures t in board && t != best[|best| - 1].query && board[t] >= best[|best| - 1].score {
      TiedReach(best, board, q, t);
    }
  }

  /** If k queries of a board score at least x, so does every entry of its top-k lists. */
  lemma {:induction false} ManyFillTheList(board: map<string, real>, rs: seq<Ranked>, above: set<string>, x: real,
                                           k: nat)
    requires k >= 1 && IsTop(rs, board, k) && |above| == k && AllReach(above, board, x)
    ensures |rs| == k && rs[k - 1].score >= x && Queries(rs) <= board.Keys
  {
    QueriesCount(rs, board);
    if t :| t in above && t !in Queries(rs) {
      assert rs[k - 1] in rs;
    } else {
      SubsetSame(above, Queries(rs));
      assert rs[k - 1] in rs;
    }
  }

  lemma {:induction false} TiedReach(best: seq<Ranked>, board: map<string, real>, q: string, t: string)
    requires best != [] && SortedBy(Before, best) && Exact(best, board) && DistinctQueries(best)
    requires q in board && q !in Queries(best) && board[q] >= best[|best| - 1].score
    requires t in Queries(best[..|best| - 1] + [Ranked(q, board[q])])
    ensures t in board && t != best[|best| - 1].query && board[t] >= best[|best| - 1].score
  {
    var front, last := best[..|best| - 1], best[|best| - 1];
    assert last in best;
    var x :| x in front + [Ranked(q, board[q])] && x.query == t;
    if x in front {
      var i :| 0 <= i < |front| && front[i] == x;
      assert best[i] == x && x in best;
      LastScoresLeast(best, board, x);
    }
  }

  /** The first n of a top-k are a top-n. */
  lemma TopOfTop(rs: seq<Ranked>, board: map<string, real>, k: nat, n: nat)
    requires IsTop(rs, board, k)
    ensures IsTop(rs[..Min(n, |rs|)], board, Min(n, k))
  {
  }
}
