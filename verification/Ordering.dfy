/**
  Strict orders, and the sort that `sort.Slice` stands for.

  Every sort in the program compares with a strict order under which the elements being
  sorted are pairwise comparable, so the sorted sequence is unique (`SortedUnique`): the
  library's unstable sort and the insertion sort below return the same result.
 */
module Ordering {

  /** Lexicographic order on rune sequences: the order of `<` on valid UTF-8 strings. */
  predicate LexLess(a: string, b: string) {
    if b == [] then false
    else if a == [] then true
    else a[0] < b[0] || (a[0] == b[0] && LexLess(a[1..], b[1..]))
  }

  /** What the order says: a proper prefix comes first, else the first position that differs decides. */
  lemma {:induction false} LexMeans(a: string, b: string)
    ensures LexLess(a, b)
            <==> a < b || exists i: nat :: i < |a| && i < |b| && a[..i] == b[..i] && a[i] < b[i]
  {
    if a != [] && b != [] && a[0] == b[0] {
      LexMeans(a[1..], b[1..]);
      assert a == [a[0]] + a[1..] && b == [b[0]] + b[1..];
      if j: nat :| j < |a[1..]| && j < |b[1..]| && a[1..][..j] == b[1..][..j] && a[1..][j] < b[1..][j] {
        assert a[..j + 1] == [a[0]] + a[1..][..j] && b[..j + 1] == [b[0]] + b[1..][..j];
      }
      if i: nat :| i < |a| && i < |b| && a[..i] == b[..i] && a[i] < b[i] {
        DiffersInTail(a, b, i);
      }
    } else if a != [] && b != [] {
      assert a[..0] == b[..0];
    }
  }

  lemma {:induction false} DiffersInTail(a: string, b: string, i: nat)
    requires i < |a| && i < |b| && a[..i] == b[..i] && a[i] < b[i] && a[0] == b[0]
    ensures 0 < i && a[1..][..i - 1] == b[1..][..i - 1] && a[1..][i - 1] < b[1..][i - 1]
  {
    assert a[1..][..i - 1] == a[..i][1..] && b[1..][..i - 1] == b[..i][1..];
  }

  lemma {:induction false} LexIrreflexive(a: string)
    ensures !LexLess(a, a)
  {
    if a != [] {
      LexIrreflexive(a[1..]);
    }
  }

  lemma {:induction false} LexTransitive(a: string, b: string, c: string)
    requires LexLess(a, b) && LexLess(b, c)
    ensures LexLess(a, c)
  {
    if a != [] && a[0] == b[0] && b[0] == c[0] {
      LexTransitive(a[1..], b[1..], c[1..]);
    }
  }

  lemma {:induction false} LexTotal(a: string, b: string)
    ensures a == b || LexLess(a, b) || LexLess(b, a)
  {
    if a != [] && b != [] && a[0] == b[0] {
      LexTotal(a[1..], b[1..]);
      assert a == [a[0]] + a[1..] && b == [b[0]] + b[1..];
    }
  }

  ghost predicate Strict<T(!new)>(less: (T, T) -> bool) {
    && (forall x :: !less(x, x))
    && (forall x, y, z :: less(x, y) && less(y, z) ==> less(x, z))
  }

  ghost predicate Comparable<T>(less: (T, T) -> bool, s: seq<T>) {
    forall i, j | 0 <= i < j < |s| :: less(s[i], s[j]) || less(s[j], s[i])
  }

  ghost predicate SortedBy<T>(less: (T, T) -> bool, s: seq<T>) {
    forall i, j | 0 <= i < j < |s| :: less(s[i], s[j])
  }

  function InsertBy<T>(less: (T, T) -> bool, x: T, s: seq<T>): (r: seq<T>)
    ensures multiset(r) == multiset(s) + multiset{x}
    ensures |r| == |s| + 1
  {
    if s == [] then [x]
    else if less(x, s[0]) then [x] + s
    else
      assert s == [s[0]] + s[1..];
      [s[0]] + InsertBy(less, x, s[1..])
  }

  function SortBy<T>(less: (T, T) -> bool, s: seq<T>): (r: seq<T>)
    ensures multiset(r) == multiset(s)
    ensures |r| == |s|
  {
    if s == [] then []
    else
      assert s == [s[0]] + s[1..];
      InsertBy(less, s[0], SortBy(less, s[1..]))
  }

  lemma {:induction false} MultisetMembers<T>(a: seq<T>, b: seq<T>)
    requires multiset(a) == multiset(b)
    ensures forall x :: x in a <==> x in b
  {
    forall x ensures x in a <==> x in b {
      assert x in a <==> x in multiset(a);
      assert x in b <==> x in multiset(b);
    }
  }

  lemma {:induction false} InsertSorted<T(!new)>(less: (T, T) -> bool, x: T, s: seq<T>)
    requires Strict(less) && SortedBy(less, s)
    requires forall y | y in s :: less(x, y) || less(y, x)
    ensures SortedBy(less, InsertBy(less, x, s))
  {
    if s == [] {
    } else if less(x, s[0]) {
    } else {
      var t := InsertBy(less, x, s[1..]);
      InsertSorted(less, x, s[1..]);
      forall y | y in t ensures less(s[0], y) {
        assert y in multiset(t);
        assert y == x || y in s[1..];
        assert s[0] in s;
      }
    }
  }

  /** The sort returns a sorted permutation of its input. */
  lemma {:induction false} SortSorts<T(!new)>(less: (T, T) -> bool, s: seq<T>)
    requires Strict(less) && Comparable(less, s)
    ensures SortedBy(less, SortBy(less, s))
    ensures forall x :: x in SortBy(less, s) <==> x in s
  {
    MultisetMembers(SortBy(less, s), s);
    if s != [] {
      var t := SortBy(less, s[1..]);
      SortSorts(less, s[1..]);
      forall y | y in t ensures less(s[0], y) || less(y, s[0]) {
        assert y in s[1..];
        var j :| 0 <= j < |s[1..]| && s[1..][j] == y;
        assert s[j + 1] == y;
      }
      InsertSorted(less, s[0], t);
    }
  }

  lemma {:induction false} SomeMember<T>(s: seq<T>)
    requires s != []
    ensures exists x :: x in s
  {
    assert s[0] in s;
  }

  /** A set of elements has at most one sorted arrangement. */
  lemma {:induction false} SortedUnique<T(!new)>(less: (T, T) -> bool, a: seq<T>, b: seq<T>)
    requires Strict(less) && SortedBy(less, a) && SortedBy(less, b)
    requires forall x :: x in a <==> x in b
    ensures a == b
  {
    if a == [] {
      if b != [] {
        SomeMember(b);
      }
    } else {
      assert a[0] in b;
      assert b[0] in a;
      assert a[0] == b[0];
      forall x ensures x in a[1..] <==> x in b[1..] {
        assert x in a[1..] ==> x in a && x != a[0];
        assert x in b[1..] ==> x in b && x != b[0];
        assert a == [a[0]] + a[1..] && b == [b[0]] + b[1..];
      }
      SortedUnique(less, a[1..], b[1..]);
    }
  }

  /** Any two sorts of the same elements agree, in whatever order the elements came. */
  lemma {:induction false} SortOrderIrrelevant<T(!new)>(less: (T, T) -> bool, s: seq<T>, t: seq<T>)
    requires Strict(less) && Comparable(less, s) && Comparable(less, t)
    requires forall x :: x in s <==> x in t
    ensures SortBy(less, s) == SortBy(less, t)
  {
    SortSorts(less, s);
    SortSorts(less, t);
    SortedUnique(less, SortBy(less, s), SortBy(less, t));
  }

  /** Sorted by a strict order means free of duplicates. */
  lemma SortedDistinct<T(!new)>(less: (T, T) -> bool, s: seq<T>)
    requires Strict(less) && SortedBy(less, s)
    ensures forall i, j | 0 <= i < j < |s| :: s[i] != s[j]
  {
  }
}
