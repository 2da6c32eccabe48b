/**
  The prefix trie on the heap. The ghost map `nodes` names every node by its prefix; it replaces a
  recursive footprint, so each method reasons about single nodes.

  The four parts of the invariant read different fields: `Linked` the child links, `Named` and
  `CountMap` the counts, `TopMap` the lists. A method that changes one kind of field keeps the rest.
 */
module TrieIndex {
  import opened Model
  import opened Ordering
  import opened TopLists
  import opened TopUpdates
  import opened TrieSpec

  class Node {
    var children: map<char, Node>
    var count: int
    var query: string
    var top: seq<Candidate>
    ghost const prefix: string  // the path that leads here

    constructor (ghost prefix: string)
      ensures this.prefix == prefix && children == map[] && count == 0 && query == "" && top == []
    {
      children, count, query, top := map[], 0, "", [];
      this.prefix := prefix;
    }

    method UpsertTop(query: string, count: int, k: nat)
      requires k >= 1
      modifies this`top
      ensures AsRanked(top) == UpsertedTop(old(top), query, count, k)
    {
      hide UpsertedTop, SortBy, AsRanked;
      var i := 0;
      while i < |top|
        invariant 0 <= i <= |top|
        invariant forall j | 0 <= j < i :: top[j].query != query
      {
        if top[i].query == query {
          UpdateMeans(top, query, count, k, i);
          top := SortBy(CandidateLess, top[i := top[i].(count := count)]);
          return;
        }
        i := i + 1;
      }
      InsertMeans(top, query, count, k);
      if |top| < k {
        top := SortBy(CandidateLess, top + [Candidate(query, count, 0.0, 0)]);
      } else if count > top[|top| - 1].count {
        top := SortBy(CandidateLess, top[..|top| - 1] + [Candidate(query, count, 0.0, 0)]);
      }
    }
  }

  lemma {:induction false} UpdateMeans(top: seq<Candidate>, q: string, n: int, k: nat, i: nat)
    requires k >= 1 && i < |top| && top[i].query == q && forall j | 0 <= j < i :: top[j].query != q
    ensures AsRanked(SortBy(CandidateLess, top[i := top[i].(count := n)])) == UpsertedTop(top, q, n, k)
  {
    hide SortBy;
    IndexAt(top, q, i);
    UpdateRanked(top, i, top[i].(count := n));
    SortCommutes(top[i := top[i].(count := n)]);
  }

  lemma {:induction false} InsertMeans(top: seq<Candidate>, q: string, n: int, k: nat)
    requires k >= 1 && forall j | 0 <= j < |top| :: top[j].query != q
    ensures var c := Candidate(q, n, 0.0, 0);
            UpsertedTop(top, q, n, k)
            == if |top| < k then AsRanked(SortBy(CandidateLess, top + [c]))
               else if n > top[|top| - 1].count then AsRanked(SortBy(CandidateLess, top[..|top| - 1] + [c]))
               else AsRanked(top)
  {
    hide SortBy, AsRanked, IndexOf;
    var c := Candidate(q, n, 0.0, 0);
    IndexAt(top, q, |top|);
    if |top| < k {
      AppendAsRanked(top, c);
      SortCommutes(top + [c]);
    } else {
      AsRankedSlice(top, |top| - 1);
      AppendAsRanked(top[..|top| - 1], c);
      SortCommutes(top[..|top| - 1] + [c]);
    }
  }

  lemma {:induction false} IndexAt(top: seq<Candidate>, q: string, i: nat)
    requires i <= |top| && (forall j | 0 <= j < i :: top[j].query != q) && (i < |top| ==> top[i].query == q)
    ensures IndexOf(AsRanked(top), q) == i
  {
    IndexUnique(AsRanked(top), q, i);
  }

  lemma {:induction false} IndexUnique(rs: seq<Ranked>, q: string, i: nat)
    requires i <= |rs| && (forall j | 0 <= j < i :: rs[j].query != q) && (i < |rs| ==> rs[i].query == q)
    ensures IndexOf(rs, q) == i
  {
    if i > 0 {
      IndexUnique(rs[1..], q, i - 1);
    }
  }

  lemma UpdateRanked(top: seq<Candidate>, i: nat, c: Candidate)
    requires i < |top|
    ensures AsRanked(top[i := c]) == AsRanked(top)[i := RankedOf(c)]
  {
  }

  lemma AppendAsRanked(top: seq<Candidate>, c: Candidate)
    ensures AsRanked(top + [c]) == AsRanked(top) + [RankedOf(c)]
  {
  }

  type Kids = map<string, map<char, Node>>

  ghost predicate HasParent(kids: Kids, p: string) {
    p != "" && p[..|p| - 1] in kids && p[|p| - 1] in kids[p[..|p| - 1]]
  }

  ghost predicate ChildOk(nodes: map<string, Node>, kids: Kids, p: string, c: char)
    requires p in kids && c in kids[p]
  {
    p + [c] in nodes && kids[p][c] == nodes[p + [c]]
  }

  /** Child links lead from each prefix to the prefixes one rune longer, and nowhere else. */
  ghost predicate LinkedBy(root: Node, nodes: map<string, Node>, kids: Kids) {
    && kids.Keys == nodes.Keys
    && "" in nodes && nodes[""] == root
    && (forall p | p in nodes :: nodes[p].prefix == p)
    && (forall p, c {:trigger ChildOk(nodes, kids, p, c)} | p in kids && c in kids[p] :: ChildOk(nodes, kids, p, c))
    && (forall p {:trigger HasParent(kids, p)} | p in nodes && p != "" :: HasParent(kids, p))
  }

  lemma {:induction false} ParentHasChild(root: Node, nodes: map<string, Node>, kids: Kids, p: string, c: char)
    requires LinkedBy(root, nodes, kids) && p + [c] in nodes
    ensures p in kids && c in kids[p]
  {
    var q := p + [c];
    assert q[..|q| - 1] == p && q[|q| - 1] == c;
    assert HasParent(kids, q);
  }

  /** One new node for rune c below p: the tree stays linked. */
  lemma {:induction false} LinksGrow(root: Node, nodes: map<string, Node>, kids: Kids, p: string, c: char, child: Node)
    requires LinkedBy(root, nodes, kids) && p in kids && c !in kids[p]
    requires child.prefix == p + [c]
    ensures p + [c] !in nodes
    ensures LinkedBy(root, nodes[p + [c] := child], kids[p := kids[p][c := child]][p + [c] := map[]])
  {
    var q := p + [c];
    assert q[..|q| - 1] == p && q[|q| - 1] == c;
    if q in nodes {
      ParentHasChild(root, nodes, kids, p, c);
    }
    var nodes', kids' := nodes[q := child], kids[p := kids[p][c := child]][q := map[]];
    forall x, d {:trigger ChildOk(nodes', kids', x, d)} | x in kids' && d in kids'[x]
      ensures ChildOk(nodes', kids', x, d)
    {
      if x != p || d != c {
        assert ChildOk(nodes, kids, x, d);
      }
    }
    forall x {:trigger HasParent(kids', x)} | x in nodes' && x != "" ensures HasParent(kids', x) {
      if x != q {
        assert HasParent(kids, x);
      }
    }
  }

  lemma EmptyTrieOk(k: nat)
    requires k >= 1
    ensures TrieOk(map[], map["" := []], k)
  {
  }

  class Trie {
    const k: nat
    const root: Node
    ghost var nodes: map<string, Node>

    constructor (k: int)
      ensures Valid() && this.k == if k < 1 then 10 else k
      ensures CountMap() == map[] && TopMap() == map["" := []]
      ensures fresh(nodes.Values)
    {
      hide IsTop;
      this.k := if k < 1 then 10 else k;
      root := new Node("");
      nodes := map[];
      new;
      assert Children() == map[] && RawCounts() == map[] && TopMap() == map[];
      Register("", root);
      hide TrieOk;
      assert CountMap() == map[];
      EmptyTrieOk(this.k);
    }

    // ----- The invariant -----

    ghost function Children(): (m: Kids)
      reads this, nodes.Values`children
      ensures m.Keys == nodes.Keys
    {
      map p | p in nodes :: nodes[p].children
    }

    lemma ChildrenAt(p: string)
      requires p in nodes
      ensures p in Children() && Children()[p] == nodes[p].children
    {
    }

    ghost predicate Linked()
      reads this, nodes.Values`children
    {
      LinkedBy(root, nodes, Children())
    }

    ghost predicate Named()
      reads this, nodes.Values`count, nodes.Values`query
    {
      forall p | p in nodes :: nodes[p].count >= 0 && (nodes[p].count > 0 ==> nodes[p].query == p)
    }

    ghost function RawCounts(): (m: map<string, int>)
      reads this, nodes.Values`count
      ensures m.Keys == nodes.Keys
    {
      map p | p in nodes :: nodes[p].count
    }

    /** The stored queries and their counts. */
    ghost function CountMap(): Counts
      reads this, nodes.Values`count
    {
      PositivePart(RawCounts())
    }

    ghost function TopMap(): (m: Tops)
      reads this, nodes.Values`top
      ensures m.Keys == nodes.Keys
    {
      map p | p in nodes :: nodes[p].top
    }

    /** Well-formed as a tree; during the bulk build the lists are not computed yet. */
    ghost predicate Built()
      reads this, nodes.Values
    {
      k >= 1 && Linked() && Named()
    }

    ghost predicate Valid()
      reads this, nodes.Values
    {
      Built() && TrieOk(CountMap(), TopMap(), k)
    }

    lemma RootIsNode()
      requires Linked()
      ensures "" in nodes && nodes[""] == root
    {
    }

    lemma NodesDistinct()
      requires Linked()
      ensures forall p | p in nodes :: nodes[p].prefix == p
    {
    }

    lemma {:induction false} ChildIsNode(p: string, c: char)
      requires Linked() && p in nodes && c in nodes[p].children
      ensures p + [c] in nodes && nodes[p].children[c] == nodes[p + [c]]
    {
      assert ChildOk(nodes, Children(), p, c);
    }

    /** A node exists for every prefix of a node's prefix, linked by the next rune. */
    lemma {:induction false} ChildOnPath(p: string, i: nat)
      requires Linked() && p in nodes && i < |p|
      ensures p[..i] in nodes && p[i] in nodes[p[..i]].children && p[..i + 1] in nodes
      decreases |p|
    {
      assert HasParent(Children(), p);
      var parent := p[..|p| - 1];
      if i == |p| - 1 {
        assert p[..i + 1] == p;
      } else {
        ChildOnPath(parent, i);
        assert parent[..i] == p[..i] && parent[..i + 1] == p[..i + 1];
      }
    }

    lemma {:induction false} PrefixIsNode(p: string, q: string)
      requires Linked() && q in nodes && p <= q
      ensures p in nodes
    {
      if |p| < |q| {
        ChildOnPath(q, |p|);
        assert p == q[..|p|];
      } else {
        assert p == q;
      }
    }

    // ----- Reading -----

    /** Walks the path of p; null if it leaves the tree. */
    method Walk(p: string) returns (n: Node?)
      requires Linked()
      ensures n != null <==> p in nodes
      ensures n != null ==> n == nodes[p]
    {
      hide Linked;
      RootIsNode();
      n := root;
      var i := 0;
      while i < |p|
        invariant 0 <= i <= |p|
        invariant p[..i] in nodes && n == nodes[p[..i]]
      {
        if p in nodes {
          ChildOnPath(p, i);
        }
        if p[i] !in n.children {
          return null;
        }
        ChildIsNode(p[..i], p[i]);
        assert p[..i + 1] == p[..i] + [p[i]];
        n := n.children[p[i]];
        i := i + 1;
      }
      assert p[..|p|] == p;
    }

    method TopK(prefix: string, k: nat) returns (out: seq<Candidate>)
      requires Linked()
      ensures out == if prefix in nodes then FirstOf(TopMap()[prefix], k) else []
    {
      var n := Walk(prefix);
      if n == null {
        return [];
      }
      var m := if k > |n.top| then |n.top| else k;
      assert n.top[..|n.top|] == n.top;
      out := n.top[..m];
    }

    method Count(query: string) returns (count: int)
      requires Linked() && Named()
      ensures count == CountOf(CountMap(), query)
    {
      var n := Walk(query);
      if n == null {
        return 0;
      }
      count := n.count;
    }

    // ----- Building paths -----

    method AddChild(n: Node, c: char, ghost p: string) returns (child: Node)
      requires Linked() && Named() && p in nodes && nodes[p] == n && c !in n.children
      modifies this`nodes, n`children
      ensures Linked() && Named() && p + [c] !in old(nodes) && nodes == old(nodes)[p + [c] := child]
      ensures TopMap() == old(TopMap())[p + [c] := []] && CountMap() == old(CountMap())
      ensures fresh(child) && nodes.Values <= old(nodes.Values) + {child}
    {
      ghost var tops, counts := TopMap(), CountMap();
      child := new Node(p + [c]);
      assert TopMap() == tops && CountMap() == counts;
      hide CountMap, TopMap, Linked, Named;
      Attach(n, c, child, p);
    }

    /** Links a blank node below p. */
    method Attach(n: Node, c: char, child: Node, ghost p: string)
      requires Linked() && Named() && p in nodes && nodes[p] == n && c !in n.children
      requires child.prefix == p + [c] && child.children == map[] && child.count == 0 && child.top == []
      modifies this`nodes, n`children
      ensures Linked() && Named() && p + [c] !in old(nodes) && nodes == old(nodes)[p + [c] := child]
      ensures TopMap() == old(TopMap())[p + [c] := []] && CountMap() == old(CountMap())
      ensures nodes.Values <= old(nodes.Values) + {child}
    {
      ChildrenAt(p);
      hide CountMap, PositivePart, LinkedBy, TopMap, Children, RawCounts, Named;
      ghost var q, kids, raw := p + [c], Children(), RawCounts();
      CountMapIs(raw);
      LinksGrow(root, nodes, kids, p, c, child);
      LongerPath(p, c);
      SetChild(n, c, child, p);
      ValuesGrow(nodes, q, child);
      Register(q, child);
      ZeroAdded(raw, q);
      CountMapIs(raw[q := 0]);
    }

    lemma LongerPath(p: string, c: char)
      requires Linked() && p in nodes
      ensures nodes[p].prefix != p + [c]
    {
    }

    /** Records a new, blank node under its prefix. */
    ghost method Register(q: string, child: Node)
      requires q !in nodes && Named() && child.children == map[] && child.count == 0 && child.top == []
      modifies this`nodes
      ensures nodes == old(nodes)[q := child] && Named()
      ensures Children() == old(Children())[q := map[]]
      ensures RawCounts() == old(RawCounts())[q := 0]
      ensures TopMap() == old(TopMap())[q := []]
    {
      ghost var before, kids, raw, tops := nodes, Children(), RawCounts(), TopMap();
      nodes := nodes[q := child];
      forall p | p in nodes
        ensures Children()[p] == kids[q := map[]][p] && RawCounts()[p] == raw[q := 0][p]
                && TopMap()[p] == tops[q := []][p]
      {
        assert p == q || nodes[p] == before[p];
      }
    }

    method SetChild(n: Node, c: char, child: Node, ghost p: string)
      requires Linked() && Named() && p in nodes && nodes[p] == n && child.children == map[]
      modifies n`children
      ensures Children() == old(Children())[p := old(Children())[p][c := child]]
      ensures Named() && RawCounts() == old(RawCounts()) && TopMap() == old(TopMap())
      ensures child != n ==> child.children == map[]
    {
      NodesDistinct();
      hide Linked;
      n.children := n.children[c := child];
    }

    /** The path of q: the nodes of its non-empty prefixes, created where they are missing. */
    method EnsurePath(q: string) returns (n: Node, path: seq<Node>)
      requires Linked() && Named()
      modifies this`nodes, nodes.Values`children
      ensures Linked() && Named() && CountMap() == old(CountMap())
      ensures BlankGrowth(old(TopMap()), TopMap(), q)
      ensures q in nodes && n == nodes[q] && OnPath(nodes, q, path, |q|)
      ensures fresh(nodes.Values - old(nodes.Values))
    {
      hide Linked, Named, CountMap, TopMap, BlankGrowth, OnPath;
      ghost var tops := TopMap();
      PathStarts(nodes, q);
      NoGrowth(tops, q);
      RootIsNode();
      n, path := root, [];
      var i := 0;
      while i < |q|
        invariant i <= |q| && OnPath(nodes, q, path, i)
        invariant Linked() && Named() && CountMap() == old(CountMap()) && BlankGrowth(tops, TopMap(), q)
        invariant fresh(nodes.Values - old(nodes.Values))
        invariant q[..i] in nodes && n == nodes[q[..i]]
      {
        StepSplits(q, i);
        ghost var known := nodes;
        if q[i] !in n.children {
          ghost var before := TopMap();
          n := AddChild(n, q[i], q[..i]);
          GrowthStep(tops, before, TopMap(), q, i);
        } else {
          ChildIsNode(q[..i], q[i]);
          n := n.children[q[i]];
        }
        PathExtends(known, nodes, q, path, n, i);
        path := path + [n];
        i := i + 1;
      }
      assert q[..|q|] == q;
    }

    /** Bulk build: sets a query's count. The lists are wrong until Finalize. */
    method Insert(query: string, count: int)
      requires Built() && count > 0
      modifies this`nodes, nodes.Values
      ensures Built() && CountMap() == old(CountMap())[query := count]
      ensures fresh(nodes.Values - old(nodes.Values))
    {
      hide Linked, Named, CountMap, TopMap;
      var n, _ := EnsurePath(query);
      SetQuery(n, query);
      SetCount(n, query, count);
    }

    method SetCount(n: Node, q: string, count: int)
      requires Linked() && Named() && q in nodes && n == nodes[q] && n.query == q && count > 0
      modifies n`count
      ensures Named() && CountMap() == old(CountMap())[q := count]
      ensures old(n.count) == CountOf(old(CountMap()), q) && n.count == count
    {
      NodesDistinct();
      hide Linked, CountMap, PositivePart;
      ghost var raw := RawCounts();
      CountMapIs(raw);
      n.count := count;
      assert RawCounts() == raw[q := count];
      PositiveUpdate(raw, q, count);
      CountMapIs(raw[q := count]);
    }

    lemma CountMapIs(raw: map<string, int>)
      requires RawCounts() == raw
      ensures CountMap() == PositivePart(raw)
    {
    }

    // ----- Finalize -----

    ghost function Below(p: string): set<string>
      reads this
    {
      set x | x in nodes && p <= x
    }

    ghost function NodesBelow(p: string): set<Node>
      reads this
    {
      set x | x in nodes && p <= x :: nodes[x]
    }

    /**
      Computes every node's list, bottom up: the best k below it, ties broken by query, in whatever order
      children come.
     */
    method Finalize()
      requires Built()
      modifies nodes.Values`top
      ensures Valid() && nodes == old(nodes) && CountMap() == old(CountMap())
      ensures Rebuilt(CountMap(), TopMap(), k)
      ensures forall p | p in nodes :: TieBroken(TopMap()[p], CountMap(), p)
    {
      hide BestFor, TopFor, Linked, Named, CountMap, TopMap;
      RootIsNode();
      var _ := Dfs(root, "");
      PathsPresent();
      CountsPositive();
      RebuiltIsOk(CountMap(), TopMap(), k);
      hide TieBroken;
      forall p | p in nodes ensures TieBroken(TopMap()[p], CountMap(), p) {
        BestIsTieBroken(TopMap()[p], CountMap(), p, k);
      }
    }

    lemma CountsPositive()
      ensures PositiveCounts(CountMap())
    {
    }

    method Dfs(n: Node, ghost p: string) returns (cands: seq<Candidate>)
      requires Built() && p in nodes && nodes[p] == n
      modifies NodesBelow(p)`top
      ensures cands == TopMap()[p]
      ensures forall x | x in nodes && p <= x :: BestFor(TopMap()[x], CountMap(), x, k)
      ensures forall x | x in nodes && !(p <= x) :: TopMap()[x] == old(TopMap())[x]
      decreases Below(p)
    {
      hide BestFor, Collecting, Linked, Named, CountMap, TopMap, Below, NodesBelow, DoneBranch;
      ghost var counts := CountMap();
      SelfBelow(p);
      cands := Own(n, p);
      var rest := n.children.Keys;
      StartHere(p, cands);
      while rest != {}
        invariant rest <= n.children.Keys && n.children == old(n.children)
        invariant Collecting(cands, counts, p, k, rest)
        invariant forall x | x in nodes && DoneBranch(p, x, rest) :: BestFor(TopMap()[x], counts, x, k)
        invariant forall x | x in nodes && !(p <= x) :: TopMap()[x] == old(TopMap())[x]
      {
        var c :| c in rest;
        ChildIsNode(p, c);
        BelowShrinks(p, c);
        ghost var before := TopMap();
        var sub := Dfs(n.children[c], p + [c]);
        assert CountMap() == counts && sub == TopMap()[p + [c]];
        BranchDone(p, c, rest, before, TopMap(), counts);
        CollectMore(cands, counts, p, k, rest, c, sub);
        cands := cands + sub;
        rest := rest - {c};
      }
      AllAccounted(p, cands);
      ghost var lists := TopMap();
      cands := SortBy(CandidateLess, cands);
      if |cands| > k {
        cands := cands[..k];
      }
      SetTop(n, cands, p);
      assert CountMap() == counts;
      NodeDone(p, lists, TopMap(), counts);
    }

    lemma {:induction false} NodeDone(p: string, before: Tops, after: Tops, counts: Counts)
      requires p in before && p in after && after == before[p := after[p]] && BestFor(after[p], counts, p, k)
      requires forall x | x in before && DoneBranch(p, x, {}) :: BestFor(before[x], counts, x, k)
      ensures forall x | x in after && p <= x :: BestFor(after[x], counts, x, k)
    {
      hide BestFor;
      assert forall x | x in after && p <= x && x != p :: DoneBranch(p, x, {});
    }

    /** A node's own entry, if it ends a stored query. */
    method Own(n: Node, ghost p: string) returns (cands: seq<Candidate>)
      requires Named() && p in nodes && nodes[p] == n
      ensures cands == if p in CountMap() then [Candidate(p, CountMap()[p], 0.0, 0)] else []
    {
      cands := [];
      if n.count > 0 {
        cands := [Candidate(n.query, n.count, 0.0, 0)];
      }
    }

    method SetTop(n: Node, cands: seq<Candidate>, ghost p: string)
      requires Linked() && p in nodes && nodes[p] == n
      modifies n`top
      ensures TopMap() == old(TopMap())[p := cands]
    {
      NodesDistinct();
      hide Linked;
      n.top := cands;
    }

    /** After the branch of c is done, so are all branches that are not in rest any more. */
    lemma BranchDone(p: string, c: char, rest: set<char>, before: Tops, after: Tops, counts: Counts)
      requires before.Keys == after.Keys
      requires forall x | x in before && DoneBranch(p, x, rest) :: BestFor(before[x], counts, x, k)
      requires forall x | x in after && p + [c] <= x :: BestFor(after[x], counts, x, k)
      requires forall x | x in after && !(p + [c] <= x) :: after[x] == before[x]
      ensures forall x | x in after && DoneBranch(p, x, rest - {c}) :: BestFor(after[x], counts, x, k)
      ensures forall x | x in after && !(p <= x) :: after[x] == before[x]
    {
    }

    lemma {:induction false} StartHere(p: string, cands: seq<Candidate>)
      requires Built() && p in nodes
      requires cands == if p in CountMap() then [Candidate(p, CountMap()[p], 0.0, 0)] else []
      ensures forall x | x in nodes :: !DoneBranch(p, x, nodes[p].children.Keys)
      ensures Collecting(cands, CountMap(), p, k, nodes[p].children.Keys)
    {
      hide Collecting;
      forall x | x in nodes && StrictlyBelow(p, x) ensures x[|p|] in nodes[p].children {
        ChildOnPath(x, |p|);
        assert x[..|p|] == p;
      }
      StartCollect(cands, CountMap(), p, k, nodes[p].children.Keys);
    }

    lemma SelfBelow(p: string)
      requires p in nodes
      ensures nodes[p] in NodesBelow(p)
    {
    }

    lemma {:induction false} BelowShrinks(p: string, c: char)
      requires Linked() && p in nodes
      ensures Below(p + [c]) < Below(p) && NodesBelow(p + [c]) <= NodesBelow(p)
    {
      assert p in Below(p) && p !in Below(p + [c]);
      forall x | x in nodes && p + [c] <= x ensures p <= x {
        assert p <= p + [c];
      }
    }

    /** When all children are done, every stored query below p is accounted for. */
    lemma {:induction false} AllAccounted(p: string, cands: seq<Candidate>)
      requires Built() && p in nodes && Collecting(cands, CountMap(), p, k, {})
      ensures BestFor(FirstOf(SortBy(CandidateLess, cands), k), CountMap(), p, k)
    {
      MergedTop(cands, CountMap(), p, k);
    }

    // ----- Applying a batch -----

    method ApplyBatch(deltas: map<string, int>)
      requires Valid() && NonNegative(deltas)
      modifies this`nodes, nodes.Values
      ensures Valid()
      ensures CountMap() == AddDeltas(old(CountMap()), deltas)
      ensures forall q | q in deltas && q != "" && deltas[q] != 0 ::
                q in CountMap()
                && CountMap()[q] == (if q in old(CountMap()) then old(CountMap())[q] else 0) + deltas[q]
      ensures forall q | q !in deltas || q == "" || deltas[q] == 0 ::
                (q in CountMap() <==> q in old(CountMap()))
                && (q in CountMap() ==> CountMap()[q] == old(CountMap())[q])
      ensures SameElsewhere(old(TopMap()), TopMap(), Changed(deltas))
      ensures fresh(nodes.Values - old(nodes.Values))
    {
      hide Trie.Valid, AddSome, SameElsewhere;
      AddDeltasMeans(CountMap(), deltas);
      ghost var counts, tops, changed := CountMap(), TopMap(), Changed(deltas);
      ghost var done: set<string> := {};
      NoneAdded(counts, deltas, tops);
      var rest := deltas.Keys;
      while rest != {}
        invariant rest <= deltas.Keys && done <= changed <= done + rest && done !! rest
        invariant Valid()
        invariant CountMap() == AddSome(counts, deltas, done)
        invariant SameElsewhere(tops, TopMap(), done)
        invariant fresh(nodes.Values - old(nodes.Values))
      {
        var q :| q in rest;
        rest := rest - {q};
        var d := deltas[q];
        if q == "" || d == 0 {
          continue;
        }
        ghost var tops' := TopMap();
        Raise(q, d);
        AddOneMore(counts, deltas, done, q);
        ElsewhereGrows(tops, tops', TopMap(), done, q);
        done := done + {q};
      }
      assert done == changed;
    }

    /** One query of a batch: raise its count, then upsert it into every node on its path. */
    method Raise(q: string, d: int)
      requires Valid() && q != "" && d > 0
      modifies this`nodes, nodes.Values
      ensures Valid()
      ensures CountMap() == AddTo(old(CountMap()), q, d)
      ensures SameElsewhere(old(TopMap()), TopMap(), {q})
      ensures fresh(nodes.Values - old(nodes.Values))
    {
      hide TopFor, Linked, TrieOk, CountMap, TopMap, Named;
      ghost var counts, tops := CountMap(), TopMap();
      var n, path := GrowPath(q);
      ghost var lists := TopMap();
      RaiseCount(n, q, d);
      UpsertPath(path, q, n.count, d, counts);
      GrownElsewhere(tops, lists, TopMap(), q);
    }

    /** The path of q with its lists: new nodes have nothing stored below them and list nothing. */
    method GrowPath(q: string) returns (n: Node, path: seq<Node>)
      requires Valid() && q != ""
      modifies this`nodes, nodes.Values`children
      ensures Built() && OnPath(nodes, q, path, |q|) && q in nodes && n == nodes[q]
      ensures CountMap() == old(CountMap())
      ensures forall p | p in TopMap() && p != "" :: TopFor(TopMap()[p], CountMap(), p, k)
      ensures BlankGrowth(old(TopMap()), TopMap(), q)
      ensures fresh(nodes.Values - old(nodes.Values))
    {
      hide TopFor, Linked, Named, TrieOk, OnPath, CountMap, TopMap;
      ghost var counts, tops := CountMap(), TopMap();
      n, path := EnsurePath(q);
      BlankListsOk(counts, tops, TopMap(), q, k);
    }

    method RaiseCount(n: Node, q: string, d: int)
      requires Linked() && Named() && q in nodes && n == nodes[q] && d > 0
      modifies n`count, n`query
      ensures Named() && CountMap() == AddTo(old(CountMap()), q, d)
      ensures n.count == CountOf(old(CountMap()), q) + d
    {
      hide Linked, CountMap;
      if n.count == 0 {
        SetQuery(n, q);
      }
      SetCount(n, q, n.count + d);
    }

    method SetQuery(n: Node, q: string)
      requires Linked() && Named() && q in nodes && n == nodes[q]
      modifies n`query
      ensures Named() && n.query == q
    {
      NodesDistinct();
      hide Linked;
      n.query := q;
    }

    /** Upserts the risen query into every node of its path. */
    method UpsertPath(path: seq<Node>, q: string, n: int, d: int, ghost counts: Counts)
      requires Built() && q != "" && OnPath(nodes, q, path, |q|)
      requires d > 0 && n == CountOf(counts, q) + d && CountMap() == AddTo(counts, q, d)
      requires forall p | p in TopMap() && p != "" :: TopFor(TopMap()[p], counts, p, k)
      modifies nodes.Values`top
      ensures Valid()
      ensures forall p | p in nodes && !OnWay(p, q) :: TopMap()[p] == old(TopMap())[p]
    {
      hide TopFor, UpsertedTop, Linked, Named, CountMap, TopMap, UpsertedUpTo;
      ghost var lists, raised := TopMap(), CountMap();
      NothingUpserted(lists, raised, q, k);
      for i := 0 to |path|
        invariant TopMap().Keys == lists.Keys && UpsertedUpTo(TopMap(), lists, raised, q, i, k)
      {
        ghost var p, before := Step(q, i), TopMap();
        LeftAlone(before, lists, raised, q, i, k, p);
        UpsertNode(path[i], q, n, d, counts, p);
        OneMoreUpserted(before, TopMap(), lists, raised, q, i, k, p);
      }
      AllUpserted(TopMap(), lists, raised, q, k);
      PathDone(q, d, counts, lists);
    }

    method UpsertNode(node: Node, q: string, n: int, d: int, ghost counts: Counts, ghost p: string)
      requires k >= 1 && Linked() && p in nodes && node == nodes[p]
      requires d > 0 && n == CountOf(counts, q) + d && OnWay(p, q) && TopFor(TopMap()[p], counts, p, k)
      modifies node`top
      ensures TopMap() == old(TopMap())[p := TopMap()[p]] && TopFor(TopMap()[p], AddTo(counts, q, d), p, k)
    {
      hide TopFor, UpsertedTop;
      NodesDistinct();
      hide Linked;
      ghost var before := node.top;
      node.UpsertTop(q, n, k);
      UpsertOnPath(before, counts, p, k, q, d, node.top);
    }

    lemma {:induction false} PathDone(q: string, d: int, counts: Counts, lists: Tops)
      requires Built() && d > 0 && CountMap() == AddTo(counts, q, d)
      requires lists.Keys == nodes.Keys && forall p | p in nodes && p != "" :: TopFor(lists[p], counts, p, k)
      requires forall p | p in nodes && OnWay(p, q) :: TopFor(TopMap()[p], CountMap(), p, k)
      requires forall p | p in nodes && !OnWay(p, q) :: TopMap()[p] == lists[p]
      ensures TrieOk(CountMap(), TopMap(), k)
    {
      hide TopFor, Linked;
      forall p | p in nodes && p != "" ensures TopFor(TopMap()[p], CountMap(), p, k) {
        if !OnWay(p, q) {
          TopOffPath(lists[p], counts, p, k, q, d);
        }
      }
      PathsPresent();
    }

    lemma {:induction false} PathsPresent()
      requires Linked()
      ensures forall x, p | x in CountMap() && p <= x :: p in TopMap()
    {
      forall x, p | x in CountMap() && p <= x ensures p in TopMap() {
        PrefixIsNode(p, x);
      }
    }
  }

  /** The non-empty prefixes of q. */
  predicate OnWay(p: string, q: string) {
    p != "" && p <= q
  }

  /** The prefix reached after rune i of q. */
  function Step(q: string, i: nat): string
    requires i < |q|
  {
    q[..i + 1]
  }

  lemma StepSplits(q: string, i: nat)
    requires i < |q|
    ensures Step(q, i) == q[..i] + [q[i]]
  {
  }

  /** The first m nodes of the path of q. */
  ghost predicate OnPath(nodes: map<string, Node>, q: string, path: seq<Node>, m: nat) {
    m <= |q| && |path| == m && forall i: nat | i < m :: Step(q, i) in nodes && path[i] == nodes[Step(q, i)]
  }

  lemma PathStarts(nodes: map<string, Node>, q: string)
    ensures OnPath(nodes, q, [], 0)
  {
  }

  lemma PathExtends(known: map<string, Node>, nodes: map<string, Node>, q: string, path: seq<Node>,
                    n: Node, m: nat)
    requires OnPath(known, q, path, m) && m < |q| && Step(q, m) in nodes && n == nodes[Step(q, m)]
    requires forall x | x in known :: x in nodes && nodes[x] == known[x]
    ensures OnPath(nodes, q, path + [n], m + 1)
  {
  }

  /** Some nodes on the path of q are new and blank; all others are as before. */
  ghost predicate BlankGrowth(before: Tops, after: Tops, q: string) {
    && (forall p | p in before :: p in after && after[p] == before[p])
    && (forall p | p in after && p !in before :: OnWay(p, q) && after[p] == [])
  }

  lemma NoGrowth(tops: Tops, q: string)
    ensures BlankGrowth(tops, tops, q)
  {
  }

  lemma GrowthStep(tops: Tops, before: Tops, after: Tops, q: string, i: nat)
    requires i < |q| && BlankGrowth(tops, before, q)
    requires q[..i] + [q[i]] !in before && after == before[q[..i] + [q[i]] := []]
    ensures BlankGrowth(tops, after, q)
  {
  }

  lemma ValuesGrow(nodes: map<string, Node>, q: string, child: Node)
    ensures nodes[q := child].Values <= nodes.Values + {child}
  {
  }

  lemma ZeroAdded(raw: map<string, int>, q: string)
    requires q !in raw
    ensures PositivePart(raw[q := 0]) == PositivePart(raw)
  {
  }

  /** Nodes just created have nothing stored below them. */
  lemma BlankListsOk(counts: Counts, before: Tops, after: Tops, q: string, k: nat)
    requires TrieOk(counts, before, k) && BlankGrowth(before, after, q)
    ensures forall p | p in after && p != "" :: TopFor(after[p], counts, p, k)
  {
  }

  /** The lists of the prefixes of q up to length i are upserted, the others as they were. */
  ghost predicate UpsertedUpTo(tops: Tops, lists: Tops, raised: Counts, q: string, i: nat, k: nat)
    requires tops.Keys == lists.Keys
  {
    forall p | p in tops ::
      if OnWay(p, q) && |p| <= i then TopFor(tops[p], raised, p, k) else tops[p] == lists[p]
  }

  lemma NothingUpserted(lists: Tops, raised: Counts, q: string, k: nat)
    ensures UpsertedUpTo(lists, lists, raised, q, 0, k)
  {
  }

  lemma LeftAlone(tops: Tops, lists: Tops, raised: Counts, q: string, i: nat, k: nat, p: string)
    requires tops.Keys == lists.Keys && UpsertedUpTo(tops, lists, raised, q, i, k)
    requires i < |q| && p == q[..i + 1] && p in tops
    ensures tops[p] == lists[p] && OnWay(p, q)
  {
  }

  lemma {:induction false} OneMoreUpserted(before: Tops, after: Tops, lists: Tops, raised: Counts, q: string, i: nat,
                                           k: nat, p: string)
    requires before.Keys == lists.Keys && UpsertedUpTo(before, lists, raised, q, i, k)
    requires i < |q| && p == q[..i + 1] && p in before && p in after && after == before[p := after[p]]
    requires TopFor(after[p], raised, p, k)
    ensures after.Keys == lists.Keys && UpsertedUpTo(after, lists, raised, q, i + 1, k)
  {
    hide TopFor;
    forall x | x in after && OnWay(x, q) && |x| == i + 1 ensures x == p { }
  }

  lemma AllUpserted(tops: Tops, lists: Tops, raised: Counts, q: string, k: nat)
    requires tops.Keys == lists.Keys && UpsertedUpTo(tops, lists, raised, q, |q|, k)
    ensures forall p | p in tops && OnWay(p, q) :: TopFor(tops[p], raised, p, k)
    ensures forall p | p in tops && !OnWay(p, q) :: tops[p] == lists[p]
  {
  }

  function PositivePart(raw: map<string, int>): Counts {
    map q | q in raw && raw[q] > 0 :: raw[q]
  }

  lemma PositiveUpdate(raw: map<string, int>, q: string, n: int)
    requires n > 0
    ensures PositivePart(raw[q := n]) == PositivePart(raw)[q := n]
    ensures q in raw && raw[q] >= 0 ==> CountOf(PositivePart(raw), q) == raw[q]
  {
  }

  /** New nodes on the path of q, then new lists on the path of q: elsewhere nothing changes. */
  lemma GrownElsewhere(a: Tops, b: Tops, c: Tops, q: string)
    requires BlankGrowth(a, b, q)
    requires b.Keys == c.Keys && forall p | p in b && !OnWay(p, q) :: c[p] == b[p]
    ensures SameElsewhere(a, c, {q})
  {
  }

  // ----- Collecting candidates from the children of a node -----

  ghost predicate StrictlyBelow(p: string, x: string) {
    p <= x && |x| > |p|
  }

  /** x lies strictly below p in a branch that is not among `rest`. */
  ghost predicate DoneBranch(p: string, x: string, rest: set<char>) {
    StrictlyBelow(p, x) && x[|p|] !in rest
  }

  /** Collection in progress: the branches of `rest` are still to come. */
  ghost predicate Collecting(cands: seq<Candidate>, counts: Counts, p: string, k: nat, rest: set<char>) {
    && Collected(cands, counts, p)
    && (forall c | c in cands :: c.query == p || (StrictlyBelow(p, c.query) && c.query[|p|] !in rest))
    && (forall q | q in counts && p <= q && !(StrictlyBelow(p, q) && q[|p|] in rest) :: Accounted(cands, counts, k, q))
  }

  lemma {:induction false} StartCollect(cands: seq<Candidate>, counts: Counts, p: string, k: nat, rest: set<char>)
    requires cands == if p in counts then [Candidate(p, counts[p], 0.0, 0)] else []
    requires forall q | q in counts && StrictlyBelow(p, q) :: q[|p|] in rest
    ensures Collecting(cands, counts, p, k, rest)
  {
    forall q | q in counts && p <= q && !(StrictlyBelow(p, q) && q[|p|] in rest)
      ensures Accounted(cands, counts, k, q)
    {
      assert q == p && cands[0] in cands;
    }
  }

  lemma {:induction false} CollectMore(cands: seq<Candidate>, counts: Counts, p: string, k: nat, rest: set<char>,
                                       c: char, sub: seq<Candidate>)
    requires Collecting(cands, counts, p, k, rest) && c in rest && BestFor(sub, counts, p + [c], k)
    ensures Collecting(cands + sub, counts, p, k, rest - {c})
  {
    hide BestFor, Collected, Accounted;
    BestForIsTop(sub, counts, p + [c], k);
    TopForExact(sub, counts, p + [c], k);
    CollectedAppend(cands, counts, p, rest, c, sub, k);
    forall x | x in sub ensures StrictlyBelow(p, x.query) && x.query[|p|] == c {
      assert x.query[|p|] == (p + [c])[|p|];
    }
    forall q | q in counts && p <= q && !(StrictlyBelow(p, q) && q[|p|] in rest - {c})
      ensures Accounted(cands + sub, counts, k, q)
    {
      if StrictlyBelow(p, q) && q[|p|] == c {
        BranchOf(p, c, q);
        AccountedBySub(cands, counts, k, p + [c], q, sub);
      } else {
        AccountedMore(cands, counts, k, q, sub);
      }
    }
  }

  lemma AccountedBySub(cands: seq<Candidate>, counts: Counts, k: nat, p: string, q: string,
                       sub: seq<Candidate>)
    requires p <= q && BestFor(sub, counts, p, k)
    ensures Accounted(cands + sub, counts, k, q)
  {
  }

  lemma AccountedMore(cands: seq<Candidate>, counts: Counts, k: nat, q: string, more: seq<Candidate>)
    requires Accounted(cands, counts, k, q)
    ensures Accounted(cands + more, counts, k, q)
  {
  }

  lemma {:induction false} CollectedAppend(cands: seq<Candidate>, counts: Counts, p: string, rest: set<char>, c: char,
                                           sub: seq<Candidate>, k: nat)
    requires Collecting(cands, counts, p, k, rest) && c in rest && BestFor(sub, counts, p + [c], k)
    requires forall x | x in sub :: x.query in counts && p + [c] <= x.query && counts[x.query] == x.count
    ensures Collected(cands + sub, counts, p)
  {
    var all := cands + sub;
    BestForIsTop(sub, counts, p + [c], k);
    TopDistinct(AsRanked(sub), CountBoard(counts, p + [c]));
    forall x | x in sub ensures p <= x.query && StrictlyBelow(p, x.query) && x.query[|p|] == c {
      assert x.query[|p|] == (p + [c])[|p|];
      assert p <= p + [c];
    }
    forall i, j | 0 <= i < j < |all| ensures all[i].query != all[j].query {
      if j < |cands| {
        assert AsRanked(cands)[i].query != AsRanked(cands)[j].query;
      } else if i >= |cands| {
        assert AsRanked(sub)[i - |cands|].query != AsRanked(sub)[j - |cands|].query;
      } else {
        assert cands[i] in cands && sub[j - |cands|] in sub;
      }
    }
  }

  lemma BranchOf(p: string, c: char, x: string)
    requires StrictlyBelow(p, x)
    ensures p + [c] <= x <==> x[|p|] == c
  {
  }
}
