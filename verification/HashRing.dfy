/**
  The consistent-hash ring with virtual nodes, over an arbitrary hash function: positions may collide.

  `Canonical` pins the vnode array down as a function of the *set* of present nodes. `Closest` says what
  owning a hash means without mentioning the array: the first vnode clockwise from the hash.
 */
module HashRing {
  import opened Model
  import opened Ordering

  type U64 = x: int | 0 <= x < 0x1_0000_0000_0000_0000
  type Hash = string -> U64

  datatype Vnode = Vnode(pos: U64, node: string, idx: nat)

  /** The strict order (pos, node, idx) the ring is sorted by. */
  predicate VnodeLess(a: Vnode, b: Vnode) {
    if a.pos != b.pos then a.pos < b.pos
    else if a.node != b.node then LexLess(a.node, b.node)
    else a.idx < b.idx
  }

  lemma {:induction false} VnodeStrict()
    ensures Strict(VnodeLess)
  {
    forall x: Vnode, y: Vnode, z: Vnode | VnodeLess(x, y) && VnodeLess(y, z) ensures VnodeLess(x, z) {
      if LexLess(x.node, y.node) && LexLess(y.node, z.node) {
        LexTransitive(x.node, y.node, z.node);
        LexIrreflexive(x.node);
      }
    }
  }

  lemma {:induction false} VnodeTotal(a: Vnode, b: Vnode)
    ensures a == b || VnodeLess(a, b) || VnodeLess(b, a)
  {
    LexTotal(a.node, b.node);
  }

  function Itoa(n: nat): string {
    var digit := ['0', '1', '2', '3', '4', '5', '6', '7', '8', '9'][n % 10];
    if n < 10 then [digit] else Itoa(n / 10) + [digit]
  }

  // ----- What a label is, without the function that makes it -----

  predicate IsDigit(c: char) {
    '0' <= c <= '9'
  }

  /** The number a string of digits stands for. */
  function ValueOf(s: string): int {
    if s == [] then 0 else 10 * ValueOf(s[..|s| - 1]) + (s[|s| - 1] as int - '0' as int)
  }

  /** s is the decimal numeral of n: digits only, no leading zero, value n. */
  predicate IsNumeral(s: string, n: nat) {
    s != [] && (forall c | c in s :: IsDigit(c)) && (s[0] == '0' ==> |s| == 1) && ValueOf(s) == n
  }

  lemma {:induction false} ItoaIsNumeral(n: nat)
    ensures IsNumeral(Itoa(n), n)
    ensures n > 0 ==> Itoa(n)[0] != '0'
  {
    if n >= 10 {
      ItoaIsNumeral(n / 10);
      var head, s := Itoa(n / 10), Itoa(n);
      assert s[..|s| - 1] == head && s[|s| - 1] as int - '0' as int == n % 10;
    } else {
      assert Itoa(n)[..0] == [];
    }
  }

  lemma {:induction false} DigitsAreWorth(s: string)
    requires forall c | c in s :: IsDigit(c)
    ensures ValueOf(s) >= 0
    ensures s != [] && s[0] != '0' ==> ValueOf(s) > 0
  {
    if s != [] {
      var head := s[..|s| - 1];
      assert forall c | c in head :: c in s;
      assert s[|s| - 1] in s;
      DigitsAreWorth(head);
    }
  }

  /** A number has one numeral, so different indices have different labels. */
  lemma {:induction false} NumeralUnique(s: string, t: string, n: nat)
    requires IsNumeral(s, n) && IsNumeral(t, n)
    ensures s == t
    decreases |s|
  {
    var a, b := s[..|s| - 1], t[..|t| - 1];
    assert s == a + [s[|s| - 1]] && t == b + [t[|t| - 1]];
    assert s[|s| - 1] in s && t[|t| - 1] in t;
    assert (forall c | c in a :: c in s) && (forall c | c in b :: c in t);
    DigitsAreWorth(a);
    DigitsAreWorth(b);
    assert ValueOf(a) == ValueOf(b) == n / 10;
    if a != [] && b != [] {
      NumeralUnique(a, b, n / 10);
    }
  }

  lemma {:induction false} LabelsDiffer(node: string, i: nat, j: nat, s: string, t: string)
    requires IsNumeral(s, i) && IsNumeral(t, j) && i != j
    ensures node + "#" + s != node + "#" + t
  {
    var a, b := node + "#" + s, node + "#" + t;
    assert a[|node| + 1..] == s && b[|node| + 1..] == t;
  }

  ghost predicate HasEntry(ring: seq<Vnode>, n: string, i: nat) {
    exists v :: v in ring && v.node == n && v.idx == i
  }

  /**
    What a ring holds, said outright: in the order (position, node, index), for every node and every index
    below perNode exactly one entry, at the hash of the node's name, "#" and the index in decimal.
   */
  ghost predicate Laid(hash: Hash, perNode: nat, S: set<string>, ring: seq<Vnode>) {
    && (forall j, k | 0 <= j < k < |ring| ::
          || ring[j].pos < ring[k].pos
          || (ring[j].pos == ring[k].pos && LexLess(ring[j].node, ring[k].node))
          || (ring[j].pos == ring[k].pos && ring[j].node == ring[k].node && ring[j].idx < ring[k].idx))
    && (forall v | v in ring :: v.node in S && v.idx < perNode)
    && (forall v | v in ring :: exists s :: IsNumeral(s, v.idx) && v.pos == hash(v.node + "#" + s))
    && (forall n, i: nat | n in S && i < perNode :: HasEntry(ring, n, i))
    && (forall j, k | 0 <= j < k < |ring| :: ring[j].node != ring[k].node || ring[j].idx != ring[k].idx)
  }

  lemma {:induction false} CanonicalIsLaid(hash: Hash, perNode: nat, S: set<string>, ring: seq<Vnode>)
    requires Canonical(hash, perNode, S, ring)
    ensures Laid(hash, perNode, S, ring)
  {
    VnodeStrict();
    forall v | v in ring ensures exists s :: IsNumeral(s, v.idx) && v.pos == hash(v.node + "#" + s) {
      ItoaIsNumeral(v.idx);
      assert IsNumeral(Itoa(v.idx), v.idx) && v == VnodeOf(hash, v.node, v.idx);
    }
    forall n, i: nat | n in S && i < perNode ensures HasEntry(ring, n, i) {
      assert Placed(hash, perNode, S, VnodeOf(hash, n, i));
    }
    hide Itoa, IsNumeral, HasEntry;
    forall j, k | 0 <= j < k < |ring|
      ensures VnodeLess(ring[j], ring[k]) && (ring[j].node != ring[k].node || ring[j].idx != ring[k].idx)
    {
      assert ring[j] in ring && ring[k] in ring && VnodeLess(ring[j], ring[k]);
    }
  }

  function VnodeOf(hash: Hash, node: string, idx: nat): Vnode {
    Vnode(hash(node + "#" + Itoa(idx)), node, idx)
  }

  /** v is one of the vnodes the nodes S place on the ring. */
  ghost predicate Placed(hash: Hash, perNode: nat, S: set<string>, v: Vnode) {
    v.node in S && v.idx < perNode && v == VnodeOf(hash, v.node, v.idx)
  }

  ghost predicate Canonical(hash: Hash, perNode: nat, S: set<string>, ring: seq<Vnode>) {
    SortedBy(VnodeLess, ring) && forall v :: v in ring <==> Placed(hash, perNode, S, v)
  }

  /** The array depends on the set of present nodes only, not on the order they came in. */
  lemma {:induction false} CanonicalUnique(hash: Hash, perNode: nat, S: set<string>, a: seq<Vnode>, b: seq<Vnode>)
    requires Canonical(hash, perNode, S, a) && Canonical(hash, perNode, S, b)
    ensures a == b
  {
    VnodeStrict();
    SortedUnique(VnodeLess, a, b);
  }

  ghost function ShareOf(ring: seq<Vnode>, node: string): set<Vnode> {
    set v | v in ring && v.node == node
  }

  /** Every present node holds exactly perNode entries, any other node none, and no entry occurs twice. */
  lemma {:induction false} CanonicalShares(hash: Hash, perNode: nat, S: set<string>, ring: seq<Vnode>, node: string)
    requires Canonical(hash, perNode, S, ring)
    ensures |ShareOf(ring, node)| == if node in S then perNode else 0
    ensures forall i, j | 0 <= i < j < |ring| :: ring[i] != ring[j]
  {
    VnodeStrict();
    SortedDistinct(VnodeLess, ring);
    if node in S {
      assert ShareOf(ring, node) == FirstVnodes(hash, node, perNode);
    } else {
      assert ShareOf(ring, node) == {};
    }
  }

  ghost function FirstVnodes(hash: Hash, node: string, n: nat): (vs: set<Vnode>)
    ensures forall v :: v in vs <==> v.idx < n && v == VnodeOf(hash, node, v.idx)
    ensures |vs| == n
  {
    if n == 0 then {} else FirstVnodes(hash, node, n - 1) + {VnodeOf(hash, node, n - 1)}
  }

  // ----- Clockwise ownership -----

  /** Clockwise from h: positions at or past h first, then around the wrap. */
  predicate Closer(h: U64, a: Vnode, b: Vnode) {
    if (a.pos >= h) != (b.pos >= h) then a.pos >= h else VnodeLess(a, b)
  }

  ghost predicate Closest(hash: Hash, perNode: nat, S: set<string>, h: U64, v: Vnode) {
    Placed(hash, perNode, S, v) && forall u | Placed(hash, perNode, S, u) && u != v :: Closer(h, v, u)
  }

  lemma {:induction false} CloserAsymmetric(h: U64, a: Vnode, b: Vnode)
    ensures !(Closer(h, a, b) && Closer(h, b, a))
  {
    LexIrreflexive(a.node);
    if LexLess(a.node, b.node) && LexLess(b.node, a.node) {
      LexTransitive(a.node, b.node, a.node);
    }
  }

  lemma {:induction false} ClosestUnique(hash: Hash, perNode: nat, S: set<string>, h: U64, a: Vnode, b: Vnode)
    requires Closest(hash, perNode, S, h, a) && Closest(hash, perNode, S, h, b)
    ensures a == b
  {
    CloserAsymmetric(h, a, b);
  }

  /** The linear clockwise scan: the first entry at or past h, else the first entry of all. */
  function Scan(ring: seq<Vnode>, h: U64): Option<Vnode> {
    if ring == [] then None
    else
      var i := FirstAtOrPast(ring, h);
      Some(ring[if i == |ring| then 0 else i])
  }

  function FirstAtOrPast(ring: seq<Vnode>, h: U64): (i: nat)
    ensures i <= |ring|
    ensures i < |ring| ==> ring[i].pos >= h
    ensures forall j: nat | j < i :: ring[j].pos < h
  {
    if ring == [] || ring[0].pos >= h then 0 else 1 + FirstAtOrPast(ring[1..], h)
  }

  lemma FirstIsUnique(ring: seq<Vnode>, h: U64, i: nat)
    requires i <= |ring| && (i < |ring| ==> ring[i].pos >= h)
    requires forall j: nat | j < i :: ring[j].pos < h
    ensures i == FirstAtOrPast(ring, h)
  {
  }

  /** On a canonical ring the scan finds the closest vnode, wrap-around and equal positions included. */
  lemma ScanIsClosest(hash: Hash, perNode: nat, S: set<string>, ring: seq<Vnode>, h: U64)
    requires Canonical(hash, perNode, S, ring) && ring != []
    ensures Closest(hash, perNode, S, h, Scan(ring, h).value)
  {
  }

  /**
    The owning entry, said outright: the least position at or past h, or the least of all when every position
    is before h; among entries at one position the one that stands first in the ring's order.
   */
  ghost predicate FirstClockwise(ring: seq<Vnode>, h: U64, v: Vnode) {
    && (forall u | u in ring && u.pos >= h :: h <= v.pos <= u.pos)
    && ((forall u | u in ring :: u.pos < h) ==> forall u | u in ring :: v.pos <= u.pos)
    && (forall u | u in ring && u.pos == v.pos && u != v ::
          LexLess(v.node, u.node) || (v.node == u.node && v.idx < u.idx))
  }

  lemma {:induction false} ClosestIsFirst(hash: Hash, perNode: nat, S: set<string>, ring: seq<Vnode>, h: U64, v: Vnode)
    requires Canonical(hash, perNode, S, ring) && Closest(hash, perNode, S, h, v)
    ensures v in ring && FirstClockwise(ring, h, v)
  {
    hide VnodeOf;
    forall u | u in ring && u != v ensures Closer(h, v, u) {
      assert Placed(hash, perNode, S, u);
    }
  }

  function OwnerAt(ring: seq<Vnode>, h: U64): string {
    var v := Scan(ring, h);
    if v.None? then "" else v.value.node
  }

  /** A placed vnode exists exactly when some node is present. */
  lemma {:induction false} NonEmptyRing(hash: Hash, perNode: nat, S: set<string>, ring: seq<Vnode>)
    requires Canonical(hash, perNode, S, ring) && perNode >= 1
    ensures ring == [] <==> S == {}
  {
    if S != {} {
      var n :| n in S;
      assert Placed(hash, perNode, S, VnodeOf(hash, n, 0));
    }
    if ring != [] {
      assert ring[0] in ring;
    }
  }

  /**
    Minimal disruption: growing the node set from S to T moves a hash only onto a node that was
    added. Read backwards: shrinking it moves only the hashes of the nodes that left.
   */
  lemma {:induction false} MovesOnlyToNewNodes(hash: Hash, perNode: nat, S: set<string>, T: set<string>,
                            ring: seq<Vnode>, ring': seq<Vnode>, h: U64)
    requires perNode >= 1 && S <= T && S != {}
    requires Canonical(hash, perNode, S, ring) && Canonical(hash, perNode, T, ring')
    ensures OwnerAt(ring, h) in S && OwnerAt(ring', h) in T
    ensures OwnerAt(ring', h) == OwnerAt(ring, h) || OwnerAt(ring', h) in T - S
  {
    NonEmptyRing(hash, perNode, S, ring);
    NonEmptyRing(hash, perNode, T, ring');
    ScanIsClosest(hash, perNode, S, ring, h);
    ScanIsClosest(hash, perNode, T, ring', h);
    var v, v' := Scan(ring, h).value, Scan(ring', h).value;
    if v'.node in S {
      assert Placed(hash, perNode, S, v');
      ClosestUnique(hash, perNode, S, h, v, v');
    }
  }

  /** A hash moves to an added node exactly when one of that node's vnodes comes before its old owner. */
  lemma {:induction false} MovesWhenCloser(hash: Hash, perNode: nat, S: set<string>, n: string,
                        ring: seq<Vnode>, ring': seq<Vnode>, h: U64)
    requires perNode >= 1 && S != {} && n !in S
    requires Canonical(hash, perNode, S, ring) && Canonical(hash, perNode, S + {n}, ring')
    ensures ring != []
    ensures OwnerAt(ring', h) == n
            <==> exists i: nat :: i < perNode && Closer(h, VnodeOf(hash, n, i), Scan(ring, h).value)
  {
    NonEmptyRing(hash, perNode, S, ring);
    NonEmptyRing(hash, perNode, S + {n}, ring');
    ScanIsClosest(hash, perNode, S, ring, h);
    ScanIsClosest(hash, perNode, S + {n}, ring', h);
    var v, v' := Scan(ring, h).value, Scan(ring', h).value;
    assert Placed(hash, perNode, S + {n}, v);
    if v'.node == n {
      assert v'.idx < perNode && Closer(h, VnodeOf(hash, n, v'.idx), v);
    } else {
      assert Placed(hash, perNode, S, v');
      ClosestUnique(hash, perNode, S, h, v, v');
      forall i: nat | i < perNode ensures !Closer(h, VnodeOf(hash, n, i), v) {
        var u := VnodeOf(hash, n, i);
        assert Placed(hash, perNode, S + {n}, u) && Closer(h, v, u);
        CloserAsymmetric(h, u, v);
      }
    }
  }

  // ----- Add and Remove -----

  datatype Table = Table(nodes: seq<string>, ring: seq<Vnode>)

  function NodeSet(t: Table): set<string> {
    set n | n in t.nodes
  }

  ghost predicate WellFormed(hash: Hash, perNode: nat, t: Table) {
    && (forall i, j | 0 <= i < j < |t.nodes| :: t.nodes[i] != t.nodes[j])
    && Canonical(hash, perNode, NodeSet(t), t.ring)
  }

  function VnodesOf(hash: Hash, node: string, n: nat): (vs: seq<Vnode>)
    ensures |vs| == n
    ensures forall i | 0 <= i < n :: vs[i] == VnodeOf(hash, node, i)
  {
    seq(n, i requires 0 <= i < n => VnodeOf(hash, node, i))
  }

  function Added(hash: Hash, perNode: nat, t: Table, node: string): Table {
    if node in t.nodes then t
    else Table(t.nodes + [node], SortBy(VnodeLess, t.ring + VnodesOf(hash, node, perNode)))
  }

  function OtherNodes(nodes: seq<string>, node: string): seq<string> {
    if nodes == [] then []
    else (if nodes[0] != node then [nodes[0]] else []) + OtherNodes(nodes[1..], node)
  }

  lemma OthersFrom(nodes: seq<string>, i: nat, node: string)
    requires i < |nodes|
    ensures OtherNodes(nodes[i..], node)
            == (if nodes[i] == node then [] else [nodes[i]]) + OtherNodes(nodes[i + 1..], node)
  {
    assert nodes[i..][1..] == nodes[i + 1..];
  }

  function OtherVnodes(ring: seq<Vnode>, node: string): seq<Vnode> {
    if ring == [] then []
    else (if ring[0].node != node then [ring[0]] else []) + OtherVnodes(ring[1..], node)
  }

  function Removed(t: Table, node: string): Table {
    Table(OtherNodes(t.nodes, node), OtherVnodes(t.ring, node))
  }

  lemma {:induction false} AddedCanonical(hash: Hash, perNode: nat, t: Table, node: string)
    requires WellFormed(hash, perNode, t)
    ensures WellFormed(hash, perNode, Added(hash, perNode, t, node))
    ensures NodeSet(Added(hash, perNode, t, node)) == NodeSet(t) + {node}
  {
    if node in t.nodes {
      assert NodeSet(t) + {node} == NodeSet(t);
    } else {
      var vs := VnodesOf(hash, node, perNode);
      var all := t.ring + vs;
      var t' := Added(hash, perNode, t, node);
      assert NodeSet(t') == NodeSet(t) + {node};
      forall v ensures v in all <==> Placed(hash, perNode, NodeSet(t'), v) {
        assert v in all <==> v in t.ring || v in vs;
        if v.node == node && v.idx < perNode && v == VnodeOf(hash, v.node, v.idx) {
          assert vs[v.idx] == v;
        }
      }
      AppendedComparable(hash, perNode, t, node);
      VnodeStrict();
      SortSorts(VnodeLess, all);
    }
  }

  lemma {:induction false} AppendedComparable(hash: Hash, perNode: nat, t: Table, node: string)
    requires WellFormed(hash, perNode, t) && node !in t.nodes
    ensures Comparable(VnodeLess, t.ring + VnodesOf(hash, node, perNode))
  {
    var all := t.ring + VnodesOf(hash, node, perNode);
    forall i, j | 0 <= i < j < |all| ensures VnodeLess(all[i], all[j]) || VnodeLess(all[j], all[i]) {
      if j >= |t.ring| {
        if i < |t.ring| {
          assert t.ring[i] in t.ring;
        }
        VnodeTotal(all[i], all[j]);
      }
    }
  }

  lemma {:induction false} OtherNodesMembers(nodes: seq<string>, node: string)
    ensures forall n :: n in OtherNodes(nodes, node) <==> n in nodes && n != node
    ensures (forall i, j | 0 <= i < j < |nodes| :: nodes[i] != nodes[j]) ==>
              forall i, j | 0 <= i < j < |OtherNodes(nodes, node)| ::
                OtherNodes(nodes, node)[i] != OtherNodes(nodes, node)[j]
  {
    if nodes != [] {
      OtherNodesMembers(nodes[1..], node);
      assert nodes == [nodes[0]] + nodes[1..];
      forall n | n in OtherNodes(nodes[1..], node) ensures exists j :: 0 < j < |nodes| && nodes[j] == n {
        var j :| 0 <= j < |nodes[1..]| && nodes[1..][j] == n;
        assert nodes[j + 1] == n;
      }
      assert forall i | 0 <= i < |OtherNodes(nodes[1..], node)| ::
          OtherNodes(nodes[1..], node)[i] in OtherNodes(nodes[1..], node);
    }
  }

  lemma {:induction false} OtherVnodesMembers(ring: seq<Vnode>, node: string)
    ensures forall v :: v in OtherVnodes(ring, node) <==> v in ring && v.node != node
    ensures SortedBy(VnodeLess, ring) ==> SortedBy(VnodeLess, OtherVnodes(ring, node))
  {
    if ring != [] {
      OtherVnodesMembers(ring[1..], node);
      assert ring == [ring[0]] + ring[1..];
      if SortedBy(VnodeLess, ring) {
        forall v | v in OtherVnodes(ring[1..], node) ensures VnodeLess(ring[0], v) {
          assert v in ring[1..];
        }
      }
    }
  }

  lemma {:induction false} RemovedCanonical(hash: Hash, perNode: nat, t: Table, node: string)
    requires WellFormed(hash, perNode, t)
    ensures WellFormed(hash, perNode, Removed(t, node))
    ensures NodeSet(Removed(t, node)) == NodeSet(t) - {node}
  {
    OtherNodesMembers(t.nodes, node);
    OtherVnodesMembers(t.ring, node);
    assert NodeSet(Removed(t, node)) == NodeSet(t) - {node};
  }

  // ----- Runs -----

  datatype Op = Add(node: string) | Remove(node: string)

  function Apply(hash: Hash, perNode: nat, t: Table, op: Op): Table {
    match op
    case Add(n) => Added(hash, perNode, t, n)
    case Remove(n) => Removed(t, n)
  }

  function Run(hash: Hash, perNode: nat, ops: seq<Op>): Table {
    if ops == [] then Table([], [])
    else Apply(hash, perNode, Run(hash, perNode, ops[..|ops| - 1]), ops[|ops| - 1])
  }

  /** The nodes present after a run, by the meaning of the operations alone. */
  function Present(ops: seq<Op>): set<string> {
    if ops == [] then {}
    else
      var before, op := Present(ops[..|ops| - 1]), ops[|ops| - 1];
      if op.Add? then before + {op.node} else before - {op.node}
  }

  /** Ring canonicity: every run of Add and Remove leaves the canonical ring of the nodes then present. */
  lemma {:induction false} RunCanonical(hash: Hash, perNode: nat, ops: seq<Op>)
    ensures WellFormed(hash, perNode, Run(hash, perNode, ops))
    ensures NodeSet(Run(hash, perNode, ops)) == Present(ops)
    ensures Laid(hash, perNode, Present(ops), Run(hash, perNode, ops).ring)
  {
    RunWellFormed(hash, perNode, ops);
    CanonicalIsLaid(hash, perNode, Present(ops), Run(hash, perNode, ops).ring);
  }

  lemma {:induction false} RunWellFormed(hash: Hash, perNode: nat, ops: seq<Op>)
    ensures WellFormed(hash, perNode, Run(hash, perNode, ops))
    ensures NodeSet(Run(hash, perNode, ops)) == Present(ops)
  {
    if ops != [] {
      var past := ops[..|ops| - 1];
      RunWellFormed(hash, perNode, past);
      match ops[|ops| - 1] {
        case Add(n) => AddedCanonical(hash, perNode, Run(hash, perNode, past), n);
        case Remove(n) => RemovedCanonical(hash, perNode, Run(hash, perNode, past), n);
      }
    }
  }

  /** Two runs that end with the same nodes present end with the same array. */
  lemma {:induction false} RunsAgree(hash: Hash, perNode: nat, ops: seq<Op>, ops': seq<Op>)
    requires Present(ops) == Present(ops')
    ensures Run(hash, perNode, ops).ring == Run(hash, perNode, ops').ring
  {
    RunCanonical(hash, perNode, ops);
    RunCanonical(hash, perNode, ops');
    CanonicalUnique(hash, perNode, Present(ops), Run(hash, perNode, ops).ring, Run(hash, perNode, ops').ring);
  }

  /** Adding an absent node and removing it again restores the array. */
  lemma {:induction false} AddThenRemoveRestores(hash: Hash, perNode: nat, t: Table, node: string)
    requires WellFormed(hash, perNode, t) && node !in t.nodes
    ensures Removed(Added(hash, perNode, t, node), node).ring == t.ring
  {
    var t' := Added(hash, perNode, t, node);
    AddedCanonical(hash, perNode, t, node);
    RemovedCanonical(hash, perNode, t', node);
    assert NodeSet(Removed(t', node)) == NodeSet(t);
    CanonicalUnique(hash, perNode, NodeSet(t), t.ring, Removed(t', node).ring);
  }

  /** Across any series of Adds on a non-empty ring, no hash moves between two old nodes. */
  lemma {:induction false} SeriesOfAdds(hash: Hash, perNode: nat, before: seq<Op>, adds: seq<Op>, h: U64)
    requires perNode >= 1 && Present(before) != {} && forall op | op in adds :: op.Add?
    ensures var was := OwnerAt(Run(hash, perNode, before).ring, h);
            var now := OwnerAt(Run(hash, perNode, before + adds).ring, h);
            now == was || now in Present(before + adds) - Present(before)
  {
    RunCanonical(hash, perNode, before);
    RunCanonical(hash, perNode, before + adds);
    AddsOnlyGrow(before, adds);
    MovesOnlyToNewNodes(hash, perNode, Present(before), Present(before + adds),
                        Run(hash, perNode, before).ring, Run(hash, perNode, before + adds).ring, h);
  }

  lemma {:induction false} AddsOnlyGrow(before: seq<Op>, adds: seq<Op>)
    requires forall op | op in adds :: op.Add?
    ensures Present(before) <= Present(before + adds)
  {
    if adds == [] {
      assert before + adds == before;
    } else {
      var n := |adds| - 1;
      assert (before + adds)[..|before| + n] == before + adds[..n];
      assert adds[n] in adds;
      AddsOnlyGrow(before, adds[..n]);
    }
  }

  /** Removing a node moves only the hashes it owned. */
  lemma {:induction false} RemoveMovesOnlyItsOwn(hash: Hash, perNode: nat, t: Table, node: string, h: U64)
    requires perNode >= 1 && WellFormed(hash, perNode, t)
    requires OwnerAt(t.ring, h) != node
    ensures OwnerAt(Removed(t, node).ring, h) == OwnerAt(t.ring, h)
  {
    var S, T := NodeSet(t) - {node}, NodeSet(t);
    RemovedCanonical(hash, perNode, t, node);
    NonEmptyRing(hash, perNode, T, t.ring);
    NonEmptyRing(hash, perNode, S, Removed(t, node).ring);
    if t.ring != [] {
      ScanIsClosest(hash, perNode, T, t.ring, h);
      assert OwnerAt(t.ring, h) in S;
      MovesOnlyToNewNodes(hash, perNode, S, T, Removed(t, node).ring, t.ring, h);
    }
  }

  // ----- The ring object -----

  class Ring {
    const vnodesPerNode: nat
    const hash: Hash
    var nodes: seq<string>
    var ring: seq<Vnode>

    ghost function View(): Table
      reads this
    {
      Table(nodes, ring)
    }

    ghost predicate Valid()
      reads this
    {
      vnodesPerNode >= 1 && WellFormed(hash, vnodesPerNode, View())
    }

    constructor (vnodesPerNode: int, initial: seq<string>, hash: Hash)
      ensures Valid() && this.hash == hash
      ensures this.vnodesPerNode == if vnodesPerNode < 1 then 100 else vnodesPerNode
      ensures NodeSet(View()) == set n | n in initial
      ensures Laid(hash, this.vnodesPerNode, NodeSet(View()), ring)
    {
      this.vnodesPerNode := if vnodesPerNode < 1 then 100 else vnodesPerNode;
      this.hash := hash;
      nodes, ring := [], [];
      new;
      for i := 0 to |initial|
        invariant Valid()
        invariant NodeSet(View()) == set n | n in initial[..i]
      {
        AddNode(initial[i]);
        assert initial[..i + 1] == initial[..i] + [initial[i]];
      }
      assert initial[..|initial|] == initial;
      CanonicalIsLaid(hash, this.vnodesPerNode, NodeSet(View()), ring);
    }

    method AddNode(node: string)
      requires Valid()
      modifies this
      ensures Valid()
      ensures View() == Added(hash, vnodesPerNode, old(View()), node)
      ensures NodeSet(View()) == old(NodeSet(View())) + {node}
      ensures Laid(hash, vnodesPerNode, NodeSet(View()), ring)
    {
      AddedCanonical(hash, vnodesPerNode, View(), node);
      ghost var after := Added(hash, vnodesPerNode, View(), node);
      CanonicalIsLaid(hash, vnodesPerNode, NodeSet(after), after.ring);
      hide WellFormed, Laid;
      for i := 0 to |nodes|
        invariant node !in nodes[..i]
      {
        if nodes[i] == node {
          return;
        }
      }
      assert nodes[..|nodes|] == nodes;
      nodes := nodes + [node];
      AppendVnodes(node);
      ring := SortBy(VnodeLess, ring);
    }

    method AppendVnodes(node: string)
      modifies this`ring
      ensures ring == old(ring) + VnodesOf(hash, node, vnodesPerNode)
    {
      ghost var vs := VnodesOf(hash, node, vnodesPerNode);
      for i := 0 to vnodesPerNode
        invariant ring == old(ring) + vs[..i]
      {
        ring := ring + [VnodeOf(hash, node, i)];
        assert vs[..i + 1] == vs[..i] + [vs[i]];
      }
      assert vs[..vnodesPerNode] == vs;
    }

    method RemoveNode(node: string)
      requires Valid()
      modifies this
      ensures Valid()
      ensures View() == Removed(old(View()), node)
      ensures NodeSet(View()) == old(NodeSet(View())) - {node}
      ensures Laid(hash, vnodesPerNode, NodeSet(View()), ring)
    {
      RemovedCanonical(hash, vnodesPerNode, View(), node);
      CanonicalIsLaid(hash, vnodesPerNode, NodeSet(Removed(View(), node)), Removed(View(), node).ring);
      hide WellFormed, Laid;
      CompactNodes(node);
      CompactRing(node);
    }

    method CompactNodes(node: string)
      modifies this`nodes
      ensures nodes == OtherNodes(old(nodes), node)
    {
      var kept: seq<string> := [];
      for i := 0 to |nodes|
        invariant nodes == old(nodes) && kept + OtherNodes(nodes[i..], node) == OtherNodes(nodes, node)
      {
        OthersFrom(nodes, i, node);
        if nodes[i] != node {
          kept := kept + [nodes[i]];
        }
      }
      nodes := kept;
    }

    method CompactRing(node: string)
      modifies this`ring
      ensures ring == OtherVnodes(old(ring), node)
    {
      var kept: seq<Vnode> := [];
      for i := 0 to |ring|
        invariant kept + OtherVnodes(ring[i..], node) == OtherVnodes(ring, node)
      {
        assert ring[i..][1..] == ring[i + 1..];
        if ring[i].node != node {
          kept := kept + [ring[i]];
        }
      }
      ring := kept;
    }

    /** The owner of a key: its closest vnode's node, or "" on an empty ring. */
    method Get(key: string) returns (node: string)
      requires Valid()
      ensures node == OwnerAt(ring, hash(key))
      ensures ring == [] ==> node == ""
      ensures ring != [] ==> exists v :: v in ring && v.node == node && FirstClockwise(ring, hash(key), v)
    {
      var v := LookupHash(hash(key));
      node := if v.None? then "" else v.value.node;
    }

    method Lookup(key: string) returns (node: string, keyHash: U64, vnodePos: U64, ok: bool)
      requires Valid()
      ensures keyHash == hash(key) && node == OwnerAt(ring, keyHash)
      ensures ok <==> nodes != []
      ensures ok ==> node in nodes && exists v :: Closest(hash, vnodesPerNode, NodeSet(View()), keyHash, v)
                                                  && v.node == node && v.pos == vnodePos
      ensures ok ==>
                exists v :: v in ring && v.node == node && v.pos == vnodePos && FirstClockwise(ring, keyHash, v)
      ensures !ok ==> node == "" && vnodePos == 0
    {
      keyHash := hash(key);
      var v := LookupHash(keyHash);
      NonEmptyRing(hash, vnodesPerNode, NodeSet(View()), ring);
      assert nodes != [] ==> nodes[0] in NodeSet(View());
      if v.None? {
        return "", keyHash, 0, false;
      }
      return v.value.node, keyHash, v.value.pos, true;
    }

    /** Binary search for the first entry at or past h, wrapping to the first entry of all. */
    method LookupHash(h: U64) returns (v: Option<Vnode>)
      requires Valid()
      ensures v == Scan(ring, h)
      ensures v.None? <==> ring == []
      ensures v.Some? ==> Closest(hash, vnodesPerNode, NodeSet(View()), h, v.value)
      ensures v.Some? ==> v.value in ring && FirstClockwise(ring, h, v.value)
    {
      if |ring| == 0 {
        return None;
      }
      var i, j := 0, |ring|;
      while i < j
        invariant 0 <= i <= j <= |ring|
        invariant forall m: nat | m < i :: ring[m].pos < h
        invariant forall m: nat | j <= m < |ring| :: ring[m].pos >= h
      {
        var mid := (i + j) / 2;
        if ring[mid].pos >= h {
          forall m: nat | mid < m < |ring| ensures ring[m].pos >= h {
            assert VnodeLess(ring[mid], ring[m]);
          }
          j := mid;
        } else {
          forall m: nat | m < mid ensures ring[m].pos < h {
            assert VnodeLess(ring[m], ring[mid]);
          }
          i := mid + 1;
        }
      }
      FirstIsUnique(ring, h, i);
      if i == |ring| {
        i := 0;
      }
      ScanIsClosest(hash, vnodesPerNode, NodeSet(View()), ring, h);
      v := Some(ring[i]);
      ClosestIsFirst(hash, vnodesPerNode, NodeSet(View()), ring, h, v.value);
    }
  }
}
