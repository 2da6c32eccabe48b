/**
  The distributed cache: keys are routed to nodes by the ring. On a fixed ring every shard is an LRU
  node running its own part of the history, so together they refine one map.
 */
module ShardedCache {
  import opened HashRing
  import opened LruCache
  import opened Model

  type Shards = map<string, seq<Slot>>

  /** One operation reaches only the shard it is routed to; with no such node it is lost. */
  function ShardStep(shards: Shards, id: string, op: LruCache.Op, caps: map<string, nat>): Shards
    requires shards.Keys == caps.Keys
  {
    if id in shards then shards[id := Step(shards[id], op, caps[id])] else shards
  }

  function ShardVisible(shards: Shards, id: string, key: string, now: int): Option<Value> {
    if id in shards then Visible(shards[id], key, now) else None
  }

  function Empty(caps: map<string, nat>): Shards {
    map id | id in caps :: []
  }

  function RunShards(owner: string -> string, caps: map<string, nat>, ops: seq<LruCache.Op>): (r: Shards)
    ensures r.Keys == caps.Keys
  {
    if ops == [] then Empty(caps)
    else
      var op := ops[|ops| - 1];
      ShardStep(RunShards(owner, caps, ops[..|ops| - 1]), owner(op.key), op, caps)
  }

  /** The part of a history that is routed to one node. */
  function Routed(owner: string -> string, ops: seq<LruCache.Op>, id: string): seq<LruCache.Op> {
    if ops == [] then []
    else
      var op := ops[|ops| - 1];
      var part := Routed(owner, ops[..|ops| - 1], id);
      if owner(op.key) == id then part + [op] else part
  }

  /** Each shard is a node that ran exactly the operations routed to it. */
  lemma {:induction false} ShardRunsItsPart(owner: string -> string, caps: map<string,
                                            nat>, ops: seq<LruCache.Op>, id: string)
    requires id in caps
    ensures RunShards(owner, caps, ops)[id] == LruCache.Run([], Routed(owner, ops, id), caps[id])
  {
    if ops != [] {
      hide Step;
      var past, op := ops[..|ops| - 1], ops[|ops| - 1];
      ShardRunsItsPart(owner, caps, past, id);
      var part := Routed(owner, past, id);
      assert (part + [op])[..|part|] == part;
    }
  }

  lemma {:induction false} RoutedKeys(owner: string -> string, ops: seq<LruCache.Op>, id: string)
    ensures forall op | op in Routed(owner, ops, id) :: op in ops && owner(op.key) == id
  {
    if ops != [] {
      RoutedKeys(owner, ops[..|ops| - 1], id);
      assert ops[|ops| - 1] in ops;
    }
  }

  /** Routing does not change what the history says about a key, as long as it is asked of its owner. */
  lemma {:induction false} RoutedLatest(owner: string -> string, ops: seq<LruCache.Op>, key: string)
    ensures Latest(Routed(owner, ops, owner(key)), key) == Latest(ops, key)
  {
    if ops != [] {
      var past, op := ops[..|ops| - 1], ops[|ops| - 1];
      RoutedLatest(owner, past, key);
      var part := Routed(owner, past, owner(key));
      assert (part + [op])[..|part|] == part;
    }
  }

  lemma {:induction false} LatestWasSet(ops: seq<LruCache.Op>, key: string)
    requires Latest(ops, key).Some?
    ensures exists op :: op in ops && op.key == key
  {
    var op := ops[|ops| - 1];
    assert op in ops;
    if op.key != key {
      LatestWasSet(ops[..|ops| - 1], key);
      var o :| o in ops[..|ops| - 1] && o.key == key;
      assert o in ops;
    }
  }

  /** A key is held by its ring owner only. */
  lemma {:induction false} HeldByOwnerOnly(owner: string -> string, caps: map<string,
                                           nat>, ops: seq<LruCache.Op>, id: string, x: Slot)
    requires id in caps && caps[id] >= 1 && x in RunShards(owner, caps, ops)[id]
    ensures owner(x.key) == id
  {
    var part := Routed(owner, ops, id);
    ShardRunsItsPart(owner, caps, ops, id);
    HeldIsLatest(part, caps[id], x);
    LatestWasSet(part, x.key);
    RoutedKeys(owner, ops, id);
  }

  /**
    The shards refine one map: for every history, a hit returns the value of the latest Set of that
    key with no Invalidate since, and it has not expired.
   */
  lemma {:induction false} HitIsLatestSet(owner: string -> string, caps: map<string,
                                          nat>, ops: seq<LruCache.Op>, key: string, now: int)
    requires forall id | id in caps :: caps[id] >= 1
    ensures var hit := ShardVisible(RunShards(owner, caps, ops), owner(key), key, now);
            hit.Some? ==>
              var latest := Latest(ops, key);
              latest.Some? && latest.value.val == hit.value && now <= latest.value.expiresAt
  {
    var id := owner(key);
    if id in caps {
      var part := Routed(owner, ops, id);
      ShardRunsItsPart(owner, caps, ops, id);
      var x := SlotFor(RunShards(owner, caps, ops)[id], key);
      if x.Some? {
        HeldIsLatest(part, caps[id], x.value);
        RoutedLatest(owner, ops, key);
      }
    }
  }

  ghost predicate Submap<K, V>(a: map<K, V>, b: map<K, V>) {
    a.Keys <= b.Keys && forall k | k in a :: a[k] == b[k]
  }

  // ----- What is held, as a map -----

  /** The key's value at its owner, expired or not. */
  function HeldAt(shards: Shards, id: string, key: string): Option<Value> {
    if id in shards && SlotFor(shards[id], key).Some? then Some(SlotFor(shards[id], key).value.val) else None
  }

  /** The contents of all shards under an ownership function, as one map. */
  ghost function Held(shards: Shards, owner: string -> string): (m: map<string, Value>)
    ensures forall k :: k in m <==> HeldAt(shards, owner(k), k).Some?
    ensures forall k | k in m :: m[k] == HeldAt(shards, owner(k), k).value
  {
    var keys := set id, x | id in shards && x in shards[id] :: x.key;
    map k | k in keys && HeldAt(shards, owner(k), k).Some? :: HeldAt(shards, owner(k), k).value
  }

  ghost predicate WellFormedShards(shards: Shards, caps: map<string, nat>) {
    shards.Keys == caps.Keys && forall id | id in shards :: LruCache.WellFormed(shards[id], caps[id])
  }

  /** No operation makes a value appear except the Set of that value, and a Delete leaves none. */
  lemma {:induction false} StepHeld(shards: Shards, owner: string -> string, caps: map<string, nat>, op: LruCache.Op)
    requires WellFormedShards(shards, caps)
    ensures var before, after := Held(shards, owner), Held(ShardStep(shards, owner(op.key), op, caps), owner);
            Submap(after, if op.SetOp? then before[op.key := op.val]
                          else if op.DeleteOp? then before - {op.key} else before)
  {
    hide Step, HeldAt;
    var before, after := Held(shards, owner), Held(ShardStep(shards, owner(op.key), op, caps), owner);
    var bound := if op.SetOp? then before[op.key := op.val] else if op.DeleteOp? then before - {op.key} else before;
    forall k | k in after ensures k in bound && after[k] == bound[k] {
      OneKeyHeld(shards, owner, caps, op, k);
    }
  }

  /** What an operation may do to the value held for key k. */
  ghost predicate HeldAtStep(shards: Shards, owner: string -> string, op: LruCache.Op, shards': Shards, k: string) {
    var before, after := HeldAt(shards, owner(k), k), HeldAt(shards', owner(k), k);
    after.Some? ==>
      if k == op.key && op.SetOp? then after.value == op.val else after == before && (op.DeleteOp? ==> k != op.key)
  }

  lemma {:induction false} OneKeyHeld(shards: Shards, owner: string -> string, caps: map<string,
                                      nat>, op: LruCache.Op, k: string)
    requires WellFormedShards(shards, caps)
    ensures HeldAtStep(shards, owner, op, ShardStep(shards, owner(op.key), op, caps), k)
  {
    hide Step;
    var id := owner(op.key);
    if id in shards && owner(k) == id && SlotFor(Step(shards[id], op, caps[id]), k).Some? {
      HeldStep(shards[id], op, caps[id], k);
    }
  }

  lemma {:induction false} HeldStep(s: seq<Slot>, op: LruCache.Op, maxKeys: nat, k: string)
    requires LruCache.WellFormed(s, maxKeys) && SlotFor(Step(s, op, maxKeys), k).Some?
    ensures var x := SlotFor(Step(s, op, maxKeys), k).value;
            if op.SetOp? && k == op.key then x.val == op.val
            else SlotFor(s, k) == Some(x) && (op.DeleteOp? ==> k != op.key)
  {
    StepWellFormed(s, op, maxKeys);
    var x := SlotFor(Step(s, op, maxKeys), k).value;
    if x in s {
      SlotUnique(s, x);
    }
  }

  /** A Delete takes out its key and nothing else. */
  lemma {:induction false} DeleteHeld(shards: Shards, owner: string -> string, caps: map<string, nat>, key: string)
    requires WellFormedShards(shards, caps)
    ensures Held(ShardStep(shards, owner(key), DeleteOp(key), caps), owner) == Held(shards, owner) - {key}
  {
    hide ShardStep, HeldAt, LruCache.WellFormed;
    var after := ShardStep(shards, owner(key), DeleteOp(key), caps);
    forall k ensures HeldAt(after, owner(k), k) == if k == key then None else HeldAt(shards, owner(k), k) {
      DeletedAt(shards, owner, caps, key, k);
    }
  }

  lemma {:induction false} DeletedAt(shards: Shards, owner: string -> string, caps: map<string, nat>, key: string,
                                     k: string)
    requires WellFormedShards(shards, caps)
    ensures HeldAt(ShardStep(shards, owner(key), DeleteOp(key), caps), owner(k), k)
            == if k == key then None else HeldAt(shards, owner(k), k)
  {
    hide Without, SlotFor;
    if owner(k) in shards && owner(k) == owner(key) {
      DeletedSlot(shards[owner(k)], caps[owner(k)], key, k);
    }
  }

  lemma {:induction false} DeletedSlot(s: seq<Slot>, maxKeys: nat, key: string, k: string)
    requires LruCache.WellFormed(s, maxKeys)
    ensures SlotFor(Without(s, key), k) == if k == key then None else SlotFor(s, k)
  {
    if k == key {
      WithoutProperties(s, key);
    } else {
      WithoutOther(s, key, k);
    }
  }

  lemma {:induction false} SlotUnique(s: seq<Slot>, x: Slot)
    requires DistinctKeys(s) && x in s
    ensures SlotFor(s, x.key) == Some(x)
  {
    assert s == [s[0]] + s[1..];
    if s[0] != x {
      SlotUnique(s[1..], x);
    }
  }

  lemma VisibleIsHeld(shards: Shards, owner: string -> string, key: string, now: int)
    ensures var v := ShardVisible(shards, owner(key), key, now);
            v.Some? ==> key in Held(shards, owner) && Held(shards, owner)[key] == v.value
  {
  }

  /** What a lookup finds, said outright: the live entry of the key on its owner. */
  lemma {:induction false} VisibleMeans(shards: Shards, caps: map<string, nat>, id: string, key: string, now: int)
    requires WellFormedShards(shards, caps)
    ensures var v := ShardVisible(shards, id, key, now);
            v.Some? <==> id in shards
                         && exists x :: x in shards[id] && x.key == key && now <= x.expiresAt && v == Some(x.val)
  {
    if id in shards {
      forall x | x in shards[id] && x.key == key ensures SlotFor(shards[id], key) == Some(x) {
        SlotUnique(shards[id], x);
      }
    }
  }

  lemma {:induction false} SetComesFirst(shards: Shards, caps: map<string, nat>, id: string, key: string, val: Value,
                                         expiresAt: int)
    requires WellFormedShards(shards, caps)
    ensures var after := ShardStep(shards, id, SetOp(key, val, expiresAt), caps);
            after.Keys == shards.Keys
            && (id in shards ==> after[id] != [] && after[id][0] == Slot(key, val, expiresAt))
            && forall other | other in shards && other != id :: after[other] == shards[other]
  {
  }

  // ----- The cache object -----

  datatype DebugInfo = DebugInfo(key: string, hash: U64, node: string, vnodePos: U64, state: Probe)

  class Distributed {
    const ring: Ring
    const nodes: map<string, Memory>
    const ttl: int
    var hits: nat
    var miss: nat

    ghost predicate Valid()
      reads ring, nodes.Values
    {
      && ring.Valid()
      && (forall id | id in nodes :: nodes[id].Valid())
      && (forall a, b | a in nodes && b in nodes && a != b :: nodes[a] != nodes[b])
    }

    constructor (ring: Ring, nodes: map<string, Memory>, ttl: int)
      requires ring.Valid()
      requires forall id | id in nodes :: nodes[id].Valid()
      requires forall a, b | a in nodes && b in nodes && a != b :: nodes[a] != nodes[b]
      ensures Valid() && this.ring == ring && this.nodes == nodes && this.ttl == ttl
    {
      this.ring, this.nodes, this.ttl := ring, nodes, ttl;
      hits, miss := 0, 0;
    }

    ghost function Owner(key: string): string
      reads ring
    {
      OwnerAt(ring.ring, ring.hash(key))
    }

    /** The owner of every key under the ring as it is. */
    ghost function OwnerOf(): string -> string
      reads ring
    {
      var vnodes, hash := ring.ring, ring.hash;
      (key: string) => OwnerAt(vnodes, hash(key))
    }

    /** What is held, expired or not. */
    ghost function Contents(): map<string, Value>
      requires Valid()
      reads ring, nodes.Values
    {
      Held(View(), OwnerOf())
    }

    lemma {:induction false} ViewWellFormed()
      requires Valid()
      ensures WellFormedShards(View(), Caps())
    {
      forall id | id in nodes ensures LruCache.WellFormed(nodes[id].Slots(), nodes[id].maxKeys) {
        nodes[id].SlotsWellFormed();
      }
    }

    ghost function View(): (s: Shards)
      requires Valid()
      reads ring, nodes.Values
      ensures s.Keys == nodes.Keys
    {
      map id | id in nodes :: nodes[id].Slots()
    }

    ghost function Caps(): map<string, nat> {
      map id | id in nodes :: nodes[id].maxKeys
    }

    method Get(key: string, now: int) returns (v: Option<Value>)
      requires Valid()
      modifies this`hits, this`miss, nodes.Values
      ensures Valid()
      ensures v == ShardVisible(old(View()), Owner(key), key, now)
      ensures v.Some? <==>
                Owner(key) in nodes
                && exists x :: x in old(View())[Owner(key)] && x.key == key && now <= x.expiresAt && v == Some(x.val)
      ensures View() == ShardStep(old(View()), Owner(key), GetOp(key, now), Caps())
      ensures Submap(Contents(), old(Contents()))
      ensures v.Some? ==> key in old(Contents()) && old(Contents())[key] == v.value
      ensures hits == old(hits) + (if v.Some? then 1 else 0) && miss == old(miss) + (if v.Some? then 0 else 1)
    {
      hide Ring.Valid, Memory.Valid, View, Contents, Caps, Owner, ShardStep, ShardVisible, WellFormedShards;
      ViewWellFormed();
      VisibleMeans(View(), Caps(), Owner(key), key, now);
      v := Fetch(key, now);
      Count(v.Some?);
    }

    /** The routed lookup, without the counters. */
    method Fetch(key: string, now: int) returns (v: Option<Value>)
      requires Valid()
      modifies nodes.Values
      ensures Valid()
      ensures v == ShardVisible(old(View()), Owner(key), key, now)
      ensures View() == ShardStep(old(View()), Owner(key), GetOp(key, now), Caps())
      ensures Submap(Contents(), old(Contents()))
      ensures v.Some? ==> key in old(Contents()) && old(Contents())[key] == v.value
    {
      hide Memory.Valid, Memory.Slots, Ring.Valid, AfterGet, AfterSet, Visible, Without, OwnerAt, Held;
      ViewWellFormed();
      StepHeld(View(), OwnerOf(), Caps(), GetOp(key, now));
      VisibleIsHeld(View(), OwnerOf(), key, now);
      var id := ring.Get(key);
      if id !in nodes {
        return None;
      }
      v := GetFrom(id, key, now);
    }

    method Count(hit: bool)
      modifies this`hits, this`miss
      ensures hits == old(hits) + (if hit then 1 else 0) && miss == old(miss) + (if hit then 0 else 1)
    {
      if hit {
        hits := hits + 1;
      } else {
        miss := miss + 1;
      }
    }

    method GetFrom(id: string, key: string, now: int) returns (v: Option<Value>)
      requires Valid() && id in nodes
      modifies nodes.Values
      ensures Valid()
      ensures v == Visible(old(View())[id], key, now)
      ensures View() == old(View())[id := AfterGet(old(View())[id], key, now)]
    {
      hide Memory.Valid, Memory.Slots, Ring.Valid, AfterGet, Visible;
      v := nodes[id].Get(key, now);
    }

    method Set(key: string, val: Value, now: int)
      requires Valid()
      modifies nodes.Values
      ensures Valid()
      ensures View() == ShardStep(old(View()), Owner(key), SetOp(key, val, now + ttl), Caps())
      ensures Submap(Contents(), old(Contents())[key := val])
      ensures Owner(key) in nodes ==>
                var s := View()[Owner(key)]; s != [] && s[0] == Slot(key, val, now + ttl)
      ensures forall id | id in nodes && id != Owner(key) :: View()[id] == old(View())[id]
    {
      hide Memory.Valid, Memory.Slots, Ring.Valid, AfterGet, AfterSet, Visible, Without, OwnerAt, Held;
      ViewWellFormed();
      StepHeld(View(), OwnerOf(), Caps(), SetOp(key, val, now + ttl));
      SetComesFirst(View(), Caps(), Owner(key), key, val, now + ttl);
      hide WellFormedShards;
      var id := ring.Get(key);
      if id in nodes {
        nodes[id].Set(key, val, now, ttl);
      }
    }

    method Invalidate(key: string)
      requires Valid()
      modifies nodes.Values
      ensures Valid()
      ensures View() == ShardStep(old(View()), Owner(key), DeleteOp(key), Caps())
      ensures Contents() == old(Contents()) - {key}
    {
      hide Memory.Valid, Memory.Slots, Ring.Valid, AfterGet, AfterSet, Visible, Without, OwnerAt, Held;
      ViewWellFormed();
      DeleteHeld(View(), OwnerOf(), Caps(), key);
      var id := ring.Get(key);
      if id in nodes {
        nodes[id].Delete(key);
      }
    }

    /** Changes nothing, and says "hit" exactly when Get would hit and the ring has a node. */
    method Debug(key: string, now: int) returns (info: DebugInfo)
      requires Valid()
      ensures info.key == key && info.hash == ring.hash(key) && info.node == Owner(key)
      ensures info.state == Hit <==> ring.nodes != [] && ShardVisible(View(), Owner(key), key, now).Some?
      ensures info.state == if ring.nodes == [] || Owner(key) !in nodes then Miss
                            else ProbeOf(View()[Owner(key)], key, now)
      ensures ring.nodes != [] ==>
                exists v: Vnode ::
                  Closest(ring.hash, ring.vnodesPerNode, NodeSet(ring.View()), info.hash, v)
                  && v.pos == info.vnodePos && v.node == info.node
    {
      var node, hash, vpos, ok := ring.Lookup(key);
      var state := Miss;
      if ok && node in nodes {
        state := nodes[node].Peek(key, now);
      }
      info := DebugInfo(key, hash, node, vpos, state);
    }
  }

  /**
    Without a node on the ring, Get still routes to a node registered under the empty name while
    Debug does not look: the one case in which the two disagree.
   */
  method DebugBlindOnEmptyRing(hash: Hash, key: string, val: Value, now: int) returns (v: Option<Value>, state: Probe)
    ensures v == Some(val) && state == Miss
  {
    hide Memory.Valid, Memory.Slots, HashRing.WellFormed, Held, HeldAt, Closest;
    var cache := StoredOnEmptyRing(hash, key, val, now);
    var info := cache.Debug(key, now);
    state := info.state;
    v := cache.Get(key, now);
    assert SlotFor([Slot(key, val, now + 1)], key) == Some(Slot(key, val, now + 1));
  }

  method StoredOnEmptyRing(hash: Hash, key: string, val: Value, now: int) returns (cache: Distributed)
    ensures fresh(cache) && fresh(cache.nodes.Values) && cache.Valid() && cache.ring.nodes == []
    ensures cache.Owner(key) == "" && cache.View() == map["" := [Slot(key, val, now + 1)]]
  {
    hide Memory.Valid, Memory.Slots, HashRing.WellFormed, Held, HeldAt;
    var ring := EmptyRing(hash);
    var node := new Memory("", 1);
    cache := new Distributed(ring, map["" := node], 1);
    assert cache.Owner(key) == "" && cache.View() == map["" := []];
    cache.Set(key, val, now);
    assert cache.View()[""] == AfterSet([], key, val, now + 1, 1) == [Slot(key, val, now + 1)];
  }

  lemma {:induction false} SomeNode(t: Table)
    ensures t.nodes != [] ==> NodeSet(t) != {}
  {
    if t.nodes != [] {
      assert t.nodes[0] in NodeSet(t);
    }
  }

  method EmptyRing(hash: Hash) returns (ring: Ring)
    ensures fresh(ring) && ring.Valid() && ring.nodes == [] && ring.ring == []
  {
    ring := new Ring(1, [], hash);
    assert NodeSet(ring.View()) == {};
    SomeNode(ring.View());
    NonEmptyRing(hash, ring.vnodesPerNode, {}, ring.ring);
  }
}
