/**
  One in-memory cache node: least-recently-used eviction plus a time to live.

  The specification is a list of slots, most recently used first. The object keeps a recency list
  of keys and a map of entries, and its methods refine the list functions. Histories of operations
  are then reasoned about on the list alone.
 */
module LruCache {
  import opened Model
  import opened Sets

  type Value = seq<Candidate>

  datatype Slot = Slot(key: string, val: Value, expiresAt: int)

  datatype Probe = Hit | Miss | Expired

  ghost function KeysOf(s: seq<Slot>): set<string> {
    set x | x in s :: x.key
  }

  ghost predicate DistinctKeys(s: seq<Slot>) {
    s == [] || (s[0].key !in KeysOf(s[1..]) && DistinctKeys(s[1..]))
  }

  ghost predicate WellFormed(s: seq<Slot>, maxKeys: nat) {
    maxKeys >= 1 && DistinctKeys(s) && |s| <= maxKeys
  }

  function SlotFor(s: seq<Slot>, key: string): (r: Option<Slot>)
    ensures r.Some? ==> r.value in s && r.value.key == key
    ensures r.None? ==> key !in KeysOf(s)
  {
    if s == [] then None
    else if s[0].key == key then Some(s[0])
    else
      assert s == [s[0]] + s[1..];
      SlotFor(s[1..], key)
  }

  function Without(s: seq<Slot>, key: string): seq<Slot> {
    if s == [] then []
    else if s[0].key == key then s[1..]
    else [s[0]] + Without(s[1..], key)
  }

  /** What a lookup at `now` may return: an entry past its expiry is as good as absent. */
  function Visible(s: seq<Slot>, key: string, now: int): Option<Value> {
    var x := SlotFor(s, key);
    if x.Some? && now <= x.value.expiresAt then Some(x.value.val) else None
  }

  function AfterGet(s: seq<Slot>, key: string, now: int): seq<Slot> {
    var x := SlotFor(s, key);
    if x.None? then s
    else if now > x.value.expiresAt then Without(s, key)
    else [x.value] + Without(s, key)
  }

  function AfterSet(s: seq<Slot>, key: string, val: Value, expiresAt: int, maxKeys: nat): seq<Slot> {
    Cut([Slot(key, val, expiresAt)] + Without(s, key), maxKeys)
  }

  function Cut(s: seq<Slot>, n: nat): seq<Slot> {
    if |s| > n then s[..n] else s
  }

  function ProbeOf(s: seq<Slot>, key: string, now: int): Probe {
    var x := SlotFor(s, key);
    if x.None? then Miss else if now > x.value.expiresAt then Expired else Hit
  }

  // ----- Histories -----

  datatype Op =
    | GetOp(key: string, now: int)
    | SetOp(key: string, val: Value, expiresAt: int)
    | DeleteOp(key: string)

  function Step(s: seq<Slot>, op: Op, maxKeys: nat): seq<Slot> {
    match op
    case GetOp(k, now) => AfterGet(s, k, now)
    case SetOp(k, v, e) => AfterSet(s, k, v, e, maxKeys)
    case DeleteOp(k) => Without(s, k)
  }

  /** The operation makes its key the most recently used one. */
  predicate Touches(s: seq<Slot>, op: Op) {
    op.SetOp? || (op.GetOp? && Visible(s, op.key, op.now).Some?)
  }

  function Run(s: seq<Slot>, ops: seq<Op>, maxKeys: nat): seq<Slot> {
    if ops == [] then s
    else Step(Run(s, ops[..|ops| - 1], maxKeys), ops[|ops| - 1], maxKeys)
  }

  function Used(s: seq<Slot>, op: Op): set<string> {
    if Touches(s, op) then {op.key} else {}
  }

  /** The keys set or hit during a run. */
  function Touched(s: seq<Slot>, ops: seq<Op>, maxKeys: nat): set<string> {
    if ops == [] then {}
    else
      var past := ops[..|ops| - 1];
      Touched(s, past, maxKeys) + Used(Run(s, past, maxKeys), ops[|ops| - 1])
  }

  /** What the history alone says about a key: the latest Set with no Delete since. */
  function Latest(ops: seq<Op>, key: string): Option<Slot> {
    if ops == [] then None
    else
      var op := ops[|ops| - 1];
      if op.key != key || op.GetOp? then Latest(ops[..|ops| - 1], key)
      else if op.SetOp? then Some(Slot(key, op.val, op.expiresAt))
      else None
  }

  // ----- Structure of the list operations -----

  lemma {:induction false} WithoutProperties(s: seq<Slot>, key: string)
    requires DistinctKeys(s)
    ensures DistinctKeys(Without(s, key)) && KeysOf(Without(s, key)) == KeysOf(s) - {key}
    ensures forall x :: x in Without(s, key) <==> x in s && x.key != key
    ensures |Without(s, key)| == if key in KeysOf(s) then |s| - 1 else |s|
  {
    if s != [] {
      assert s == [s[0]] + s[1..];
      if s[0].key != key {
        WithoutProperties(s[1..], key);
        assert Without(s, key)[1..] == Without(s[1..], key);
      }
    }
  }

  lemma {:induction false} CutProperties(s: seq<Slot>, n: nat)
    requires DistinctKeys(s)
    ensures DistinctKeys(Cut(s, n)) && forall x | x in Cut(s, n) :: x in s
  {
    if |s| > n > 0 {
      CutProperties(s[1..], n - 1);
      assert s == [s[0]] + s[1..];
      assert Cut(s, n) == [s[0]] + Cut(s[1..], n - 1);
    }
  }

  lemma PushDistinct(x: Slot, s: seq<Slot>)
    requires DistinctKeys(s) && x.key !in KeysOf(s)
    ensures DistinctKeys([x] + s)
  {
  }

  lemma {:induction false} StepWellFormed(s: seq<Slot>, op: Op, maxKeys: nat)
    requires WellFormed(s, maxKeys)
    ensures WellFormed(Step(s, op, maxKeys), maxKeys)
    ensures forall x | x in Step(s, op, maxKeys) ::
              if op.SetOp? && x.key == op.key then x == Slot(op.key, op.val, op.expiresAt)
              else x in s && (op.DeleteOp? ==> x.key != op.key)
  {
    var w := Without(s, op.key);
    WithoutProperties(s, op.key);
    match op {
      case DeleteOp(_) =>
      case GetOp(k, now) =>
        if Touches(s, op) {
          PushDistinct(SlotFor(s, k).value, w);
        }
      case SetOp(k, v, e) =>
        PushDistinct(Slot(k, v, e), w);
        CutProperties([Slot(k, v, e)] + w, maxKeys);
    }
  }

  lemma {:induction false} RunWellFormed(s: seq<Slot>, ops: seq<Op>, maxKeys: nat)
    requires WellFormed(s, maxKeys)
    ensures WellFormed(Run(s, ops, maxKeys), maxKeys)
  {
    if ops != [] {
      RunWellFormed(s, ops[..|ops| - 1], maxKeys);
      StepWellFormed(Run(s, ops[..|ops| - 1], maxKeys), ops[|ops| - 1], maxKeys);
    }
  }

  /** Never stale: whatever the node holds for a key is the latest Set with no Delete since. */
  lemma {:induction false} HeldIsLatest(ops: seq<Op>, maxKeys: nat, x: Slot)
    requires maxKeys >= 1 && x in Run([], ops, maxKeys)
    ensures Latest(ops, x.key) == Some(x)
  {
    if ops != [] {
      var past, op := ops[..|ops| - 1], ops[|ops| - 1];
      RunWellFormed([], past, maxKeys);
      StepWellFormed(Run([], past, maxKeys), op, maxKeys);
      if !(op.SetOp? && x.key == op.key) {
        HeldIsLatest(past, maxKeys, x);
      }
    }
  }

  // ----- The least-recently-used guarantee -----

  /** The keys more recently used than `key`. */
  ghost function Ahead(s: seq<Slot>, key: string): set<string> {
    if s == [] || s[0].key == key then {} else {s[0].key} + Ahead(s[1..], key)
  }

  lemma {:induction false} WithoutOther(s: seq<Slot>, gone: string, key: string)
    requires DistinctKeys(s) && gone != key
    ensures SlotFor(Without(s, gone), key) == SlotFor(s, key)
    ensures Ahead(Without(s, gone), key) == Ahead(s, key) - {gone}
  {
    if s != [] {
      assert s == [s[0]] + s[1..];
      if s[0].key == gone {
        AheadAreKeys(s[1..], key);
      } else {
        WithoutOther(s[1..], gone, key);
        assert Without(s, gone)[1..] == Without(s[1..], gone);
      }
    }
  }

  lemma {:induction false} AheadAreKeys(s: seq<Slot>, key: string)
    ensures Ahead(s, key) <= KeysOf(s) - {key}
  {
    if s != [] {
      assert s == [s[0]] + s[1..];
      AheadAreKeys(s[1..], key);
    }
  }

  lemma Pushed(front: Slot, s: seq<Slot>, key: string)
    requires front.key != key
    ensures SlotFor([front] + s, key) == SlotFor(s, key)
    ensures Ahead([front] + s, key) == {front.key} + Ahead(s, key)
  {
  }

  /** A cut to n keeps exactly the keys with fewer than n others ahead of them. */
  lemma {:induction false} CutKeeps(s: seq<Slot>, n: nat, key: string)
    requires DistinctKeys(s) && SlotFor(s, key).Some?
    ensures |Ahead(s, key)| < n ==> SlotFor(Cut(s, n), key) == SlotFor(s, key) && Ahead(Cut(s, n), key) == Ahead(s, key)
    ensures |Ahead(s, key)| >= n && |s| > n ==> SlotFor(Cut(s, n), key).None?
    ensures |Ahead(s, key)| < |s|
  {
    assert s == [s[0]] + s[1..];
    if s[0].key != key {
      AheadAreKeys(s[1..], key);
      if n > 0 {
        CutKeeps(s[1..], n - 1, key);
        assert Cut(s, n) == [s[0]] + Cut(s[1..], n - 1);
        Pushed(s[0], Cut(s[1..], n - 1), key);
      } else {
        CutKeeps(s[1..], 0, key);
      }
    } else if |s| > n > 0 {
      assert s[..n][0] == s[0];
    }
  }

  /**
    One operation on another key. Without removals the keys ahead of `key` are joined by exactly the
    used one; in general by at most that. The key is dropped only when maxKeys others are ahead.
   */
  lemma {:induction false} StepAhead(s: seq<Slot>, op: Op, maxKeys: nat, key: string)
    requires WellFormed(s, maxKeys) && SlotFor(s, key).Some? && op.key != key
    ensures var s', ahead := Step(s, op, maxKeys), Ahead(s, key) + Used(s, op);
            (|ahead| < maxKeys ==> SlotFor(s', key) == SlotFor(s, key) && Ahead(s', key) <= ahead)
            && (|ahead| < maxKeys && !Removes(s, op) ==> Ahead(s', key) == ahead)
            && (|ahead| >= maxKeys ==> SlotFor(s', key).None?)
  {
    CutKeeps(s, maxKeys, key);
    if Touches(s, op) {
      FrontedAhead(s, if op.SetOp? then Slot(op.key, op.val, op.expiresAt) else SlotFor(s, op.key).value, maxKeys, key);
      WithoutProperties(s, op.key);
    } else {
      WithoutOther(s, op.key, key);
      assert Ahead(s, key) + {} == Ahead(s, key);
    }
  }

  lemma {:induction false} FrontedAhead(s: seq<Slot>, front: Slot, maxKeys: nat, key: string)
    requires WellFormed(s, maxKeys) && SlotFor(s, key).Some? && front.key != key
    ensures var s', ahead := Cut([front] + Without(s, front.key), maxKeys), Ahead(s, key) + {front.key};
            if |ahead| < maxKeys then SlotFor(s', key) == SlotFor(s, key) && Ahead(s', key) == ahead
            else SlotFor(s', key).None?
  {
    var w := Without(s, front.key);
    WithoutOther(s, front.key, key);
    WithoutProperties(s, front.key);
    Pushed(front, w, key);
    PushDistinct(front, w);
    assert {front.key} + (Ahead(s, key) - {front.key}) == Ahead(s, key) + {front.key};
    CutKeeps([front] + w, maxKeys, key);
  }

  /** A Delete, or a Get that finds its entry expired. */
  ghost predicate Removes(s: seq<Slot>, op: Op) {
    op.DeleteOp? || (op.GetOp? && ProbeOf(s, op.key, op.now) == Expired)
  }

  lemma {:induction false} RunKeeps(s: seq<Slot>, ops: seq<Op>, maxKeys: nat, x: Slot)
    requires WellFormed(s, maxKeys) && s != [] && s[0] == x
    requires forall op | op in ops :: op.key != x.key
    requires |Touched(s, ops, maxKeys)| < maxKeys
    ensures SlotFor(Run(s, ops, maxKeys), x.key) == Some(x)
    ensures Ahead(Run(s, ops, maxKeys), x.key) <= Touched(s, ops, maxKeys)
  {
    if ops != [] {
      var past, op := ops[..|ops| - 1], ops[|ops| - 1];
      var mid := Run(s, past, maxKeys);
      SubsetSize(Touched(s, past, maxKeys), Touched(s, ops, maxKeys));
      RunKeeps(s, past, maxKeys, x);
      RunWellFormed(s, past, maxKeys);
      SubsetSize(Ahead(mid, x.key) + Used(mid, op), Touched(s, ops, maxKeys));
      StepAhead(mid, op, maxKeys, x.key);
    }
  }

  lemma TouchMovesToFront(s: seq<Slot>, op: Op, maxKeys: nat)
    requires WellFormed(s, maxKeys) && Touches(s, op)
    ensures var s' := Step(s, op, maxKeys); s' != [] && s'[0].key == op.key
  {
  }

  lemma {:induction false} RunSplit(s: seq<Slot>, a: seq<Op>, b: seq<Op>, maxKeys: nat)
    ensures Run(s, a + b, maxKeys) == Run(Run(s, a, maxKeys), b, maxKeys)
  {
    hide Step;
    if b == [] {
      assert a + b == a;
    } else {
      var n := |b| - 1;
      assert (a + b)[..|a| + n] == a + b[..n];
      RunSplit(s, a, b[..n], maxKeys);
    }
  }

  /**
    The history theorem: after any history `before`, let `touch` set or hit a key, and let the
    operations `since` then name only other keys. If fewer than maxKeys distinct keys were set or hit
    since, looking the key up returns the value of its latest Set, until that expires.
   */
  lemma {:induction false} LruHistory(before: seq<Op>, touch: Op, since: seq<Op>, maxKeys: nat, now: int)
    requires maxKeys >= 1 && Touches(Run([], before, maxKeys), touch)
    requires forall op | op in since :: op.key != touch.key
    requires |Touched(Run([], before + [touch], maxKeys), since, maxKeys)| < maxKeys
    ensures var latest := Latest(before + [touch], touch.key);
            latest.Some? && Visible(Run([], before + [touch] + since, maxKeys), touch.key, now)
                            == if now <= latest.value.expiresAt then Some(latest.value.val) else None
  {
    var head := before + [touch];
    assert head[..|before|] == before;
    RunWellFormed([], before, maxKeys);
    RunWellFormed([], head, maxKeys);
    TouchMovesToFront(Run([], before, maxKeys), touch, maxKeys);
    var s := Run([], head, maxKeys);
    assert s[0] in s;
    HeldIsLatest(head, maxKeys, s[0]);
    RunKeeps(s, since, maxKeys, s[0]);
    RunSplit([], head, since, maxKeys);
  }

  // ----- The guarantee is exact -----

  ghost predicate NoRemovals(s: seq<Slot>, ops: seq<Op>, maxKeys: nat) {
    forall i | 0 <= i < |ops| :: !Removes(Run(s, ops[..i], maxKeys), ops[i])
  }

  lemma {:induction false} AbsentStays(s: seq<Slot>, op: Op, maxKeys: nat, key: string)
    requires WellFormed(s, maxKeys) && SlotFor(s, key).None? && op.key != key
    ensures SlotFor(Step(s, op, maxKeys), key).None?
  {
    StepWellFormed(s, op, maxKeys);
    HeldKeys(s, key);
    HeldKeys(Step(s, op, maxKeys), key);
  }

  lemma HeldKeys(s: seq<Slot>, key: string)
    ensures SlotFor(s, key).Some? <==> key in KeysOf(s)
  {
  }

  /** Held with exactly the used keys ahead, or gone for good once maxKeys others were used. */
  lemma {:induction false} RunExact(s: seq<Slot>, ops: seq<Op>, maxKeys: nat, key: string)
    requires WellFormed(s, maxKeys) && s != [] && s[0].key == key
    requires (forall op | op in ops :: op.key != key) && NoRemovals(s, ops, maxKeys)
    ensures var s', used := Run(s, ops, maxKeys), Touched(s, ops, maxKeys);
            if |used| < maxKeys then SlotFor(s', key).Some? && Ahead(s', key) == used else SlotFor(s', key).None?
  {
    if ops != [] {
      var n := |ops| - 1;
      var past, op := ops[..n], ops[n];
      var mid := Run(s, past, maxKeys);
      assert forall i | 0 <= i < n :: past[..i] == ops[..i];
      RunExact(s, past, maxKeys, key);
      RunWellFormed(s, past, maxKeys);
      if |Touched(s, past, maxKeys)| < maxKeys {
        StepAhead(mid, op, maxKeys, key);
      } else {
        SubsetSize(Touched(s, past, maxKeys), Touched(s, ops, maxKeys));
        AbsentStays(mid, op, maxKeys, key);
      }
    }
  }

  /** Without removals, a key survives exactly as long as fewer than maxKeys other keys are used. */
  lemma {:induction false} LruExact(s: seq<Slot>, ops: seq<Op>, maxKeys: nat, key: string)
    requires WellFormed(s, maxKeys) && s != [] && s[0].key == key
    requires (forall op | op in ops :: op.key != key) && NoRemovals(s, ops, maxKeys)
    ensures SlotFor(Run(s, ops, maxKeys), key).Some? <==> |Touched(s, ops, maxKeys)| < maxKeys
  {
    RunExact(s, ops, maxKeys, key);
  }

  // ----- The node object -----

  datatype Entry = Entry(val: Value, expiresAt: int)

  function WithoutKey(ll: seq<string>, key: string): seq<string> {
    if ll == [] then []
    else if ll[0] == key then ll[1..]
    else [ll[0]] + WithoutKey(ll[1..], key)
  }

  ghost predicate Distinct(ll: seq<string>) {
    ll == [] || (ll[0] !in ll[1..] && Distinct(ll[1..]))
  }

  /** The recency list and the map hold the same distinct keys. */
  ghost predicate Linked(ll: seq<string>, items: map<string, Entry>) {
    Distinct(ll) && forall k :: k in ll <==> k in items
  }

  ghost function SlotsOf(ll: seq<string>, items: map<string, Entry>): seq<Slot>
    requires forall k | k in ll :: k in items
  {
    if ll == [] then []
    else [Slot(ll[0], items[ll[0]].val, items[ll[0]].expiresAt)] + SlotsOf(ll[1..], items)
  }

  lemma {:induction false} SlotsAgree(ll: seq<string>, items: map<string, Entry>, items': map<string, Entry>)
    requires forall k | k in ll :: k in items && k in items' && items[k] == items'[k]
    ensures SlotsOf(ll, items) == SlotsOf(ll, items')
  {
    if ll != [] {
      SlotsAgree(ll[1..], items, items');
    }
  }

  lemma {:induction false} SlotsFacts(ll: seq<string>, items: map<string, Entry>, key: string)
    requires Distinct(ll) && forall k | k in ll :: k in items
    ensures |SlotsOf(ll, items)| == |ll| && KeysOf(SlotsOf(ll, items)) == (set k | k in ll)
            && DistinctKeys(SlotsOf(ll, items))
    ensures SlotFor(SlotsOf(ll, items), key)
            == if key in ll then Some(Slot(key, items[key].val, items[key].expiresAt)) else None
  {
    if ll != [] {
      assert ll == [ll[0]] + ll[1..];
      SlotsFacts(ll[1..], items, key);
      assert SlotsOf(ll, items)[1..] == SlotsOf(ll[1..], items);
      assert (set k | k in ll) == {ll[0]} + set k | k in ll[1..];
      assert KeysOf(SlotsOf(ll, items)) == {ll[0]} + KeysOf(SlotsOf(ll[1..], items));
    }
  }

  lemma {:induction false} WithoutKeyFacts(ll: seq<string>, items: map<string, Entry>, key: string)
    requires Distinct(ll) && forall k | k in ll :: k in items
    ensures Distinct(WithoutKey(ll, key)) && forall k :: k in WithoutKey(ll, key) <==> k in ll && k != key
    ensures SlotsOf(WithoutKey(ll, key), items) == Without(SlotsOf(ll, items), key)
  {
    if ll != [] {
      assert ll == [ll[0]] + ll[1..];
      assert SlotsOf(ll, items)[1..] == SlotsOf(ll[1..], items);
      if ll[0] != key {
        WithoutKeyFacts(ll[1..], items, key);
        assert WithoutKey(ll, key)[1..] == WithoutKey(ll[1..], key);
      }
    }
  }

  lemma {:induction false} Unlinked(ll: seq<string>, items: map<string, Entry>, key: string)
    requires Linked(ll, items)
    ensures Linked(WithoutKey(ll, key), items - {key})
    ensures SlotsOf(WithoutKey(ll, key), items - {key}) == Without(SlotsOf(ll, items), key)
  {
    WithoutKeyFacts(ll, items, key);
    SlotsAgree(WithoutKey(ll, key), items, items - {key});
  }

  lemma {:induction false} PushedLinked(ll: seq<string>, items: map<string, Entry>, key: string, e: Entry)
    requires Linked(ll, items) && key !in items
    ensures Linked([key] + ll, items[key := e])
    ensures SlotsOf([key] + ll, items[key := e]) == [Slot(key, e.val, e.expiresAt)] + SlotsOf(ll, items)
  {
    assert ([key] + ll)[1..] == ll;
    SlotsAgree(ll, items, items[key := e]);
  }

  lemma {:induction false} MovedLinked(ll: seq<string>, items: map<string, Entry>, key: string, e: Entry)
    requires Linked(ll, items)
    ensures Linked([key] + WithoutKey(ll, key), items[key := e])
    ensures SlotsOf([key] + WithoutKey(ll, key), items[key := e])
            == [Slot(key, e.val, e.expiresAt)] + Without(SlotsOf(ll, items), key)
  {
    Unlinked(ll, items, key);
    PushedLinked(WithoutKey(ll, key), items - {key}, key, e);
    assert (items - {key})[key := e] == items[key := e];
  }

  lemma {:induction false} FrontOf(ll: seq<string>, items: map<string, Entry>, rest: seq<string>)
    requires Distinct(ll) && ll != [] && rest == ll[..|ll| - 1] && forall k | k in ll :: k in items
    ensures Distinct(rest) && forall k :: k in rest <==> k in ll && k != ll[|ll| - 1]
    ensures |SlotsOf(ll, items)| == |ll| && SlotsOf(rest, items) == SlotsOf(ll, items)[..|rest|]
  {
    if |ll| > 1 {
      FrontOf(ll[1..], items, ll[1..][..|ll| - 2]);
      assert ll == [ll[0]] + ll[1..];
      assert rest == [ll[0]] + ll[1..][..|ll| - 2];
      assert rest[1..] == ll[1..][..|ll| - 2];
    }
  }

  lemma {:induction false} LastUnlinked(ll: seq<string>, items: map<string, Entry>, rest: seq<string>, last: string)
    requires Linked(ll, items) && ll != [] && rest == ll[..|ll| - 1] && last == ll[|ll| - 1]
    ensures Linked(rest, items - {last})
    ensures |SlotsOf(ll, items)| == |ll| && SlotsOf(rest, items - {last}) == SlotsOf(ll, items)[..|rest|]
  {
    FrontOf(ll, items, rest);
    SlotsAgree(rest, items, items - {last});
  }

  /** What a lookup does, said outright: a live entry comes to the front; anything else ends up absent. */
  lemma {:induction false} GetMeans(s: seq<Slot>, key: string, now: int)
    requires DistinctKeys(s)
    ensures var v, s' := Visible(s, key, now), AfterGet(s, key, now);
            (v.Some? <==> exists x :: x in s && x.key == key && now <= x.expiresAt && v == Some(x.val))
            && (v.Some? ==> s' != [] && s'[0].key == key && multiset(s') == multiset(s))
            && (v.None? ==> key !in KeysOf(s') && KeysOf(s') == KeysOf(s) - {key})
  {
    WithoutProperties(s, key);
    TheSlot(s, key);
    if SlotFor(s, key).Some? {
      WithoutBag(s, key);
    }
  }

  lemma {:induction false} ProbeMeans(s: seq<Slot>, key: string, now: int)
    requires DistinctKeys(s)
    ensures ProbeOf(s, key, now) == Miss <==> key !in KeysOf(s)
    ensures ProbeOf(s, key, now) == Expired <==> exists x :: x in s && x.key == key && now > x.expiresAt
    ensures ProbeOf(s, key, now) == Hit <==> exists x :: x in s && x.key == key && now <= x.expiresAt
  {
    TheSlot(s, key);
  }

  lemma {:induction false} TheSlot(s: seq<Slot>, key: string)
    requires DistinctKeys(s)
    ensures forall x | x in s && x.key == key :: SlotFor(s, key) == Some(x)
  {
    if s != [] {
      assert s == [s[0]] + s[1..];
      TheSlot(s[1..], key);
      assert forall x | x in s[1..] :: x.key in KeysOf(s[1..]);
    }
  }

  lemma {:induction false} WithoutBag(s: seq<Slot>, key: string)
    requires SlotFor(s, key).Some?
    ensures multiset([SlotFor(s, key).value] + Without(s, key)) == multiset(s)
  {
    assert s == [s[0]] + s[1..];
    if s[0].key != key {
      WithoutBag(s[1..], key);
    }
  }

  /** What the latest entry of a key is, said outright: that of a Set with no Set or Delete of the key after it. */
  lemma {:induction false} LatestMeans(ops: seq<Op>, key: string, x: Slot)
    ensures Latest(ops, key) == Some(x) <==> x.key == key && exists i :: SetLast(ops, key, x, i)
  {
    if ops != [] {
      var n := |ops| - 1;
      var past := ops[..n];
      LatestMeans(past, key, x);
      if ops[n].key != key || ops[n].GetOp? {
        forall i ensures SetLast(ops, key, x, i) <==> SetLast(past, key, x, i) {
        }
      } else {
        forall i | SetLast(ops, key, x, i) ensures i == n {
        }
        assert ops[n].SetOp? && Slot(key, ops[n].val, ops[n].expiresAt) == x ==> SetLast(ops, key, x, n);
      }
    }
  }

  ghost predicate SetLast(ops: seq<Op>, key: string, x: Slot, i: int) {
    && 0 <= i < |ops|
    && ops[i] == SetOp(key, x.val, x.expiresAt)
    && forall j | i < j < |ops| :: ops[j].key != key || ops[j].GetOp?
  }

  class Memory {
    const id: string
    const maxKeys: nat
    var ll: seq<string>
    var items: map<string, Entry>

    ghost predicate Valid()
      reads this
    {
      maxKeys >= 1 && Linked(ll, items) && |ll| <= maxKeys
    }

    ghost function Slots(): seq<Slot>
      requires Valid()
      reads this
    {
      SlotsOf(ll, items)
    }

    constructor (id: string, maxKeys: int)
      ensures Valid() && Slots() == [] && this.id == id
      ensures this.maxKeys == if maxKeys < 1 then 1024 else maxKeys
    {
      this.id := id;
      this.maxKeys := if maxKeys < 1 then 1024 else maxKeys;
      ll, items := [], map[];
    }

    lemma {:induction false} SlotsWellFormed()
      requires Valid()
      ensures WellFormed(Slots(), maxKeys)
    {
      SlotsFacts(ll, items, "");
    }

    method Len() returns (n: nat)
      requires Valid()
      ensures n == |Slots()| && n <= maxKeys
    {
      SlotsFacts(ll, items, "");
      n := |ll|;
    }

    /** Unlinks a key's element and forgets the key. */
    method RemoveElement(key: string)
      requires Valid()
      modifies this
      ensures Valid()
      ensures Slots() == Without(old(Slots()), key)
    {
      Unlinked(ll, items, key);
      SlotsFacts(ll, items, key);
      SlotsFacts(WithoutKey(ll, key), items - {key}, key);
      WithoutProperties(Slots(), key);
      ll := WithoutKey(ll, key);
      items := items - {key};
    }

    method Get(key: string, now: int) returns (v: Option<Value>)
      requires Valid()
      modifies this
      ensures Valid()
      ensures v == Visible(old(Slots()), key, now)
      ensures Slots() == AfterGet(old(Slots()), key, now)
      ensures v.Some? <==> exists x :: x in old(Slots()) && x.key == key && now <= x.expiresAt && v == Some(x.val)
      ensures v.Some? ==> Slots() != [] && Slots()[0].key == key && multiset(Slots()) == multiset(old(Slots()))
      ensures v.None? ==> key !in KeysOf(Slots()) && KeysOf(Slots()) == KeysOf(old(Slots())) - {key}
    {
      SlotsWellFormed();
      GetMeans(Slots(), key, now);
      hide Memory.Valid, Memory.Slots, Visible, AfterGet, KeysOf;
      v := Find(key, now);
    }

    method Find(key: string, now: int) returns (v: Option<Value>)
      requires Valid()
      modifies this
      ensures Valid()
      ensures v == Visible(old(Slots()), key, now)
      ensures Slots() == AfterGet(old(Slots()), key, now)
    {
      SlotsFacts(ll, items, key);
      if key !in items {
        return None;
      }
      if now > items[key].expiresAt {
        RemoveElement(key);
        return None;
      }
      MovedLinked(ll, items, key, items[key]);
      assert items[key := items[key]] == items;
      WithoutProperties(Slots(), key);
      ll := [key] + WithoutKey(ll, key);
      SlotsFacts(ll, items, key);
      return Some(items[key].val);
    }

    method Set(key: string, val: Value, now: int, ttl: int)
      requires Valid()
      modifies this
      ensures Valid()
      ensures Slots() == AfterSet(old(Slots()), key, val, now + ttl, maxKeys)
      ensures Slots() != [] && Slots()[0] == Slot(key, val, now + ttl)
    {
      var e := Entry(val, now + ttl);
      SlotsFacts(ll, items, key);
      WithoutProperties(Slots(), key);
      MovedLinked(ll, items, key, e);
      if key in items {
        items := items[key := e];
        ll := [key] + WithoutKey(ll, key);
        SlotsFacts(ll, items, key);
        return;
      }
      AbsentWithoutKey(ll, key);
      items := items[key := e];
      ll := [key] + ll;
      Trim();
    }

    /** The eviction loop: drops from the back while over capacity. */
    method Trim()
      requires maxKeys >= 1 && Linked(ll, items)
      modifies this
      ensures Valid()
      ensures Slots() == Cut(SlotsOf(old(ll), old(items)), maxKeys)
    {
      ghost var full := SlotsOf(ll, items);
      SlotsFacts(ll, items, "");
      while |ll| > maxKeys
        invariant Linked(ll, items) && |ll| <= |full| && SlotsOf(ll, items) == full[..|ll|]
        invariant |ll| < |full| ==> |ll| >= maxKeys
      {
        var last, rest := ll[|ll| - 1], ll[..|ll| - 1];
        LastUnlinked(ll, items, rest, last);
        ll, items := rest, items - {last};
      }
    }

    method Peek(key: string, now: int) returns (r: Probe)
      requires Valid()
      ensures r == ProbeOf(Slots(), key, now)
      ensures r == Miss <==> key !in KeysOf(Slots())
      ensures r == Expired <==> exists x :: x in Slots() && x.key == key && now > x.expiresAt
      ensures r == Hit <==> exists x :: x in Slots() && x.key == key && now <= x.expiresAt
    {
      SlotsWellFormed();
      ProbeMeans(Slots(), key, now);
      SlotsFacts(ll, items, key);
      if key !in items {
        return Miss;
      }
      if now > items[key].expiresAt {
        return Expired;
      }
      return Hit;
    }

    method Delete(key: string)
      requires Valid()
      modifies this
      ensures Valid()
      ensures Slots() == Without(old(Slots()), key)
      ensures KeysOf(Slots()) == KeysOf(old(Slots())) - {key} && forall x | x in Slots() :: x in old(Slots())
    {
      SlotsFacts(ll, items, key);
      WithoutProperties(Slots(), key);
      if key in items {
        RemoveElement(key);
      } else {
        Unlinked(ll, items, key);
        AbsentWithoutKey(ll, key);
        assert items - {key} == items;
      }
    }
  }

  lemma {:induction false} AbsentWithoutKey(ll: seq<string>, key: string)
    requires key !in ll
    ensures WithoutKey(ll, key) == ll
  {
    if ll != [] {
      assert ll == [ll[0]] + ll[1..];
      AbsentWithoutKey(ll[1..], key);
    }
  }
}
