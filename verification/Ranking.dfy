/**
  Recency scoring: exponential decay over whole seconds, in real arithmetic.

  `decay` is the factor of one second, e^-lambda, so a value v stamped ts is worth
  v * decay^(now - ts) at `now`. The eviction key of the program is ln v + lambda * ts; `Key` below is
  its exponential, v * (1/decay)^ts, which orders states the same way and is 0 where
  the program's key is minus infinity.
 */
module Ranking {

  datatype Params = Params(decay: real, alpha: real, weight: real, countScore: int -> real) {
    /** countScore stands for log(1 + count): any monotone function will do. */
    ghost predicate Valid() {
      && 0.0 < decay < 1.0
      && 0.0 <= alpha
      && 0.0 < weight
      && forall a, b | 0 <= a <= b :: countScore(a) <= countScore(b)
    }

    function Growth(): real
      requires decay > 0.0
    {
      1.0 / decay
    }

    function Effective(value: real, ts: nat, now: nat): real {
      if value <= 0.0 then 0.0
      else value * Pow(decay, if now < ts then 0 else now - ts)
    }

    function Bump(value: real, ts: nat, d: int, now: nat): (real, nat) {
      (Effective(value, ts, now) + d as real * weight, now)
    }

    function Score(count: int, effRecent: real): real {
      countScore(count) + alpha * effRecent
    }

    function Key(value: real, ts: nat): real
      requires decay > 0.0
    {
      if value <= 0.0 then 0.0 else value * Pow(Growth(), ts)
    }
  }

  function Pow(x: real, n: nat): real {
    if n == 0 then 1.0 else x * Pow(x, n - 1)
  }

  lemma MulPositive(x: real, y: real)
    requires x > 0.0 && y > 0.0
    ensures x * y > 0.0
  {
  }

  lemma MulMonotone(x: real, y: real, z: real)
    requires x <= y && z >= 0.0
    ensures x * z <= y * z
  {
  }

  lemma MulAssociates(x: real, y: real, z: real)
    ensures x * (y * z) == (x * y) * z
  {
  }

  lemma {:induction false} MulThrough(x: real, y: real, z: real, yz: real)
    requires y * z == yz
    ensures x * yz == (x * y) * z
  {
    MulAssociates(x, y, z);
  }

  /** One second decays once. */
  lemma {:induction false} PowOne(x: real)
    ensures Pow(x, 0) == 1.0 && Pow(x, 1) == x
  {
    assert Pow(x, 1) == x * Pow(x, 0);
  }

  lemma {:induction false} PowPositive(x: real, n: nat)
    requires x > 0.0
    ensures Pow(x, n) > 0.0
  {
    if n > 0 {
      PowPositive(x, n - 1);
      MulPositive(x, Pow(x, n - 1));
    }
  }

  lemma {:induction false} PowAdd(x: real, m: nat, n: nat)
    ensures Pow(x, m + n) == Pow(x, m) * Pow(x, n)
  {
    if m > 0 {
      PowAdd(x, m - 1, n);
      assert m + n - 1 == (m - 1) + n;
      MulAssociates(x, Pow(x, m - 1), Pow(x, n));
    }
  }

  lemma {:induction false} PowInverse(x: real, y: real, n: nat)
    requires x * y == 1.0
    ensures Pow(x, n) * Pow(y, n) == 1.0
  {
    if n > 0 {
      PowInverse(x, y, n - 1);
      var a, b := Pow(x, n - 1), Pow(y, n - 1);
      assert (x * a) * (y * b) == (x * y) * (a * b);
    }
  }

  /** Decay and growth cancel: growing to ts and decaying to a later `now` is decaying by the gap. */
  lemma {:induction false} DecayGap(p: Params, ts: nat, now: nat)
    requires p.Valid() && ts <= now
    ensures Pow(p.Growth(), ts) * Pow(p.decay, now) == Pow(p.decay, now - ts)
  {
    var g, r := p.Growth(), p.decay;
    assert g * r == 1.0;
    PowAdd(r, ts, now - ts);
    PowInverse(g, r, ts);
    MulAssociates(Pow(g, ts), Pow(r, ts), Pow(r, now - ts));
  }

  /** At any time from its stamp on, a state's effective value is its key times one common factor. */
  lemma {:induction false} EffectiveIsScaledKey(p: Params, value: real, ts: nat, now: nat)
    requires p.Valid() && ts <= now
    ensures p.Effective(value, ts, now) == p.Key(value, ts) * Pow(p.decay, now)
  {
    if value > 0.0 {
      hide Params.Growth, Pow;
      DecayGap(p, ts, now);
      MulThrough(value, Pow(p.Growth(), ts), Pow(p.decay, now), Pow(p.decay, now - ts));
    } else {
      assert 0.0 * Pow(p.decay, now) == 0.0;
    }
  }

  /** Key order is effective order, in both directions, at every time from the stamps on. */
  lemma {:induction false} KeyOrderIsEffectiveOrder(p: Params, v1: real, ts1: nat, v2: real, ts2: nat, now: nat)
    requires p.Valid() && ts1 <= now && ts2 <= now
    ensures p.Key(v1, ts1) <= p.Key(v2, ts2) <==> p.Effective(v1, ts1, now) <= p.Effective(v2, ts2, now)
  {
    EffectiveIsScaledKey(p, v1, ts1, now);
    EffectiveIsScaledKey(p, v2, ts2, now);
    PowPositive(p.decay, now);
    ScaledOrder(p.Key(v1, ts1), p.Key(v2, ts2), Pow(p.decay, now));
  }

  lemma {:induction false} ScaledOrder(a: real, b: real, c: real)
    requires c > 0.0
    ensures a <= b <==> a * c <= b * c
  {
    if a <= b {
      MulMonotone(a, b, c);
    } else {
      MulPositive(a - b, c);
    }
  }

  /** In key space a search is an addition: it adds the key of its own weight, stamped now. */
  lemma {:induction false} BumpAddsToKey(p: Params, value: real, ts: nat, d: int, now: nat)
    requires p.Valid() && ts <= now && d > 0
    ensures var (v, t) := p.Bump(value, ts, d, now);
            t == now && v > 0.0 && p.Key(v, t) == p.Key(value, ts) + p.Key(d as real * p.weight, now)
  {
    var g, r := p.Growth(), p.decay;
    var eff, gain := p.Effective(value, ts, now), d as real * p.weight;
    EffectiveNonNegative(p, value, ts, now);
    MulPositive(d as real, p.weight);
    EffectiveIsScaledKey(p, value, ts, now);
    assert g * r == 1.0;
    PowInverse(g, r, now);
    var k, a, b := p.Key(value, ts), Pow(r, now), Pow(g, now);
    MulAssociates(k, a, b);
    assert (eff + gain) * b == eff * b + gain * b;
  }

  /** A search strictly raises a query's key when the clock has not gone back. */
  lemma {:induction false} BumpRaisesKey(p: Params, value: real, ts: nat, d: int, now: nat)
    requires p.Valid() && ts <= now && d > 0
    ensures var (v, t) := p.Bump(value, ts, d, now); p.Key(v, t) > p.Key(value, ts)
  {
    BumpAddsToKey(p, value, ts, d, now);
    MulPositive(d as real, p.weight);
    KeyNonNegative(p, d as real * p.weight, now);
  }

  /**
    When a search raises a query's key, for any clock: always, unless the clock has gone back behind the
    stamp of a positive value. A search is not decayed then, so it must outweigh what the value would have
    gained by being stamped later.
   */
  lemma {:induction false} BumpRaisesExactly(p: Params, value: real, ts: nat, d: int, now: nat)
    requires p.Valid() && d > 0
    ensures var (v, t) := p.Bump(value, ts, d, now);
            p.Key(v, t) > p.Key(value, ts)
            <==> value <= 0.0 || ts <= now || d as real * p.weight > value * (Pow(p.Growth(), ts - now) - 1.0)
  {
    if ts <= now {
      BumpRaisesKey(p, value, ts, d, now);
    } else if value <= 0.0 {
      MulPositive(d as real, p.weight);
      KeyNonNegative(p, d as real * p.weight, now);
    } else {
      SkewedKey(p, value, ts, now);
      SkewedBump(p, value, ts, d, now);
      PowPositive(p.Growth(), now);
      ScaledOrder(value + d as real * p.weight, value * Pow(p.Growth(), ts - now), Pow(p.Growth(), now));
      assert value * (Pow(p.Growth(), ts - now) - 1.0) == value * Pow(p.Growth(), ts - now) - value;
    }
  }

  /** Seen from a clock that has gone back, a state is worth its value grown by the skew. */
  lemma {:induction false} SkewedKey(p: Params, value: real, ts: nat, now: nat)
    requires p.Valid() && value > 0.0 && now < ts
    ensures p.Key(value, ts) == (value * Pow(p.Growth(), ts - now)) * Pow(p.Growth(), now)
  {
    PowAdd(p.Growth(), ts - now, now);
    MulThrough(value, Pow(p.Growth(), ts - now), Pow(p.Growth(), now), Pow(p.Growth(), ts));
  }

  /** A search at a time before the stamp adds to the undecayed value. */
  lemma {:induction false} SkewedBump(p: Params, value: real, ts: nat, d: int, now: nat)
    requires p.Valid() && value > 0.0 && now < ts && d > 0
    ensures var (v, t) := p.Bump(value, ts, d, now);
            p.Key(v, t) == (value + d as real * p.weight) * Pow(p.Growth(), now)
  {
    assert Pow(p.decay, 0) == 1.0;
    MulPositive(d as real, p.weight);
  }

  /** A backward clock can lower the key: one search against a value of 4 stamped a second later. */
  lemma {:induction false} BackwardClockLowersKey()
    ensures var p := Params(0.5, 1.0, 1.0, c => 0.0);
            var (v, t) := p.Bump(4.0, 2, 1, 1);
            p.Valid() && p.Key(v, t) < p.Key(4.0, 2)
  {
    var p := Params(0.5, 1.0, 1.0, c => 0.0);
    assert Pow(p.decay, 0) == 1.0;
    assert Pow(p.Growth(), 1) == 2.0 && Pow(p.Growth(), 2) == 2.0 * Pow(p.Growth(), 1);
  }

  lemma {:induction false} EffectiveNonNegative(p: Params, value: real, ts: nat, now: nat)
    requires p.Valid()
    ensures p.Effective(value, ts, now) >= 0.0
    ensures value > 0.0 ==> p.Effective(value, ts, now) > 0.0
  {
    if value > 0.0 {
      var dt: nat := if now < ts then 0 else now - ts;
      PowPositive(p.decay, dt);
      MulPositive(value, Pow(p.decay, dt));
    }
  }

  /**
    What the effective value is: nothing for a value that is not positive, the value itself up to its stamp,
    and from then on it loses one factor of `decay` each second.
   */
  lemma {:induction false} DecaysEachSecond(p: Params, value: real, ts: nat, now: nat)
    ensures value <= 0.0 ==> p.Effective(value, ts, now) == 0.0
    ensures value > 0.0 && now <= ts ==> p.Effective(value, ts, now) == value
    ensures ts <= now ==> p.Effective(value, ts, now + 1) == p.Effective(value, ts, now) * p.decay
  {
    PowOne(p.decay);
    if value > 0.0 && ts <= now {
      assert Pow(p.decay, now + 1 - ts) == p.decay * Pow(p.decay, now - ts);
      MulAssociates(value, Pow(p.decay, now - ts), p.decay);
    }
  }

  /** Reading is free of side effects in time: decaying in two legs is decaying once. */
  lemma {:induction false} DecayInLegs(p: Params, value: real, ts: nat, mid: nat, now: nat)
    requires p.Valid() && ts <= mid <= now
    ensures p.Effective(p.Effective(value, ts, mid), mid, now) == p.Effective(value, ts, now)
  {
    EffectiveNonNegative(p, value, ts, mid);
    if value > 0.0 {
      PowAdd(p.decay, mid - ts, now - mid);
      MulAssociates(value, Pow(p.decay, mid - ts), Pow(p.decay, now - mid));
    }
  }

  lemma {:induction false} KeyNonNegative(p: Params, value: real, ts: nat)
    requires p.Valid()
    ensures p.Key(value, ts) >= 0.0
    ensures value > 0.0 ==> p.Key(value, ts) > 0.0
  {
    if value > 0.0 {
      PowPositive(p.Growth(), ts);
      MulPositive(value, Pow(p.Growth(), ts));
    }
  }

  /** More recency and a higher count never score lower. */
  lemma {:induction false} ScoreMonotone(p: Params, c1: int, e1: real, c2: int, e2: real)
    requires p.Valid() && 0 <= c1 <= c2 && e1 <= e2
    ensures p.Score(c1, e1) <= p.Score(c2, e2)
  {
    Weigh(p.alpha, e1, e2);
    assert p.countScore(c1) <= p.countScore(c2);
  }

  /** Recency does count: at equal counts, and with a positive alpha, more of it scores strictly higher. */
  lemma {:induction false} ScoreStrict(p: Params, c: int, e1: real, e2: real)
    requires p.alpha > 0.0 && e1 < e2
    ensures p.Score(c, e1) < p.Score(c, e2)
  {
    MulPositive(p.alpha, e2 - e1);
    assert p.alpha * (e2 - e1) == p.alpha * e2 - p.alpha * e1;
  }

  lemma {:induction false} Weigh(alpha: real, x: real, y: real)
    requires x <= y && alpha >= 0.0
    ensures alpha * x <= alpha * y
  {
    MulMonotone(x, y, alpha);
  }
}
