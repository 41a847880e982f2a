/**
  The simulated inventory and demand signals written into every ingested
  row (`calculate_simulated_inventory`, `calculate_demand_score`). The
  price-seeded pseudo-random draw and the sine of the wall clock are inputs:
  `draw` is the generator's first value in [0, 1) for a seed, `sine` is
  `sin(time / 86400)`.
 */
module Signals {
  import opened Common

  datatype Env = Env(draw: int -> real, sine: real)

  /** What the host provides: draws in [0, 1) and a sine in [-1, 1]. */
  ghost predicate ValidEnv(env: Env) {
    && (forall seed :: 0.0 <= env.draw(seed) < 1.0)
    && -1.0 <= env.sine <= 1.0
  }

  const BaseInventory: real := 100.0

  /** `10000 / max(price, 1000)` kept within [0.1, 2.0]: cheaper items get more stock. */
  function PriceFactor(price: real): (f: real)
    ensures 0.1 <= f <= 2.0
    ensures price <= 5000.0 ==> f == 2.0
    ensures price >= 100000.0 ==> f == 0.1
    ensures 5000.0 < price < 100000.0 ==> f * price == 10000.0
  {
    var denom := MaxR(price, 1000.0);
    QuotientBounds(price, denom);
    Clamp(10000.0 / denom, 0.1, 2.0)
  }

  lemma QuotientBounds(price: real, denom: real)
    requires denom == MaxR(price, 1000.0)
    ensures price <= 5000.0 ==> 10000.0 / denom >= 2.0
    ensures price >= 100000.0 ==> 10000.0 / denom <= 0.1
    ensures 5000.0 < price < 100000.0 ==> 0.1 < 10000.0 / denom < 2.0 && (10000.0 / denom) * price == 10000.0
  {
    var q := 10000.0 / denom;
    assert q * denom == 10000.0;
  }

  /** Per-category stock multiplier, looked up by the lower-cased category. */
  function TypeModifier(productType: string): (m: real)
    ensures 0.8 <= m <= 1.5
  {
    var key := AsciiLower(productType);
    if key == "phone" then 1.2
    else if key == "laptop" then 0.8
    else if key == "headphones" then 1.5
    else if key == "speakers" then 0.9
    else if key == "smart watches" then 1.1
    else 1.0
  }

  /** `0.8 + 0.4 * random()` for the generator seeded with the truncated price. */
  function RandomFactor(u: real): real {
    0.8 + 0.4 * u
  }

  function RawInventory(price: real, productType: string, u: real): real {
    BaseInventory * PriceFactor(price) * TypeModifier(productType) * RandomFactor(u)
  }

  /** calculate_simulated_inventory: truncated, then clamped to [1, 500]. */
  function SimulatedInventory(price: real, productType: string, u: real): (r: int)
    ensures 1 <= r <= 500
    ensures 1 <= Trunc(RawInventory(price, productType, u)) <= 500 ==> r == Trunc(RawInventory(price, productType, u))
  {
    var inventory := Trunc(RawInventory(price, productType, u));
    if inventory < 1 then 1 else if inventory > 500 then 500 else inventory
  }

  /**
    The inventory of a row ingested at `price`: the generator is seeded with
    the truncated price while the price factor reads the price itself, so
    equal prices get equal stock and equal truncated prices share the draw.
   */
  function InventoryFor(price: real, productType: string, env: Env): (r: int)
    ensures 1 <= r <= 500
    ensures ValidEnv(env) ==> 6 <= r <= 359 && r == Trunc(RawInventory(price, productType, env.draw(Trunc(price))))
  {
    var u := env.draw(Trunc(price));
    var r := SimulatedInventory(price, productType, u);
    assert ValidEnv(env) ==> 6 <= r <= 359 && r == Trunc(RawInventory(price, productType, u)) by {
      if ValidEnv(env) {
        assert 0.0 <= u < 1.0;
        InventoryClampInactive(price, productType, u);
      }
    }
    r
  }

  lemma MulMono(x: real, y: real, xl: real, xh: real, yl: real, yh: real)
    requires 0.0 <= xl <= x <= xh
    requires 0.0 <= yl <= y <= yh
    ensures xl * yl <= x * y <= xh * yh
  {
    assert xl * yl <= x * yl;
    assert x * yl <= x * y;
    assert x * y <= xh * y;
    assert xh * y <= xh * yh;
  }

  lemma MulMonoStrictUpper(x: real, y: real, xh: real, yh: real)
    requires 0.0 < x <= xh
    requires 0.0 <= y < yh
    ensures x * y < xh * yh
  {
    assert x * y < x * yh;
    assert x * yh <= xh * yh;
  }

  /**
    With a draw in [0, 1) the unclamped stock already lies in [6, 359], so the
    [1, 500] clamp never changes the truncated value.
   */
  lemma InventoryClampInactive(price: real, productType: string, u: real)
    requires 0.0 <= u < 1.0
    ensures 6 <= SimulatedInventory(price, productType, u) <= 359
    ensures SimulatedInventory(price, productType, u) == Trunc(RawInventory(price, productType, u))
  {
    var pf, tm, rf := PriceFactor(price), TypeModifier(productType), RandomFactor(u);
    var a := BaseInventory * pf;
    assert 10.0 <= a <= 200.0;
    MulMono(a, tm, 10.0, 200.0, 0.8, 1.5);
    var b := a * tm;
    assert 8.0 <= b <= 300.0;
    assert 0.8 <= rf < 1.2;
    MulMono(b, rf, 8.0, 300.0, 0.8, 1.2);
    MulMonoStrictUpper(b, rf, 300.0, 1.2);
    var raw := b * rf;
    assert raw == RawInventory(price, productType, u);
    assert 6.4 <= raw < 360.0;
  }

  /** `max(0.3, 2.0 - position * 0.1)`: earlier search positions signal more demand. */
  function PositionScore(position: int): (s: real)
    ensures s >= 0.3 && s >= 2.0 - position as real * 0.1
    ensures s == 0.3 || s == 2.0 - position as real * 0.1
  {
    MaxR(0.3, 2.0 - position as real * 0.1)
  }

  /** Category price bands: a sweet spot raises demand, far-off prices lower it. */
  function PriceScore(price: real, productType: string): (s: real)
    ensures 0.6 <= s <= 1.5
  {
    var key := AsciiLower(productType);
    if key == "phone" then
      if 15000.0 <= price <= 30000.0 then 1.5
      else if price < 10000.0 || price > 50000.0 then 0.7
      else 1.0
    else if key == "laptop" then
      if 40000.0 <= price <= 80000.0 then 1.4
      else if price < 25000.0 || price > 120000.0 then 0.6
      else 1.0
    else 1.0
  }

  /** `0.9 + 0.2 * sin(time / 86400)`: the daily cycle. */
  function DailyCycle(sine: real): real {
    0.9 + 0.2 * sine
  }

  function RawDemand(price: real, productType: string, position: int, sine: real): real {
    PositionScore(position) * PriceScore(price, productType) * DailyCycle(sine)
  }

  /** calculate_demand_score, before its final rounding to two decimals. */
  function DemandScore(price: real, productType: string, position: int, sine: real): (r: real)
    ensures 0.1 <= r <= 3.0
    ensures 0.1 <= RawDemand(price, productType, position, sine) <= 3.0 ==> r == RawDemand(price, productType, position, sine)
  {
    Clamp(RawDemand(price, productType, position, sine), 0.1, 3.0)
  }

  /** The demand score of a row written at search position `position`. */
  function DemandFor(price: real, productType: string, position: int, env: Env): (r: real)
    ensures 0.1 <= r <= 3.0
    ensures ValidEnv(env) && position >= 0 ==> r == MinR(RawDemand(price, productType, position, env.sine), 3.0)
  {
    assert ValidEnv(env) && position >= 0 ==>
             DemandScore(price, productType, position, env.sine) == MinR(RawDemand(price, productType, position, env.sine), 3.0) by {
      if ValidEnv(env) && position >= 0 { DemandLowerClampInactive(price, productType, position, env.sine); }
    }
    DemandScore(price, productType, position, env.sine)
  }

  /** A later position never scores higher than an earlier one. */
  lemma PositionScoreNonIncreasing(p: int, q: int)
    requires p <= q
    ensures PositionScore(q) <= PositionScore(p)
  {
  }

  /**
    For a real position (0 or more) and a real sine, the raw score is at least
    0.3 * 0.6 * 0.7 = 0.126, so the lower bound 0.1 of the clamp never acts.
   */
  lemma DemandLowerClampInactive(price: real, productType: string, position: nat, sine: real)
    requires -1.0 <= sine <= 1.0
    ensures RawDemand(price, productType, position, sine) >= 0.126
    ensures DemandScore(price, productType, position, sine) == MinR(RawDemand(price, productType, position, sine), 3.0)
  {
    var ps, pr, tf := PositionScore(position), PriceScore(price, productType), DailyCycle(sine);
    assert 0.3 <= ps <= 2.0;
    assert 0.7 <= tf <= 1.1;
    MulMono(ps, pr, 0.3, 2.0, 0.6, 1.5);
    MulMono(ps * pr, tf, 0.18, 3.0, 0.7, 1.1);
  }

  /** The upper bound does act: the top phone at its sweet-spot price at the crest of the cycle. */
  lemma DemandUpperClampReachable()
    ensures RawDemand(20000.0, "phone", 0, 1.0) > 3.0
    ensures DemandScore(20000.0, "phone", 0, 1.0) == 3.0
  {
    assert AsciiLower("phone") == "phone";
    assert PriceScore(20000.0, "phone") == 1.5;
  }
}
