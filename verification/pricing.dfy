/**
  The pricing engine: `calculate_discount` maps a row's discount rank onto a
  discount fraction, and `calculate_dynamic_price` adjusts that base discount
  by inventory, demand and time-of-day factors, bounds it, and derives the
  price from the competitor's. The UTC hour is an input; the final rounding
  to two decimals is not modelled.
 */
module Pricing {
  import opened Common
  import Settings

  /**
    calculate_discount(disc_value, max_disc, min_disc, max_discount, min_discount):
    the rank is normalised over [minDisc, maxDisc] (0 when that interval is a
    point), inverted, and mapped onto [minDiscount, maxDiscount]. No clamp.
   */
  function Discount(discValue: real, maxDisc: real, minDisc: real, maxDiscount: real, minDiscount: real): (r: real)
    ensures maxDisc == minDisc ==> r == maxDiscount
  {
    var norm := if maxDisc == minDisc then 0.0 else (discValue - minDisc) / (maxDisc - minDisc);
    minDiscount + (1.0 - norm) * (maxDiscount - minDiscount)
  }

  /**
    Over a proper domain the discount lies on the line through
    (minDisc, maxDiscount) with slope -(maxDiscount - minDiscount) / (maxDisc - minDisc),
    stated without division: it is affine in the rank.
   */
  lemma DiscountIsLine(discValue: real, maxDisc: real, minDisc: real, maxDiscount: real, minDiscount: real)
    requires maxDisc != minDisc
    ensures (Discount(discValue, maxDisc, minDisc, maxDiscount, minDiscount) - maxDiscount) * (maxDisc - minDisc)
            == (minDisc - discValue) * (maxDiscount - minDiscount)
  {
    var norm := (discValue - minDisc) / (maxDisc - minDisc);
    DiscountLine(discValue, maxDisc, minDisc, maxDiscount, minDiscount, norm);
  }

  lemma DiscountLine(x: real, b: real, a: real, hi: real, lo: real, norm: real)
    requires b != a && norm == (x - a) / (b - a)
    ensures (lo + (1.0 - norm) * (hi - lo) - hi) * (b - a) == (a - x) * (hi - lo)
  {
    assert norm * (b - a) == x - a;
    calc {
      (lo + (1.0 - norm) * (hi - lo) - hi) * (b - a);
      (-norm * (hi - lo)) * (b - a);
      -(norm * (b - a)) * (hi - lo);
    }
  }

  /** At the ends of a proper domain the discount is the range's ends, swapped. */
  lemma DiscountEndpoints(maxDisc: real, minDisc: real, maxDiscount: real, minDiscount: real)
    requires maxDisc != minDisc
    ensures Discount(minDisc, maxDisc, minDisc, maxDiscount, minDiscount) == maxDiscount
    ensures Discount(maxDisc, maxDisc, minDisc, maxDiscount, minDiscount) == minDiscount
  {
    DiscountIsLine(maxDisc, maxDisc, minDisc, maxDiscount, minDiscount);
    DiscountIsLine(minDisc, maxDisc, minDisc, maxDiscount, minDiscount);
    var lo := Discount(maxDisc, maxDisc, minDisc, maxDiscount, minDiscount);
    assert (lo - maxDiscount) * (maxDisc - minDisc) == -(maxDiscount - minDiscount) * (maxDisc - minDisc);
    CancelRight(lo - maxDiscount, -(maxDiscount - minDiscount), maxDisc - minDisc);
    var hi := Discount(minDisc, maxDisc, minDisc, maxDiscount, minDiscount);
    assert (hi - maxDiscount) * (maxDisc - minDisc) == 0.0 * (maxDisc - minDisc);
    CancelRight(hi - maxDiscount, 0.0, maxDisc - minDisc);
  }

  lemma CancelRight(x: real, y: real, k: real)
    requires k != 0.0 && x * k == y * k
    ensures x == y
  {
    assert (x - y) * k == 0.0;
  }

  /**
    Over a proper domain and an ordered range, a higher rank never earns a
    larger discount; a strictly higher rank earns a strictly smaller one when
    the range is proper.
   */
  lemma DiscountNonIncreasing(x: real, y: real, maxDisc: real, minDisc: real, maxDiscount: real, minDiscount: real)
    requires maxDisc > minDisc && minDiscount <= maxDiscount && x <= y
    ensures Discount(y, maxDisc, minDisc, maxDiscount, minDiscount) <= Discount(x, maxDisc, minDisc, maxDiscount, minDiscount)
    ensures x < y && minDiscount < maxDiscount ==>
      Discount(y, maxDisc, minDisc, maxDiscount, minDiscount) < Discount(x, maxDisc, minDisc, maxDiscount, minDiscount)
  {
    var dx := Discount(x, maxDisc, minDisc, maxDiscount, minDiscount);
    var dy := Discount(y, maxDisc, minDisc, maxDiscount, minDiscount);
    DiscountIsLine(x, maxDisc, minDisc, maxDiscount, minDiscount);
    DiscountIsLine(y, maxDisc, minDisc, maxDiscount, minDiscount);
    var w := maxDisc - minDisc;
    var h := maxDiscount - minDiscount;
    assert (dx - dy) * w == (y - x) * h;
    assert (y - x) * h >= 0.0;
    assert x < y && h > 0.0 ==> (y - x) * h > 0.0;
    SignOfFactor(dx - dy, w);
  }

  /**
    There is no clamp: a rank below the domain earns more than `maxDiscount`
    and a rank above it less than `minDiscount`.
   */
  lemma DiscountUnclamped(x: real, maxDisc: real, minDisc: real, maxDiscount: real, minDiscount: real)
    requires maxDisc > minDisc && minDiscount < maxDiscount
    ensures x < minDisc ==> Discount(x, maxDisc, minDisc, maxDiscount, minDiscount) > maxDiscount
    ensures x > maxDisc ==> Discount(x, maxDisc, minDisc, maxDiscount, minDiscount) < minDiscount
  {
    DiscountEndpoints(maxDisc, minDisc, maxDiscount, minDiscount);
    if x < minDisc {
      DiscountNonIncreasing(x, minDisc, maxDisc, minDisc, maxDiscount, minDiscount);
    }
    if x > maxDisc {
      DiscountNonIncreasing(maxDisc, x, maxDisc, minDisc, maxDiscount, minDiscount);
    }
  }

  /** An output range `[lo, hi]` of discounts. */
  datatype Range = Range(lo: real, hi: real)

  /**
    The output range a pricing strategy selects: fixed ranges for
    'aggressive' and 'premium', the configured bounds for any other name.
   */
  function StrategyRange(strategy: string, config: Settings.Config): (r: Range)
    ensures strategy == "aggressive" ==> r == Range(0.1, 0.4)
    ensures strategy == "premium" ==> r == Range(0.02, 0.15)
    ensures strategy != "aggressive" && strategy != "premium" ==>
      r == Range(config.minDiscount, config.maxDiscount)
  {
    if strategy == "aggressive" then Range(0.1, 0.4)
    else if strategy == "premium" then Range(0.02, 0.15)
    else Range(config.minDiscount, config.maxDiscount)
  }

  /** 1.1 for scarce stock (raises the price), 0.95 for surplus, 1.0 otherwise. */
  function InventoryFactor(inventory: int): (f: real)
    ensures f == 1.1 <==> inventory < 10
    ensures f == 0.95 <==> inventory > 200
    ensures f == 1.0 <==> 10 <= inventory <= 200
  {
    if inventory < 10 then 1.1 else if inventory > 200 then 0.95 else 1.0
  }

  /** 1.05 for high demand, 0.9 for low demand, 1.0 otherwise. */
  function DemandFactor(demandScore: real): (f: real)
    ensures f == 1.05 <==> demandScore > 2.0
    ensures f == 0.9 <==> demandScore < 0.5
    ensures f == 1.0 <==> 0.5 <= demandScore <= 2.0
  {
    if demandScore > 2.0 then 1.05 else if demandScore < 0.5 then 0.9 else 1.0
  }

  /** 1.02 in the peak hours 18..22 UTC, 0.98 in the quiet hours 2..6, 1.0 otherwise. */
  function TimeFactor(hour: int): (f: real)
    ensures f == 1.02 <==> 18 <= hour <= 22
    ensures f == 0.98 <==> 2 <= hour <= 6
    ensures f == 1.0 <==> !(18 <= hour <= 22) && !(2 <= hour <= 6)
  {
    if 18 <= hour <= 22 then 1.02 else if 2 <= hour <= 6 then 0.98 else 1.0
  }

  const MinFinalDiscount: real := 0.01
  const MaxFinalDiscount: real := 0.5

  /**
    The fields calculate_dynamic_price reads from a product row; a row without
    an inventory or demand column defaults to 100 and 1.0.
   */
  datatype PricingInput = PricingInput(
    competitorPrice: real,
    inventory: Option<int>,
    demandScore: Option<real>,
    disc: real
  )

  datatype Quote = Quote(
    price: real,
    finalDiscount: real,
    baseDiscount: real,
    inventoryFactor: real,
    demandFactor: real,
    timeFactor: real
  )

  /** The combined adjustment the base discount is divided by. */
  function Adjustment(q: Quote): (a: real)
    requires q.inventoryFactor > 0.0 && q.demandFactor > 0.0 && q.timeFactor > 0.0
    ensures a > 0.0
  {
    ProductPositive(q.inventoryFactor, q.demandFactor, q.timeFactor);
    q.inventoryFactor * q.demandFactor * q.timeFactor
  }

  /**
    The clamp-and-price tail of calculate_dynamic_price: divide the base
    discount by the combined factors, clamp into [0.01, 0.5], and take that
    fraction off the competitor price.
   */
  function Settle(competitorPrice: real, base: real, inventoryFactor: real, demandFactor: real, timeFactor: real): (q: Quote)
    requires inventoryFactor > 0.0 && demandFactor > 0.0 && timeFactor > 0.0
    ensures q.baseDiscount == base
    ensures q.inventoryFactor == inventoryFactor && q.demandFactor == demandFactor && q.timeFactor == timeFactor
    ensures MinFinalDiscount <= q.finalDiscount <= MaxFinalDiscount
    ensures var adjusted := base / Adjustment(q);
            && (MinFinalDiscount <= adjusted <= MaxFinalDiscount ==> q.finalDiscount == adjusted)
            && (adjusted < MinFinalDiscount ==> q.finalDiscount == MinFinalDiscount)
            && (adjusted > MaxFinalDiscount ==> q.finalDiscount == MaxFinalDiscount)
    ensures q.price == competitorPrice * (1.0 - q.finalDiscount)
    ensures competitorPrice >= 0.0 ==>
      competitorPrice * 0.5 <= q.price <= competitorPrice * 0.99 && q.price <= competitorPrice
  {
    var unpriced := Quote(0.0, 0.0, base, inventoryFactor, demandFactor, timeFactor);
    var adjusted := base / Adjustment(unpriced);
    var final := Clamp(adjusted, MinFinalDiscount, MaxFinalDiscount);
    var price := competitorPrice * (1.0 - final);
    PriceWithin(competitorPrice, final);
    var q := Quote(price, final, base, inventoryFactor, demandFactor, timeFactor);
    assert Adjustment(q) == Adjustment(unpriced);
    q
  }

  /** calculate_dynamic_price(product_row, pricing_strategy) at UTC hour `hour`. */
  function DynamicPrice(row: PricingInput, strategy: string, config: Settings.Config, hour: int): (q: Quote)
    // the normalisation domain is always the configured bounds; the strategy only picks the output range
    ensures q.baseDiscount == Discount(row.disc, config.maxDiscount, config.minDiscount,
                                       StrategyRange(strategy, config).hi, StrategyRange(strategy, config).lo)
    ensures q.inventoryFactor == InventoryFactor(row.inventory.GetOr(100))
    ensures q.demandFactor == DemandFactor(row.demandScore.GetOr(1.0))
    ensures q.timeFactor == TimeFactor(hour)
    ensures q.inventoryFactor > 0.0 && q.demandFactor > 0.0 && q.timeFactor > 0.0
    // the tail divides by the factors, clamps into [0.01, 0.5] and prices (see Settle)
    ensures q == Settle(row.competitorPrice, q.baseDiscount, q.inventoryFactor, q.demandFactor, q.timeFactor)
    ensures MinFinalDiscount <= q.finalDiscount <= MaxFinalDiscount
    // so a non-negative competitor price is always undercut by 1% to 50%
    ensures row.competitorPrice >= 0.0 ==>
      row.competitorPrice * 0.5 <= q.price <= row.competitorPrice * 0.99 && q.price <= row.competitorPrice
  {
    var range := StrategyRange(strategy, config);
    var base := Discount(row.disc, config.maxDiscount, config.minDiscount, range.hi, range.lo);
    Settle(row.competitorPrice, base,
           InventoryFactor(row.inventory.GetOr(100)),
           DemandFactor(row.demandScore.GetOr(1.0)),
           TimeFactor(hour))
  }

  lemma ProductPositive(a: real, b: real, c: real)
    requires a > 0.0 && b > 0.0 && c > 0.0
    ensures a * b * c > 0.0
  {
    assert a * b > 0.0;
  }

  lemma PriceWithin(c: real, d: real)
    requires MinFinalDiscount <= d <= MaxFinalDiscount
    ensures c >= 0.0 ==> c * 0.5 <= c * (1.0 - d) <= c * 0.99 <= c
  {
    if c >= 0.0 {
      assert c * (1.0 - d) - c * 0.5 == c * (0.5 - d);
      assert c * 0.99 - c * (1.0 - d) == c * (d - 0.01);
    }
  }

  /**
    Whatever the strategy, a row whose rank sits at the configured minimum
    gets the strategy's top discount, and one at the configured maximum its
    bottom discount: the strategy never moves the normalisation domain.
   */
  lemma DomainIgnoresStrategy(strategy: string, config: Settings.Config, hour: int, price: real)
    requires config.maxDiscount != config.minDiscount
    ensures DynamicPrice(PricingInput(price, None, None, config.minDiscount), strategy, config, hour).baseDiscount
            == StrategyRange(strategy, config).hi
    ensures DynamicPrice(PricingInput(price, None, None, config.maxDiscount), strategy, config, hour).baseDiscount
            == StrategyRange(strategy, config).lo
  {
    var r := StrategyRange(strategy, config);
    DiscountEndpoints(config.maxDiscount, config.minDiscount, r.hi, r.lo);
  }

  /** For a rank inside the configured domain, 'aggressive' always beats 'premium' on base discount. */
  lemma AggressiveAbovePremium(row: PricingInput, config: Settings.Config, hour: int)
    requires config.minDiscount <= row.disc <= config.maxDiscount
    ensures DynamicPrice(row, "aggressive", config, hour).baseDiscount
          > DynamicPrice(row, "premium", config, hour).baseDiscount
  {
    AggressiveAbovePremiumBase(row.disc, config.maxDiscount, config.minDiscount);
  }

  /**
    Outside the domain the order flips: under the default configuration every
    row past the first of a batch (rank 1 or more) gets a smaller base
    discount from 'aggressive' than from 'premium'.
   */
  lemma AggressiveBelowPremiumPastDomain(row: PricingInput, hour: int)
    requires row.disc >= 1.0
    ensures DynamicPrice(row, "aggressive", Settings.Default, hour).baseDiscount
          < DynamicPrice(row, "premium", Settings.Default, hour).baseDiscount
  {
    var a := DynamicPrice(row, "aggressive", Settings.Default, hour).baseDiscount;
    var p := DynamicPrice(row, "premium", Settings.Default, hour).baseDiscount;
    DiscountIsLine(row.disc, 0.3, 0.05, 0.4, 0.1);
    DiscountIsLine(row.disc, 0.3, 0.05, 0.15, 0.02);
    assert (a - 0.4) * 0.25 == (0.05 - row.disc) * 0.3;
    assert (p - 0.15) * 0.25 == (0.05 - row.disc) * 0.13;
  }

  lemma AggressiveAbovePremiumBase(disc: real, maxDisc: real, minDisc: real)
    requires minDisc <= disc <= maxDisc
    ensures Discount(disc, maxDisc, minDisc, 0.4, 0.1) > Discount(disc, maxDisc, minDisc, 0.15, 0.02)
  {
    if maxDisc != minDisc {
      DiscountIsLine(disc, maxDisc, minDisc, 0.4, 0.1);
      DiscountIsLine(disc, maxDisc, minDisc, 0.15, 0.02);
      RangeGap(Discount(disc, maxDisc, minDisc, 0.4, 0.1), Discount(disc, maxDisc, minDisc, 0.15, 0.02),
               maxDisc - minDisc, minDisc - disc);
    }
  }

  lemma RangeGap(a: real, p: real, w: real, t: real)
    requires w > 0.0 && -w <= t <= 0.0
    requires (a - 0.4) * w == t * 0.3 && (p - 0.15) * w == t * 0.13
    ensures a > p
  {
    // (a - p) * w == 0.25 * w + 0.17 * t >= 0.08 * w > 0
    assert (a - p) * w == 0.25 * w + 0.17 * t;
    SignOfFactor(a - p, w);
  }

  /**
    Ingestion stores each row's 0-based batch position as its rank, while the
    domain is the configured discount fractions (0.05..0.3 by default). With
    the default configuration the first row's base discount overshoots the
    configured maximum, and every later row's base discount is negative, so
    only the final clamp makes it a 1% discount.
   */
  lemma BatchPositionRankQuirk(position: nat, competitorPrice: real, inventory: int, demandScore: real, hour: int)
    ensures DynamicPrice(PricingInput(competitorPrice, Some(inventory), Some(demandScore), 0.0), "default", Settings.Default, hour).baseDiscount
            > Settings.Default.maxDiscount
    ensures position >= 1 ==>
      var q := DynamicPrice(PricingInput(competitorPrice, Some(inventory), Some(demandScore), position as real), "default", Settings.Default, hour);
      q.baseDiscount < 0.0 && q.finalDiscount == MinFinalDiscount && q.price == competitorPrice * 0.99
  {
    var q0 := DynamicPrice(PricingInput(competitorPrice, Some(inventory), Some(demandScore), 0.0), "default", Settings.Default, hour);
    DiscountIsLine(0.0, 0.3, 0.05, 0.3, 0.05);
    assert (q0.baseDiscount - 0.3) * 0.25 == 0.05 * 0.25;
    if position >= 1 {
      var q := DynamicPrice(PricingInput(competitorPrice, Some(inventory), Some(demandScore), position as real), "default", Settings.Default, hour);
      DiscountIsLine(position as real, 0.3, 0.05, 0.3, 0.05);
      assert (q.baseDiscount - 0.3) * 0.25 == (0.05 - position as real) * 0.25;
      assert q.baseDiscount == 0.35 - position as real;
      var adj := Adjustment(q);
      assert adj > 0.0;
      assert q.baseDiscount / adj < 0.0 by {
        assert (q.baseDiscount / adj) * adj == q.baseDiscount;
      }
    }
  }
}
