/** Prices on the public event page (apps/web/src/features/event-detail/pricing.ts) and on the server
    (getEffectiveTierPrice in apps/api/src/modules/events/service.ts). Times are milliseconds. */
module Pricing {
  import opened Options

  /** A timestamp column or field: absent, present but unparseable, or an instant. */
  datatype Stamp = Absent | Unparseable | At(ms: int)

  type CategoryKey = int
  datatype Tier = Tier(basePrice: int, earlyBirdPrice: Option<int>, earlyBirdDeadline: Stamp, category: CategoryKey)

  predicate HasValidEarlyBirdOffer(t: Tier) {
    t.earlyBirdPrice.Some? && t.earlyBirdPrice.value < t.basePrice && t.earlyBirdDeadline.At?
  }

  function EffectivePrice(t: Tier, now: int): int {
    if !HasValidEarlyBirdOffer(t) then t.basePrice
    else if now >= t.earlyBirdDeadline.ms then t.basePrice
    else t.earlyBirdPrice.value
  }

  predicate IsEarlyBird(t: Tier, now: int) {
    EffectivePrice(t, now) != t.basePrice
  }

  function ServerPrice(t: Tier, asOf: int): int {
    if t.earlyBirdPrice.Some? && t.earlyBirdDeadline.At? && asOf <= t.earlyBirdDeadline.ms then t.earlyBirdPrice.value
    else t.basePrice
  }

  /** The table's check constraints on an early-bird offer. */
  predicate MeetsChecks(t: Tier) {
    && (t.earlyBirdPrice.Some? <==> t.earlyBirdDeadline.At?)
    && (t.earlyBirdPrice.None? <==> t.earlyBirdDeadline.Absent?)
    && (t.earlyBirdPrice.Some? ==> t.earlyBirdPrice.value < t.basePrice)
  }

  /** A stored offer is charged by the page up to its deadline, by the server up to and including it; otherwise the base price is. */
  lemma EarlyBirdUntilDeadline(t: Tier, now: int)
    requires MeetsChecks(t)
    ensures EffectivePrice(t, now) == if t.earlyBirdDeadline.At? && now < t.earlyBirdDeadline.ms then t.earlyBirdPrice.value else t.basePrice
    ensures ServerPrice(t, now) == if t.earlyBirdDeadline.At? && now <= t.earlyBirdDeadline.ms then t.earlyBirdPrice.value else t.basePrice
    ensures IsEarlyBird(t, now) <==> t.earlyBirdDeadline.At? && now < t.earlyBirdDeadline.ms
  {
  }

  /** Page and server charge the same at every instant except exactly the deadline. */
  lemma WebAndServerAgree(t: Tier, now: int)
    requires MeetsChecks(t)
    ensures EffectivePrice(t, now) == ServerPrice(t, now) <==> t.earlyBirdDeadline != At(now)
  {
  }

  datatype StartingPrice = StartingPrice(pricePaise: int, isEarlyBird: bool, category: CategoryKey)

  ghost predicate IsLowest(tiers: seq<Tier>, now: int, price: int) {
    && (exists i :: 0 <= i < |tiers| && EffectivePrice(tiers[i], now) == price)
    && (forall i :: 0 <= i < |tiers| ==> price <= EffectivePrice(tiers[i], now))
  }

  /** Tier k carries the starting price: the lowest, and among those the first that is not early-bird,
      or the first of all when every one of them is. */
  ghost predicate Carries(tiers: seq<Tier>, now: int, k: int) {
    && 0 <= k < |tiers|
    && (forall i :: 0 <= i < |tiers| ==> EffectivePrice(tiers[k], now) <= EffectivePrice(tiers[i], now))
    && (forall i :: 0 <= i < k && EffectivePrice(tiers[i], now) == EffectivePrice(tiers[k], now) ==>
          IsEarlyBird(tiers[i], now) && !IsEarlyBird(tiers[k], now))
    && (IsEarlyBird(tiers[k], now) ==>
          forall i :: 0 <= i < |tiers| && EffectivePrice(tiers[i], now) == EffectivePrice(tiers[k], now) ==> IsEarlyBird(tiers[i], now))
  }

  function PriceOf(t: Tier, now: int): StartingPrice {
    StartingPrice(EffectivePrice(t, now), IsEarlyBird(t, now), t.category)
  }

  method GetStartingPrice(tiers: seq<Tier>, now: int) returns (best: Option<StartingPrice>)
    ensures best.None? <==> tiers == []
    ensures best.Some? ==> exists k :: Carries(tiers, now, k) && best.value == PriceOf(tiers[k], now)
  {
    if |tiers| == 0 {
      return None;
    }
    best := None;
    ghost var k := 0;
    for n := 0 to |tiers|
      invariant best.None? <==> n == 0
      invariant best.Some? ==> Carries(tiers[..n], now, k) && best.value == PriceOf(tiers[k], now)
    {
      var tier := tiers[n];
      var pricePaise := EffectivePrice(tier, now);
      var isEarlyBird := pricePaise != tier.basePrice;
      assert forall i :: 0 <= i < n ==> tiers[..n + 1][i] == tiers[..n][i];
      if best.None? || pricePaise < best.value.pricePaise {
        best, k := Some(StartingPrice(pricePaise, isEarlyBird, tier.category)), n;
      } else if pricePaise == best.value.pricePaise && best.value.isEarlyBird && !isEarlyBird {
        best, k := Some(StartingPrice(pricePaise, isEarlyBird, tier.category)), n;
      }
    }
    assert tiers[..|tiers|] == tiers;
  }

  /** What the carried tier says: its price is the minimum, and it is early-bird exactly when every tier at the minimum is. */
  lemma CarriesLowest(tiers: seq<Tier>, now: int, k: int)
    requires Carries(tiers, now, k)
    ensures IsLowest(tiers, now, EffectivePrice(tiers[k], now))
    ensures IsEarlyBird(tiers[k], now) <==>
      forall i :: 0 <= i < |tiers| && EffectivePrice(tiers[i], now) == EffectivePrice(tiers[k], now) ==> IsEarlyBird(tiers[i], now)
  {
  }

  /** The starting price never falls as time passes. */
  lemma StartingPriceNeverFalls(tiers: seq<Tier>, now: int, later: int, p: int, q: int)
    requires now <= later && IsLowest(tiers, now, p) && IsLowest(tiers, later, q)
    ensures p <= q
  {
    var i :| 0 <= i < |tiers| && EffectivePrice(tiers[i], later) == q;
    assert EffectivePrice(tiers[i], now) <= q;
  }
}
