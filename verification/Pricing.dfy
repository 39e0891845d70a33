/** What a taker must offer to take an order, what it is shown, and what it is paid. */
module Pricing {
  import opened Records
  import opened Money
  import opened Packages
  import Tiers

  predicate Priced(prices: map<nat, real>, counts: PackCounts) {
    forall i :: 0 <= i < |counts| ==> counts[i].0 in prices
  }

  /** `full_price_for`. */
  function FullPrice(prices: map<nat, real>, counts: PackCounts): real
    requires Priced(prices, counts)
  {
    if counts == [] then 0.0
    else
      var last := counts[|counts| - 1];
      FullPrice(prices, counts[..|counts| - 1]) + prices[last.0] * last.1 as real
  }

  /** The full price is the sum of price times count: one pair is that product, and lists add up. */
  lemma FullPriceOfOne(prices: map<nat, real>, size: nat, count: nat)
    requires size in prices
    ensures FullPrice(prices, [(size, count)]) == prices[size] * count as real
  {
    var counts: PackCounts := [(size, count)];
    assert counts[..0] == [];
    assert FullPrice(prices, counts[..0]) == 0.0;
  }

  lemma {:induction false} FullPriceAdds(prices: map<nat, real>, a: PackCounts, b: PackCounts)
    requires Priced(prices, a) && Priced(prices, b)
    ensures Priced(prices, a + b) && FullPrice(prices, a + b) == FullPrice(prices, a) + FullPrice(prices, b)
  {
    if b == [] {
      assert a + b == a;
    } else {
      assert (a + b)[..|a + b| - 1] == a + b[..|b| - 1];
      FullPriceAdds(prices, a, b[..|b| - 1]);
    }
  }

  /** Prices that agree on the sizes of an order give it the same full price. */
  lemma {:induction false} SameFullPrice(prices: map<nat, real>, prices': map<nat, real>, counts: PackCounts)
    requires Priced(prices, counts) && Priced(prices', counts)
    requires forall i :: 0 <= i < |counts| ==> prices[counts[i].0] == prices'[counts[i].0]
    ensures FullPrice(prices, counts) == FullPrice(prices', counts)
  {
    if counts != [] {
      SameFullPrice(prices, prices', counts[..|counts| - 1]);
    }
  }

  function Sizes(counts: PackCounts): (sizes: seq<int>)
    ensures |sizes| == |counts| && forall i :: 0 <= i < |counts| ==> sizes[i] == counts[i].0
  {
    seq(|counts|, i requires 0 <= i < |counts| => counts[i].0)
  }

  function PricesOf(profile: Profile): map<nat, real> {
    if profile.prices.Some? then profile.prices.value else map[]
  }

  /** `validate_take` of the strategy for this kind of order; None is an OrderAmountError. */
  function ValidateTake(job: Job, profile: Profile): Option<bool> {
    if job.withCodes then
      Some(profile.withCodes && Tiers.Allows(Tiers.CodeTiers, profile.tier, job.codeAmounts))
    else
      match Decompose(job.amount)
      case None => None
      case Some(counts) =>
        Some(
          && Tiers.Allows(if profile.withCodes then Tiers.CodeTiers else Tiers.PackTiers, profile.tier, Sizes(counts))
          && PricesOf(profile) != map[]
          && Priced(PricesOf(profile), counts))
  }

  /** `taken_price`, called after `validate_take` succeeded. */
  function TakenPrice(job: Job, profile: Profile, codePrice: real): real
    requires ValidateTake(job, profile) == Some(true)
  {
    if job.withCodes then codePrice else FullPrice(PricesOf(profile), Decompose(job.amount).value)
  }

  /** The amount `on_complete` credits; None when it raises (bad amount, or a size without a price). */
  function CompletionAmount(job: Job, profile: Profile, codePrice: real): Option<real> {
    if job.withCodes then Some(codePrice)
    else
      match Decompose(job.amount)
      case None => None
      case Some(counts) =>
        if Priced(PricesOf(profile), counts) then Some(FullPrice(PricesOf(profile), counts)) else None
  }

  /** A taker whose profile does not change between take and completion is paid the price it took. */
  lemma PaidAsTaken(job: Job, profile: Profile, codePrice: real)
    requires ValidateTake(job, profile) == Some(true)
    ensures CompletionAmount(job, profile, codePrice) == Some(TakenPrice(job, profile, codePrice))
  {
  }

  /**
   * What a completion pays, for any tier, status, online flag and kind of work of the profile: the code price,
   * or the sum over the sizes; it raises for an undividable amount or a size without a price.
   */
  lemma CompletionPays(job: Job, profile: Profile, codePrice: real)
    ensures job.withCodes ==> CompletionAmount(job, profile, codePrice) == Some(codePrice)
    ensures !job.withCodes ==>
      var prices := if profile.prices.Some? then profile.prices.value else map[];
      match Decompose(job.amount)
      case None => CompletionAmount(job, profile, codePrice) == None
      case Some(counts) =>
        if forall i :: 0 <= i < |counts| ==> counts[i].0 in prices
        then CompletionAmount(job, profile, codePrice) == Some(FullPrice(prices, counts))
        else CompletionAmount(job, profile, codePrice) == None
  {
  }

  /** Two profiles with the same prices for the sizes of an order are paid the same for it. */
  lemma SamePricesSamePay(job: Job, profile: Profile, other: Profile, codePrice: real)
    requires !job.withCodes && Decompose(job.amount).Some? ==>
      forall i :: 0 <= i < |Decompose(job.amount).value| ==>
        var size := Decompose(job.amount).value[i].0;
        && (size in PricesOf(profile) <==> size in PricesOf(other))
        && (size in PricesOf(profile) ==> PricesOf(profile)[size] == PricesOf(other)[size])
    ensures CompletionAmount(job, profile, codePrice) == CompletionAmount(job, other, codePrice)
  {
    if !job.withCodes && Decompose(job.amount).Some? {
      var counts := Decompose(job.amount).value;
      if Priced(PricesOf(profile), counts) {
        SameFullPrice(PricesOf(profile), PricesOf(other), counts);
      }
    }
  }

  /** Dropping a needed size after the take makes the completion raise instead of paying. */
  lemma CompletionRaisesIff(job: Job, profile: Profile, codePrice: real)
    ensures CompletionAmount(job, profile, codePrice).None? <==>
      && !job.withCodes
      && (Decompose(job.amount).None?
          || exists i :: 0 <= i < |Decompose(job.amount).value|
              && Decompose(job.amount).value[i].0 !in PricesOf(profile))
  {
  }
}
