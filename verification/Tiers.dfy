/** The two tier schemes: which amounts a taker of a tier may serve. */
module Tiers {
  import opened Records
  import Packages

  datatype Scheme = CodeTiers | PackTiers

  const TIERS: seq<TierNumber> := [0, 1, 2]

  /** The range tables; None is an unbounded upper end. */
  function Range(scheme: Scheme, tier: TierNumber): (int, Option<int>) {
    match scheme
    case CodeTiers => (60, if tier == 0 then Some(325) else if tier == 1 then Some(1800) else Some(8100))
    case PackTiers => (60, if tier == 0 then Some(720) else if tier == 1 then Some(16200) else None)
  }

  predicate Fits(scheme: Scheme, tier: TierNumber, amount: int) {
    var (low, high) := Range(scheme, tier);
    low <= amount && (high.None? || amount <= high.value)
  }

  predicate Allows(scheme: Scheme, tier: TierNumber, amounts: seq<int>) {
    forall i :: 0 <= i < |amounts| ==> Fits(scheme, tier, amounts[i])
  }

  function AllowedPacks(tier: TierNumber): (sizes: set<nat>)
    ensures forall s :: s in sizes <==> s in Packages.SIZES_DESC && Fits(PackTiers, tier, s)
  {
    set s | s in Packages.SIZES_DESC && Fits(PackTiers, tier, s)
  }

  function RequiredFrom(scheme: Scheme, amounts: seq<int>, tiers: seq<TierNumber>): Option<TierNumber> {
    if tiers == [] then None
    else if Allows(scheme, tiers[0], amounts) then Some(tiers[0])
    else RequiredFrom(scheme, amounts, tiers[1..])
  }

  /** `TierScheme.required`: the first tier that allows all the amounts. */
  function Required(scheme: Scheme, amounts: seq<int>): Option<TierNumber> {
    RequiredFrom(scheme, amounts, TIERS)
  }

  function ServingFrom(scheme: Scheme, amounts: seq<int>, tiers: seq<TierNumber>): seq<TierNumber> {
    if tiers == [] then []
    else (if Allows(scheme, tiers[0], amounts) then [tiers[0]] else [])
         + ServingFrom(scheme, amounts, tiers[1..])
  }

  /** `TierScheme.serving`: every tier that allows all the amounts. */
  function Serving(scheme: Scheme, amounts: seq<int>): seq<TierNumber> {
    ServingFrom(scheme, amounts, TIERS)
  }

  /** The tables: what each tier takes of codes and of packages. */
  lemma RangesAre(tier: TierNumber, amount: int)
    ensures Allows(CodeTiers, tier, [amount]) <==>
      60 <= amount && (tier == 0 ==> amount <= 325) && (tier == 1 ==> amount <= 1800) && (tier == 2 ==> amount <= 8100)
    ensures Allows(PackTiers, tier, [amount]) <==>
      60 <= amount && (tier == 0 ==> amount <= 720) && (tier == 1 ==> amount <= 16200)
  {
    assert [amount][0] == amount;
  }

  /** Both tables are nested: a higher tier allows whatever a lower one does. */
  lemma TiersAreNested(scheme: Scheme, low: TierNumber, high: TierNumber, amounts: seq<int>)
    requires low <= high && Allows(scheme, low, amounts)
    ensures Allows(scheme, high, amounts)
  {
    forall i | 0 <= i < |amounts| ensures Fits(scheme, high, amounts[i]) {
      assert Fits(scheme, low, amounts[i]);
    }
  }

  /** `required` is a threshold: a tier allows the amounts exactly from it upwards. */
  lemma RequiredIsThreshold(scheme: Scheme, amounts: seq<int>, tier: TierNumber)
    ensures Allows(scheme, tier, amounts) <==>
      Required(scheme, amounts).Some? && Required(scheme, amounts).value <= tier
  {
    assert TIERS[1..] == [1, 2] && TIERS[1..][1..] == [2] && TIERS[1..][1..][1..] == [];
    forall low: TierNumber, high: TierNumber | low <= high && Allows(scheme, low, amounts)
      ensures Allows(scheme, high, amounts)
    {
      TiersAreNested(scheme, low, high, amounts);
    }
    if !Allows(scheme, 0, amounts) {
      assert Required(scheme, amounts) == RequiredFrom(scheme, amounts, TIERS[1..]);
      if !Allows(scheme, 1, amounts) {
        assert Required(scheme, amounts) == RequiredFrom(scheme, amounts, TIERS[1..][1..]);
        if !Allows(scheme, 2, amounts) {
          assert Required(scheme, amounts) == RequiredFrom(scheme, amounts, TIERS[1..][1..][1..]);
        }
      }
    }
  }

  lemma {:induction false} ServingFromMembers(
      scheme: Scheme, amounts: seq<int>, tiers: seq<TierNumber>, tier: TierNumber)
    ensures tier in ServingFrom(scheme, amounts, tiers) <==> tier in tiers && Allows(scheme, tier, amounts)
  {
    if tiers != [] {
      ServingFromMembers(scheme, amounts, tiers[1..], tier);
      assert tiers == [tiers[0]] + tiers[1..];
    }
  }

  /** `serving` is the upward-closed set of tiers above `required`. */
  lemma ServingIsUpwardClosed(scheme: Scheme, amounts: seq<int>, tier: TierNumber)
    ensures tier in Serving(scheme, amounts) <==>
      Required(scheme, amounts).Some? && Required(scheme, amounts).value <= tier
  {
    ServingFromMembers(scheme, amounts, TIERS, tier);
    RequiredIsThreshold(scheme, amounts, tier);
    assert tier in TIERS by {
      assert TIERS[0] == 0 && TIERS[1] == 1 && TIERS[2] == 2;
    }
  }
}
