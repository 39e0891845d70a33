/** Who calls the online indexes: going online and offline, moderation, restart and backfill. */
module Presence {
  import opened Records
  import opened OnlineIndex
  import opened Packages
  import opened Pricing
  import Ranking
  import Tiers

  /** Whoever the code index holds is online, and was never synced at a tier above its last one. */
  ghost predicate Settled(
      profiles: map<UserId, Profile>, synced: map<UserId, Profile>, reached: map<UserId, TierNumber>)
  {
    TiersHeld(synced, reached) && forall u :: u in reached ==> u in profiles && profiles[u].online
  }

  /** Under its callers the code index offers only what may be taken. */
  lemma CodeOffersAreTakeable(
      profiles: map<UserId, Profile>, synced: map<UserId, Profile>, reached: map<UserId, TierNumber>,
      listed: map<UserId, Profile>, codes: ZSets, u: UserId)
    requires Routed(synced, reached, listed, codes) && Settled(profiles, synced, reached) && u in reached
    ensures OffersAreTakeable(codes, synced[u], u)
  {
    CodeOffersTakeableIff(synced, reached, listed, codes, u);
  }

  /**
   * Against the profile row, which moderation may change without a sync, the exact condition is that the
   * user still works with codes and at no lower tier than it went online with.
   */
  lemma CodeOffersFitProfileIff(
      profiles: map<UserId, Profile>, synced: map<UserId, Profile>, reached: map<UserId, TierNumber>,
      listed: map<UserId, Profile>, codes: ZSets, u: UserId)
    requires Routed(synced, reached, listed, codes) && Settled(profiles, synced, reached) && u in reached
    ensures OffersAreTakeable(codes, profiles[u], u) <==> profiles[u].withCodes && profiles[u].tier >= synced[u].tier
  {
    if profiles[u].withCodes && profiles[u].tier >= reached[u] {
      forall amount: int, amounts: seq<int> | u in Zunion(codes, Tiers.Serving(Tiers.CodeTiers, amounts))
        ensures ValidateTake(Job(true, amount, amounts), profiles[u]) == Some(true)
      {
        CodeCandidateIffReached(synced, reached, listed, codes, amounts, u);
        Tiers.TiersAreNested(Tiers.CodeTiers, reached[u], profiles[u].tier, amounts);
      }
    } else {
      var top := if !profiles[u].withCodes then 60 else if reached[u] == 2 then 8100 else 1800;
      var amounts: seq<int> := [top];
      assert Tiers.Allows(Tiers.CodeTiers, reached[u], amounts);
      assert profiles[u].withCodes ==> !Tiers.Fits(Tiers.CodeTiers, profiles[u].tier, amounts[0]);
      CodeCandidateIffReached(synced, reached, listed, codes, amounts, u);
      assert ValidateTake(Job(true, 0, amounts), profiles[u]) == Some(false);
    }
  }

  // ---- pack offers against the profile row ------------------------------------------------------

  /** Whatever pack order the index offers to the user, the profile may take it, at the price shown. */
  ghost predicate PackOffersStand(listed: map<UserId, Profile>, profile: Profile, u: UserId)
    requires u in listed
  {
    forall amount: int :: Decompose(amount).Some? && Ranking.Eligible(listed, Decompose(amount).value, {}, u) ==>
      var job := Job(false, amount, []);
      && !profile.withCodes && ValidateTake(job, profile) == Some(true)
      && TakenPrice(job, profile, 0.0) == FullPrice(PricesOf(listed[u]), Decompose(amount).value)
  }

  /** The size is still priced as before, and the tier still allows it. */
  predicate SizeStands(listed: Profile, profile: Profile, size: nat)
    requires size in PricesOf(listed)
  {
    && !profile.withCodes && Tiers.Fits(Tiers.PackTiers, profile.tier, size)
    && size in PricesOf(profile) && PricesOf(profile)[size] == PricesOf(listed)[size]
  }

  /** The sizes the index offers the user orders of. */
  ghost predicate OffersSize(listed: Profile, size: nat) {
    size in SIZES_DESC && size in PricesOf(listed) && Tiers.Fits(Tiers.PackTiers, listed.tier, size)
  }

  lemma OneSizeOffered(listed: map<UserId, Profile>, profile: Profile, u: UserId, size: nat)
    requires u in listed && PackOffersStand(listed, profile, u) && OffersSize(listed[u], size)
    ensures SizeStands(listed[u], profile, size)
  {
    OnePackage(size);
    var counts: PackCounts := [(size, 1)];
    assert Decompose(size).value == counts && counts[..0] == [];
    assert Ranking.Eligible(listed, counts, {}, u);
    assert ValidateTake(Job(false, size, []), profile) == Some(true);
    assert Priced(PricesOf(profile), counts) && Sizes(counts)[0] == size;
    assert FullPrice(PricesOf(listed[u]), counts) == PricesOf(listed[u])[size];
    assert FullPrice(PricesOf(profile), counts) == PricesOf(profile)[size];
  }

  lemma OfferStands(listed: map<UserId, Profile>, profile: Profile, u: UserId, amount: int)
    requires u in listed && forall size :: OffersSize(listed[u], size) ==> SizeStands(listed[u], profile, size)
    requires Decompose(amount).Some? && Ranking.Eligible(listed, Decompose(amount).value, {}, u)
    ensures
      var job := Job(false, amount, []);
      && !profile.withCodes && ValidateTake(job, profile) == Some(true)
      && TakenPrice(job, profile, 0.0) == FullPrice(PricesOf(listed[u]), Decompose(amount).value)
  {
    var counts := Decompose(amount).value;
    DecomposeSums(amount);
    forall i | 0 <= i < |counts| ensures SizeStands(listed[u], profile, counts[i].0) {
      assert Sizes(counts)[i] == counts[i].0;
      assert OffersSize(listed[u], counts[i].0);
    }
    assert SizeStands(listed[u], profile, counts[0].0);
    SameFullPrice(PricesOf(listed[u]), PricesOf(profile), counts);
  }

  /**
   * Pack offers stand against a profile row changed without a sync exactly when for every size the user is
   * offered the price is the same and the tier still allows it.
   */
  lemma PackOffersStandIff(listed: map<UserId, Profile>, profile: Profile, u: UserId)
    requires u in listed
    ensures PackOffersStand(listed, profile, u) <==>
      forall size :: OffersSize(listed[u], size) ==> SizeStands(listed[u], profile, size)
  {
    if PackOffersStand(listed, profile, u) {
      forall size | OffersSize(listed[u], size) ensures SizeStands(listed[u], profile, size) {
        OneSizeOffered(listed, profile, u, size);
      }
    }
    if forall size :: OffersSize(listed[u], size) ==> SizeStands(listed[u], profile, size) {
      forall amount: int | Decompose(amount).Some? && Ranking.Eligible(listed, Decompose(amount).value, {}, u)
        ensures
          var job := Job(false, amount, []);
          && !profile.withCodes && ValidateTake(job, profile) == Some(true)
          && TakenPrice(job, profile, 0.0) == FullPrice(PricesOf(listed[u]), Decompose(amount).value)
      {
        OfferStands(listed, profile, u, amount);
      }
    }
  }

  class ProfileDesk {
    var profiles: map<UserId, Profile>
    const router: OnlineIndexRouter

    constructor (router: OnlineIndexRouter)
      requires router.Valid() && router.synced == map[]
      ensures Valid() && this.router == router && profiles == map[]
    {
      this.router, profiles := router, map[];
    }

    ghost predicate Valid()
      reads this, router, router.pack, router.code
    {
      router.Valid() && Settled(profiles, router.synced, router.reached)
    }

    /** `toggle_online`: only active profiles get here; flip, then sync. */
    method ToggleOnline(user: UserId, now: int)
      requires Valid()
      modifies this, router, router.pack, router.code
      ensures Valid()
      ensures
        if user in old(profiles) && old(profiles)[user].status == Active then
          var flipped := old(profiles)[user].(online := !old(profiles)[user].online);
          profiles == old(profiles)[user := flipped] && router.synced == old(router.synced)[user := flipped]
        else
          profiles == old(profiles) && router.synced == old(router.synced)
    {
      if user !in profiles || profiles[user].status != Active {
        return;
      }
      var profile := profiles[user].(online := !profiles[user].online);
      profiles := profiles[user := profile];
      router.Sync(user, profile, now);
    }

    /** `approve`: the row alone; codes drop the prices. */
    method Approve(user: UserId, withCodes: bool, tier: TierNumber)
      requires Valid()
      modifies `profiles
      ensures Valid()
      ensures profiles ==
        if user in old(profiles) then
          old(profiles)[user :=
            Profile(Active, old(profiles)[user].online, withCodes, tier,
                    if withCodes then Some(map[]) else old(profiles)[user].prices)]
        else old(profiles)
    {
      if user in profiles {
        var profile := profiles[user];
        profiles := profiles[user :=
          Profile(Active, profile.online, withCodes, tier, if withCodes then Some(map[]) else profile.prices)];
      }
    }

    /** `set_status`, which blocks a user without touching the index. */
    method Block(user: UserId)
      requires Valid()
      modifies `profiles
      ensures Valid()
      ensures profiles ==
        if user in old(profiles) then old(profiles)[user := old(profiles)[user].(status := Banned)] else old(profiles)
    {
      if user in profiles {
        profiles := profiles[user := profiles[user].(status := Banned)];
      }
    }

    /** `set_prices`. */
    method SetPrices(user: UserId, prices: map<nat, real>)
      requires Valid()
      modifies `profiles
      ensures Valid()
      ensures profiles ==
        if user in old(profiles) then old(profiles)[user := old(profiles)[user].(prices := Some(prices))]
        else old(profiles)
    {
      if user in profiles {
        profiles := profiles[user := profiles[user].(prices := Some(prices))];
      }
    }

    /** Saving a form: the row is reset to inactive and offline, and the indexes forget the user. */
    method SaveProfile(user: UserId, withCodes: bool, prices: map<nat, real>)
      requires Valid()
      modifies this, router, router.pack, router.code
      ensures Valid() && router.synced == old(router.synced) - {user}
      ensures
        var tier := if user in old(profiles) then old(profiles)[user].tier else 0;
        profiles == old(profiles)[user := Profile(Inactive, false, withCodes, tier, Some(prices))]
    {
      var tier := if user in profiles then profiles[user].tier else 0;
      profiles := profiles[user := Profile(Inactive, false, withCodes, tier, Some(prices))];
      router.Remove(user);
    }

    /** `deactivate_and_notify`; it raises when the row is gone, before the indexes are touched. */
    method Deactivate(user: UserId) returns (raised: bool)
      requires Valid()
      modifies this, router, router.pack, router.code
      ensures Valid() && raised == (user !in old(profiles))
      ensures raised ==> profiles == old(profiles) && router.synced == old(router.synced)
      ensures !raised ==>
        && router.synced == old(router.synced) - {user}
        && profiles == old(profiles)[user := old(profiles)[user].(status := Inactive, online := false)]
    {
      raised := user !in profiles;
      if raised {
        return;
      }
      profiles := profiles[user := profiles[user].(status := Inactive, online := false)];
      router.Remove(user);
    }

    /** `#full_restart`. */
    method FullRestart(user: UserId)
      requires Valid()
      modifies this, router, router.pack, router.code
      ensures Valid() && profiles == old(profiles) - {user}
      ensures router.synced == if user in old(profiles) then old(router.synced) - {user} else old(router.synced)
    {
      if user in profiles {
        router.Remove(user);
        profiles := profiles - {user};
      }
    }

    /** Switching the bot off: everyone offline, indexes empty. */
    method SwitchOff()
      requires Valid()
      modifies this, router, router.pack, router.code
      ensures Valid() && router.synced == map[] && profiles.Keys == old(profiles).Keys
      ensures forall u :: u in profiles ==> profiles[u] == old(profiles)[u].(online := false)
    {
      profiles := map u | u in profiles :: profiles[u].(online := false);
      router.Clear();
    }

    /** The backfill script: clear, then sync the online profiles it lists, some perhaps twice. */
    method Backfill(users: seq<UserId>, now: int)
      requires Valid() && forall u :: u in users ==> u in profiles && profiles[u].online
      modifies router, router.pack, router.code
      ensures Valid() && router.synced.Keys == set u | u in users
      ensures forall u :: u in users ==> router.synced[u] == profiles[u]
    {
      router.Clear();
      for i := 0 to |users|
        invariant Valid() && router.synced.Keys == set u | u in users[..i]
        invariant forall u :: u in router.synced ==> u in profiles && router.synced[u] == profiles[u]
      {
        assert users[..i + 1] == users[..i] + [users[i]];
        router.Sync(users[i], profiles[users[i]], now);
      }
      assert users[..|users|] == users;
    }
  }

  /**
   * Two moderators approve the same code user, the second at a lower tier once the user is online: nothing
   * syncs, and the user is a candidate for codes it may not take.
   */
  method ApprovedAgainLower(desk: ProfileDesk, user: UserId, now: int)
    requires desk.Valid()
    modifies desk, desk.router, desk.router.pack, desk.router.code
    ensures desk.Valid() && user in desk.profiles && user in desk.router.synced
    ensures !OffersAreTakeable(desk.router.code.sets, desk.profiles[user], user)
  {
    desk.SaveProfile(user, true, map[]);
    desk.Approve(user, true, 2);
    desk.ToggleOnline(user, now);
    desk.Approve(user, true, 0);
    var router := desk.router;
    CodeOffersFitProfileIff(desk.profiles, router.synced, router.reached, router.pack.listed, router.code.sets, user);
  }

  /** A pack user of the lowest tier with one price goes online. */
  method PackUserOnline(desk: ProfileDesk, user: UserId, now: int)
    requires desk.Valid()
    modifies desk, desk.router, desk.router.pack, desk.router.code
    ensures desk.Valid() && user in desk.profiles && user in desk.router.synced
    ensures desk.router.synced[user] == Profile(Active, true, false, 0, Some(map[60 := 1.0]))
  {
    desk.SaveProfile(user, false, map[60 := 1.0]);
    desk.Approve(user, false, 0);
    desk.ToggleOnline(user, now);
  }

  /** A moderator changes a price of a pack user who is online: offers keep showing the old one. */
  method RepricedWhileOnline(desk: ProfileDesk, user: UserId, now: int)
    requires desk.Valid()
    modifies desk, desk.router, desk.router.pack, desk.router.code
    ensures desk.Valid() && user in desk.profiles && user in desk.router.pack.listed
    ensures !PackOffersStand(desk.router.pack.listed, desk.profiles[user], user)
  {
    PackUserOnline(desk, user, now);
    desk.SetPrices(user, map[60 := 2.0]);
    var listed := desk.router.pack.listed;
    assert listed[user] == desk.router.synced[user];
    assert OffersSize(listed[user], 60) && !SizeStands(listed[user], desk.profiles[user], 60);
    PackOffersStandIff(listed, desk.profiles[user], user);
  }

  /**
   * `sync` by itself does not promise this: synced at a lower tier without going offline in between, a
   * user stays a candidate for codes it may no longer take.
   */
  method LoweredWhileOnline(router: OnlineIndexRouter, user: UserId, now: int)
    requires router.Valid() && user !in router.reached
    modifies router, router.pack, router.code
    ensures router.Valid() && user in router.synced
    ensures !OffersAreTakeable(router.code.sets, router.synced[user], user)
  {
    var high := Profile(Active, true, true, 2, None);
    router.Sync(user, high, now);
    router.Sync(user, high.(tier := 0), now);
    CodeOffersTakeableIff(router.synced, router.reached, router.pack.listed, router.code.sets, user);
  }
}
