/** The form in which a taker picks package sizes and types a price for each. */
module PriceEntry {
  import opened Records
  import opened Money
  import Sizes = Packages
  import Tiers

  datatype Parsed = Price(value: real) | NotANumber | OutOfRange

  /** `parse_price`. */
  function ParsePrice(raw: string, limit: real): Parsed {
    match ParseMoney(raw)
    case None => NotANumber
    case Some(value) => if value <= 0.0 || value > limit then OutOfRange else Price(value)
  }

  /** An accepted price is positive, within the cap, and exact in minor units. */
  lemma AcceptedPriceFits(raw: string, limit: real)
    ensures ParsePrice(raw, limit).Price? <==>
      ParseMoney(raw).Some? && 0.0 < ParseMoney(raw).value <= limit
    ensures ParsePrice(raw, limit).Price? ==> WholeCents(ParsePrice(raw, limit).value)
    ensures ParsePrice(raw, limit).Price? ==> Some(ParsePrice(raw, limit).value) == ParseMoney(raw)
    ensures ParsePrice(raw, limit) == NotANumber <==> ParseMoney(raw).None?
  {
    ParsedMoneyIsWholeCents(raw);
  }

  predicate Ascending(s: seq<nat>) {
    forall i, j :: 0 <= i < j < |s| ==> s[i] < s[j]
  }

  function InsertSize(x: nat, s: seq<nat>): (r: seq<nat>)
    requires Ascending(s) && x !in s
    ensures Ascending(r) && forall y :: y in r <==> y == x || y in s
  {
    if s == [] then [x]
    else if x < s[0] then [x] + s
    else
      var rest := InsertSize(x, s[1..]);
      assert s == [s[0]] + s[1..];
      assert forall i :: 0 <= i < |rest| ==> rest[i] in rest;
      [s[0]] + rest
  }

  /** `sorted` of a set of sizes. */
  method SortSizes(sizes: set<nat>) returns (s: seq<nat>)
    ensures Ascending(s) && forall x :: x in s <==> x in sizes
  {
    s := [];
    var rest := sizes;
    while rest != {}
      invariant rest <= sizes && Ascending(s)
      invariant forall x :: x in s <==> x in sizes && x !in rest
      decreases |rest|
    {
      var x :| x in rest;
      s := InsertSize(x, s);
      rest := rest - {x};
    }
  }

  datatype Screen = Packages | Prices | Finished

  /** A price as it was typed and the cap in force at that moment. */
  datatype Entry = Entry(price: real, cap: real)

  class PackForm {
    const tier: Option<TierNumber>
    var screen: Screen
    var selected: set<nat>
    var prices: map<nat, real>
    var queue: seq<nat>
    ghost var typed: map<nat, Entry>   // accepted since price entry last started

    /** `show_packages_grid`: the sizes already priced come selected. */
    constructor (tier: Option<TierNumber>, prices: map<nat, real>)
      ensures Valid() && this.tier == tier && screen == Packages && selected == prices.Keys
    {
      this.tier, this.prices := tier, prices;
      screen, selected, queue, typed := Packages, prices.Keys, [], map[];
    }

    predicate WithinTier(sizes: set<nat>): (within: bool)
      ensures within <==> (tier.Some? ==> forall s :: s in sizes ==>
        s in Sizes.SIZES_DESC && Tiers.Fits(Tiers.PackTiers, tier.value, s))
    {
      tier.Some? ==> forall s :: s in sizes ==> s in Tiers.AllowedPacks(tier.value)
    }

    ghost predicate TypedWell(size: nat)
      reads this
    {
      && size in typed && size in prices && prices[size] == typed[size].price
      && 0.0 < typed[size].price <= typed[size].cap && WholeCents(typed[size].price)
    }

    /**
     * While prices are asked for, every selected size is still in the queue or was typed since, and
     * nothing outside the tier is selected.
     */
    ghost predicate Valid()
      reads this
    {
      && (screen != Prices ==> queue == [])
      && (screen == Prices ==>
            && queue != [] && Ascending(queue) && WithinTier(selected)
            && (forall s :: s in queue ==> s in selected)
            && (forall s :: s in selected && s !in queue ==> TypedWell(s)))
      && (screen == Finished ==>
            && prices.Keys == selected && selected != {} && WithinTier(selected)
            && (forall s :: s in selected ==> TypedWell(s)))
    }

    /** `toggle_pack`; false when the tier does not allow the size. */
    method TogglePack(size: nat) returns (done: bool)
      requires Valid() && screen == Packages
      modifies `selected
      ensures Valid() && done ==
        (size in old(selected) || tier.None?
         || (size in Sizes.SIZES_DESC && Tiers.Fits(Tiers.PackTiers, tier.value, size)))
      ensures selected ==
        if !done then old(selected)
        else if size in old(selected) then old(selected) - {size} else old(selected) + {size}
    {
      if size !in selected && tier.Some? && size !in Tiers.AllowedPacks(tier.value) {
        return false;
      }
      selected := if size in selected then selected - {size} else selected + {size};
      return true;
    }

    /** `ensure_packages_selected`. */
    method EnsurePackagesSelected() returns (ready: bool)
      ensures ready == (selected != {} && WithinTier(selected))
    {
      if selected == {} {
        return false;
      }
      if tier.None? {
        return true;
      }
      var rest := selected;
      while rest != {}
        invariant rest <= selected && WithinTier(selected - rest)
        decreases |rest|
      {
        var size :| size in rest;
        if size !in Tiers.AllowedPacks(tier.value) {
          return false;
        }
        rest := rest - {size};
      }
      return true;
    }

    /** `start_price_entry`, which the handlers call once the selection is found ready. */
    method StartPriceEntry()
      requires Valid() && screen == Packages && selected != {} && WithinTier(selected)
      modifies `screen, `queue, `typed
      ensures Valid() && screen == Prices && forall s :: s in queue <==> s in selected
    {
      screen, typed := Prices, map[];
      queue := SortSizes(selected);
      var some :| some in selected;
      assert some in queue;
    }

    /** The `done` button of the grid. */
    method PackagesDone() returns (started: bool)
      requires Valid() && screen == Packages
      modifies `screen, `queue, `typed
      ensures Valid() && started == (old(selected) != {} && WithinTier(old(selected)))
      ensures screen == (if started then Prices else Packages)
      ensures started ==> forall s :: s in queue <==> s in selected
    {
      started := EnsurePackagesSelected();
      if started {
        StartPriceEntry();
      }
    }

    /** `cancel_pack`, from either screen; prices typed so far stay stored. */
    method CancelPack()
      requires Valid() && screen != Finished
      modifies `screen, `queue
      ensures Valid() && screen == Packages
    {
      screen, queue := Packages, [];
    }

    /** `submit_pack_price`; `limit` is the cap of the asked size at this moment. */
    method SubmitPackPrice(text: string, limit: real) returns (finished: bool)
      requires Valid() && screen != Finished
      modifies `screen, `queue, `prices, `typed
      ensures Valid()
      ensures
        var accepted := old(queue) != [] && ParsePrice(text, limit).Price?;
        && finished == (accepted && |old(queue)| == 1)
        && screen == (if finished then Finished else old(screen))
        && queue == (if accepted then old(queue)[1..] else old(queue))
        && (!accepted ==> prices == old(prices) && typed == old(typed))
        && (accepted ==> typed == old(typed)[old(queue)[0] := Entry(ParseMoney(text).value, limit)])
        && (accepted && !finished ==> prices == old(prices)[old(queue)[0] := ParsePrice(text, limit).value])
        && (accepted <==> old(queue) != [] && ParseMoney(text).Some? && 0.0 < ParseMoney(text).value <= limit)
        && (accepted ==> old(queue)[0] in prices && Some(prices[old(queue)[0]]) == ParseMoney(text))
        && (finished ==> selected == prices.Keys && WithinTier(selected))
        && (finished ==> forall s :: s in selected && s != old(queue)[0] ==> prices[s] == old(prices)[s])
        && (finished ==> forall s :: s in selected ==> 0.0 < prices[s] <= typed[s].cap && WholeCents(prices[s]))
    {
      if queue == [] {
        return false;
      }
      var size := queue[0];
      AcceptedPriceFits(text, limit);
      var parsed := ParsePrice(text, limit);
      if !parsed.Price? {
        return false;
      }
      Store(size, parsed.value, limit);
      var remaining := queue[1..];
      assert queue == [size] + remaining;
      if remaining != [] {
        queue := remaining;
        return false;
      }
      assert size in selected;
      prices := map s | s in selected && s in prices :: prices[s];
      queue, screen := [], Finished;
      return true;
    }

    /** Keep an accepted price. */
    method Store(size: nat, price: real, ghost cap: real)
      requires 0.0 < price <= cap && WholeCents(price)
      modifies `prices, `typed
      ensures prices == old(prices)[size := price] && typed == old(typed)[size := Entry(price, cap)]
      ensures TypedWell(size) && forall s :: s != size && old(TypedWell(s)) ==> TypedWell(s)
    {
      prices := prices[size := price];
      typed := typed[size := Entry(price, cap)];
    }
  }
}
