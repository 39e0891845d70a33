/** The ranking strategies: who is offered an order, in which order, and whether it may take it. */
module Ranking {
  import opened Records
  import opened Money
  import opened Packages
  import opened Pricing
  import opened Ordering
  import opened OnlineIndex
  import opened RatingWindow
  import Tiers

  // ---- the ranking of a set of candidates -----------------------------------------------

  /** `_refusal_rate`, as an exact fraction. */
  function RefusalRate(counts: Counts): real {
    var failures := counts.incomplete + counts.notTaken;
    var total := counts.complete + failures;
    if total == 0 then 0.0 else failures as real / total as real
  }

  /** `_pack_sort_key`; a missing speed ranks after every number. */
  function PackSortKey(row: Candidate, stats: Stats): seq<real> {
    (if stats.speed.None? then [1.0, 0.0] else [0.0, stats.speed.value as real])
    + [RefusalRate(stats.counts), -stats.counts.complete as real, row.fullPrice, row.user.key as real]
  }

  predicate Counted(c: Counts) { c.complete >= 0 && c.incomplete >= 0 && c.notTaken >= 0 }

  lemma FractionsCompare(a: int, b: int, c: int, d: int)
    requires b > 0 && d > 0
    ensures a as real / b as real < c as real / d as real <==> a * d < c * b
  {
    var x, y := a as real / b as real, c as real / d as real;
    assert x * b as real == a as real && y * d as real == c as real;
    assert (b as real) * (d as real) > 0.0;
    assert (a * d) as real == x * (b as real * d as real);
    assert (c * b) as real == y * (b as real * d as real);
    if x < y {
      assert x * (b as real * d as real) < y * (b as real * d as real);
    } else {
      assert y * (b as real * d as real) <= x * (b as real * d as real);
    }
  }

  lemma FractionIsPositive(a: int, b: int)
    requires b > 0 && a >= 0
    ensures a as real / b as real >= 0.0 && (a as real / b as real > 0.0 <==> a > 0)
  {
    FractionsCompare(0, 1, a, b);
  }

  lemma RateIsPositive(c: Counts)
    requires Counted(c)
    ensures RefusalRate(c) >= 0.0 && (RefusalRate(c) > 0.0 <==> c.incomplete + c.notTaken > 0)
  {
    if c.complete + c.incomplete + c.notTaken > 0 {
      FractionIsPositive(c.incomplete + c.notTaken, c.complete + c.incomplete + c.notTaken);
    }
  }

  /** Refusal rates compare as exact fractions do, without dividing; nothing done counts as nothing refused. */
  lemma RefusalRatesCompare(a: Counts, b: Counts)
    requires Counted(a) && Counted(b)
    ensures
      var fa, fb := a.incomplete + a.notTaken, b.incomplete + b.notTaken;
      RefusalRate(a) < RefusalRate(b) <==>
        if a.complete + fa == 0 then fb > 0 else fa * (b.complete + fb) < fb * (a.complete + fa)
  {
    var fa, fb := a.incomplete + a.notTaken, b.incomplete + b.notTaken;
    var ta, tb := a.complete + fa, b.complete + fb;
    if ta > 0 && tb > 0 {
      FractionsCompare(fa, ta, fb, tb);
    } else {
      RateIsPositive(a);
      RateIsPositive(b);
      IdleProducts(fa, ta, fb, tb);
    }
  }

  lemma IdleProducts(fa: int, ta: int, fb: int, tb: int)
    requires tb == 0 ==> fb == 0
    ensures tb == 0 ==> fa * tb == 0 && fb * ta == 0
  {
  }

  /**
   * The sort key orders candidates by exactly these preferences, in this priority: the faster, then the one
   * refusing less, with more completed, cheaper, older by id.
   */
  lemma KeyOrderIsPreference(a: Candidate, sa: Stats, b: Candidate, sb: Stats)
    requires Counted(sa.counts) && Counted(sb.counts)
    ensures
      var faster := sa.speed.Some? && (sb.speed.None? || sa.speed.value < sb.speed.value);
      var slower := sb.speed.Some? && (sa.speed.None? || sb.speed.value < sa.speed.value);
      var fa, fb := sa.counts.incomplete + sa.counts.notTaken, sb.counts.incomplete + sb.counts.notTaken;
      var ta, tb := sa.counts.complete + fa, sb.counts.complete + fb;
      var refusesLess := if ta == 0 then fb > 0 else fa * tb < fb * ta;
      var refusesMore := if tb == 0 then fa > 0 else fb * ta < fa * tb;
      Less(PackSortKey(a, sa), PackSortKey(b, sb)) <==>
        || faster
        || (!slower && refusesLess)
        || (!slower && !refusesMore && sa.counts.complete > sb.counts.complete)
        || (!slower && !refusesMore && sa.counts.complete == sb.counts.complete && a.fullPrice < b.fullPrice)
        || (!slower && !refusesMore && sa.counts.complete == sb.counts.complete && a.fullPrice == b.fullPrice
            && a.user.key < b.user.key)
  {
    var ka, kb := PackSortKey(a, sa), PackSortKey(b, sb);
    RefusalRatesCompare(sa.counts, sb.counts);
    RefusalRatesCompare(sb.counts, sa.counts);
    TailOfKeys(ka, kb, 5);
    TailOfKeys(ka, kb, 4);
    TailOfKeys(ka, kb, 3);
    TailOfKeys(ka, kb, 2);
    TailOfKeys(ka, kb, 1);
    TailOfKeys(ka, kb, 0);
    assert ka[0..] == ka && kb[0..] == kb && ka[6..] == [] && kb[6..] == [];
  }

  /**
   * Whoever completed each of its newest orders sooner than the other completed any comes first, whatever the
   * rest of their ratings and prices.
   */
  lemma SoonerComesFirst(
      history: map<UserId, seq<Sample>>, counts: map<UserId, Counts>, window: Window, a: Candidate, b: Candidate,
      most: int)
    requires a.user in history && history[a.user] != []
    requires forall i :: 0 <= i < |First(NewestFirst(history[a.user]), window)| ==>
      var sample := First(NewestFirst(history[a.user]), window)[i];
      sample.closed - sample.taken <= most
    requires b.user in history ==> forall i :: 0 <= i < |First(NewestFirst(history[b.user]), window)| ==>
      var sample := First(NewestFirst(history[b.user]), window)[i];
      sample.closed - sample.taken > most
    ensures
      Less(PackSortKey(a, StatsOf(history, counts, window, a.user)),
           PackSortKey(b, StatsOf(history, counts, window, b.user)))
  {
    var ka := PackSortKey(a, StatsOf(history, counts, window, a.user));
    var kb := PackSortKey(b, StatsOf(history, counts, window, b.user));
    AtMost(First(NewestFirst(history[a.user]), window), most);
    if b.user in history && history[b.user] != [] {
      AtLeast(First(NewestFirst(history[b.user]), window), most + 1);
    }
    TailOfKeys(ka, kb, 1);
    TailOfKeys(ka, kb, 0);
    assert ka[0..] == ka && kb[0..] == kb;
  }

  lemma AtMost(samples: seq<Sample>, most: int)
    requires samples != [] && forall i :: 0 <= i < |samples| ==> samples[i].closed - samples[i].taken <= most
    ensures MeanSpeed(samples).value <= most
  {
    var least := Least(samples);
    MeanWithin(samples, least, most);
  }

  lemma AtLeast(samples: seq<Sample>, least: int)
    requires samples != [] && forall i :: 0 <= i < |samples| ==> samples[i].closed - samples[i].taken >= least
    ensures MeanSpeed(samples).value >= least
  {
    var most := Most(samples);
    MeanWithin(samples, least, most);
  }

  function Least(samples: seq<Sample>): (least: int)
    ensures forall i :: 0 <= i < |samples| ==> least <= samples[i].closed - samples[i].taken
  {
    if samples == [] then 0
    else
      var rest, last := Least(samples[..|samples| - 1]), samples[|samples| - 1];
      if rest <= last.closed - last.taken then rest else last.closed - last.taken
  }

  function Most(samples: seq<Sample>): (most: int)
    ensures forall i :: 0 <= i < |samples| ==> samples[i].closed - samples[i].taken <= most
  {
    if samples == [] then 0
    else
      var rest, last := Most(samples[..|samples| - 1]), samples[|samples| - 1];
      if rest >= last.closed - last.taken then rest else last.closed - last.taken
  }

  lemma TailOfKeys(a: seq<real>, b: seq<real>, i: nat)
    requires i < |a| && i < |b|
    ensures Less(a[i..], b[i..]) <==> a[i] < b[i] || (a[i] == b[i] && Less(a[i + 1..], b[i + 1..]))
  {
    assert a[i..] == [a[i]] + a[i + 1..] && b[i..] == [b[i]] + b[i + 1..];
    LessStep(a[i], a[i + 1..], b[i], b[i + 1..]);
  }

  function KeyFrom(stats: UserId -> Stats): Candidate -> seq<real> {
    (row: Candidate) => PackSortKey(row, stats(row.user))
  }

  function MinPrice(rows: seq<Candidate>): (least: real)
    requires rows != []
    ensures forall i :: 0 <= i < |rows| ==> least <= rows[i].fullPrice
    ensures exists i :: 0 <= i < |rows| && rows[i].fullPrice == least
  {
    if |rows| == 1 then rows[0].fullPrice
    else
      var rest := MinPrice(rows[1..]);
      assert forall i :: 0 <= i < |rows| - 1 ==> rows[1..][i] == rows[i + 1];
      if rows[0].fullPrice <= rest then rows[0].fullPrice else rest
  }

  /** Nobody among the rows is cheaper by more than 1%. */
  ghost predicate WithinOnePercent(c: Candidate, rows: seq<Candidate>) {
    forall d :: d in rows ==> c.fullPrice <= d.fullPrice * 1.01
  }

  ghost predicate DistinctUsers(rows: seq<Candidate>) {
    forall i, j :: 0 <= i < j < |rows| ==> rows[i].user != rows[j].user
  }

  /** The strictly sorted arrangement of exactly the rows within 1% of the cheapest one. */
  ghost predicate IsRanking(ranked: seq<Candidate>, rows: seq<Candidate>, stats: UserId -> Stats) {
    && Sorted(ranked, KeyFrom(stats))
    && forall c :: c in ranked <==> c in rows && WithinOnePercent(c, rows)
  }

  /** `_cheapest_price_bucket`. */
  method CheapestPriceBucket(rows: seq<Candidate>) returns (bucket: seq<Candidate>)
    requires rows != [] && DistinctUsers(rows)
    ensures DistinctUsers(bucket) && forall c :: c in bucket <==> c in rows && WithinOnePercent(c, rows)
  {
    var threshold := MinPrice(rows) * 1.01;
    bucket := [];
    for i := 0 to |rows|
      invariant DistinctUsers(bucket)
      invariant forall c :: c in bucket <==> c in rows[..i] && c.fullPrice <= threshold
    {
      assert rows[..i + 1] == rows[..i] + [rows[i]];
      if rows[i].fullPrice <= threshold {
        forall c | c in bucket ensures c.user != rows[i].user {
          var j :| 0 <= j < i && rows[..i][j] == c;
          assert rows[j] == c;
        }
        bucket := bucket + [rows[i]];
      }
    }
    assert rows[..|rows|] == rows;
    ThresholdIsOnePercent(rows);
  }

  lemma ThresholdIsOnePercent(rows: seq<Candidate>)
    requires rows != []
    ensures forall c :: c in rows ==> (c.fullPrice <= MinPrice(rows) * 1.01 <==> WithinOnePercent(c, rows))
  {
    var least := MinPrice(rows);
    var k :| 0 <= k < |rows| && rows[k].fullPrice == least;
    assert rows[k] in rows;
    forall d | d in rows ensures least * 1.01 <= d.fullPrice * 1.01 {
    }
  }

  lemma KeyHasId(row: Candidate, stats: UserId -> Stats)
    ensures |KeyFrom(stats)(row)| == 6 && KeyFrom(stats)(row)[5] == row.user.key as real
  {
    var key := PackSortKey(row, stats(row.user));
    assert KeyFrom(stats)(row) == key;
    assert |key| == 6 && key[5] == row.user.key as real;
  }

  lemma KeysDiffer(rows: seq<Candidate>, stats: UserId -> Stats)
    requires DistinctUsers(rows)
    ensures DistinctKeys(rows, KeyFrom(stats))
  {
    forall i, j | 0 <= i < j < |rows| ensures KeyFrom(stats)(rows[i]) != KeyFrom(stats)(rows[j]) {
      KeyHasId(rows[i], stats);
      KeyHasId(rows[j], stats);
      assert rows[i].user.key != rows[j].user.key;
    }
  }

  /** The ranking does not depend on the order the rows came in. */
  lemma RankingIsUnique(
      a: seq<Candidate>, b: seq<Candidate>, rows: seq<Candidate>, rows': seq<Candidate>, stats: UserId -> Stats)
    requires IsRanking(a, rows, stats) && IsRanking(b, rows', stats) && SameElements(rows, rows')
    ensures a == b
  {
    SortedIsUnique(a, b, KeyFrom(stats));
  }

  /** While the cheapest price is not negative, someone is ranked whenever there is anyone to rank. */
  lemma RankingIsEmptyIff(ranked: seq<Candidate>, rows: seq<Candidate>, stats: UserId -> Stats)
    requires IsRanking(ranked, rows, stats)
    ensures ranked == [] <==> rows == [] || MinPrice(rows) < 0.0
  {
    if rows != [] {
      ThresholdIsOnePercent(rows);
      var k :| 0 <= k < |rows| && rows[k].fullPrice == MinPrice(rows);
      assert rows[k] in rows;
      if MinPrice(rows) >= 0.0 {
        assert rows[k] in ranked;
      }
    }
    EmptyOrInhabited(ranked);
    EmptyOrInhabited(rows);
  }

  // ---- who is eligible, by a plain scan ---------------------------------------------------

  /** Online, priced for every size, not excluded, and of a tier that allows the sizes. */
  ghost predicate Eligible(listed: map<UserId, Profile>, counts: PackCounts, excluded: set<UserId>, u: UserId) {
    && Scanned(listed, counts, u)
    && u !in excluded
    && Tiers.Allows(Tiers.PackTiers, listed[u].tier, Sizes(counts))
  }

  ghost predicate EligibleRow(listed: map<UserId, Profile>, counts: PackCounts, excluded: set<UserId>, c: Candidate) {
    && Eligible(listed, counts, excluded, c.user)
    && c.fullPrice == FromMinorUnits(UnitsPrice(PricesOf(listed[c.user]), counts))
  }

  /** Said out: listed, not excluded, with a price for every size and a tier that allows every size. */
  lemma EligibleIff(listed: map<UserId, Profile>, counts: PackCounts, excluded: set<UserId>, u: UserId)
    requires counts != []
    ensures Eligible(listed, counts, excluded, u) <==>
      && u in listed && u !in excluded && listed[u].prices.Some?
      && forall i :: 0 <= i < |counts| ==>
           counts[i].0 in listed[u].prices.value && Tiers.Fits(Tiers.PackTiers, listed[u].tier, counts[i].0)
  {
    if u in listed {
      forall i | 0 <= i < |counts| ensures Sizes(counts)[i] == counts[i].0 {
      }
      if Priced(PricesOf(listed[u]), counts) {
        assert counts[0].0 in PricesOf(listed[u]);
      }
    }
  }

  /** What `select_candidates` is to return, said without index, caches or loops. */
  ghost predicate IsSelection(
      result: seq<Candidate>, listed: map<UserId, Profile>, stats: UserId -> Stats, counts: PackCounts,
      excluded: set<UserId>)
  {
    && Sorted(result, KeyFrom(stats))
    && forall c :: c in result <==>
         && EligibleRow(listed, counts, excluded, c)
         && forall d :: EligibleRow(listed, counts, excluded, d) ==> c.fullPrice <= d.fullPrice * 1.01
  }

  /** Ranking the eligible rows, by whatever table holds their ratings, is a selection. */
  lemma RankingIsSelection(
      ranked: seq<Candidate>, rows: seq<Candidate>, table: UserId -> Stats, listed: map<UserId, Profile>,
      stats: UserId -> Stats, counts: PackCounts, excluded: set<UserId>)
    requires IsRanking(ranked, rows, table) && forall c :: c in rows <==> EligibleRow(listed, counts, excluded, c)
    requires forall c :: c in ranked ==> table(c.user) == stats(c.user)
    ensures IsSelection(ranked, listed, stats, counts, excluded)
  {
    forall i, j | 0 <= i < j < |ranked| ensures Less(KeyFrom(stats)(ranked[i]), KeyFrom(stats)(ranked[j])) {
      assert ranked[i] in ranked && ranked[j] in ranked;
      assert Less(KeyFrom(table)(ranked[i]), KeyFrom(table)(ranked[j]));
    }
  }

  /** So among the selected, whoever always was sooner than the other ever was is asked first. */
  lemma SoonerIsAskedFirst(
      result: seq<Candidate>, listed: map<UserId, Profile>, history: map<UserId, seq<Sample>>,
      counts: map<UserId, Counts>, window: Window, packs: PackCounts, excluded: set<UserId>, i: nat, j: nat, most: int)
    requires IsSelection(result, listed, u => StatsOf(history, counts, window, u), packs, excluded)
    requires i < |result| && j < |result|
    requires result[i].user in history && history[result[i].user] != []
    requires forall k :: 0 <= k < |First(NewestFirst(history[result[i].user]), window)| ==>
      var sample := First(NewestFirst(history[result[i].user]), window)[k];
      sample.closed - sample.taken <= most
    requires result[j].user in history ==>
      forall k :: 0 <= k < |First(NewestFirst(history[result[j].user]), window)| ==>
      var sample := First(NewestFirst(history[result[j].user]), window)[k];
      sample.closed - sample.taken > most
    ensures i < j
  {
    var key := KeyFrom(u => StatsOf(history, counts, window, u));
    SoonerComesFirst(history, counts, window, result[i], result[j], most);
    var sooner, later := key(result[i]), key(result[j]);
    assert Less(sooner, later);
    LessTotal(sooner, later);
    assert j < i ==> Less(later, sooner);
  }

  /** Any two correct selections are the same list, so caches cannot show in the result. */
  lemma SelectionIsUnique(
      a: seq<Candidate>, b: seq<Candidate>, listed: map<UserId, Profile>, stats: UserId -> Stats, counts: PackCounts,
      excluded: set<UserId>)
    requires IsSelection(a, listed, stats, counts, excluded) && IsSelection(b, listed, stats, counts, excluded)
    ensures a == b
  {
    assert SameElements(a, b);
    SortedIsUnique(a, b, KeyFrom(stats));
  }

  /**
   * The tier filter, skipped when the lowest tier suffices, keeps exactly the tiers that allow the sizes.
   * The unbounded top tier makes `required` defined for every decomposed amount.
   */
  lemma TierFilterIsAllows(counts: PackCounts, tier: TierNumber)
    requires forall i :: 0 <= i < |counts| ==> counts[i].0 in SIZES_DESC
    ensures
      var required := Tiers.Required(Tiers.PackTiers, Sizes(counts));
      && required.Some?
      && ((required.value <= 0 || tier >= required.value) <==> Tiers.Allows(Tiers.PackTiers, tier, Sizes(counts)))
  {
    assert Tiers.Allows(Tiers.PackTiers, 2, Sizes(counts));
    Tiers.RequiredIsThreshold(Tiers.PackTiers, Sizes(counts), 2);
    Tiers.RequiredIsThreshold(Tiers.PackTiers, Sizes(counts), tier);
  }

  /** Whoever is offered a pack order can take it, and at the price it was shown. */
  lemma OfferIsTakeable(
      listed: map<UserId, Profile>, job: Job, excluded: set<UserId>, c: Candidate, codePrice: real)
    requires !job.withCodes && Decompose(job.amount).Some?
    requires EligibleRow(listed, Decompose(job.amount).value, excluded, c)
    requires !listed[c.user].withCodes
    ensures ValidateTake(job, listed[c.user]) == Some(true)
    ensures WholeCentPrices(PricesOf(listed[c.user])) ==> TakenPrice(job, listed[c.user], codePrice) == c.fullPrice
  {
    var counts := Decompose(job.amount).value;
    DecomposeSums(job.amount);
    assert counts[0].0 in PricesOf(listed[c.user]);
    if WholeCentPrices(PricesOf(listed[c.user])) {
      UnitsPriceIsFullPrice(PricesOf(listed[c.user]), counts);
    }
  }

  // ---- pack orders: the strategy with its sweep caches ----------------------------------------

  /** The table holds current ratings. */
  ghost predicate Agrees(table: map<UserId, Stats>, stats: UserId -> Stats) {
    forall u :: u in table ==> table[u] == stats(u)
  }

  class PackRanking {
    const index: PackOnlineIndex
    const rating: RatingRepository
    var futures: Option<map<PackCounts, seq<Candidate>>>
    var ratingCache: Option<map<UserId, Stats>>

    constructor (index: PackOnlineIndex, rating: RatingRepository)
      requires index.Valid() && rating.Valid()
      ensures Valid() && this.index == index && this.rating == rating && futures.None? && ratingCache.None?
    {
      this.index, this.rating := index, rating;
      futures, ratingCache := None, None;
    }

    ghost function StatsNow(): UserId -> Stats
      reads rating
    {
      var history, counts, window := rating.history, rating.counts, rating.window;
      u => StatsOf(history, counts, window, u)
    }

    /** Whatever is cached is what the index and the ratings would answer now. */
    ghost predicate Valid()
      reads this, index, rating
    {
      && index.Valid() && rating.Valid()
      && (futures.Some? ==>
            forall counts :: counts in futures.value ==> IsFetch(futures.value[counts], index.listed, counts))
      && (ratingCache.Some? ==> Agrees(ratingCache.value, StatsNow()))
    }

    /** `begin_sweep`. */
    method BeginSweep()
      requires index.Valid() && rating.Valid()
      modifies this
      ensures Valid() && futures == Some(map[]) && ratingCache == Some(map[])
    {
      futures, ratingCache := Some(map[]), Some(map[]);
    }

    /** `end_sweep`. */
    method EndSweep()
      requires index.Valid() && rating.Valid()
      modifies this
      ensures Valid() && futures.None? && ratingCache.None?
    {
      futures, ratingCache := None, None;
    }

    /** `_SweepCache.fetch` around `get_cheapest_candidates`. */
    method Fetch(counts: PackCounts) returns (rows: seq<Candidate>)
      requires Valid() && KnownSizes(counts)
      modifies `futures
      ensures Valid() && IsFetch(rows, index.listed, counts)
    {
      if futures.None? {
        rows := index.GetCheapestCandidates(counts);
      } else if counts in futures.value {
        rows := futures.value[counts];
      } else {
        rows := index.GetCheapestCandidates(counts);
        futures := Some(futures.value[counts := rows]);
      }
    }

    method Load(users: seq<UserId>) returns (stats: map<UserId, Stats>)
      requires rating.Valid()
      ensures (forall u :: u in stats <==> u in users) && Agrees(stats, StatsNow())
    {
      stats := rating.GetMany(users);
    }

    /** `_rating_stats`. */
    method RatingStats(users: seq<UserId>) returns (stats: map<UserId, Stats>)
      requires Valid()
      modifies `ratingCache
      ensures Valid() && (forall u :: u in stats <==> u in users) && Agrees(stats, StatsNow())
    {
      if ratingCache.None? {
        stats := Load(users);
        return;
      }
      var cache := ratingCache.value;
      var missing := Missing(users, cache);
      if missing != [] {
        var loaded := Load(missing);
        cache := cache + loaded;
      }
      ratingCache := Some(cache);
      stats := map u | u in users :: cache[u];
    }

    /** `_apply_tier_filter`. */
    method ApplyTierFilter(rows: seq<Candidate>, counts: PackCounts) returns (kept: seq<Candidate>)
      requires index.Valid() && KnownSizes(counts) && DistinctUsers(rows)
      requires forall c :: c in rows ==> c.user in index.listed
      ensures DistinctUsers(kept)
      ensures forall c :: c in kept <==>
        c in rows && Tiers.Allows(Tiers.PackTiers, index.listed[c.user].tier, Sizes(counts))
    {
      forall c | c in rows
        ensures
          var required := Tiers.Required(Tiers.PackTiers, Sizes(counts));
          && required.Some?
          && ((required.value <= 0 || index.listed[c.user].tier >= required.value)
              <==> Tiers.Allows(Tiers.PackTiers, index.listed[c.user].tier, Sizes(counts)))
      {
        TierFilterIsAllows(counts, index.listed[c.user].tier);
      }
      var required := Tiers.Required(Tiers.PackTiers, Sizes(counts));
      if rows == [] || required.None? || required.value <= 0 {
        return rows;
      }
      var users := UsersOf(rows);
      var allowed := index.FilterByMinTier(users, required.value);
      kept := Keep(rows, allowed);
    }

    /** `select_candidates`; None stands for the OrderAmountError. */
    method SelectCandidates(amount: int, excluded: set<UserId>) returns (result: Option<seq<Candidate>>)
      requires Valid()
      modifies this
      ensures Valid() && (result.None? <==> Decompose(amount).None?)
      ensures result.Some? ==>
        IsSelection(result.value, index.listed, StatsNow(), Decompose(amount).value, excluded)
    {
      var decomposition := DecomposeAmount(amount);
      if decomposition.None? {
        return None;
      }
      var counts := decomposition.value;
      DecomposeSums(amount);
      var rows := EligibleRows(counts, excluded);
      if rows == [] {
        return Some([]);
      }
      var ranked := Rank(rows, counts, excluded);
      return Some(ranked);
    }

    /** The filters of `select_candidates`, applied to the cached fetch. */
    method EligibleRows(counts: PackCounts, excluded: set<UserId>) returns (rows: seq<Candidate>)
      requires Valid() && KnownSizes(counts) && counts != []
      modifies `futures
      ensures Valid() && DistinctUsers(rows)
      ensures forall c :: c in rows <==> EligibleRow(index.listed, counts, excluded, c)
    {
      rows := Fetch(counts);
      rows := Without(rows, excluded);
      rows := ApplyTierFilter(rows, counts);
    }

    /** The rest of it: the bucket, its ratings and the sort. */
    method Rank(rows: seq<Candidate>, ghost counts: PackCounts, ghost excluded: set<UserId>)
      returns (ranked: seq<Candidate>)
      requires Valid() && rows != [] && DistinctUsers(rows)
      requires forall c :: c in rows <==> EligibleRow(index.listed, counts, excluded, c)
      modifies `ratingCache
      ensures Valid() && IsSelection(ranked, index.listed, StatsNow(), counts, excluded)
    {
      var bucket := CheapestPriceBucket(rows);
      var users := UsersOf(bucket);
      var stats := RatingStats(users);
      ranked := SortRows(bucket, stats);
      forall c | c in ranked ensures Lookup(stats)(c.user) == StatsNow()(c.user) {
        var i :| 0 <= i < |bucket| && bucket[i] == c;
        assert users[i] == c.user;
      }
      RankingIsSelection(ranked, rows, Lookup(stats), index.listed, StatsNow(), counts, excluded);
    }
  }

  /** `bucket.sort`. */
  method SortRows(bucket: seq<Candidate>, stats: map<UserId, Stats>) returns (ranked: seq<Candidate>)
    requires DistinctUsers(bucket)
    ensures Sorted(ranked, KeyFrom(Lookup(stats))) && forall c :: c in ranked <==> c in bucket
  {
    var key := KeyFrom(Lookup(stats));
    KeysDiffer(bucket, Lookup(stats));
    SortSorted(bucket, key);
    SortElements(bucket, key);
    ranked := Sort(bucket, key);
  }

  function Lookup(stats: map<UserId, Stats>): UserId -> Stats {
    u => if u in stats then stats[u] else Stats(None, Counts(0, 0, 0))
  }

  function UsersOf(rows: seq<Candidate>): (users: seq<UserId>)
    ensures |users| == |rows| && forall i :: 0 <= i < |rows| ==> users[i] == rows[i].user
  {
    seq(|rows|, i requires 0 <= i < |rows| => rows[i].user)
  }

  function Missing(users: seq<UserId>, cache: map<UserId, Stats>): (missing: seq<UserId>)
    ensures forall u :: u in missing <==> u in users && u !in cache
  {
    if users == [] then []
    else (if users[0] in cache then [] else [users[0]]) + Missing(users[1..], cache)
  }

  function Keep(rows: seq<Candidate>, allowed: set<UserId>): (kept: seq<Candidate>)
    ensures forall c :: c in kept <==> c in rows && c.user in allowed
    ensures DistinctUsers(rows) ==> DistinctUsers(kept)
  {
    if rows == [] then []
    else (if rows[0].user in allowed then [rows[0]] else []) + Keep(rows[1..], allowed)
  }

  function Without(rows: seq<Candidate>, excluded: set<UserId>): (kept: seq<Candidate>)
    ensures forall c :: c in kept <==> c in rows && c.user !in excluded
    ensures DistinctUsers(rows) ==> DistinctUsers(kept)
  {
    if rows == [] then []
    else (if rows[0].user in excluded then [] else [rows[0]]) + Without(rows[1..], excluded)
  }

  // ---- the code strategy ------------------------------------------------------------------

  /** The users online at one of the tiers, longest online first. */
  ghost predicate IsQueue(users: seq<UserId>, sets: ZSets, tiers: seq<TierNumber>) {
    && Sorted(users, QueueKey(Zunion(sets, tiers)))
    && forall u :: u in users <==> u in Zunion(sets, tiers)
  }

  /** What the code strategy's `select_candidates` is to return: the queue without the excluded users. */
  ghost predicate IsCodeSelection(
      result: seq<Candidate>, sets: ZSets, tiers: seq<TierNumber>, excluded: set<UserId>, price: real)
  {
    && Sorted(UsersOf(result), QueueKey(Zunion(sets, tiers)))
    && forall c :: c in result <==> c.user in Zunion(sets, tiers) && c.user !in excluded && c.fullPrice == price
  }

  lemma PricedOnce(rows: seq<Candidate>, price: real)
    requires forall c :: c in rows ==> c.fullPrice == price
    ensures |rows| == |UsersOf(rows)| && forall i :: 0 <= i < |rows| ==> rows[i] == Candidate(UsersOf(rows)[i], price)
  {
    forall i | 0 <= i < |rows| ensures rows[i] == Candidate(UsersOf(rows)[i], price) {
      assert rows[i] in rows;
    }
  }

  /** The order and the members of a code selection, said out. */
  lemma CodeSelectionMeans(
      result: seq<Candidate>, sets: ZSets, amounts: seq<int>, excluded: set<UserId>, price: real)
    requires IsCodeSelection(result, sets, Tiers.Serving(Tiers.CodeTiers, amounts), excluded, price)
    ensures forall i, j :: 0 <= i < j < |result| ==>
      var times := Zunion(sets, Tiers.Serving(Tiers.CodeTiers, amounts));
      var a, b := result[i].user, result[j].user;
      a in times && b in times && (times[a] < times[b] || (times[a] == times[b] && a.key < b.key))
    ensures forall c :: c in result <==>
      && c.user !in excluded && c.fullPrice == price
      && exists t: TierNumber :: c.user in ZSet(sets, t) && Tiers.Allows(Tiers.CodeTiers, t, amounts)
  {
    var tiers := Tiers.Serving(Tiers.CodeTiers, amounts);
    var users, times := UsersOf(result), Zunion(sets, tiers);
    forall u | u in users ensures u in times {
      UsersOfMember(result, price, u);
    }
    LongestOnlineFirst(times, users);
    forall i, j | 0 <= i < j < |result|
      ensures
        var a, b := result[i].user, result[j].user;
        a in times && b in times && (times[a] < times[b] || (times[a] == times[b] && a.key < b.key))
    {
      assert users[i] == result[i].user && users[j] == result[j].user;
    }
    forall u ensures u in times <==>
      exists t: TierNumber :: u in ZSet(sets, t) && Tiers.Allows(Tiers.CodeTiers, t, amounts)
    {
      ServedIff(sets, amounts, u);
    }
  }

  lemma ServedIff(sets: ZSets, amounts: seq<int>, u: UserId)
    ensures u in Zunion(sets, Tiers.Serving(Tiers.CodeTiers, amounts)) <==>
      exists t: TierNumber :: u in ZSet(sets, t) && Tiers.Allows(Tiers.CodeTiers, t, amounts)
  {
    var serving := Tiers.Serving(Tiers.CodeTiers, amounts);
    ZunionIsEarliest(sets, serving, u);
    if i :| 0 <= i < |serving| && u in ZSet(sets, serving[i]) {
      AllowsIffServing(amounts, serving[i]);
    }
    if t: TierNumber :| u in ZSet(sets, t) && Tiers.Allows(Tiers.CodeTiers, t, amounts) {
      AllowsIffServing(amounts, t);
    }
  }

  lemma AllowsIffServing(amounts: seq<int>, t: TierNumber)
    ensures t in Tiers.Serving(Tiers.CodeTiers, amounts) <==> Tiers.Allows(Tiers.CodeTiers, t, amounts)
  {
    Tiers.ServingIsUpwardClosed(Tiers.CodeTiers, amounts, t);
    Tiers.RequiredIsThreshold(Tiers.CodeTiers, amounts, t);
  }

  lemma CodeSelectionIsUnique(
      a: seq<Candidate>, b: seq<Candidate>, sets: ZSets, tiers: seq<TierNumber>, excluded: set<UserId>, price: real)
    requires IsCodeSelection(a, sets, tiers, excluded, price) && IsCodeSelection(b, sets, tiers, excluded, price)
    ensures a == b
  {
    PricedOnce(a, price);
    PricedOnce(b, price);
    forall u ensures u in UsersOf(a) <==> u in UsersOf(b) {
      UsersOfMember(a, price, u);
      UsersOfMember(b, price, u);
    }
    SortedIsUnique(UsersOf(a), UsersOf(b), QueueKey(Zunion(sets, tiers)));
  }

  lemma UsersOfMember(rows: seq<Candidate>, price: real, u: UserId)
    requires forall c :: c in rows ==> c.fullPrice == price
    ensures u in UsersOf(rows) <==> Candidate(u, price) in rows
  {
    if u in UsersOf(rows) {
      var i :| 0 <= i < |rows| && rows[i].user == u;
      assert rows[i] in rows;
    }
    if Candidate(u, price) in rows {
      var i :| 0 <= i < |rows| && rows[i] == Candidate(u, price);
      assert UsersOf(rows)[i] == u;
    }
  }

  /** Rows taken from the front of a queue stay sorted when the next user of the queue joins them. */
  lemma QueuedBefore(rows: seq<Candidate>, users: seq<UserId>, i: nat, key: UserId -> seq<real>)
    requires i < |users| && Sorted(users, key) && Sorted(UsersOf(rows), key)
    requires forall c :: c in rows ==> c.user in users[..i]
    ensures forall price :: Sorted(UsersOf(rows + [Candidate(users[i], price)]), key)
  {
    var before := UsersOf(rows);
    forall j | 0 <= j < |rows| ensures Less(key(before[j]), key(users[i])) {
      assert rows[j] in rows;
      var k :| 0 <= k < i && users[..i][k] == rows[j].user;
      assert users[k] == before[j];
    }
    forall price ensures Sorted(UsersOf(rows + [Candidate(users[i], price)]), key) {
      assert UsersOf(rows + [Candidate(users[i], price)]) == before + [users[i]];
    }
  }

  class CodeRanking {
    const index: CodeOnlineIndex
    var futures: Option<map<seq<TierNumber>, seq<UserId>>>

    constructor (index: CodeOnlineIndex)
      ensures Valid() && this.index == index && futures.None?
    {
      this.index, futures := index, None;
    }

    /** Whatever is cached is what the index would answer now. */
    ghost predicate Valid()
      reads this, index
    {
      futures.Some? ==>
        forall tiers :: tiers in futures.value ==> IsQueue(futures.value[tiers], index.sets, tiers)
    }

    method BeginSweep()
      modifies this
      ensures Valid() && futures == Some(map[])
    {
      futures := Some(map[]);
    }

    method EndSweep()
      modifies this
      ensures Valid() && futures.None?
    {
      futures := None;
    }

    /** `_SweepCache.fetch` around `get_candidates`. */
    method Fetch(tiers: seq<TierNumber>) returns (users: seq<UserId>)
      requires Valid()
      modifies this
      ensures Valid() && IsQueue(users, index.sets, tiers)
    {
      if futures.None? {
        users := index.GetCandidates(tiers);
      } else if tiers in futures.value {
        users := futures.value[tiers];
      } else {
        users := index.GetCandidates(tiers);
        futures := Some(futures.value[tiers := users]);
      }
    }

    /** `select_candidates`. */
    method SelectCandidates(amounts: seq<int>, excluded: set<UserId>, price: real) returns (result: seq<Candidate>)
      requires Valid()
      modifies this
      ensures Valid()
      ensures IsCodeSelection(result, index.sets, Tiers.Serving(Tiers.CodeTiers, amounts), excluded, price)
      ensures forall i, j :: 0 <= i < j < |result| ==>
        var times := Zunion(index.sets, Tiers.Serving(Tiers.CodeTiers, amounts));
        var a, b := result[i].user, result[j].user;
        a in times && b in times && (times[a] < times[b] || (times[a] == times[b] && a.key < b.key))
      ensures forall c :: c in result <==>
        && c.user !in excluded && c.fullPrice == price
        && exists t: TierNumber :: c.user in ZSet(index.sets, t) && Tiers.Allows(Tiers.CodeTiers, t, amounts)
    {
      var tiers := Tiers.Serving(Tiers.CodeTiers, amounts);
      result := [];
      if tiers != [] {
        var users := Fetch(tiers);
        result := OfferAt(users, excluded, price, tiers);
      }
      CodeSelectionMeans(result, index.sets, amounts, excluded, price);
    }

    method OfferAt(users: seq<UserId>, excluded: set<UserId>, price: real, ghost tiers: seq<TierNumber>)
      returns (result: seq<Candidate>)
      requires IsQueue(users, index.sets, tiers)
      ensures IsCodeSelection(result, index.sets, tiers, excluded, price)
    {
      result := [];
      ghost var key := QueueKey(Zunion(index.sets, tiers));
      for i := 0 to |users|
        invariant Sorted(UsersOf(result), key)
        invariant forall c :: c in result <==> c.user in users[..i] && c.user !in excluded && c.fullPrice == price
      {
        assert users[..i + 1] == users[..i] + [users[i]];
        if users[i] !in excluded {
          QueuedBefore(result, users, i, key);
          result := result + [Candidate(users[i], price)];
        }
      }
      assert users[..|users|] == users;
    }
  }
}
