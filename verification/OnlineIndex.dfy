/** The Redis indexes of users online: sorted sets of prices per package size, and of codes per tier. */
module OnlineIndex {
  import opened Records
  import opened Money
  import opened Packages
  import opened Pricing
  import Ordering
  import Tiers

  datatype Candidate = Candidate(user: UserId, fullPrice: real)

  type ZSets = map<nat, map<UserId, int>>

  /** A sorted set; a missing key is the empty one. */
  function ZSet(sets: ZSets, key: nat): map<UserId, int> {
    if key in sets then sets[key] else map[]
  }

  // ---- the weighted intersection ------------------------------------------------------

  predicate InAll(sets: ZSets, counts: PackCounts, user: UserId) {
    forall i :: 0 <= i < |counts| ==> user in ZSet(sets, counts[i].0)
  }

  function Score(sets: ZSets, counts: PackCounts, user: UserId): int
    requires InAll(sets, counts, user)
  {
    if counts == [] then 0
    else
      var last := counts[|counts| - 1];
      Score(sets, counts[..|counts| - 1], user) + ZSet(sets, last.0)[user] * last.1
  }

  /** ZINTER with the counts as weights, aggregated by SUM. */
  function Zinter(sets: ZSets, counts: PackCounts): (scores: map<UserId, int>)
    requires counts != []
    ensures forall u :: u in scores <==> InAll(sets, counts, u)
  {
    map u | u in ZSet(sets, counts[0].0) && InAll(sets, counts, u) :: Score(sets, counts, u)
  }

  /** What the packages cost in minor units, size by size. */
  function UnitsPrice(prices: map<nat, real>, counts: PackCounts): int
    requires Priced(prices, counts)
  {
    if counts == [] then 0
    else
      var last := counts[|counts| - 1];
      UnitsPrice(prices, counts[..|counts| - 1]) + ToMinorUnits(prices[last.0]) * last.1
  }

  ghost predicate WholeCentPrices(prices: map<nat, real>) {
    forall size :: size in prices ==> WholeCents(prices[size])
  }

  /** With two-decimal prices the sum in minor units is `full_price_for`, exactly. */
  lemma {:induction false} UnitsPriceIsFullPrice(prices: map<nat, real>, counts: PackCounts)
    requires Priced(prices, counts) && WholeCentPrices(prices)
    ensures WholeCents(FullPrice(prices, counts))
    ensures ToMinorUnits(FullPrice(prices, counts)) == UnitsPrice(prices, counts)
    ensures FromMinorUnits(UnitsPrice(prices, counts)) == FullPrice(prices, counts)
  {
    if counts == [] {
      assert WholeCents(FullPrice(prices, counts)) by {
        UnitsRoundTrip(0);
        assert FullPrice(prices, counts) == FromMinorUnits(0);
      }
    } else {
      var rest, last := counts[..|counts| - 1], counts[|counts| - 1];
      UnitsPriceIsFullPrice(prices, rest);
      assert WholeCents(prices[last.0]);
      MinorUnitsLinear(FullPrice(prices, rest), prices[last.0], last.1, FullPrice(prices, counts));
    }
    MinorUnitsExactIffWholeCents(FullPrice(prices, counts));
  }

  // ---- the price index mirrors the profiles added to it --------------------------------

  ghost predicate Mirrored(sets: ZSets, size: nat, listed: map<UserId, Profile>) {
    forall u ::
      && (u in ZSet(sets, size) <==> u in listed && size in PricesOf(listed[u]))
      && (u in ZSet(sets, size) ==> ZSet(sets, size)[u] == ToMinorUnits(PricesOf(listed[u])[size]))
  }

  ghost predicate MirroredAll(sets: ZSets, sizes: seq<nat>, listed: map<UserId, Profile>) {
    forall size :: size in sizes ==> Mirrored(sets, size, listed)
  }

  lemma MirroredElsewhere(
      sets: ZSets, sets': ZSets, changed: nat, sizes: seq<nat>, listed: map<UserId, Profile>)
    requires MirroredAll(sets, sizes, listed) && changed !in sizes
    requires forall s :: s != changed ==> ZSet(sets', s) == ZSet(sets, s)
    ensures MirroredAll(sets', sizes, listed)
  {
    forall size | size in sizes ensures Mirrored(sets', size, listed) {
      assert Mirrored(sets, size, listed) && ZSet(sets', size) == ZSet(sets, size);
    }
  }

  ghost predicate Mirrors(sets: ZSets, tiers: map<UserId, TierNumber>, listed: map<UserId, Profile>) {
    && MirroredAll(sets, SIZES_DESC, listed)
    && (forall u :: u in tiers <==> u in listed)
    && (forall u :: u in tiers ==> tiers[u] == listed[u].tier)
  }

  ghost predicate KnownSizes(counts: PackCounts) {
    forall i :: 0 <= i < |counts| ==> counts[i].0 in SIZES_DESC
  }

  lemma {:induction false} ScoreOfMirror(
      sets: ZSets, tiers: map<UserId, TierNumber>, listed: map<UserId, Profile>, counts: PackCounts, u: UserId)
    requires Mirrors(sets, tiers, listed) && KnownSizes(counts) && InAll(sets, counts, u) && u in listed
    ensures Priced(PricesOf(listed[u]), counts) && Score(sets, counts, u) == UnitsPrice(PricesOf(listed[u]), counts)
  {
    forall i | 0 <= i < |counts| ensures counts[i].0 in PricesOf(listed[u]) {
      assert Mirrored(sets, counts[i].0, listed) && u in ZSet(sets, counts[i].0);
    }
    if counts != [] {
      var last := counts[|counts| - 1];
      assert Mirrored(sets, last.0, listed) && u in ZSet(sets, last.0);
      ScoreOfMirror(sets, tiers, listed, counts[..|counts| - 1], u);
    }
  }

  /** The plain scan the index stands for: every listed user with a price for each size. */
  ghost predicate Scanned(listed: map<UserId, Profile>, counts: PackCounts, u: UserId) {
    u in listed && Priced(PricesOf(listed[u]), counts)
  }

  /** The weighted intersection finds exactly the users of the scan, at their price in minor units. */
  lemma ZinterIsScan(
      sets: ZSets, tiers: map<UserId, TierNumber>, listed: map<UserId, Profile>, counts: PackCounts, u: UserId)
    requires Mirrors(sets, tiers, listed) && KnownSizes(counts) && counts != []
    ensures u in Zinter(sets, counts) <==> Scanned(listed, counts, u)
    ensures u in Zinter(sets, counts) ==> Zinter(sets, counts)[u] == UnitsPrice(PricesOf(listed[u]), counts)
  {
    assert Mirrored(sets, counts[0].0, listed);
    if Scanned(listed, counts, u) {
      forall i | 0 <= i < |counts| ensures u in ZSet(sets, counts[i].0) {
        assert Mirrored(sets, counts[i].0, listed);
      }
    }
    if u in Zinter(sets, counts) {
      assert u in ZSet(sets, counts[0].0);
      ScoreOfMirror(sets, tiers, listed, counts, u);
    }
  }

  /** What `get_cheapest_candidates` returns, up to order. */
  ghost predicate IsFetch(rows: seq<Candidate>, listed: map<UserId, Profile>, counts: PackCounts) {
    && (forall i, j :: 0 <= i < j < |rows| ==> rows[i].user != rows[j].user)
    && (forall c :: c in rows <==>
          counts != [] && Scanned(listed, counts, c.user)
          && c.fullPrice == FromMinorUnits(UnitsPrice(PricesOf(listed[c.user]), counts)))
  }

  class PackOnlineIndex {
    var sets: ZSets
    var tiers: map<UserId, TierNumber>
    ghost var listed: map<UserId, Profile>

    constructor ()
      ensures Valid() && listed == map[]
    {
      sets, tiers, listed := map[], map[], map[];
    }

    /** The index mirrors the profiles added and not removed since. */
    ghost predicate Valid()
      reads this
    {
      Mirrors(sets, tiers, listed)
    }

    method Zadd(size: nat, user: UserId, score: int)
      modifies `sets
      ensures forall s :: ZSet(sets, s) == if s == size then ZSet(old(sets), s)[user := score] else ZSet(old(sets), s)
    {
      sets := sets[size := ZSet(sets, size)[user := score]];
    }

    method Zrem(size: nat, user: UserId)
      modifies `sets
      ensures forall s :: ZSet(sets, s) == if s == size then ZSet(old(sets), s) - {user} else ZSet(old(sets), s)
    {
      sets := sets[size := ZSet(sets, size) - {user}];
    }

    /** The command `add` queues for one size. */
    method Upsert(size: nat, user: UserId, profile: Profile)
      requires Mirrored(sets, size, listed)
      modifies `sets
      ensures Mirrored(sets, size, listed[user := profile])
      ensures forall s :: s != size ==> ZSet(sets, s) == ZSet(old(sets), s)
    {
      if size in PricesOf(profile) {
        Zadd(size, user, ToMinorUnits(PricesOf(profile)[size]));
      } else {
        Zrem(size, user);
      }
    }

    /** `add`: one MULTI over all package sizes. */
    method Add(user: UserId, profile: Profile)
      requires Valid()
      modifies this
      ensures Valid() && listed == old(listed)[user := profile]
    {
      for i := 0 to |SIZES_DESC|
        invariant MirroredAll(sets, SIZES_DESC[..i], listed[user := profile])
        invariant MirroredAll(sets, SIZES_DESC[i..], listed)
        modifies `sets
      {
        SizesSplit(i);
        ghost var before := sets;
        Upsert(SIZES_DESC[i], user, profile);
        MirroredElsewhere(before, sets, SIZES_DESC[i], SIZES_DESC[..i], listed[user := profile]);
        MirroredElsewhere(before, sets, SIZES_DESC[i], SIZES_DESC[i + 1..], listed);
      }
      assert SIZES_DESC[..|SIZES_DESC|] == SIZES_DESC;
      tiers := tiers[user := profile.tier];
      listed := listed[user := profile];
    }

    /** `remove`. */
    method Remove(user: UserId)
      requires Valid()
      modifies this
      ensures Valid() && listed == old(listed) - {user}
    {
      for i := 0 to |SIZES_DESC|
        invariant MirroredAll(sets, SIZES_DESC[..i], listed - {user})
        invariant MirroredAll(sets, SIZES_DESC[i..], listed)
        modifies `sets
      {
        SizesSplit(i);
        ghost var before := sets;
        assert Mirrored(sets, SIZES_DESC[i], listed);
        Zrem(SIZES_DESC[i], user);
        MirroredElsewhere(before, sets, SIZES_DESC[i], SIZES_DESC[..i], listed - {user});
        MirroredElsewhere(before, sets, SIZES_DESC[i], SIZES_DESC[i + 1..], listed);
      }
      assert SIZES_DESC[..|SIZES_DESC|] == SIZES_DESC;
      tiers := tiers - {user};
      listed := listed - {user};
    }

    /** `clear`. */
    method Clear()
      requires Valid()
      modifies this
      ensures Valid() && listed == map[]
    {
      sets, tiers, listed := map[], map[], map[];
    }

    /** `get_cheapest_candidates`. */
    method GetCheapestCandidates(counts: PackCounts) returns (rows: seq<Candidate>)
      requires Valid() && KnownSizes(counts)
      ensures IsFetch(rows, listed, counts)
    {
      rows := [];
      if counts == [] {
        return;
      }
      var scores := Zinter(sets, counts);
      var rest := scores.Keys;
      while rest != {}
        invariant rest <= scores.Keys
        invariant forall i, j :: 0 <= i < j < |rows| ==> rows[i].user != rows[j].user
        invariant forall c :: c in rows <==>
          c.user in scores && c.user !in rest && c.fullPrice == FromMinorUnits(scores[c.user])
        decreases |rest|
      {
        var u :| u in rest;
        rows := rows + [Candidate(u, FromMinorUnits(scores[u]))];
        rest := rest - {u};
      }
      forall u ensures u in scores <==> Scanned(listed, counts, u)
               ensures u in scores ==> scores[u] == UnitsPrice(PricesOf(listed[u]), counts) {
        ZinterIsScan(sets, tiers, listed, counts, u);
      }
    }

    /** `filter_by_min_tier`. */
    method FilterByMinTier(users: seq<UserId>, minTier: TierNumber) returns (allowed: set<UserId>)
      requires Valid()
      ensures forall u :: u in allowed <==> u in users && u in listed && listed[u].tier >= minTier
    {
      allowed := set u | u in users && u in tiers && tiers[u] >= minTier;
    }
  }

  lemma SizesSplit(i: nat)
    requires i < |SIZES_DESC|
    ensures SIZES_DESC[..i + 1] == SIZES_DESC[..i] + [SIZES_DESC[i]]
    ensures SIZES_DESC[i..] == [SIZES_DESC[i]] + SIZES_DESC[i + 1..]
    ensures SIZES_DESC[i] !in SIZES_DESC[..i] && SIZES_DESC[i] !in SIZES_DESC[i + 1..]
  {
    assert Descending(SIZES_DESC);
  }

  // ---- the code index ------------------------------------------------------------------

  function Least(a: map<UserId, int>, b: map<UserId, int>): map<UserId, int> {
    map u | u in a.Keys + b.Keys ::
      if u in a && u in b then (if a[u] <= b[u] then a[u] else b[u]) else if u in a then a[u] else b[u]
  }

  /** ZUNION over tier keys, aggregated by MIN. */
  function Zunion(sets: ZSets, tiers: seq<TierNumber>): map<UserId, int> {
    if tiers == [] then map[] else Least(ZSet(sets, tiers[0]), Zunion(sets, tiers[1..]))
  }

  /** The union holds whoever is in one of the sets, at the earliest time found there. */
  lemma {:induction false} ZunionIsEarliest(sets: ZSets, tiers: seq<TierNumber>, u: UserId)
    ensures u in Zunion(sets, tiers) <==> exists i :: 0 <= i < |tiers| && u in ZSet(sets, tiers[i])
    ensures forall i :: 0 <= i < |tiers| && u in ZSet(sets, tiers[i]) ==>
      Zunion(sets, tiers)[u] <= ZSet(sets, tiers[i])[u]
    ensures u in Zunion(sets, tiers) ==>
      exists i :: 0 <= i < |tiers| && u in ZSet(sets, tiers[i]) && Zunion(sets, tiers)[u] == ZSet(sets, tiers[i])[u]
  {
    if tiers != [] {
      var rest := tiers[1..];
      ZunionIsEarliest(sets, rest, u);
      assert forall i :: 0 <= i < |rest| ==> rest[i] == tiers[i + 1];
      if i :| 0 <= i < |rest| && u in ZSet(sets, rest[i]) && Zunion(sets, rest)[u] == ZSet(sets, rest[i])[u] {
        assert tiers[i + 1] == rest[i];
      }
      forall i | 0 <= i < |tiers| && u in ZSet(sets, tiers[i])
        ensures u in Zunion(sets, tiers) && Zunion(sets, tiers)[u] <= ZSet(sets, tiers[i])[u]
      {
        if i > 0 {
          assert rest[i - 1] == tiers[i];
        }
      }
    }
  }

  /** Longest online first, then by id. */
  function QueueKey(scores: map<UserId, int>): UserId -> seq<real> {
    u => if u in scores then [scores[u] as real, u.key as real] else []
  }

  /** The key's order said out: the earlier time, and among equal times the lower id. */
  lemma QueueKeyMeans(scores: map<UserId, int>, a: UserId, b: UserId)
    requires a in scores && b in scores
    ensures Ordering.Less(QueueKey(scores)(a), QueueKey(scores)(b)) <==>
      scores[a] < scores[b] || (scores[a] == scores[b] && a.key < b.key)
  {
    var x, y := QueueKey(scores)(a), QueueKey(scores)(b);
    assert x == [x[0]] + [x[1]] && y == [y[0]] + [y[1]];
    assert [x[1]] == [x[1]] + [] && [y[1]] == [y[1]] + [];
    Ordering.LessStep(x[0], [x[1]], y[0], [y[1]]);
    Ordering.LessStep(x[1], [], y[1], []);
  }

  /** So a list sorted by it starts with whoever is online longest. */
  lemma LongestOnlineFirst(scores: map<UserId, int>, users: seq<UserId>)
    requires Ordering.Sorted(users, QueueKey(scores)) && forall u :: u in users ==> u in scores
    ensures forall i, j :: 0 <= i < j < |users| ==>
      && users[i] in scores && users[j] in scores
      && (scores[users[i]] < scores[users[j]]
          || (scores[users[i]] == scores[users[j]] && users[i].key < users[j].key))
  {
    forall i, j | 0 <= i < j < |users|
      ensures users[i] in scores && users[j] in scores
      ensures scores[users[i]] < scores[users[j]]
           || (scores[users[i]] == scores[users[j]] && users[i].key < users[j].key)
    {
      QueueKeyMeans(scores, users[i], users[j]);
    }
  }

  ghost predicate AddedTo(sets: ZSets, sets': ZSets, user: UserId, tier: TierNumber, onlineAt: int) {
    forall t ::
      ZSet(sets', t)
      == if t == tier && user !in ZSet(sets, t) then ZSet(sets, t)[user := onlineAt] else ZSet(sets, t)
  }

  ghost predicate RemovedFromAll(sets: ZSets, sets': ZSets, user: UserId) {
    forall t :: ZSet(sets', t) == if t <= 2 then ZSet(sets, t) - {user} else ZSet(sets, t)
  }

  class CodeOnlineIndex {
    var sets: ZSets

    constructor ()
      ensures sets == map[]
    {
      sets := map[];
    }

    /** `add`: ZADD NX on the key of the profile's tier; other tiers are left as they are. */
    method Add(user: UserId, tier: TierNumber, onlineAt: int)
      modifies this
      ensures AddedTo(old(sets), sets, user, tier, onlineAt)
    {
      if user !in ZSet(sets, tier) {
        sets := sets[tier := ZSet(sets, tier)[user := onlineAt]];
      }
    }

    /** `remove`. */
    method Remove(user: UserId)
      modifies this
      ensures RemovedFromAll(old(sets), sets, user)
    {
      for number: nat := 0 to 3
        invariant forall t: nat ::
          ZSet(sets, t) == if t < number then ZSet(old(sets), t) - {user} else ZSet(old(sets), t)
      {
        sets := sets[number := ZSet(sets, number) - {user}];
      }
    }

    /** `clear`. */
    method Clear()
      modifies this
      ensures forall t :: ZSet(sets, t) == map[]
    {
      sets := map[];
    }

    /** `get_candidates`: everyone at one of the tiers, once, in strict order of time online and id. */
    method GetCandidates(tiers: seq<TierNumber>) returns (users: seq<UserId>)
      ensures Ordering.Sorted(users, QueueKey(Zunion(sets, tiers)))
      ensures forall u :: u in users <==> u in Zunion(sets, tiers)
      ensures forall u :: u in users <==> exists k :: 0 <= k < |tiers| && u in ZSet(sets, tiers[k])
      ensures forall i, j :: 0 <= i < j < |users| ==>
        var times := Zunion(sets, tiers);
        && users[i] in times && users[j] in times
        && (times[users[i]] < times[users[j]] || (times[users[i]] == times[users[j]] && users[i].key < users[j].key))
    {
      users := [];
      if tiers != [] {
        users := SortedUnion(tiers);
      }
      forall u ensures u in Zunion(sets, tiers) <==> exists k :: 0 <= k < |tiers| && u in ZSet(sets, tiers[k]) {
        ZunionIsEarliest(sets, tiers, u);
      }
      LongestOnlineFirst(Zunion(sets, tiers), users);
    }

    /** The union and its sort. */
    method SortedUnion(tiers: seq<TierNumber>) returns (users: seq<UserId>)
      ensures Ordering.Sorted(users, QueueKey(Zunion(sets, tiers)))
      ensures forall u :: u in users <==> u in Zunion(sets, tiers)
    {
      var scores := Zunion(sets, tiers);
      var key, rest := QueueKey(scores), scores.Keys;
      users := [];
      while rest != {}
        invariant rest <= scores.Keys && forall u :: u in users <==> u in scores && u !in rest
        invariant forall i, j :: 0 <= i < j < |users| ==> users[i] != users[j]
        decreases |rest|
      {
        var u :| u in rest;
        users := users + [u];
        rest := rest - {u};
      }
      QueueKeysDiffer(scores, users);
      Ordering.SortSorted(users, key);
      Ordering.SortElements(users, key);
      users := Ordering.Sort(users, key);
    }
  }

  lemma QueueKeysDiffer(scores: map<UserId, int>, users: seq<UserId>)
    requires forall u :: u in users ==> u in scores
    requires forall i, j :: 0 <= i < j < |users| ==> users[i] != users[j]
    ensures Ordering.DistinctKeys(users, QueueKey(scores))
  {
    forall i, j | 0 <= i < j < |users| ensures QueueKey(scores)(users[i]) != QueueKey(scores)(users[j]) {
      var a, b := users[i], users[j];
      assert QueueKey(scores)(a)[1] == a.key as real && QueueKey(scores)(b)[1] == b.key as real;
    }
  }

  // ---- the router ------------------------------------------------------------------------

  predicate InPack(profile: Profile) {
    profile.status == Active && profile.online && !profile.withCodes
  }

  predicate InCodes(profile: Profile) {
    profile.status == Active && profile.online && profile.withCodes
  }

  /**
   * Both indexes agree with the profiles last synced. `reached` is the highest tier a user was synced at
   * since it last left the code index.
   */
  ghost predicate Routed(
      synced: map<UserId, Profile>, reached: map<UserId, TierNumber>, listed: map<UserId, Profile>, codes: ZSets)
  {
    && (forall u :: u in listed <==> u in synced && InPack(synced[u]))
    && (forall u :: u in listed ==> listed[u] == synced[u])
    && (forall u :: u in reached <==> u in synced && InCodes(synced[u]))
    && (forall u, t: TierNumber :: u in ZSet(codes, t) ==> u in reached && t <= reached[u])
    && (forall u :: u in reached ==> u in ZSet(codes, reached[u]) && u in ZSet(codes, synced[u].tier))
  }

  lemma RoutedWithoutCodes(
      synced: map<UserId, Profile>, reached: map<UserId, TierNumber>, listed: map<UserId, Profile>, codes: ZSets,
      codes': ZSets, u: UserId, profile: Profile)
    requires Routed(synced, reached, listed, codes) && RemovedFromAll(codes, codes', u) && !InCodes(profile)
    ensures
      var listed' := if InPack(profile) then listed[u := profile] else listed - {u};
      Routed(synced[u := profile], reached - {u}, listed', codes')
  {
  }

  lemma RoutedWithoutUser(
      synced: map<UserId, Profile>, reached: map<UserId, TierNumber>, listed: map<UserId, Profile>, codes: ZSets,
      codes': ZSets, u: UserId)
    requires Routed(synced, reached, listed, codes) && RemovedFromAll(codes, codes', u)
    ensures Routed(synced - {u}, reached - {u}, listed - {u}, codes')
  {
  }

  lemma RoutedWithCodes(
      synced: map<UserId, Profile>, reached: map<UserId, TierNumber>, listed: map<UserId, Profile>, codes: ZSets,
      codes': ZSets, u: UserId, profile: Profile, now: int)
    requires Routed(synced, reached, listed, codes) && AddedTo(codes, codes', u, profile.tier, now) && InCodes(profile)
    ensures
      var higher := u in reached && reached[u] > profile.tier;
      Routed(synced[u := profile], if higher then reached else reached[u := profile.tier], listed - {u}, codes')
  {
    assert u in ZSet(codes', profile.tier);
  }

  /** The scores of the code index are the times its users came to their tiers. */
  ghost predicate Timed(entered: map<(UserId, TierNumber), int>, codes: ZSets) {
    forall u, t: TierNumber ::
      && ((u, t) in entered <==> u in ZSet(codes, t))
      && ((u, t) in entered ==> ZSet(codes, t)[u] == entered[(u, t)])
  }

  function Left(entered: map<(UserId, TierNumber), int>, user: UserId): (left: map<(UserId, TierNumber), int>)
    ensures forall u, t: TierNumber :: (u, t) in left <==> (u, t) in entered && u != user
    ensures forall u, t: TierNumber :: (u, t) in left ==> left[(u, t)] == entered[(u, t)]
  {
    map at | at in entered && at.0 != user :: entered[at]
  }

  lemma TimedAfterAdd(
      entered: map<(UserId, TierNumber), int>, codes: ZSets, codes': ZSets, user: UserId, tier: TierNumber, now: int)
    requires Timed(entered, codes) && AddedTo(codes, codes', user, tier, now)
    ensures Timed(if (user, tier) in entered then entered else entered[(user, tier) := now], codes')
  {
  }

  lemma TimedAfterRemove(entered: map<(UserId, TierNumber), int>, codes: ZSets, codes': ZSets, user: UserId)
    requires Timed(entered, codes) && RemovedFromAll(codes, codes', user)
    ensures Timed(Left(entered, user), codes')
  {
  }

  /** The time a user is queued by: the earliest at which it came to one of the tiers asked for. */
  lemma QueueTimeIsEntry(entered: map<(UserId, TierNumber), int>, codes: ZSets, tiers: seq<TierNumber>, u: UserId)
    requires Timed(entered, codes) && u in Zunion(codes, tiers)
    ensures exists i ::
      0 <= i < |tiers| && (u, tiers[i]) in entered && Zunion(codes, tiers)[u] == entered[(u, tiers[i])]
    ensures forall i ::
      0 <= i < |tiers| && (u, tiers[i]) in entered ==> Zunion(codes, tiers)[u] <= entered[(u, tiers[i])]
  {
    ZunionIsEarliest(codes, tiers, u);
    var i :| 0 <= i < |tiers| && u in ZSet(codes, tiers[i]) && Zunion(codes, tiers)[u] == ZSet(codes, tiers[i])[u];
    assert (u, tiers[i]) in entered;
  }

  class OnlineIndexRouter {
    const pack: PackOnlineIndex
    const code: CodeOnlineIndex
    ghost var synced: map<UserId, Profile>
    ghost var reached: map<UserId, TierNumber>
    ghost var entered: map<(UserId, TierNumber), int>   // when a user first came to a tier since it last left

    constructor (pack: PackOnlineIndex, code: CodeOnlineIndex)
      requires pack.Valid() && pack.listed == map[] && code.sets == map[]
      ensures Valid() && this.pack == pack && this.code == code && synced == map[]
    {
      this.pack, this.code := pack, code;
      synced, reached, entered := map[], map[], map[];
    }

    ghost predicate Valid()
      reads this, pack, code
    {
      pack.Valid() && Routed(synced, reached, pack.listed, code.sets) && Timed(entered, code.sets)
    }

    /** `sync`; `now` is the clock. */
    method Sync(user: UserId, profile: Profile, now: int)
      requires Valid()
      modifies this, pack, code
      ensures Valid() && synced == old(synced)[user := profile]
      ensures reached ==
        if !(profile.status == Active && profile.online && profile.withCodes) then old(reached) - {user}
        else if user in old(reached) && old(reached)[user] > profile.tier then old(reached)
        else old(reached)[user := profile.tier]
      ensures entered ==
        if !(profile.status == Active && profile.online && profile.withCodes) then Left(old(entered), user)
        else if (user, profile.tier) in old(entered) then old(entered)
        else old(entered)[(user, profile.tier) := now]
    {
      ghost var listed, codes := pack.listed, code.sets;
      var eligible := profile.status == Active && profile.online;
      if !eligible {
        pack.Remove(user);
        code.Remove(user);
        RoutedWithoutCodes(synced, reached, listed, codes, code.sets, user, profile);
        TimedAfterRemove(entered, codes, code.sets, user);
        reached, entered := reached - {user}, Left(entered, user);
      } else if profile.withCodes {
        ghost var highest, since := EnterCodes(user, profile, now);
        reached, entered := highest, since;
      } else {
        pack.Add(user, profile);
        code.Remove(user);
        RoutedWithoutCodes(synced, reached, listed, codes, code.sets, user, profile);
        TimedAfterRemove(entered, codes, code.sets, user);
        reached, entered := reached - {user}, Left(entered, user);
      }
      synced := synced[user := profile];
    }

    /** The branch of `sync` for an eligible user who works with codes. */
    method EnterCodes(user: UserId, profile: Profile, now: int)
      returns (ghost highest: map<UserId, TierNumber>, ghost since: map<(UserId, TierNumber), int>)
      requires Valid() && InCodes(profile)
      modifies pack, code
      ensures pack.Valid() && Routed(synced[user := profile], highest, pack.listed, code.sets)
      ensures Timed(since, code.sets)
      ensures highest ==
        if user in reached && reached[user] > profile.tier then reached else reached[user := profile.tier]
      ensures since == if (user, profile.tier) in entered then entered else entered[(user, profile.tier) := now]
    {
      ghost var listed, codes := pack.listed, code.sets;
      code.Add(user, profile.tier, now);
      pack.Remove(user);
      RoutedWithCodes(synced, reached, listed, codes, code.sets, user, profile, now);
      TimedAfterAdd(entered, codes, code.sets, user, profile.tier, now);
      highest := if user in reached && reached[user] > profile.tier then reached else reached[user := profile.tier];
      since := if (user, profile.tier) in entered then entered else entered[(user, profile.tier) := now];
    }

    /** `remove`. */
    method Remove(user: UserId)
      requires Valid()
      modifies this, pack, code
      ensures Valid() && synced == old(synced) - {user} && reached == old(reached) - {user}
      ensures entered == Left(old(entered), user)
    {
      ghost var listed, codes := pack.listed, code.sets;
      pack.Remove(user);
      code.Remove(user);
      RoutedWithoutUser(synced, reached, listed, codes, code.sets, user);
      TimedAfterRemove(entered, codes, code.sets, user);
      synced, reached, entered := synced - {user}, reached - {user}, Left(entered, user);
    }

    /** `clear`. */
    method Clear()
      requires Valid()
      modifies this, pack, code
      ensures Valid() && synced == map[] && reached == map[] && entered == map[]
    {
      pack.Clear();
      code.Clear();
      synced, reached, entered := map[], map[], map[];
    }
  }

  /** Nobody is in both indexes. */
  lemma NobodyInBoth(
      synced: map<UserId, Profile>, reached: map<UserId, TierNumber>, listed: map<UserId, Profile>, codes: ZSets,
      u: UserId, tier: TierNumber)
    requires Routed(synced, reached, listed, codes)
    ensures !(u in listed && u in ZSet(codes, tier))
  {
  }

  /**
   * After any syncs, removals and clears the intersection finds exactly the users last synced as active,
   * online, without codes and priced for every size, each at `full_price_for` when prices have two decimals.
   */
  lemma IndexIsScanOfSynced(
      sets: ZSets, tiers: map<UserId, TierNumber>, synced: map<UserId, Profile>, reached: map<UserId, TierNumber>,
      listed: map<UserId, Profile>, codes: ZSets, counts: PackCounts, u: UserId)
    requires Mirrors(sets, tiers, listed) && Routed(synced, reached, listed, codes)
    requires KnownSizes(counts) && counts != []
    ensures u in Zinter(sets, counts) <==>
      && u in synced && synced[u].status == Active && synced[u].online && !synced[u].withCodes
      && Priced(PricesOf(synced[u]), counts)
    ensures u in Zinter(sets, counts) && WholeCentPrices(PricesOf(synced[u])) ==>
      FromMinorUnits(Zinter(sets, counts)[u]) == FullPrice(PricesOf(synced[u]), counts)
  {
    ZinterIsScan(sets, tiers, listed, counts, u);
    if u in Zinter(sets, counts) && WholeCentPrices(PricesOf(synced[u])) {
      UnitsPriceIsFullPrice(PricesOf(synced[u]), counts);
    }
  }

  // ---- stale tiers in the code index ------------------------------------------------------

  /** No user the code index holds was synced at a tier above its last one. */
  ghost predicate TiersHeld(synced: map<UserId, Profile>, reached: map<UserId, TierNumber>) {
    forall u :: u in reached ==> u in synced && reached[u] == synced[u].tier
  }

  /** A user is a candidate for a code order exactly when the highest tier it reached allows the codes. */
  lemma CodeCandidateIffReached(
      synced: map<UserId, Profile>, reached: map<UserId, TierNumber>, listed: map<UserId, Profile>, codes: ZSets,
      amounts: seq<int>, u: UserId)
    requires Routed(synced, reached, listed, codes)
    ensures
      u in Zunion(codes, Tiers.Serving(Tiers.CodeTiers, amounts)) <==>
      u in reached && Tiers.Allows(Tiers.CodeTiers, reached[u], amounts)
  {
    var serving := Tiers.Serving(Tiers.CodeTiers, amounts);
    ZunionIsEarliest(codes, serving, u);
    if u in Zunion(codes, serving) {
      var i :| 0 <= i < |serving| && u in ZSet(codes, serving[i]);
      Tiers.ServingIsUpwardClosed(Tiers.CodeTiers, amounts, serving[i]);
      Tiers.RequiredIsThreshold(Tiers.CodeTiers, amounts, reached[u]);
    }
    if u in reached && Tiers.Allows(Tiers.CodeTiers, reached[u], amounts) {
      Tiers.RequiredIsThreshold(Tiers.CodeTiers, amounts, reached[u]);
      Tiers.ServingIsUpwardClosed(Tiers.CodeTiers, amounts, reached[u]);
      var i :| 0 <= i < |serving| && serving[i] == reached[u];
    }
  }

  /** Whatever code order is offered to the user, the user may take it. */
  ghost predicate OffersAreTakeable(codes: ZSets, profile: Profile, u: UserId) {
    forall amount: int, amounts: seq<int> :: u in Zunion(codes, Tiers.Serving(Tiers.CodeTiers, amounts)) ==>
      ValidateTake(Job(true, amount, amounts), profile) == Some(true)
  }

  /**
   * `add` does not take a user out of a tier it has left, so code offers are takeable exactly for the
   * users whose tier was not lowered while they stayed online.
   */
  lemma CodeOffersTakeableIff(
      synced: map<UserId, Profile>, reached: map<UserId, TierNumber>, listed: map<UserId, Profile>, codes: ZSets,
      u: UserId)
    requires Routed(synced, reached, listed, codes) && u in reached
    ensures OffersAreTakeable(codes, synced[u], u) <==> reached[u] == synced[u].tier
  {
    var tier := synced[u].tier;
    if reached[u] == tier {
      forall amount: int, amounts: seq<int> | u in Zunion(codes, Tiers.Serving(Tiers.CodeTiers, amounts))
        ensures ValidateTake(Job(true, amount, amounts), synced[u]) == Some(true)
      {
        CodeCandidateIffReached(synced, reached, listed, codes, amounts, u);
      }
    } else {
      var top := if reached[u] == 2 then 8100 else 1800;
      var amounts: seq<int> := [top];
      assert Tiers.Allows(Tiers.CodeTiers, reached[u], amounts);
      assert !Tiers.Fits(Tiers.CodeTiers, tier, amounts[0]);
      CodeCandidateIffReached(synced, reached, listed, codes, amounts, u);
      assert ValidateTake(Job(true, 0, amounts), synced[u]) == Some(false);
    }
  }
}
