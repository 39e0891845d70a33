/** Ranking and dispatch together: what is offered in a sweep may be taken, and the take goes through. */
module Dispatch {
  import opened Records
  import opened Packages
  import opened Pricing
  import opened OnlineIndex
  import opened Ranking
  import opened RatingWindow
  import opened Protocol
  import opened Safety
  import opened Runs
  import opened Fanout
  import Store
  import Tiers

  /** The profiles last synced and the two indexes that follow them. */
  datatype Online = Online(
    synced: map<UserId, Profile>, reached: map<UserId, TierNumber>, listed: map<UserId, Profile>, codes: ZSets)

  ghost predicate Followed(online: Online) {
    Routed(online.synced, online.reached, online.listed, online.codes)
  }

  /** What the strategy for this kind of order ranks: a pack selection or a code queue. */
  ghost predicate IsChoice(
      rows: seq<Candidate>, job: Job, online: Online, stats: UserId -> Stats, excluded: set<UserId>, codePrice: real)
  {
    if job.withCodes then
      IsCodeSelection(rows, online.codes, Tiers.Serving(Tiers.CodeTiers, job.codeAmounts), excluded, codePrice)
    else
      && Decompose(job.amount).Some?
      && IsSelection(rows, online.listed, stats, Decompose(job.amount).value, excluded)
  }

  /** `select_candidates` of the strategy: its users, or a raise for an amount that cannot be decomposed. */
  ghost predicate Selects(
      selected: Option<seq<UserId>>, job: Job, online: Online, stats: UserId -> Stats, excluded: set<UserId>,
      codePrice: real)
  {
    && (selected.None? <==> !job.withCodes && Decompose(job.amount).None?)
    && (selected.Some? ==>
          exists rows :: IsChoice(rows, job, online, stats, excluded, codePrice) && UsersOf(rows) == selected.value)
  }

  /** What the take of an order demands of a profile is met. */
  predicate Admits(job: Job, profile: Profile) {
    profile.withCodes == job.withCodes && ValidateTake(job, profile) == Some(true)
  }

  /** Every row of a ranking is a user online that may take the order, at the price of the row. */
  lemma ChosenMayTake(
      rows: seq<Candidate>, job: Job, online: Online, stats: UserId -> Stats, excluded: set<UserId>, codePrice: real,
      c: Candidate)
    requires Followed(online) && IsChoice(rows, job, online, stats, excluded, codePrice) && c in rows
    requires job.withCodes ==> TiersHeld(online.synced, online.reached)
    ensures c.user !in excluded && c.user in online.synced && Admits(job, online.synced[c.user])
    ensures job.withCodes || WholeCentPrices(PricesOf(online.synced[c.user])) ==>
      TakenPrice(job, online.synced[c.user], codePrice) == c.fullPrice
  {
    if job.withCodes {
      CodeCandidateIffReached(online.synced, online.reached, online.listed, online.codes, job.codeAmounts, c.user);
    } else {
      assert EligibleRow(online.listed, Decompose(job.amount).value, excluded, c);
      OfferIsTakeable(online.listed, job, excluded, c, codePrice);
    }
  }

  lemma SelectedMayTake(
      selected: Option<seq<UserId>>, job: Job, online: Online, stats: UserId -> Stats, excluded: set<UserId>,
      codePrice: real, u: UserId)
    requires Followed(online) && Selects(selected, job, online, stats, excluded, codePrice)
    requires selected.Some? && u in selected.value && (job.withCodes ==> TiersHeld(online.synced, online.reached))
    ensures u !in excluded && u in online.synced && Admits(job, online.synced[u])
  {
    var rows: seq<Candidate> :|
      IsChoice(rows, job, online, stats, excluded, codePrice) && UsersOf(rows) == selected.value;
    var i :| 0 <= i < |rows| && rows[i].user == u;
    ChosenMayTake(rows, job, online, stats, excluded, codePrice, rows[i]);
  }

  /** Online, ratings and price settle what is selected. */
  lemma SelectsIsUnique(
      a: Option<seq<UserId>>, b: Option<seq<UserId>>, job: Job, online: Online, stats: UserId -> Stats,
      excluded: set<UserId>, codePrice: real)
    requires Selects(a, job, online, stats, excluded, codePrice) && Selects(b, job, online, stats, excluded, codePrice)
    ensures a == b
  {
    if a.Some? {
      var rows: seq<Candidate> :| IsChoice(rows, job, online, stats, excluded, codePrice) && UsersOf(rows) == a.value;
      var others: seq<Candidate> :|
        IsChoice(others, job, online, stats, excluded, codePrice) && UsersOf(others) == b.value;
      if job.withCodes {
        var tiers := Tiers.Serving(Tiers.CodeTiers, job.codeAmounts);
        CodeSelectionIsUnique(rows, others, online.codes, tiers, excluded, codePrice);
      } else {
        SelectionIsUnique(rows, others, online.listed, stats, Decompose(job.amount).value, excluded);
      }
    }
  }

  /** A strategy leaves out the users it is told to exclude. */
  lemma SelectedAreFresh(
      selected: Option<seq<UserId>>, job: Job, online: Online, stats: UserId -> Stats, excluded: set<UserId>,
      codePrice: real, seen: set<UserId>)
    requires Selects(selected, job, online, stats, excluded, codePrice) && seen <= excluded
    ensures selected.Some? ==> Fresh(selected.value, seen)
  {
    if selected.Some? {
      var rows: seq<Candidate> :|
        IsChoice(rows, job, online, stats, excluded, codePrice) && UsersOf(rows) == selected.value;
      forall i | 0 <= i < |rows| ensures rows[i].user !in seen {
        assert rows[i] in rows;
      }
    }
  }

  // ---- whole sweeps -----------------------------------------------------------------------

  /** Each selection of the sweep is the one of its order's strategy; the barred are the moderators. */
  ghost predicate ByRanking(
      select: Select, jobs: OrderId -> Job, online: Online, stats: UserId -> Stats, barred: set<UserId>,
      codePrice: real)
  {
    forall o, seen :: Selects(select(o, seen), jobs(o), online, stats, seen + barred, codePrice)
  }

  lemma RankingExcludes(
      select: Select, jobs: OrderId -> Job, online: Online, stats: UserId -> Stats, barred: set<UserId>,
      codePrice: real)
    requires ByRanking(select, jobs, online, stats, barred, codePrice)
    ensures Excluding(select)
  {
    forall o, seen | select(o, seen).Some? ensures Fresh(select(o, seen).value, seen) {
      SelectedAreFresh(select(o, seen), jobs(o), online, stats, seen + barred, codePrice, seen);
    }
  }

  lemma TriedInOffer(
      pending: map<UserId, int>, limit: nat, h: Handling, selected: Option<seq<UserId>>, reach: UserId -> Reach,
      e: Event)
    requires e in OfferRun(pending, limit, h, selected, reach) && e.TryReserve?
    ensures e.hand == h && selected.Some? && e.user in selected.value
  {
    if selected.Some? && selected.value != [] {
      var ranked := selected.value;
      var k := FirstFree(pending, limit, ranked);
      var tried := if k == |ranked| then ranked else ranked[..k + 1];
      assert e in Attempts(h, tried);
      var i :| 0 <= i < |tried| && Attempts(h, tried)[i] == e;
      assert tried[i] == ranked[i];
    }
  }

  lemma {:induction false} TriedInSweep(
      pending: map<UserId, int>, limit: nat, s: nat, due: seq<OrderId>, seen: OrderId -> set<UserId>, select: Select,
      reach: UserId -> Reach, e: Event)
    requires e in SweepRun(pending, limit, s, due, seen, select, reach) && e.TryReserve?
    ensures e.hand.sweep == s && e.hand.order in due
    ensures
      var selected := select(e.hand.order, seen(e.hand.order));
      selected.Some? && e.user in selected.value
    decreases |due|
  {
    var selected := select(due[0], seen(due[0]));
    if e in OfferRun(pending, limit, Handling(s, due[0]), selected, reach) {
      TriedInOffer(pending, limit, Handling(s, due[0]), selected, reach, e);
    } else {
      TriedInSweep(AfterOffer(pending, limit, selected, reach), limit, s, due[1..], seen, select, reach, e);
    }
  }

  /** The user reserved was not asked before, is no moderator, and may take the order. */
  predicate MayTakeNow(
      e: Event, seen: OrderId -> set<UserId>, jobs: OrderId -> Job, online: Online, barred: set<UserId>)
    requires e.TryReserve?
  {
    && e.user !in seen(e.hand.order) + barred
    && e.user in online.synced
    && Admits(jobs(e.hand.order), online.synced[e.user])
  }

  /** Whoever a sweep reserves for an order is online, was not asked before, and may take it. */
  lemma SweptMayTake(
      pending: map<UserId, int>, limit: nat, s: nat, due: seq<OrderId>, seen: OrderId -> set<UserId>, select: Select,
      reach: UserId -> Reach, jobs: OrderId -> Job, online: Online, stats: UserId -> Stats, barred: set<UserId>,
      codePrice: real, e: Event)
    requires Followed(online) && TiersHeld(online.synced, online.reached)
    requires ByRanking(select, jobs, online, stats, barred, codePrice)
    requires e in SweepRun(pending, limit, s, due, seen, select, reach) && e.TryReserve?
    ensures e.hand.order in due && MayTakeNow(e, seen, jobs, online, barred)
  {
    TriedInSweep(pending, limit, s, due, seen, select, reach, e);
    var o := e.hand.order;
    SelectedMayTake(select(o, seen(o)), jobs(o), online, stats, seen(o) + barred, codePrice, e.user);
  }

  /** Everything one sweep does, from listing to the last attempt. */
  function SweepEvents(
      pending: map<UserId, int>, limit: nat, s: nat, due: seq<OrderId>, rows: seq<Row>, seen: OrderId -> set<UserId>,
      select: Select, reach: UserId -> Reach): seq<Event>
  {
    if due == [] then []
    else
      Listing(s, (set o | o in due), rows) + [ReadOffered(s)]
      + SweepRun(Released(pending, Users(rows)), limit, s, due, seen, select, reach)
  }

  lemma NobodyTriedInListing(s: nat, ids: set<OrderId>, rows: seq<Row>, e: Event)
    requires e in Listing(s, ids, rows) + [ReadOffered(s)]
    ensures !e.TryReserve?
  {
  }

  lemma TriedAfterListing(
      pending: map<UserId, int>, limit: nat, s: nat, due: seq<OrderId>, rows: seq<Row>, seen: OrderId -> set<UserId>,
      select: Select, reach: UserId -> Reach, e: Event)
    requires e in SweepEvents(pending, limit, s, due, rows, seen, select, reach) && e.TryReserve?
    ensures e in SweepRun(Released(pending, Users(rows)), limit, s, due, seen, select, reach)
  {
    var listed := Listing(s, (set o | o in due), rows) + [ReadOffered(s)];
    if e in listed {
      NobodyTriedInListing(s, (set o | o in due), rows, e);
    }
  }

  // ---- taking what was offered ----------------------------------------------------------------

  /** For a user online whose profile the order admits, `take` succeeds exactly while the offer is open. */
  lemma AdmittedTakeSucceedsIff(st: State, o: OrderId, u: UserId, profile: Profile)
    requires Inv(st) && o in st.orders && Admits(st.orders[o].job, profile)
    ensures IsOffered(st.offers, (o, u)) <==> TakeResult(st, o, u, true, profile) == TakeOk
  {
    if IsOffered(st.offers, (o, u)) {
      HolderIsNeverLimited(st, (o, u), o, true, profile);
    }
  }

  /** An open offer made to a row of a ranking can be taken by a user whose profile has not changed since. */
  lemma ChosenTakes(
      st: State, o: OrderId, rows: seq<Candidate>, online: Online, stats: UserId -> Stats, excluded: set<UserId>,
      codePrice: real, c: Candidate)
    requires Inv(st) && Followed(online) && o in st.orders && IsOffered(st.offers, (o, c.user))
    requires IsChoice(rows, st.orders[o].job, online, stats, excluded, codePrice) && c in rows
    requires st.orders[o].job.withCodes ==> TiersHeld(online.synced, online.reached)
    ensures c.user in online.synced && TakeResult(st, o, c.user, true, online.synced[c.user]) == TakeOk
    ensures
      var job, profile := st.orders[o].job, online.synced[c.user];
      job.withCodes || WholeCentPrices(PricesOf(profile)) ==> TakenPrice(job, profile, codePrice) == c.fullPrice
  {
    ChosenMayTake(rows, st.orders[o].job, online, stats, excluded, codePrice, c);
    AdmittedTakeSucceedsIff(st, o, c.user, online.synced[c.user]);
  }

  // ---- one attempt, from the ranking to the offer -----------------------------------------

  class Dispatcher {
    const db: Store.Database
    const fanout: OrderFanout
    const pack: PackRanking
    const code: CodeRanking
    const router: OnlineIndexRouter
    const barred: set<UserId>   // the moderators

    constructor (
        db: Store.Database, pack: PackRanking, code: CodeRanking, router: OnlineIndexRouter, barred: set<UserId>)
      requires pack.index == router.pack && code.index == router.code
      ensures Wired() && this.db == db && this.pack == pack && this.code == code && this.router == router
      ensures this.barred == barred
    {
      this.db, this.pack, this.code, this.router, this.barred := db, pack, code, router, barred;
      this.fanout := new OrderFanout(db);
    }

    ghost predicate Wired() {
      fanout.db == db && pack.index == router.pack && code.index == router.code
    }

    ghost function Now(): Online
      reads router, router.pack, router.code
    {
      Online(router.synced, router.reached, router.pack.listed, router.code.sets)
    }

    /** The strategy an order is ranked by. */
    method Rank(job: Job, excluded: set<UserId>, codePrice: real) returns (selected: Option<seq<UserId>>)
      requires Wired() && pack.Valid() && code.Valid()
      modifies pack, code
      ensures pack.Valid() && code.Valid()
      ensures Selects(selected, job, Now(), pack.StatsNow(), excluded, codePrice)
    {
      if job.withCodes {
        var rows := code.SelectCandidates(job.codeAmounts, excluded, codePrice);
        assert IsChoice(rows, job, Now(), pack.StatsNow(), excluded, codePrice);
        return Some(UsersOf(rows));
      }
      var rows := pack.SelectCandidates(job.amount, excluded);
      if rows.None? {
        return None;
      }
      assert IsChoice(rows.value, job, Now(), pack.StatsNow(), excluded, codePrice);
      return Some(UsersOf(rows.value));
    }

    /** `offer_order_to_next_user`: rank without the users asked before and the barred ones, then offer. */
    method OfferNext(
        order: OrderId, seen: set<UserId>, codePrice: real, reach: UserId -> Reach, ghost h: Handling)
      returns (raised: bool, ghost selected: Option<seq<UserId>>)
      requires Wired() && pack.Valid() && code.Valid() && db.Valid() && h.order == order && order in db.orders
      requires h in db.st.sweep && db.st.sweep[h] == Ready(seen)
      modifies db, pack, code
      ensures db.Valid() && pack.Valid() && code.Valid() && db.st.sweep == old(db.st).sweep - {h}
      ensures Selects(selected, old(db.orders)[order].job, Now(), pack.StatsNow(), seen + barred, codePrice)
      ensures raised == selected.None?
      ensures db.log == old(db.log) + OfferRun(old(db.pending), db.limit, h, selected, reach)
      ensures
        var got := Recipient(old(db.pending), db.limit, selected);
        var sent := got.Some? && reach(got.value).Delivered?;
        && db.orders == (if selected == Some([])
                         then old(db.orders)[order := old(db.orders)[order].(status := NoTakers)]
                         else if sent then old(db.orders)[order := old(db.orders)[order].(status := Offering)]
                         else old(db.orders))
        && db.deadlines == (if sent then old(db.deadlines) + {(order, got.value)} else old(db.deadlines))
        && (got.None? ==> db.offers == old(db.offers))
        && (got.Some? && (order, got.value) !in old(db.offers) ==>
              db.offers == old(db.offers)[(order, got.value) := if sent then Offered else Expired])
    {
      var job := db.orders[order].job;
      var ranked := Rank(job, seen + barred, codePrice);
      SelectedAreFresh(ranked, job, Now(), pack.StatsNow(), seen + barred, codePrice, seen);
      raised := fanout.OfferOrderToNextUser(order, ranked, reach, h);
      selected := ranked;
    }

    /**
     * `sweep_and_fan_out` with what the strategies select: that nobody asked before is selected, and that
     * whoever is reserved may take the order, follows from the rankings.
     */
    method Sweep(
        due: seq<OrderId>, select: Select, reach: UserId -> Reach, ghost jobs: OrderId -> Job, ghost codePrice: real,
        ghost s: nat)
      returns (rows: seq<Row>, handled: nat, ghost turns: seq<map<UserId, int>>)
      requires Wired() && router.Valid() && TiersHeld(router.synced, router.reached)
      requires ByRanking(select, jobs, Now(), pack.StatsNow(), barred, codePrice)
      requires db.Valid() && DistinctOrders(due) && forall o :: o in due ==> OpenOrder(db.st, o)
      requires forall h :: h in db.st.sweep ==> h.sweep != s
      modifies db
      ensures db.Valid() && handled == Handled(due, SeenIn(old(db.offers)), select)
      ensures db.log == old(db.log) +
        SweepEvents(old(db.pending), db.limit, s, due, rows, SeenIn(old(db.offers)), select, reach)
      ensures forall e :: e in db.log[|old(db.log)|..] && e.TryReserve? ==>
        MayTakeNow(e, SeenIn(old(db.offers)), jobs, Now(), barred)
      ensures Returns(rows, set row | row in OfferedRows(old(db.offers)) && row.0 in due)
      ensures forall u :: At(db.notTaken, u) == At(old(db.notTaken), u) + multiset(Users(rows))[u]
      ensures db.st.owedNotTaken == old(db.st).owedNotTaken && db.st.owedRelease == old(db.st).owedRelease
      ensures |turns| == handled + 1
      ensures forall i :: 0 <= i < handled ==>
        var selected := select(due[i], SeenUsers(old(db.offers), due[i]));
        var got := Recipient(turns[i], db.limit, selected);
        var sent := got.Some? && reach(got.value).Delivered?;
        && due[i] in db.orders && due[i] in old(db.orders)
        && db.orders[due[i]] == (if selected == Some([]) then old(db.orders)[due[i]].(status := NoTakers)
                                 else if sent then old(db.orders)[due[i]].(status := Offering)
                                 else old(db.orders)[due[i]])
        && (got.Some? ==>
              && (due[i], got.value) in db.offers && (due[i], got.value) !in old(db.offers)
              && db.offers[(due[i], got.value)] == if sent then Offered else Expired)
    {
      RankingExcludes(select, jobs, Now(), pack.StatsNow(), barred, codePrice);
      ghost var before, pending, seen := db.log, db.pending, SeenIn(db.offers);
      rows, handled, turns := fanout.SweepAndFanOut(due, select, reach, s);
      ghost var events := SweepEvents(pending, db.limit, s, due, rows, seen, select, reach);
      assert db.log[|before|..] == events;
      forall e | e in events && e.TryReserve? ensures MayTakeNow(e, seen, jobs, Now(), barred) {
        TriedAfterListing(pending, db.limit, s, due, rows, seen, select, reach, e);
        var left := Released(pending, Users(rows));
        SweptMayTake(
          left, db.limit, s, due, seen, select, reach, jobs, Now(), pack.StatsNow(), barred, codePrice, e);
      }
    }
  }
}
