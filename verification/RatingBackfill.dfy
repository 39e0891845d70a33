/** The rating counters that the services keep, and the ones `backfill_rating` would store instead. */
module RatingBackfill {
  import opened Records
  import opened Protocol
  import opened Counting
  import opened Safety
  import opened Runs
  import opened Books
  import opened RatingWindow
  import opened Witnesses
  import Pricing

  // ---- the repository follows the protocol ---------------------------------------------------

  /** The rating repository stores the counters of the state. */
  ghost predicate SameCounts(counts: map<UserId, Counts>, st: State) {
    forall u :: CountsOf(counts, u) == Counts(At(st.complete, u), At(st.incomplete, u), At(st.notTaken, u))
  }

  /** A completion of a pack order that was paid. */
  predicate CompletesPack(st: State, e: Event) {
    e.Complete? && CompleteResult(st, e.order, e.user, e.payee, e.codePrice).Paid? && !st.orders[e.order].job.withCodes
  }

  /** What a step adds to the counters of a user. */
  function Scored(st: State, e: Event, u: UserId): Counts {
    Counts(
      One(CompletesPack(st, e) && e.user == u),
      One(e.RateIncomplete? && e.user == u),
      if e.RateNotTaken? then multiset(e.users)[u] else 0)
  }

  ghost predicate CountersKept(st: State, after: State) {
    after.complete == st.complete && after.incomplete == st.incomplete && after.notTaken == st.notTaken
  }

  lemma UnscoredListing(st: State, e: Event)
    requires Enabled(st, e) && (IsListing(e) || IsHolding(e))
    ensures CountersKept(st, Apply(st, e))
  {
  }

  lemma UnscoredOffering(st: State, e: Event)
    requires Enabled(st, e) && (IsOffering(e) || IsMarking(e))
    ensures CountersKept(st, Apply(st, e))
  {
  }

  lemma UnscoredTake(st: State, e: Event)
    requires Enabled(st, e) && e.Take?
    ensures CountersKept(st, Apply(st, e))
  {
    if TakeResult(st, e.order, e.user, e.online, e.profile) == TakeOk {
      var price := Pricing.TakenPrice(st.orders[e.order].job, e.profile, e.codePrice);
      assert Apply(st, e) == TakeStep(st, e.order, e.user, price, e.rows);
    } else {
      assert Apply(st, e) == st;
    }
  }

  lemma UnscoredOrders(st: State, e: Event)
    requires Enabled(st, e) && (e.Create? || e.Clean?)
    ensures CountersKept(st, Apply(st, e))
  {
    match e {
      case Create(_, _) =>
      case Clean(o, rows) =>
        if o in st.orders {
          assert Apply(st, e) == CleanStep(st, o, rows);
        }
    }
  }

  lemma UnscoredRefusing(st: State, e: Event)
    requires Enabled(st, e) && IsRefusing(e)
    ensures CountersKept(st, Apply(st, e))
  {
    match e {
      case Cancel(o, u) =>
        if TakenFrom(st.orders, o, u) {
          assert Apply(st, e) == CancelStep(st, o, u);
        }
      case TimeOut(o, u) =>
        if TakenFrom(st.orders, o, u) {
          assert Apply(st, e) == TimeOutStep(st, o, u);
        }
    }
  }

  lemma UnscoredExpiring(st: State, e: Event)
    requires Enabled(st, e) && (IsExpiring(e) || e.Release?)
    ensures CountersKept(st, Apply(st, e))
  {
    match e {
      case ClaimDue(batch) => assert Apply(st, e) == ClaimStep(st, batch);
      case ExpireDue(batch, rows) => assert Apply(st, e) == ExpireDueStep(st, batch, rows);
      case Release(users) => assert Apply(st, e) == ReleaseStep(st, users);
    }
  }

  lemma Unscored(st: State, e: Event)
    requires Enabled(st, e) && !e.Complete? && !e.RateIncomplete? && !e.RateNotTaken?
    ensures CountersKept(st, Apply(st, e))
  {
    if IsListing(e) || IsHolding(e) {
      UnscoredListing(st, e);
    } else if IsOffering(e) || IsMarking(e) {
      UnscoredOffering(st, e);
    } else if e.Take? {
      UnscoredTake(st, e);
    } else if e.Create? || e.Clean? {
      UnscoredOrders(st, e);
    } else if IsRefusing(e) {
      UnscoredRefusing(st, e);
    } else {
      UnscoredExpiring(st, e);
    }
  }

  predicate CountersAre(st: State, after: State, scored: Counts, u: UserId) {
    && At(after.complete, u) == At(st.complete, u) + scored.complete
    && At(after.incomplete, u) == At(st.incomplete, u) + scored.incomplete
    && At(after.notTaken, u) == At(st.notTaken, u) + scored.notTaken
  }

  lemma PaidCounters(st: State, o: OrderId, v: UserId, amount: real, u: UserId)
    requires o in st.orders
    ensures
      CountersAre(st, PaidStep(st, o, v, amount), Counts(One(!st.orders[o].job.withCodes && v == u), 0, 0), u)
  {
    IncrementedAt(st.complete, [v], u);
  }

  lemma ScoredByComplete(st: State, e: Event, u: UserId)
    requires Enabled(st, e) && e.Complete?
    ensures CountersAre(st, Apply(st, e), Scored(st, e, u), u)
  {
    var result := CompleteResult(st, e.order, e.user, e.payee, e.codePrice);
    assert Apply(st, e) == CompleteStep(st, e.order, e.user, e.payee, e.codePrice);
    if result.Paid? {
      PaidCounters(st, e.order, e.user, result.amount, u);
    } else {
      assert CountersKept(st, CompleteStep(st, e.order, e.user, e.payee, e.codePrice));
    }
  }

  /** A step moves the counters by what it scores. */
  lemma ScoredByStep(st: State, e: Event, u: UserId)
    requires Enabled(st, e)
    ensures CountersAre(st, Apply(st, e), Scored(st, e, u), u)
  {
    if e.Complete? {
      ScoredByComplete(st, e, u);
    } else if e.RateIncomplete? {
      IncrementedAt(st.incomplete, [e.user], u);
    } else if e.RateNotTaken? {
      IncrementedAt(st.notTaken, e.users, u);
    } else {
      Unscored(st, e);
    }
  }

  /** The repository's counters have moved by what the step scores. */
  ghost predicate CountsMoved(counts: map<UserId, Counts>, counts': map<UserId, Counts>, st: State, e: Event) {
    forall u ::
      var c, scored := CountsOf(counts, u), Scored(st, e, u);
      CountsOf(counts', u)
      == Counts(c.complete + scored.complete, c.incomplete + scored.incomplete, c.notTaken + scored.notTaken)
  }

  lemma SameCountsKept(counts: map<UserId, Counts>, counts': map<UserId, Counts>, st: State, e: Event)
    requires SameCounts(counts, st) && Enabled(st, e) && CountsMoved(counts, counts', st, e)
    ensures SameCounts(counts', Apply(st, e))
  {
    var after := Apply(st, e);
    forall u
      ensures CountsOf(counts', u) == Counts(At(after.complete, u), At(after.incomplete, u), At(after.notTaken, u))
    {
      ScoredByStep(st, e, u);
    }
  }

  /** The rating call that comes with a step keeps the repository equal to the protocol's counters. */
  method Rate(rating: RatingRepository, st: State, e: Event, taken: int, closed: int)
    requires rating.Valid() && SameCounts(rating.counts, st) && Enabled(st, e)
    modifies rating
    ensures rating.Valid() && SameCounts(rating.counts, Apply(st, e))
  {
    ghost var before := rating.counts;
    RateMoves(rating, st, e, taken, closed);
    SameCountsKept(before, rating.counts, st, e);
  }

  method RateMoves(rating: RatingRepository, st: State, e: Event, taken: int, closed: int)
    requires rating.Valid()
    modifies rating
    ensures rating.Valid() && CountsMoved(old(rating.counts), rating.counts, st, e)
  {
    if CompletesPack(st, e) {
      rating.RecordCompletion(e.user, taken, closed);
    } else if e.RateIncomplete? {
      rating.RecordCancellation(e.user);
    } else if e.RateNotTaken? {
      rating.RecordNotTaken(e.users);
    }
  }

  // ---- the backfill script ---------------------------------------------------------------------

  /** Rows of somebody other than the taker, on orders that are neither pending nor offering. */
  function MissedRows(orders: map<OrderId, OrderRow>, offers: map<Row, OfferStatus>, u: UserId): set<Row> {
    set row | row in offers && row.1 == u && row.0 in orders && !IsOpen(orders[row.0].status)
      && orders[row.0].takenBy != Some(u)
  }

  /** `_load_counts`. */
  function Tally(orders: map<OrderId, OrderRow>, offers: map<Row, OfferStatus>, u: UserId): Counts {
    Counts(
      |OrdersOf(orders, u, Completed)|,
      |OrdersOf(orders, u, Cancelled)|,
      |OrdersOf(orders, u, TimedOut)| + |MissedRows(orders, offers, u)|)
  }

  /** The users the script writes: takers of any order, and users with a missed row. */
  ghost predicate InScript(orders: map<OrderId, OrderRow>, offers: map<Row, OfferStatus>, u: UserId) {
    TakenEver(orders, u) != {} || MissedRows(orders, offers, u) != {}
  }

  /** Counters after the script. */
  ghost predicate Backfilled(
      orders: map<OrderId, OrderRow>, offers: map<Row, OfferStatus>, counts: map<UserId, Counts>,
      counts': map<UserId, Counts>)
  {
    forall u ::
      CountsOf(counts', u) == if InScript(orders, offers, u) then Tally(orders, offers, u) else CountsOf(counts, u)
  }

  /** Orders that the live counters leave out. */
  function CodeOrders(orders: map<OrderId, OrderRow>, u: UserId, status: OrderStatus): set<OrderId> {
    set o | o in OrdersOf(orders, u, status) && orders[o].job.withCodes
  }

  /** Offers that ran out while their order is still open; the script does not see them yet. */
  function Early(st: State, u: UserId): set<Row> {
    set row | row in LapsedRows(st.offers, st.withdrawn, u) && row.0 in st.orders && IsOpen(st.orders[row.0].status)
  }

  /** Withdrawn offers on orders no longer open, which the script takes for missed ones. */
  function Late(st: State, u: UserId): set<Row> {
    set row | row in MissedRows(st.orders, st.offers, u) && row in st.withdrawn
  }

  lemma TallyResolved(orders: map<OrderId, OrderRow>, u: UserId, status: OrderStatus)
    ensures |OrdersOf(orders, u, status)| == |PackOrders(orders, u, status)| + |CodeOrders(orders, u, status)|
  {
    assert OrdersOf(orders, u, status) == PackOrders(orders, u, status) + CodeOrders(orders, u, status);
    assert PackOrders(orders, u, status) !! CodeOrders(orders, u, status);
  }

  lemma MissedAre(st: State, u: UserId, row: Row)
    requires Placed(st.orders, st.offers) && Owned(st.orders, st.offers) && Historic(st)
    ensures row in MissedRows(st.orders, st.offers, u) || row in Early(st, u) <==>
      row in LapsedRows(st.offers, st.withdrawn, u) || row in Late(st, u)
  {
  }

  lemma TallyMissed(st: State, u: UserId)
    requires Placed(st.orders, st.offers) && Owned(st.orders, st.offers) && Historic(st)
    ensures |MissedRows(st.orders, st.offers, u)| + |Early(st, u)|
         == |LapsedRows(st.offers, st.withdrawn, u)| + |Late(st, u)|
  {
    var missed, early := MissedRows(st.orders, st.offers, u), Early(st, u);
    var lapsed, late := LapsedRows(st.offers, st.withdrawn, u), Late(st, u);
    forall row ensures row in missed + early <==> row in lapsed + late {
      MissedAre(st, u, row);
    }
    assert missed + early == lapsed + late;
    assert missed !! early && lapsed !! late;
  }

  /**
   * The script leaves the live counters of a user it writes as they are exactly when the user completed or
   * cancelled no code order, no cancellation is still to be rated, and as many offers of the user ran out on
   * open orders as were withdrawn on closed ones or are still to be rated.
   */
  lemma BackfillKeepsIff(st: State, counts: map<UserId, Counts>, counts': map<UserId, Counts>, u: UserId)
    requires Inv(st) && Rated(st) && SameCounts(counts, st) && Backfilled(st.orders, st.offers, counts, counts')
    ensures CountsOf(counts', u) == CountsOf(counts, u) <==>
      || !InScript(st.orders, st.offers, u)
      || (&& CodeOrders(st.orders, u, Completed) == {} && CodeOrders(st.orders, u, Cancelled) == {}
          && st.owedIncomplete[u] == 0
          && |Early(st, u)| == |Late(st, u)| + st.owedNotTaken[u])
  {
    assert RatedFor(st, u);
    TallyResolved(st.orders, u, Completed);
    TallyResolved(st.orders, u, Cancelled);
    TallyMissed(st, u);
  }

  // ---- a run after which the script changes a rating ------------------------------------------

  function PaidState(limit: nat): State {
    TakenAt(OfferedState(limit)).(
      orders := map[FIRST := TakenRow(Completed)], owedRelease := multiset{TAKER},
      ledger := [Credit(TAKER, FIRST, 5.0)])
  }

  const PAID_CODES: seq<Event> := Taken1([Complete(FIRST, TAKER, CODE_TAKER, 5.0)] + [])

  lemma PaidIs(limit: nat)
    ensures
      var mid, e := TakenAt(OfferedState(limit)), Complete(FIRST, TAKER, CODE_TAKER, 5.0);
      Enabled(mid, e) && !Racy(mid, e) && Apply(mid, e) == PaidState(limit)
  {
    var mid := TakenAt(OfferedState(limit));
    assert CompleteResult(mid, FIRST, TAKER, CODE_TAKER, 5.0) == Paid(5.0);
    assert PaidStep(mid, FIRST, TAKER, 5.0) == PaidState(limit);
  }

  /** A code order is taken and completed without a race: no rating moves, but the script counts it. */
  lemma BackfillCountsCodeOrders(limit: nat)
    requires limit >= 1
    ensures
      && Goes(Init(limit), PAID_CODES, PaidState(limit), true)
      && var end := PaidState(limit);
      && InScript(end.orders, end.offers, TAKER)
      && At(end.complete, TAKER) == 0 && Tally(end.orders, end.offers, TAKER).complete == 1
  {
    var mid, end := TakenAt(OfferedState(limit)), PaidState(limit);
    PaidIs(limit);
    GoesNowhere(end);
    StepGoes(mid, Complete(FIRST, TAKER, CODE_TAKER, 5.0), end, [], end, true);
    ToTaken(limit, [Complete(FIRST, TAKER, CODE_TAKER, 5.0)] + [], end, true);
    assert OrdersOf(end.orders, TAKER, Completed) == {FIRST};
    assert FIRST in TakenEver(end.orders, TAKER);
  }
}
