/** What holds over whole runs of the protocol, under any interleaving of the processes. */
module Runs {
  import opened Records
  import opened Protocol
  import opened Counting
  import opened Safety
  import Pricing

  ghost predicate NoRace(st: State, run: seq<Event>)
    requires Legal(st, run)
    decreases |run|
  {
    run == [] || (!Racy(st, run[0]) && NoRace(Apply(st, run[0]), run[1..]))
  }

  ghost predicate AlwaysSafe(st: State, run: seq<Event>)
    requires Legal(st, run)
    decreases |run|
  {
    run == [] || (SafeStep(st, Apply(st, run[0])) && AlwaysSafe(Apply(st, run[0]), run[1..]))
  }

  /** A run is safe at every step exactly when no unguarded write in it hits a row it should not. */
  lemma {:induction false} RunSafeIffNoRace(st: State, run: seq<Event>)
    requires Inv(st) && Legal(st, run)
    ensures AlwaysSafe(st, run) <==> NoRace(st, run)
    ensures NoRace(st, run) ==> Inv(Exec(st, run))
    decreases |run|
  {
    if run != [] {
      SafeIffNotRacy(st, run[0]);
      if !Racy(st, run[0]) {
        InvKept(st, run[0]);
        RunSafeIffNoRace(Apply(st, run[0]), run[1..]);
      }
    }
  }

  // ---- the atomicity assumption ---------------------------------------------------

  /** No order is listed while a handling of it is under way. */
  predicate ListsApart(st: State, e: Event) {
    e.ListDue? ==> forall h :: h in st.sweep ==> h.order !in e.due
  }

  /**
   * No order is listed while a handling of it is under way, and no take or clean-up succeeds on such an
   * order; clean-up hits open orders.
   */
  ghost predicate Exclusive(st: State, e: Event)
    requires Enabled(st, e)
  {
    match e
    case ListDue(_, _) => ListsApart(st, e)
    case Take(o, u, online, profile, _, _) =>
      TakeResult(st, o, u, online, profile) == TakeOk ==> Unhandled(st, o)
    case Clean(o, _) =>
      o in st.orders ==> Unhandled(st, o) && (OpenOrder(st, o) || st.orders[o].status == Cancelled)
    case _ => true
  }

  predicate Unhandled(st: State, o: OrderId) {
    forall h :: h in st.sweep ==> h.order != o
  }

  ghost predicate ExclusiveRun(st: State, run: seq<Event>)
    requires Legal(st, run)
    decreases |run|
  {
    run == [] || (Exclusive(st, run[0]) && ExclusiveRun(Apply(st, run[0]), run[1..]))
  }

  /** Sweeps that wait for each other list no order twice. */
  lemma SweepsInTurnAreExclusive(st: State, s: nat, due: set<OrderId>)
    requires Enabled(st, ListDue(s, due)) && st.sweep == map[]
    ensures Exclusive(st, ListDue(s, due))
  {
  }

  /** What a handling relies on while nobody else touches its order. */
  ghost predicate PhaseFits(offers: map<Row, OfferStatus>, o: OrderId, phase: Phase) {
    match phase
    case Listed => true
    case Swept => !HasOpenOffer(offers, o)
    case Ready(seen) => !HasOpenOffer(offers, o) && SeenUsers(offers, o) <= seen
    case Reserved(seen, u) => !HasOpenOffer(offers, o) && SeenUsers(offers, o) <= seen && u !in seen
    case Recorded(u) => IsOffered(offers, (o, u))
    case Scheduled(u) => true
  }

  /** Orders in the dispatcher's hands are open, each in one handling, and as that handling left them. */
  ghost predicate InHand(st: State) {
    && (forall h :: h in st.sweep ==> OpenOrder(st, h.order) && PhaseFits(st.offers, h.order, st.sweep[h]))
    && (forall h, g :: h in st.sweep && g in st.sweep && h.order == g.order ==> h == g)
  }

  /** The offers of one order, as far as a handling cares, did not change but for expiries. */
  ghost predicate Calm(offers: map<Row, OfferStatus>, offers': map<Row, OfferStatus>, o: OrderId) {
    && (forall row: Row :: row.0 == o ==> (row in offers <==> row in offers'))
    && (forall row: Row :: row.0 == o && IsOffered(offers', row) ==> IsOffered(offers, row))
  }

  lemma CalmFits(offers: map<Row, OfferStatus>, offers': map<Row, OfferStatus>, o: OrderId, phase: Phase)
    requires PhaseFits(offers, o, phase) && Calm(offers, offers', o)
    requires phase.Recorded? ==> IsOffered(offers', (o, phase.user))
    ensures PhaseFits(offers', o, phase)
  {
    forall u | u in SeenUsers(offers', o) ensures u in SeenUsers(offers, o) {
      assert (o, u) in offers';
    }
  }

  /** Enough for InHand to carry over for handlings whose phase stays. */
  lemma StillInHand(st: State, after: State)
    requires InHand(st) && after.sweep.Keys <= st.sweep.Keys
    requires forall h :: h in after.sweep ==> OpenOrder(after, h.order) && after.sweep[h] == st.sweep[h]
    requires forall h :: h in after.sweep ==> Calm(st.offers, after.offers, h.order)
    requires forall h :: h in after.sweep && after.sweep[h].Recorded? ==>
      IsOffered(after.offers, (h.order, after.sweep[h].user))
    ensures InHand(after)
  {
    forall h | h in after.sweep ensures PhaseFits(after.offers, h.order, after.sweep[h]) {
      CalmFits(st.offers, after.offers, h.order, st.sweep[h]);
    }
  }

  /** Enough when one handling moves on and the tables stay. */
  lemma PhaseInHand(st: State, after: State, h: Handling, phase: Phase)
    requires InHand(st) && h in st.sweep && PhaseFits(st.offers, h.order, phase)
    requires after.sweep == st.sweep[h := phase] && after.offers == st.offers && after.orders == st.orders
    ensures InHand(after)
  {
  }

  lemma InHandList(st: State, s: nat, due: set<OrderId>)
    requires InHand(st) && (forall o :: o in due ==> OpenOrder(st, o)) && forall h :: h in st.sweep ==> h.order !in due
    ensures InHand(ListStep(st, s, due))
  {
  }

  lemma InHandSweepExpire(st: State, s: nat, rows: seq<Row>)
    requires InHand(st) && forall h :: h in st.sweep && h.sweep == s ==> st.sweep[h].Listed?
    requires Returns(rows, ListedRows(st, s))
    ensures InHand(SweepExpireStep(st, s, rows))
  {
    var after := SweepExpireStep(st, s, rows);
    forall h | h in st.sweep ensures PhaseFits(after.offers, h.order, after.sweep[h]) {
      if h.sweep == s {
        forall row | row in after.offers && IsOffered(after.offers, row) ensures row.0 != h.order {
          assert row !in rows && row !in ListedRows(st, s);
        }
      } else {
        forall row | row in rows ensures row.0 != h.order {
          assert Handling(s, row.0) in st.sweep;
        }
        CalmFits(st.offers, after.offers, h.order, st.sweep[h]);
      }
    }
  }

  lemma InHandRead(st: State, s: nat)
    requires InHand(st) && forall h :: h in st.sweep && h.sweep == s ==> st.sweep[h].Swept?
    ensures InHand(ReadStep(st, s))
  {
  }

  lemma InHandReserve(st: State, h: Handling, u: UserId)
    requires InHand(st) && h in st.sweep && st.sweep[h].Ready? && u !in st.sweep[h].seen
    ensures InHand(ReserveStep(st, h, u))
  {
    if Reservable(st, u) {
      PhaseInHand(st, ReserveStep(st, h, u), h, Reserved(st.sweep[h].seen, u));
    } else {
      StillInHand(st, ReserveStep(st, h, u));
    }
  }

  lemma InHandGiveUp(st: State, h: Handling)
    requires InHand(st) && h in st.sweep
    ensures InHand(GiveUpStep(st, h))
  {
    StillInHand(st, GiveUpStep(st, h));
  }

  lemma InHandSchedule(st: State, h: Handling)
    requires InHand(st) && h in st.sweep && st.sweep[h].Recorded?
    ensures InHand(ScheduleStep(st, h))
  {
    PhaseInHand(st, ScheduleStep(st, h), h, Scheduled(st.sweep[h].user));
  }

  lemma InHandRecord(st: State, h: Handling)
    requires InHand(st) && h in st.sweep && st.sweep[h].Reserved?
    ensures InHand(RecordStep(st, h))
  {
    var after := RecordStep(st, h);
    assert PhaseFits(st.offers, h.order, st.sweep[h]);
    assert (h.order, st.sweep[h].user) !in st.offers;
    forall g | g in after.sweep ensures PhaseFits(after.offers, g.order, after.sweep[g]) {
      if g != h {
        CalmFits(st.offers, after.offers, g.order, st.sweep[g]);
      }
    }
  }

  lemma InHandRollback(st: State, h: Handling)
    requires InHand(st) && h in st.sweep && st.sweep[h].Recorded?
    ensures InHand(RollbackStep(st, h))
  {
    StillInHand(st, RollbackStep(st, h));
  }

  lemma InHandMark(st: State, h: Handling, status: OrderStatus)
    requires InHand(st) && h in st.sweep && h.order in st.orders
    ensures InHand(MarkStep(st, h, status))
  {
    StillInHand(st, MarkStep(st, h, status));
  }

  lemma InHandTake(st: State, o: OrderId, u: UserId, price: real)
    requires InHand(st) && o in st.orders && Unhandled(st, o)
    ensures InHand(TakeStep(st, o, u, price, []))
  {
    StillInHand(st, TakeStep(st, o, u, price, []));
  }

  lemma InHandClean(st: State, o: OrderId, rows: seq<Row>)
    requires InHand(st) && o in st.orders && Unhandled(st, o)
    requires Returns(rows, set row | row in OfferedRows(st.offers) && row.0 == o)
    ensures InHand(CleanStep(st, o, rows))
  {
    StillInHand(st, CleanStep(st, o, rows));
  }

  lemma InHandClose(st: State, o: OrderId, u: UserId, status: OrderStatus)
    requires InHand(st) && TakenFrom(st.orders, o, u)
    ensures InHand(CloseStep(st, o, u, status))
  {
    assert Unhandled(st, o);
    StillInHand(st, CloseStep(st, o, u, status));
  }

  lemma InHandExpireDue(st: State, batch: set<Row>, rows: seq<Row>)
    requires Watched(st) && InHand(st) && batch <= st.claimed && Returns(rows, batch * OfferedRows(st.offers))
    ensures InHand(ExpireDueStep(st, batch, rows))
  {
    forall h | h in st.sweep && st.sweep[h].Recorded?
      ensures IsOffered(ExpireDueStep(st, batch, rows).offers, (h.order, st.sweep[h].user))
    {
      assert (h.order, st.sweep[h].user) !in st.claimed;
      assert PhaseFits(st.offers, h.order, st.sweep[h]);
    }
    StillInHand(st, ExpireDueStep(st, batch, rows));
  }

  lemma InHandListing(st: State, e: Event)
    requires IsListing(e) && Tables(st) && InHand(st) && Enabled(st, e) && Exclusive(st, e)
    ensures InHand(Apply(st, e))
  {
    match e {
      case ListDue(s, due) => InHandList(st, s, due);
      case SweepExpire(s, rows) => InHandSweepExpire(st, s, rows);
      case ReadOffered(s) => InHandRead(st, s);
    }
  }

  lemma InHandHolding(st: State, e: Event)
    requires IsHolding(e) && Tables(st) && InHand(st) && Enabled(st, e) && Exclusive(st, e)
    ensures InHand(Apply(st, e))
  {
    match e {
      case TryReserve(h, v) => InHandReserve(st, h, v);
      case GiveUp(h) => InHandGiveUp(st, h);
      case Schedule(h) => InHandSchedule(st, h);
    }
  }

  lemma InHandOffering(st: State, e: Event)
    requires IsOffering(e) && Tables(st) && InHand(st) && Enabled(st, e) && Exclusive(st, e)
    ensures InHand(Apply(st, e))
  {
    match e {
      case RecordOffer(h) => InHandRecord(st, h);
      case Rollback(h) => InHandRollback(st, h);
    }
  }

  lemma InHandMarking(st: State, e: Event)
    requires IsMarking(e) && Tables(st) && InHand(st) && Enabled(st, e) && Exclusive(st, e)
    ensures InHand(Apply(st, e))
  {
    match e {
      case MarkOffering(h) => InHandMark(st, h, Offering);
      case MarkNoTakers(h) => InHandMark(st, h, NoTakers);
    }
  }

  lemma InHandCreate(st: State, e: Event)
    requires e.Create? && Tables(st) && InHand(st) && Enabled(st, e) && Exclusive(st, e)
    ensures InHand(Apply(st, e))
  {
    match e {
      case Create(o, job) => StillInHand(st, Apply(st, e));
    }
  }

  lemma InHandTakeEvent(st: State, e: Event)
    requires e.Take? && Tables(st) && InHand(st) && Enabled(st, e) && Exclusive(st, e)
    ensures InHand(Apply(st, e))
  {
    match e {
      case Take(o, v, online, profile, codePrice, rows) =>
        if TakeResult(st, o, v, online, profile) == TakeOk {
          TakeExpiresNobody(st, o, v, rows);
          InHandTake(st, o, v, Pricing.TakenPrice(st.orders[o].job, profile, codePrice));
        }
    }
  }

  lemma InHandComplete(st: State, e: Event)
    requires e.Complete? && Tables(st) && InHand(st) && Enabled(st, e) && Exclusive(st, e)
    ensures InHand(Apply(st, e))
  {
    match e {
      case Complete(o, v, payee, codePrice) =>
        CompleteCloses(st, o, v, payee, codePrice);
        if TakenFrom(st.orders, o, v) {
          InHandClose(st, o, v, Completed);
        }
    }
  }

  lemma InHandRefusing(st: State, e: Event)
    requires IsRefusing(e) && Tables(st) && InHand(st) && Enabled(st, e) && Exclusive(st, e)
    ensures InHand(Apply(st, e))
  {
    match e {
      case Cancel(o, v) =>
        if TakenFrom(st.orders, o, v) {
          InHandClose(st, o, v, Cancelled);
        }
      case TimeOut(o, v) =>
        if TakenFrom(st.orders, o, v) {
          InHandClose(st, o, v, TimedOut);
        }
    }
  }

  lemma InHandCleanEvent(st: State, e: Event)
    requires e.Clean? && Tables(st) && InHand(st) && Enabled(st, e) && Exclusive(st, e)
    ensures InHand(Apply(st, e))
  {
    match e {
      case Clean(o, rows) =>
        if o in st.orders {
          InHandClean(st, o, rows);
        }
    }
  }

  lemma InHandExpiring(st: State, e: Event)
    requires IsExpiring(e) && Tables(st) && InHand(st) && Enabled(st, e) && Exclusive(st, e)
    ensures InHand(Apply(st, e))
  {
    match e {
      case ClaimDue(batch) => StillInHand(st, ClaimStep(st, batch));
      case ExpireDue(batch, rows) => InHandExpireDue(st, batch, rows);
    }
  }

  lemma InHandSettling(st: State, e: Event)
    requires IsSettling(e) && Tables(st) && InHand(st) && Enabled(st, e) && Exclusive(st, e)
    ensures InHand(Apply(st, e))
  {
  }

  /** Under the atomicity assumption the dispatcher is never surprised. */
  lemma ExclusiveIsNotRacy(st: State, e: Event)
    requires InHand(st) && Enabled(st, e) && Exclusive(st, e)
    ensures !Racy(st, e)
  {
    match e {
      case RecordOffer(h) => assert PhaseFits(st.offers, h.order, st.sweep[h]);
      case MarkNoTakers(h) => assert PhaseFits(st.offers, h.order, st.sweep[h]);
      case Rollback(h) => assert PhaseFits(st.offers, h.order, st.sweep[h]);
      case MarkOffering(h) => assert OpenOrder(st, h.order);
      case _ =>
    }
  }

  lemma InHandKept(st: State, e: Event)
    requires Tables(st) && InHand(st) && Enabled(st, e) && Exclusive(st, e)
    ensures InHand(Apply(st, e))
  {
    if IsListing(e) {
      InHandListing(st, e);
    } else if IsHolding(e) {
      InHandHolding(st, e);
    } else if IsOffering(e) {
      InHandOffering(st, e);
    } else if IsMarking(e) {
      InHandMarking(st, e);
    } else if e.Create? {
      InHandCreate(st, e);
    } else if e.Take? {
      InHandTakeEvent(st, e);
    } else if e.Complete? {
      InHandComplete(st, e);
    } else if IsRefusing(e) {
      InHandRefusing(st, e);
    } else if e.Clean? {
      InHandCleanEvent(st, e);
    } else if IsExpiring(e) {
      InHandExpiring(st, e);
    } else {
      InHandSettling(st, e);
    }
  }

  lemma {:induction false} ExclusiveRunsFrom(st: State, run: seq<Event>)
    requires Inv(st) && InHand(st) && Legal(st, run) && ExclusiveRun(st, run)
    ensures NoRace(st, run)
    decreases |run|
  {
    if run != [] {
      ExclusiveIsNotRacy(st, run[0]);
      InHandKept(st, run[0]);
      InvKept(st, run[0]);
      ExclusiveRunsFrom(Apply(st, run[0]), run[1..]);
    }
  }

  /** Every run that keeps takes, clean-ups and second handlings off the orders being dispatched is safe. */
  lemma ExclusiveRunsAreSafe(limit: nat, run: seq<Event>)
    requires Legal(Init(limit), run) && ExclusiveRun(Init(limit), run)
    ensures AlwaysSafe(Init(limit), run) && Inv(Exec(Init(limit), run))
  {
    InitInv(limit);
    ExclusiveRunsFrom(Init(limit), run);
    RunSafeIffNoRace(Init(limit), run);
  }

  // ---- consequences -------------------------------------------------------------------

  /** Open offers and taken orders of a user together never exceed MAX_ORDERS_PENDING. */
  lemma LimitHolds(st: State, u: UserId)
    requires Inv(st)
    ensures |RowsOf(st.offers, u, Offered)| + InWork(st.orders, u) <= At(st.pending, u) <= st.limit
  {
    assert CountedFor(st, u);
  }

  /** A user with an open offer has a free slot, so `take` never answers that the limit is reached. */
  lemma HolderIsNeverLimited(st: State, held: Row, order: OrderId, online: bool, profile: Profile)
    requires Inv(st) && IsOffered(st.offers, held)
    ensures TakeResult(st, order, held.1, online, profile) != LimitReached
  {
    LimitHolds(st, held.1);
    assert held in RowsOf(st.offers, held.1, Offered);
  }

  /** In a release batch, repeats included, no decrement ever meets a counter at 0. */
  lemma FloorNeverFires(st: State, users: seq<UserId>, i: nat)
    requires Inv(st) && Enabled(st, Release(users)) && i < |users|
    ensures At(Released(st.pending, users[..i]), users[i]) >= 1
  {
    var u := users[i];
    assert users == users[..i] + [u] + users[i + 1..];
    forall v ensures multiset(users[..i])[v] <= At(st.pending, v) {
      assert CountedFor(st, v);
      assert multiset(users)[v] >= multiset(users[..i])[v];
    }
    ReleasedAt(st.pending, users[..i], u);
    assert CountedFor(st, u);
    assert multiset(users)[u] >= multiset(users[..i])[u] + 1;
  }

  /** What the backfill script writes into a user's counter: its open offers plus its taken orders. */
  function BackfillCount(st: State, u: UserId): nat {
    |RowsOf(st.offers, u, Offered)| + InWork(st.orders, u)
  }

  /** Backfilling changes a user's counter exactly when a reservation or a release of it is under way. */
  lemma BackfillChangesNothingIff(st: State, u: UserId)
    requires Inv(st)
    ensures At(st.pending, u) == BackfillCount(st, u) <==> HeldFor(st.sweep, u) == {} && st.owedRelease[u] == 0
  {
    assert CountedFor(st, u);
  }

  /** Every order that was ever taken has exactly one TAKEN offer row, its taker's. */
  lemma OneTakenRow(st: State, row: Row)
    requires Inv(st) && row.0 in st.orders
    ensures (row in st.offers && st.offers[row] == OfferTaken) <==> st.orders[row.0].takenBy == Some(row.1)
  {
  }

  // ---- status only moves forward -----------------------------------------------------------

  predicate IsClosed(status: OrderStatus) {
    status in {Completed, Cancelled, NoTakers, TimedOut}
  }

  /** Over any race-free run a taker stays the taker and a closed order keeps its closing status. */
  lemma {:induction false} OrdersAreFinal(st: State, run: seq<Event>, o: OrderId)
    requires Inv(st) && Legal(st, run) && NoRace(st, run) && o in st.orders
    ensures o in Exec(st, run).orders
    ensures st.orders[o].takenBy.Some? ==> Exec(st, run).orders[o].takenBy == st.orders[o].takenBy
    ensures IsClosed(st.orders[o].status) ==> Exec(st, run).orders[o].status == st.orders[o].status
    ensures !IsOpen(st.orders[o].status) ==> !IsOpen(Exec(st, run).orders[o].status)
    decreases |run|
  {
    if run != [] {
      InvKept(st, run[0]);
      OrdersAreFinal(Apply(st, run[0]), run[1..], o);
    }
  }

  ghost predicate Takes(st: State, e: Event, o: OrderId)
    requires Enabled(st, e)
  {
    e.Take? && e.order == o && TakeResult(st, o, e.user, e.online, e.profile) == TakeOk
  }

  ghost predicate Resolves(st: State, e: Event, o: OrderId)
    requires Enabled(st, e)
  {
    && (e.Complete? || e.Cancel? || e.TimeOut?)
    && e.order == o && o in st.orders && o in Apply(st, e).orders
    && Apply(st, e).orders[o].status != st.orders[o].status
  }

  ghost function TakeCount(st: State, run: seq<Event>, o: OrderId): nat
    requires Legal(st, run)
    decreases |run|
  {
    if run == [] then 0 else One(Takes(st, run[0], o)) + TakeCount(Apply(st, run[0]), run[1..], o)
  }

  ghost function ResolveCount(st: State, run: seq<Event>, o: OrderId): nat
    requires Legal(st, run)
    decreases |run|
  {
    if run == [] then 0 else One(Resolves(st, run[0], o)) + ResolveCount(Apply(st, run[0]), run[1..], o)
  }

  lemma ResolvedIsClosed(st: State, e: Event, o: OrderId)
    requires Enabled(st, e) && Resolves(st, e, o)
    ensures st.orders[o].status == OrderStatus.Taken && IsClosed(Apply(st, e).orders[o].status)
  {
  }

  lemma TakenIsNotOpen(st: State, e: Event, o: OrderId)
    requires Enabled(st, e) && Takes(st, e, o)
    ensures OpenOrder(st, o) && o in Apply(st, e).orders && !IsOpen(Apply(st, e).orders[o].status)
  {
  }

  lemma {:induction false} TakenOnce(st: State, run: seq<Event>, o: OrderId)
    requires Inv(st) && Legal(st, run) && NoRace(st, run)
    ensures TakeCount(st, run, o) <= if o in st.orders && !IsOpen(st.orders[o].status) then 0 else 1
    decreases |run|
  {
    if run != [] {
      InvKept(st, run[0]);
      if Takes(st, run[0], o) {
        TakenIsNotOpen(st, run[0], o);
      }
      TakenOnce(Apply(st, run[0]), run[1..], o);
    }
  }

  lemma ClosedIsNotResolved(st: State, e: Event, o: OrderId)
    requires Inv(st) && Enabled(st, e) && !Racy(st, e) && o in st.orders && IsClosed(st.orders[o].status)
    ensures !Resolves(st, e, o) && o in Apply(st, e).orders && IsClosed(Apply(st, e).orders[o].status)
  {
    ForwardKept(st, e);
    if Resolves(st, e, o) {
      ResolvedIsClosed(st, e, o);
    }
  }

  lemma {:induction false} ResolvedOnce(st: State, run: seq<Event>, o: OrderId)
    requires Inv(st) && Legal(st, run) && NoRace(st, run)
    ensures ResolveCount(st, run, o) <= if o in st.orders && IsClosed(st.orders[o].status) then 0 else 1
    decreases |run|
  {
    if run != [] {
      InvKept(st, run[0]);
      if o in st.orders && IsClosed(st.orders[o].status) {
        ClosedIsNotResolved(st, run[0], o);
      } else if Resolves(st, run[0], o) {
        ResolvedIsClosed(st, run[0], o);
      }
      ResolvedOnce(Apply(st, run[0]), run[1..], o);
    }
  }

  /** An order is taken at most once, and at most one complete, cancel or time-out ever succeeds. */
  lemma TakenAndResolvedOnce(limit: nat, run: seq<Event>, o: OrderId)
    requires Legal(Init(limit), run) && NoRace(Init(limit), run)
    ensures TakeCount(Init(limit), run, o) <= 1 && ResolveCount(Init(limit), run, o) <= 1
  {
    InitInv(limit);
    TakenOnce(Init(limit), run, o);
    ResolvedOnce(Init(limit), run, o);
  }

  // ---- nobody is offered an order twice ---------------------------------------------------

  ghost predicate Inserts(st: State, e: Event, row: Row)
    requires Enabled(st, e)
  {
    e.RecordOffer? && row == (e.hand.order, st.sweep[e.hand].user)
  }

  ghost function InsertCount(st: State, run: seq<Event>, row: Row): nat
    requires Legal(st, run)
    decreases |run|
  {
    if run == [] then 0 else One(Inserts(st, run[0], row)) + InsertCount(Apply(st, run[0]), run[1..], row)
  }

  lemma RowsByDispatcher(st: State, e: Event, row: Row)
    requires ByDispatcher(e) && Enabled(st, e)
    ensures row in Apply(st, e).offers <==> row in st.offers || Inserts(st, e, row)
  {
  }

  lemma RowsByTake(st: State, e: Event, row: Row)
    requires e.Take? && Enabled(st, e)
    ensures row in Apply(st, e).offers <==> row in st.offers || Inserts(st, e, row)
  {
  }

  lemma RowsByLifecycle(st: State, e: Event, row: Row)
    requires ByLifecycle(e) && !e.Take? && Enabled(st, e)
    ensures row in Apply(st, e).offers <==> row in st.offers || Inserts(st, e, row)
  {
    if e.Complete? {
      CompleteCloses(st, e.order, e.user, e.payee, e.codePrice);
    }
  }

  lemma RowsByExpirer(st: State, e: Event, row: Row)
    requires (IsExpiring(e) || IsSettling(e)) && Enabled(st, e)
    ensures row in Apply(st, e).offers <==> row in st.offers || Inserts(st, e, row)
  {
  }

  /** The statements of the protocol delete no offer row, and only RecordOffer adds one. */
  lemma RowsArePermanent(st: State, e: Event, row: Row)
    requires Enabled(st, e)
    ensures row in Apply(st, e).offers <==> row in st.offers || Inserts(st, e, row)
  {
    if ByDispatcher(e) {
      RowsByDispatcher(st, e, row);
    } else if e.Take? {
      RowsByTake(st, e, row);
    } else if ByLifecycle(e) {
      RowsByLifecycle(st, e, row);
    } else {
      RowsByExpirer(st, e, row);
    }
  }

  lemma SeenGrow(offers: map<Row, OfferStatus>, offers': map<Row, OfferStatus>, o: OrderId, extra: set<UserId>)
    requires forall u :: (o, u) in offers' <==> (o, u) in offers || u in extra
    ensures SeenUsers(offers', o) == SeenUsers(offers, o) + extra
  {
  }

  lemma SeenAfter(st: State, e: Event, o: OrderId)
    requires Enabled(st, e)
    ensures SeenUsers(Apply(st, e).offers, o) ==
      SeenUsers(st.offers, o) + if e.RecordOffer? && e.hand.order == o then {st.sweep[e.hand].user} else {}
  {
    var offers := Apply(st, e).offers;
    var extra := if e.RecordOffer? && e.hand.order == o then {st.sweep[e.hand].user} else {};
    forall u ensures (o, u) in offers <==> (o, u) in st.offers || u in extra {
      RowsArePermanent(st, e, (o, u));
    }
    SeenGrow(st.offers, offers, o, extra);
  }

  /** The run lists no order while a handling of it is under way; takes and clean-ups may fall anywhere. */
  ghost predicate SweepsApart(st: State, run: seq<Event>)
    requires Legal(st, run)
    decreases |run|
  {
    run == [] || (ListsApart(st, run[0]) && SweepsApart(Apply(st, run[0]), run[1..]))
  }

  /** A handling about to offer excludes everybody with a row, whatever the status of the row. */
  ghost predicate Excludes(offers: map<Row, OfferStatus>, o: OrderId, phase: Phase) {
    match phase
    case Ready(seen) => SeenUsers(offers, o) <= seen
    case Reserved(seen, u) => SeenUsers(offers, o) <= seen && u !in seen
    case _ => true
  }

  /** Each order is in one handling at most, and that one excludes whom it must. */
  ghost predicate OneHand(st: State) {
    && (forall h, g :: h in st.sweep && g in st.sweep && h.order == g.order ==> h == g)
    && (forall h :: h in st.sweep ==> Excludes(st.offers, h.order, st.sweep[h]))
  }

  /** What became of a handling's phase in a step. */
  ghost predicate PhaseMoved(st: State, after: State, h: Handling)
    requires h in after.sweep
  {
    match after.sweep[h]
    case Ready(seen) =>
      seen == SeenUsers(st.offers, h.order) || (h in st.sweep && st.sweep[h] == after.sweep[h])
    case Reserved(seen, u) =>
      h in st.sweep && (st.sweep[h] == after.sweep[h] || (st.sweep[h] == Ready(seen) && u !in seen))
    case _ => true
  }

  lemma PhaseOnListing(st: State, e: Event, h: Handling)
    requires Enabled(st, e) && IsListing(e) && h in Apply(st, e).sweep
    ensures PhaseMoved(st, Apply(st, e), h)
    ensures h in st.sweep || (e.ListDue? && h.sweep == e.sweep && h.order in e.due)
  {
  }

  lemma PhaseOnOffering(st: State, e: Event, h: Handling)
    requires Enabled(st, e) && (IsHolding(e) || IsOffering(e) || IsMarking(e)) && h in Apply(st, e).sweep
    ensures PhaseMoved(st, Apply(st, e), h) && h in st.sweep
    ensures e.RecordOffer? && e.hand == h ==> Apply(st, e).sweep[h].Recorded?
  {
  }

  lemma SweepAfterTake(st: State, e: Event)
    requires Enabled(st, e) && e.Take?
    ensures Apply(st, e).sweep == st.sweep
  {
    if TakeResult(st, e.order, e.user, e.online, e.profile) == TakeOk {
      var price := Pricing.TakenPrice(st.orders[e.order].job, e.profile, e.codePrice);
      assert Apply(st, e) == TakeStep(st, e.order, e.user, price, e.rows);
    }
  }

  lemma SweepAfterLifecycle(st: State, e: Event)
    requires Enabled(st, e) && ByLifecycle(e) && !e.Take?
    ensures Apply(st, e).sweep == st.sweep
  {
    match e {
      case Create(_, _) =>
      case Complete(o, u, payee, codePrice) => CompleteCloses(st, o, u, payee, codePrice);
      case Cancel(o, u) =>
        if TakenFrom(st.orders, o, u) {
          assert Apply(st, e) == CancelStep(st, o, u);
        }
      case TimeOut(o, u) =>
        if TakenFrom(st.orders, o, u) {
          assert Apply(st, e) == TimeOutStep(st, o, u);
        }
      case Clean(o, rows) =>
        if o in st.orders {
          assert Apply(st, e) == CleanStep(st, o, rows);
        }
    }
  }

  lemma SweepAfterOthers(st: State, e: Event)
    requires Enabled(st, e) && (IsExpiring(e) || IsSettling(e))
    ensures Apply(st, e).sweep == st.sweep
  {
    match e {
      case ClaimDue(batch) => assert Apply(st, e) == ClaimStep(st, batch);
      case ExpireDue(batch, rows) => assert Apply(st, e) == ExpireDueStep(st, batch, rows);
      case RateNotTaken(users) => assert Apply(st, e) == RateNotTakenStep(st, users);
      case RateIncomplete(u) => assert Apply(st, e) == RateIncompleteStep(st, u);
      case Release(users) => assert Apply(st, e) == ReleaseStep(st, users);
    }
  }

  lemma PhaseOnStep(st: State, e: Event, h: Handling)
    requires Enabled(st, e) && h in Apply(st, e).sweep
    ensures PhaseMoved(st, Apply(st, e), h)
    ensures h in st.sweep || (e.ListDue? && h.sweep == e.sweep && h.order in e.due)
    ensures e.RecordOffer? && e.hand == h ==> Apply(st, e).sweep[h].Recorded?
  {
    if IsListing(e) {
      PhaseOnListing(st, e, h);
    } else if ByDispatcher(e) {
      PhaseOnOffering(st, e, h);
    } else if e.Take? {
      SweepAfterTake(st, e);
    } else if ByLifecycle(e) {
      SweepAfterLifecycle(st, e);
    } else {
      SweepAfterOthers(st, e);
    }
  }

  /** Whatever else happens in between, a handling that has its order to itself goes on excluding. */
  lemma OneHandKept(st: State, e: Event)
    requires OneHand(st) && Enabled(st, e) && ListsApart(st, e)
    ensures OneHand(Apply(st, e))
  {
    var after := Apply(st, e);
    forall h | h in after.sweep
      ensures h in st.sweep || (e.ListDue? && h.sweep == e.sweep && h.order in e.due)
      ensures Excludes(after.offers, h.order, after.sweep[h])
    {
      PhaseOnStep(st, e, h);
      SeenAfter(st, e, h.order);
    }
  }

  lemma InsertIsNew(st: State, e: Event, row: Row)
    requires OneHand(st) && Enabled(st, e) && Inserts(st, e, row)
    ensures row !in st.offers
  {
    assert Excludes(st.offers, row.0, st.sweep[e.hand]);
  }

  /**
   * In any run that lists no order twice at a time a user is offered a given order at most once, because
   * the handling has read who was asked before; the races do not matter here.
   */
  lemma {:induction false} NobodyOfferedTwice(st: State, run: seq<Event>, row: Row)
    requires OneHand(st) && Legal(st, run) && SweepsApart(st, run)
    ensures InsertCount(st, run, row) + One(row in st.offers) == One(row in Exec(st, run).offers)
    decreases |run|
  {
    if run != [] {
      OneHandKept(st, run[0]);
      RowsArePermanent(st, run[0], row);
      if Inserts(st, run[0], row) {
        InsertIsNew(st, run[0], row);
      }
      NobodyOfferedTwice(Apply(st, run[0]), run[1..], row);
    }
  }

  ghost function OfferCount(st: State, run: seq<Event>, o: OrderId): nat
    requires Legal(st, run)
    decreases |run|
  {
    if run == [] then 0
    else One(run[0].RecordOffer? && run[0].hand.order == o) + OfferCount(Apply(st, run[0]), run[1..], o)
  }

  /** Every offer recorded by a handling with its order to itself uses up one user not asked before. */
  lemma OfferUsesUpAUser(st: State, e: Event, o: OrderId)
    requires OneHand(st) && Enabled(st, e)
    ensures |SeenUsers(Apply(st, e).offers, o)| == |SeenUsers(st.offers, o)| + One(e.RecordOffer? && e.hand.order == o)
    ensures SeenUsers(st.offers, o) <= SeenUsers(Apply(st, e).offers, o)
  {
    SeenAfter(st, e, o);
    if e.RecordOffer? && e.hand.order == o {
      InsertIsNew(st, e, (o, st.sweep[e.hand].user));
      assert st.sweep[e.hand].user !in SeenUsers(st.offers, o);
    }
  }

  /** The offers of an order in such a run are as many as the users newly asked. */
  lemma {:induction false} OffersAreUsersAsked(st: State, run: seq<Event>, o: OrderId)
    requires OneHand(st) && Legal(st, run) && SweepsApart(st, run)
    ensures OfferCount(st, run, o) == |SeenUsers(Exec(st, run).offers, o)| - |SeenUsers(st.offers, o)|
    decreases |run|
  {
    if run != [] {
      OneHandKept(st, run[0]);
      OfferUsesUpAUser(st, run[0], o);
      OffersAreUsersAsked(Apply(st, run[0]), run[1..], o);
    }
  }

  lemma SubsetSize<T>(a: set<T>, b: set<T>)
    requires a <= b
    ensures |a| <= |b|
  {
    assert b == a + (b - a);
  }

  /** An order gets at most as many offers as there are users. */
  lemma OffersBoundedByUsers(limit: nat, run: seq<Event>, o: OrderId, users: set<UserId>)
    requires Legal(Init(limit), run) && SweepsApart(Init(limit), run)
    requires forall row :: row in Exec(Init(limit), run).offers ==> row.1 in users
    ensures OfferCount(Init(limit), run, o) <= |users|
  {
    OffersAreUsersAsked(Init(limit), run, o);
    assert SeenUsers(Init(limit).offers, o) == {};
    SubsetSize(SeenUsers(Exec(Init(limit), run).offers, o), users);
  }
}
