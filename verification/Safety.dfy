/**
 * What every step of the protocol keeps, and exactly which steps break it. Some writes of the code carry
 * no guard on the state they assume; a step is racy when the guard it lacks would have refused it.
 */
module Safety {
  import opened Records
  import opened Protocol
  import opened Counting
  import Pricing

  // ---- the guarantees -----------------------------------------------------------

  /** The counter of a user is its open offers, its taken orders and what the processes still owe. */
  ghost predicate CountedFor(st: State, u: UserId) {
    At(st.pending, u)
    == |RowsOf(st.offers, u, Offered)| + InWork(st.orders, u) + |HeldFor(st.sweep, u)| + st.owedRelease[u]
  }

  ghost predicate Counted(st: State) {
    forall u :: CountedFor(st, u)
  }

  /** An order has at most one open offer, and only while it is pending or offering. */
  ghost predicate Placed(orders: map<OrderId, OrderRow>, offers: map<Row, OfferStatus>) {
    && (forall row :: row in offers ==> row.0 in orders)
    && (forall row :: IsOffered(offers, row) ==> IsOpen(orders[row.0].status))
    && (forall a, b :: IsOffered(offers, a) && IsOffered(offers, b) && a.0 == b.0 ==> a == b)
  }

  predicate StatusStep(a: OrderStatus, b: OrderStatus) {
    || a == b
    || (a == Pending && b in {Offering, OrderStatus.Taken, NoTakers, Cancelled})
    || (a == Offering && b in {OrderStatus.Taken, NoTakers, Cancelled})
    || (a == OrderStatus.Taken && b in {Completed, Cancelled, TimedOut})
  }

  /** Orders are never dropped, status only moves forward, and the taker never changes. */
  ghost predicate Forward(before: map<OrderId, OrderRow>, after: map<OrderId, OrderRow>) {
    forall o :: o in before ==>
      && o in after
      && StatusStep(before[o].status, after[o].status)
      && (before[o].takenBy.Some? ==> after[o].takenBy == before[o].takenBy)
      && after[o].job == before[o].job
  }

  /** What a step owes to the users of the system. */
  ghost predicate SafeStep(before: State, after: State) {
    Counted(after) && Placed(after.orders, after.offers) && Forward(before.orders, after.orders)
  }

  predicate HasOpenOffer(offers: map<Row, OfferStatus>, order: OrderId) {
    exists row :: row in offers && IsOffered(offers, row) && row.0 == order
  }

  /** The guard the unguarded writes lack, negated. */
  ghost predicate Racy(st: State, e: Event)
    requires Enabled(st, e)
  {
    match e
    case RecordOffer(h) =>
      || !OpenOrder(st, h.order)
      || (h.order, st.sweep[h].user) in st.offers
      || HasOpenOffer(st.offers, h.order)
    case MarkOffering(h) => !OpenOrder(st, h.order)
    case MarkNoTakers(h) =>
      st.orders[h.order].status != NoTakers && (!OpenOrder(st, h.order) || HasOpenOffer(st.offers, h.order))
    case Rollback(h) => !IsOffered(st.offers, (h.order, st.sweep[h].user))
    case Clean(o, _) => o in st.orders && !OpenOrder(st, o) && st.orders[o].status != Cancelled
    case _ => false
  }

  // ---- the inductive invariant ----------------------------------------------------

  /** Handlings are of known orders, and an offer being delivered is its handling's own. */
  ghost predicate Tracked(st: State) {
    && (forall h :: h in st.sweep ==> h.order in st.orders)
    && (forall h :: h in st.sweep && st.sweep[h].Recorded? ==> (h.order, st.sweep[h].user) in st.offers)
    && (forall h, g | h in st.sweep && g in st.sweep  ::
          st.sweep[h].Recorded? && st.sweep[g] == st.sweep[h] && h.order == g.order ==> h == g)
  }

  /** Orders that were taken and TAKEN offer rows correspond one to one. */
  ghost predicate Owned(orders: map<OrderId, OrderRow>, offers: map<Row, OfferStatus>) {
    && (forall o :: o in orders ==>
          && (IsOpen(orders[o].status) || orders[o].status == NoTakers ==> orders[o].takenBy.None?)
          && (orders[o].status in {OrderStatus.Taken, Completed, TimedOut} ==> orders[o].takenBy.Some?)
          && (orders[o].takenBy.Some? ==>
                var row := (o, orders[o].takenBy.value); row in offers && offers[row] == OfferTaken))
    && (forall row :: row in offers ==>
          && offers[row] != Declined
          && (offers[row] == OfferTaken ==> row.0 in orders && orders[row.0].takenBy == Some(row.1)))
  }

  ghost predicate Bounded(st: State) {
    forall u :: At(st.pending, u) <= st.limit
  }

  /** Some handling is delivering the offer. */
  predicate BeingDelivered(sweep: map<Handling, Phase>, row: Row) {
    exists h :: h in sweep && h.order == row.0 && sweep[h] == Recorded(row.1)
  }

  /** No open offer is stranded: a deadline, the expirer or a handling still has it in hand. */
  ghost predicate Watched(st: State) {
    && (forall row :: row in st.deadlines || row in st.claimed ==> row in st.offers)
    && (forall row :: IsOffered(st.offers, row) ==>
          row in st.deadlines || row in st.claimed || BeingDelivered(st.sweep, row))
    && (forall h :: h in st.sweep && st.sweep[h].Recorded? ==>
          (h.order, st.sweep[h].user) !in st.deadlines && (h.order, st.sweep[h].user) !in st.claimed)
  }

  ghost predicate Tables(st: State) {
    Placed(st.orders, st.offers) && Tracked(st) && Owned(st.orders, st.offers) && Watched(st)
  }

  ghost predicate Inv(st: State) {
    Counted(st) && Tables(st) && Bounded(st)
  }

  lemma InitInv(limit: nat)
    ensures Inv(Init(limit))
  {
    var st := Init(limit);
    forall u ensures CountedFor(st, u) {
      assert RowsOf(st.offers, u, Offered) == {} && OrdersOf(st.orders, u, OrderStatus.Taken) == {};
      assert HeldFor(st.sweep, u) == {};
    }
  }

  // ---- counters ---------------------------------------------------------------------

  lemma LapseCounts(st: State, rows: seq<Row>, u: UserId)
    requires CountedFor(st, u)
    requires Distinct(rows) && forall row :: row in rows ==> IsOffered(st.offers, row)
    ensures CountedFor(Lapse(st, rows), u)
  {
    ExpireCounts(st.offers, rows, u);
  }

  /** Bookkeeping that leaves the reservations alone changes no count. */
  lemma SameHeldCounts(st: State, after: State, u: UserId)
    requires CountedFor(st, u)
    requires forall h :: h in st.sweep && st.sweep[h].Reserved? ==> h in after.sweep && after.sweep[h] == st.sweep[h]
    requires forall h :: h in after.sweep && after.sweep[h].Reserved? ==> h in st.sweep && st.sweep[h] == after.sweep[h]
    requires after.pending == st.pending && after.offers == st.offers
    requires after.orders == st.orders && after.owedRelease == st.owedRelease
    ensures CountedFor(after, u)
  {
    HeldSame(st.sweep, after.sweep, u);
  }

  lemma ListCounts(st: State, s: nat, due: set<OrderId>, u: UserId)
    requires CountedFor(st, u) && forall h :: h in st.sweep ==> h.sweep != s
    ensures CountedFor(ListStep(st, s, due), u)
  {
    SameHeldCounts(st, ListStep(st, s, due), u);
  }

  lemma SweepExpireCounts(st: State, s: nat, rows: seq<Row>, u: UserId)
    requires CountedFor(st, u) && forall h :: h in st.sweep && h.sweep == s ==> st.sweep[h].Listed?
    requires Distinct(rows) && forall row :: row in rows ==> IsOffered(st.offers, row)
    ensures CountedFor(SweepExpireStep(st, s, rows), u)
  {
    LapseCounts(st, rows, u);
    SameHeldCounts(Lapse(st, rows), SweepExpireStep(st, s, rows), u);
  }

  lemma ReadCounts(st: State, s: nat, u: UserId)
    requires CountedFor(st, u) && forall h :: h in st.sweep && h.sweep == s ==> st.sweep[h].Swept?
    ensures CountedFor(ReadStep(st, s), u)
  {
    SameHeldCounts(st, ReadStep(st, s), u);
  }

  lemma ReserveCounts(st: State, h: Handling, v: UserId, u: UserId)
    requires CountedFor(st, u) && h in st.sweep && st.sweep[h].Ready?
    ensures CountedFor(ReserveStep(st, h, v), u)
  {
    HeldUpdate(st.sweep, h, Reserved(st.sweep[h].seen, v), u);
  }

  lemma GiveUpCounts(st: State, h: Handling, u: UserId)
    requires CountedFor(st, u) && h in st.sweep && st.sweep[h].Ready?
    ensures CountedFor(GiveUpStep(st, h), u)
  {
    SameHeldCounts(st, GiveUpStep(st, h), u);
  }

  /** Recording an offer counts right for its user exactly when the row is new. */
  lemma RecordCounts(st: State, h: Handling, u: UserId)
    requires CountedFor(st, u) && h in st.sweep && st.sweep[h].Reserved?
    ensures CountedFor(RecordStep(st, h), u) <==> (h.order, st.sweep[h].user) !in st.offers || u != st.sweep[h].user
  {
    var row := (h.order, st.sweep[h].user);
    RowUpdate(st.offers, row, Offered, u, Offered);
    HeldUpdate(st.sweep, h, Recorded(row.1), u);
  }

  /** The rollback releases its user either way, so it counts right only if the row was still open. */
  lemma RollbackCounts(st: State, h: Handling, u: UserId)
    requires CountedFor(st, u) && h in st.sweep && st.sweep[h].Recorded?
    ensures CountedFor(RollbackStep(st, h), u) <==>
      IsOffered(st.offers, (h.order, st.sweep[h].user)) || u != st.sweep[h].user
  {
    var row := (h.order, st.sweep[h].user);
    HeldSame(st.sweep, st.sweep - {h}, u);
    if IsOffered(st.offers, row) {
      ExpireCounts(st.offers, [row], u);
      assert Users([row]) == [row.1];
    } else {
      assert WithExpired(st.offers, []) == st.offers;
    }
  }

  lemma ScheduleCounts(st: State, h: Handling, u: UserId)
    requires CountedFor(st, u) && h in st.sweep && st.sweep[h].Recorded?
    ensures CountedFor(ScheduleStep(st, h), u)
  {
    SameHeldCounts(st, ScheduleStep(st, h), u);
  }

  lemma MarkCounts(st: State, h: Handling, status: OrderStatus, u: UserId)
    requires CountedFor(st, u) && h in st.sweep && !st.sweep[h].Reserved?
    requires h.order in st.orders && st.orders[h.order].status != OrderStatus.Taken && status != OrderStatus.Taken
    ensures CountedFor(MarkStep(st, h, status), u)
  {
    OrderUpdate(st.orders, h.order, st.orders[h.order].(status := status), u, OrderStatus.Taken);
    HeldSame(st.sweep, st.sweep - {h}, u);
  }

  lemma TakeCounts(st: State, o: OrderId, v: UserId, price: real, u: UserId)
    requires CountedFor(st, u) && OpenOrder(st, o) && IsOffered(st.offers, (o, v))
    ensures CountedFor(TakeStep(st, o, v, price, []), u)
  {
    var taken := OrderRow(st.orders[o].job, OrderStatus.Taken, Some(v), Some(price));
    RowUpdate(st.offers, (o, v), OfferTaken, u, Offered);
    OrderUpdate(st.orders, o, taken, u, OrderStatus.Taken);
    assert WithExpired(st.offers[(o, v) := OfferTaken], []) == st.offers[(o, v) := OfferTaken];
  }

  lemma CloseCounts(st: State, o: OrderId, v: UserId, status: OrderStatus, u: UserId)
    requires CountedFor(st, u) && TakenFrom(st.orders, o, v) && status != OrderStatus.Taken
    ensures CountedFor(CloseStep(st, o, v, status), u)
  {
    OrderUpdate(st.orders, o, st.orders[o].(status := status), u, OrderStatus.Taken);
  }

  lemma CreateCounts(st: State, o: OrderId, job: Job, u: UserId)
    requires CountedFor(st, u) && o !in st.orders
    ensures CountedFor(st.(orders := st.orders[o := OrderRow(job, Pending, None, None)]), u)
  {
    OrderUpdate(st.orders, o, OrderRow(job, Pending, None, None), u, OrderStatus.Taken);
  }

  /** Cleaning up a taken order loses the unit its taker's counter holds. */
  lemma CleanCounts(st: State, o: OrderId, rows: seq<Row>, u: UserId)
    requires CountedFor(st, u) && o in st.orders
    requires Distinct(rows) && forall row :: row in rows ==> IsOffered(st.offers, row)
    ensures CountedFor(CleanStep(st, o, rows), u) <==> !TakenFrom(st.orders, o, u)
  {
    OrderUpdate(st.orders, o, st.orders[o].(status := Cancelled), u, OrderStatus.Taken);
    ExpireCounts(st.offers, rows, u);
  }

  lemma ReleaseCounts(st: State, users: seq<UserId>, u: UserId)
    requires Counted(st) && multiset(users) <= st.owedRelease
    ensures CountedFor(ReleaseStep(st, users), u)
    ensures At(Released(st.pending, users), u) <= At(st.pending, u)
  {
    forall v ensures multiset(users)[v] <= At(st.pending, v) {
      assert CountedFor(st, v);
    }
    ReleasedAt(st.pending, users, u);
    assert CountedFor(st, u);
  }

  lemma SameCount(a: State, b: State, u: UserId)
    requires CountedFor(a, u) && a.pending == b.pending && a.offers == b.offers && a.orders == b.orders
    requires a.sweep == b.sweep && a.owedRelease == b.owedRelease
    ensures CountedFor(b, u)
  {
  }

  lemma ReturnedAreOffered(st: State, rows: seq<Row>, hit: set<Row>)
    requires Returns(rows, hit) && hit <= OfferedRows(st.offers)
    ensures Distinct(rows) && forall row :: row in rows ==> IsOffered(st.offers, row)
  {
  }

  lemma CountListing(st: State, e: Event, u: UserId)
    requires IsListing(e) && Counted(st) && Tables(st) && Enabled(st, e) && !Racy(st, e)
    ensures CountedFor(Apply(st, e), u)
  {
    assert CountedFor(st, u);
    match e {
      case ListDue(s, due) => ListCounts(st, s, due, u);
      case SweepExpire(s, rows) =>
        ReturnedAreOffered(st, rows, ListedRows(st, s));
        SweepExpireCounts(st, s, rows, u);
      case ReadOffered(s) => ReadCounts(st, s, u);
    }
  }

  lemma CountHolding(st: State, e: Event, u: UserId)
    requires IsHolding(e) && Counted(st) && Tables(st) && Enabled(st, e) && !Racy(st, e)
    ensures CountedFor(Apply(st, e), u)
  {
    assert CountedFor(st, u);
    match e {
      case TryReserve(h, v) => ReserveCounts(st, h, v, u);
      case GiveUp(h) => GiveUpCounts(st, h, u);
      case Schedule(h) => ScheduleCounts(st, h, u);
    }
  }

  lemma CountOffering(st: State, e: Event, u: UserId)
    requires IsOffering(e) && Counted(st) && Tables(st) && Enabled(st, e) && !Racy(st, e)
    ensures CountedFor(Apply(st, e), u)
  {
    assert CountedFor(st, u);
    match e {
      case RecordOffer(h) => RecordCounts(st, h, u);
      case Rollback(h) => RollbackCounts(st, h, u);
    }
  }

  lemma CountMarking(st: State, e: Event, u: UserId)
    requires IsMarking(e) && Counted(st) && Tables(st) && Enabled(st, e) && !Racy(st, e)
    ensures CountedFor(Apply(st, e), u)
  {
    assert CountedFor(st, u);
    match e {
      case MarkOffering(h) => MarkCounts(st, h, Offering, u);
      case MarkNoTakers(h) => MarkCounts(st, h, NoTakers, u);
    }
  }

  lemma CountCreate(st: State, e: Event, u: UserId)
    requires e.Create? && Counted(st) && Tables(st) && Enabled(st, e) && !Racy(st, e)
    ensures CountedFor(Apply(st, e), u)
  {
    assert CountedFor(st, u);
    match e {
      case Create(o, job) => CreateCounts(st, o, job, u);
    }
  }

  lemma CountTake(st: State, e: Event, u: UserId)
    requires e.Take? && Counted(st) && Tables(st) && Enabled(st, e) && !Racy(st, e)
    ensures CountedFor(Apply(st, e), u)
  {
    assert CountedFor(st, u);
    match e {
      case Take(o, v, online, profile, codePrice, rows) =>
        if TakeResult(st, o, v, online, profile) == TakeOk {
          TakeExpiresNobody(st, o, v, rows);
          TakeCounts(st, o, v, Pricing.TakenPrice(st.orders[o].job, profile, codePrice), u);
        }
    }
  }

  lemma CountComplete(st: State, e: Event, u: UserId)
    requires e.Complete? && Counted(st) && Tables(st) && Enabled(st, e) && !Racy(st, e)
    ensures CountedFor(Apply(st, e), u)
  {
    assert CountedFor(st, u);
    match e {
      case Complete(o, v, payee, codePrice) =>
        CompleteCloses(st, o, v, payee, codePrice);
        if CompleteStep(st, o, v, payee, codePrice) != st {
          CloseCounts(st, o, v, Completed, u);
          SameCount(CloseStep(st, o, v, Completed), CompleteStep(st, o, v, payee, codePrice), u);
        }
    }
  }

  lemma CountRefusing(st: State, e: Event, u: UserId)
    requires IsRefusing(e) && Counted(st) && Tables(st) && Enabled(st, e) && !Racy(st, e)
    ensures CountedFor(Apply(st, e), u)
  {
    assert CountedFor(st, u);
    match e {
      case Cancel(o, v) =>
        if TakenFrom(st.orders, o, v) {
          CloseCounts(st, o, v, Cancelled, u);
        }
      case TimeOut(o, v) =>
        if TakenFrom(st.orders, o, v) {
          CloseCounts(st, o, v, TimedOut, u);
        }
    }
  }

  lemma CountClean(st: State, e: Event, u: UserId)
    requires e.Clean? && Counted(st) && Tables(st) && Enabled(st, e) && !Racy(st, e)
    ensures CountedFor(Apply(st, e), u)
  {
    assert CountedFor(st, u);
    match e {
      case Clean(o, rows) =>
        if o in st.orders {
          ReturnedAreOffered(st, rows, set row | row in OfferedRows(st.offers) && row.0 == o);
          CleanCounts(st, o, rows, u);
        }
    }
  }

  lemma CountExpiring(st: State, e: Event, u: UserId)
    requires IsExpiring(e) && Counted(st) && Tables(st) && Enabled(st, e) && !Racy(st, e)
    ensures CountedFor(Apply(st, e), u)
  {
    assert CountedFor(st, u);
    match e {
      case ClaimDue(batch) =>
      case ExpireDue(batch, rows) =>
        ReturnedAreOffered(st, rows, batch * OfferedRows(st.offers));
        LapseCounts(st, rows, u);
    }
  }

  lemma CountSettling(st: State, e: Event, u: UserId)
    requires IsSettling(e) && Counted(st) && Tables(st) && Enabled(st, e) && !Racy(st, e)
    ensures CountedFor(Apply(st, e), u)
  {
    assert CountedFor(st, u);
    match e {
      case RateNotTaken(users) =>
      case RateIncomplete(v) =>
      case Release(users) => ReleaseCounts(st, users, u);
    }
  }

  lemma CountKept(st: State, e: Event, u: UserId)
    requires Counted(st) && Tables(st) && Enabled(st, e) && !Racy(st, e)
    ensures CountedFor(Apply(st, e), u)
  {
    if IsListing(e) {
      CountListing(st, e, u);
    } else if IsHolding(e) {
      CountHolding(st, e, u);
    } else if IsOffering(e) {
      CountOffering(st, e, u);
    } else if IsMarking(e) {
      CountMarking(st, e, u);
    } else if e.Create? {
      CountCreate(st, e, u);
    } else if e.Take? {
      CountTake(st, e, u);
    } else if e.Complete? {
      CountComplete(st, e, u);
    } else if IsRefusing(e) {
      CountRefusing(st, e, u);
    } else if e.Clean? {
      CountClean(st, e, u);
    } else if IsExpiring(e) {
      CountExpiring(st, e, u);
    } else {
      CountSettling(st, e, u);
    }
  }

  lemma BoundedKept(st: State, e: Event)
    requires Counted(st) && Bounded(st) && Enabled(st, e)
    ensures Bounded(Apply(st, e))
  {
    forall u ensures At(Apply(st, e).pending, u) <= st.limit {
      assert At(st.pending, u) <= st.limit;
      if e.Release? {
        ReleaseCounts(st, e.users, u);
      }
    }
  }

  // ---- tables -------------------------------------------------------------------------

  /** `after` lists the same offers, and none of them is newly open. */
  ghost predicate NoNewOffers(offers: map<Row, OfferStatus>, after: map<Row, OfferStatus>) {
    && after.Keys == offers.Keys
    && forall row :: IsOffered(after, row) ==> IsOffered(offers, row)
  }

  lemma PlacedKept(
      orders: map<OrderId, OrderRow>, offers: map<Row, OfferStatus>,
      orders': map<OrderId, OrderRow>, offers': map<Row, OfferStatus>)
    requires Placed(orders, offers) && NoNewOffers(offers, offers') && orders.Keys <= orders'.Keys
    requires forall row :: IsOffered(offers', row) && row.0 in orders' ==> IsOpen(orders'[row.0].status)
    ensures Placed(orders', offers')
  {
    forall row | IsOffered(offers', row) ensures IsOpen(orders'[row.0].status) {
      assert row.0 in orders;
    }
  }

  lemma TrackedKept(st: State, after: State)
    requires Tracked(st) && st.offers.Keys <= after.offers.Keys && st.orders.Keys <= after.orders.Keys
    requires after.sweep.Keys <= st.sweep.Keys
    requires forall h :: h in after.sweep && after.sweep[h].Recorded? ==> after.sweep[h] == st.sweep[h]
    ensures Tracked(after)
  {
  }

  lemma WatchedAfter(st: State, after: State)
    requires Watched(st) && NoNewOffers(st.offers, after.offers)
    requires after.deadlines == st.deadlines && after.claimed == st.claimed
    requires forall h ::
      h in st.sweep && st.sweep[h].Recorded? && IsOffered(after.offers, (h.order, st.sweep[h].user)) ==>
      h in after.sweep && after.sweep[h] == st.sweep[h]
    requires forall h :: h in after.sweep && after.sweep[h].Recorded? ==> h in st.sweep && after.sweep[h] == st.sweep[h]
    ensures Watched(after)
  {
    forall row | IsOffered(after.offers, row)
      ensures row in after.deadlines || row in after.claimed || BeingDelivered(after.sweep, row)
    {
      assert IsOffered(st.offers, row);
      if row !in st.deadlines && row !in st.claimed {
        var h :| h in st.sweep && h.order == row.0 && st.sweep[h] == Recorded(row.1);
        assert h in after.sweep && after.sweep[h] == st.sweep[h];
      }
    }
  }

  /** Tables reads no more of a state than these fields. */
  lemma SameTables(a: State, b: State)
    requires Tables(a) && a.orders == b.orders && a.offers == b.offers && a.sweep == b.sweep
    requires a.deadlines == b.deadlines && a.claimed == b.claimed
    ensures Tables(b)
  {
  }

  lemma CreateTables(st: State, o: OrderId, job: Job)
    requires Tables(st) && o !in st.orders
    ensures Tables(st.(orders := st.orders[o := OrderRow(job, Pending, None, None)]))
  {
  }

  lemma ListTables(st: State, s: nat, due: set<OrderId>)
    requires Tables(st) && (forall h :: h in st.sweep ==> h.sweep != s) && forall o :: o in due ==> OpenOrder(st, o)
    ensures Tables(ListStep(st, s, due))
  {
    var after := ListStep(st, s, due);
    assert forall h :: h in after.sweep && after.sweep[h].Recorded? ==> h in st.sweep && after.sweep[h] == st.sweep[h];
    WatchedAfter(st, after);
  }

  lemma ReadTables(st: State, s: nat)
    requires Tables(st) && forall h :: h in st.sweep && h.sweep == s ==> st.sweep[h].Swept?
    ensures Tables(ReadStep(st, s))
  {
    TrackedKept(st, ReadStep(st, s));
    WatchedAfter(st, ReadStep(st, s));
  }

  lemma ReserveTables(st: State, h: Handling, u: UserId)
    requires Tables(st) && h in st.sweep && st.sweep[h].Ready?
    ensures Tables(ReserveStep(st, h, u))
  {
    TrackedKept(st, ReserveStep(st, h, u));
    WatchedAfter(st, ReserveStep(st, h, u));
  }

  lemma GiveUpTables(st: State, h: Handling)
    requires Tables(st) && h in st.sweep && st.sweep[h].Ready?
    ensures Tables(GiveUpStep(st, h))
  {
    TrackedKept(st, GiveUpStep(st, h));
    WatchedAfter(st, GiveUpStep(st, h));
  }

  lemma ExpiredRow(offers: map<Row, OfferStatus>, rows: seq<Row>)
    requires forall row :: row in rows ==> IsOffered(offers, row)
    ensures NoNewOffers(offers, WithExpired(offers, rows))
    ensures forall row :: IsOffered(WithExpired(offers, rows), row) ==> row !in rows
  {
  }

  lemma OwnedAfterExpiry(orders: map<OrderId, OrderRow>, offers: map<Row, OfferStatus>, rows: seq<Row>)
    requires Owned(orders, offers) && forall row :: row in rows ==> IsOffered(offers, row)
    ensures Owned(orders, WithExpired(offers, rows))
  {
    var after := WithExpired(offers, rows);
    forall row | row in after
      ensures after[row] != Declined
      ensures after[row] == OfferTaken ==> row.0 in orders && orders[row.0].takenBy == Some(row.1)
    {
      assert row in offers;
    }
    forall o | o in orders && orders[o].takenBy.Some?
      ensures var row := (o, orders[o].takenBy.value); row in after && after[row] == OfferTaken
    {
      assert (o, orders[o].takenBy.value) in offers;
    }
  }

  lemma OwnedCancelled(orders: map<OrderId, OrderRow>, offers: map<Row, OfferStatus>, o: OrderId)
    requires Owned(orders, offers) && o in orders && (IsOpen(orders[o].status) || orders[o].status == Cancelled)
    ensures Owned(WithStatus(orders, o, Cancelled), offers)
  {
  }

  /** Expiring some open offers keeps the tables. */
  lemma LapseTables(st: State, rows: seq<Row>)
    requires Tables(st) && forall row :: row in rows ==> IsOffered(st.offers, row)
    ensures Tables(Lapse(st, rows))
  {
    ExpiredRow(st.offers, rows);
    var after := Lapse(st, rows);
    PlacedKept(st.orders, st.offers, after.orders, after.offers);
    TrackedKept(st, after);
    OwnedAfterExpiry(st.orders, st.offers, rows);
    WatchedAfter(st, after);
  }

  lemma SweepExpireTables(st: State, s: nat, rows: seq<Row>)
    requires Tables(st) && forall h :: h in st.sweep && h.sweep == s ==> st.sweep[h].Listed?
    requires Returns(rows, ListedRows(st, s))
    ensures Tables(SweepExpireStep(st, s, rows))
  {
    ReturnedAreOffered(st, rows, ListedRows(st, s));
    LapseTables(st, rows);
    TrackedKept(Lapse(st, rows), SweepExpireStep(st, s, rows));
    WatchedAfter(Lapse(st, rows), SweepExpireStep(st, s, rows));
  }

  lemma ExpireDueTables(st: State, batch: set<Row>, rows: seq<Row>)
    requires Tables(st) && batch <= st.claimed && Returns(rows, batch * OfferedRows(st.offers))
    ensures Tables(ExpireDueStep(st, batch, rows))
  {
    LapseTables(st, rows);
    ExpiredRow(st.offers, rows);
    var mid, after := Lapse(st, rows), ExpireDueStep(st, batch, rows);
    forall row | IsOffered(mid.offers, row) ensures row !in batch {
      assert row in OfferedRows(st.offers);
    }
    TrackedKept(mid, after);
    assert Watched(after);
  }

  lemma NewOfferPlaced(orders: map<OrderId, OrderRow>, offers: map<Row, OfferStatus>, row: Row)
    requires Placed(orders, offers) && row.0 in orders && IsOpen(orders[row.0].status)
    requires forall r :: IsOffered(offers, r) ==> r.0 != row.0
    ensures Placed(orders, offers[row := Offered])
  {
    var after := offers[row := Offered];
    assert forall r :: IsOffered(after, r) ==> r == row || IsOffered(offers, r);
  }

  lemma RecordTables(st: State, h: Handling)
    requires Tables(st) && h in st.sweep && st.sweep[h].Reserved? && OpenOrder(st, h.order)
    requires (h.order, st.sweep[h].user) !in st.offers && !HasOpenOffer(st.offers, h.order)
    ensures Tables(RecordStep(st, h))
  {
    var row := (h.order, st.sweep[h].user);
    NewOfferPlaced(st.orders, st.offers, row);
    RecordTracked(st, h);
    RecordWatched(st, h);
    RecordOwned(st.orders, st.offers, row);
  }

  lemma RecordOwned(orders: map<OrderId, OrderRow>, offers: map<Row, OfferStatus>, row: Row)
    requires Owned(orders, offers) && row !in offers
    ensures Owned(orders, offers[row := Offered])
  {
  }

  lemma RecordTracked(st: State, h: Handling)
    requires Tracked(st) && h in st.sweep && st.sweep[h].Reserved? && (h.order, st.sweep[h].user) !in st.offers
    ensures Tracked(RecordStep(st, h))
  {
  }

  lemma RecordWatched(st: State, h: Handling)
    requires Watched(st) && h in st.sweep && st.sweep[h].Reserved? && (h.order, st.sweep[h].user) !in st.offers
    ensures Watched(RecordStep(st, h))
  {
    var after := RecordStep(st, h);
    forall row | IsOffered(after.offers, row)
      ensures row in after.deadlines || row in after.claimed || BeingDelivered(after.sweep, row)
    {
      if row == (h.order, st.sweep[h].user) {
        assert h in after.sweep && after.sweep[h] == Recorded(row.1);
      } else if row !in st.deadlines && row !in st.claimed {
        var g :| g in st.sweep && g.order == row.0 && st.sweep[g] == Recorded(row.1);
        assert g in after.sweep && after.sweep[g] == st.sweep[g];
      }
    }
  }

  lemma RollbackTables(st: State, h: Handling)
    requires Tables(st) && h in st.sweep && st.sweep[h].Recorded? && IsOffered(st.offers, (h.order, st.sweep[h].user))
    ensures Tables(RollbackStep(st, h))
  {
    var row := (h.order, st.sweep[h].user);
    var mid, after := Lapse(st, [row]), RollbackStep(st, h);
    LapseTables(st, [row]);
    assert !IsOffered(mid.offers, row);
    TrackedKept(mid, after);
    WatchedAfter(mid, after);
  }

  lemma ScheduleTables(st: State, h: Handling)
    requires Tables(st) && h in st.sweep && st.sweep[h].Recorded?
    ensures Tables(ScheduleStep(st, h))
  {
    TrackedKept(st, ScheduleStep(st, h));
    ScheduleWatched(st, h);
  }

  lemma ScheduleWatched(st: State, h: Handling)
    requires Watched(st) && Tracked(st) && h in st.sweep && st.sweep[h].Recorded?
    ensures Watched(ScheduleStep(st, h))
  {
    var after, mine := ScheduleStep(st, h), (h.order, st.sweep[h].user);
    forall row | IsOffered(after.offers, row)
      ensures row in after.deadlines || row in after.claimed || BeingDelivered(after.sweep, row)
    {
      if row != mine && row !in st.deadlines && row !in st.claimed {
        var g :| g in st.sweep && g.order == row.0 && st.sweep[g] == Recorded(row.1);
        assert g != h && g in after.sweep && after.sweep[g] == st.sweep[g];
      }
    }
    forall g | g in after.sweep && after.sweep[g].Recorded?
      ensures (g.order, after.sweep[g].user) !in after.deadlines && (g.order, after.sweep[g].user) !in after.claimed
    {
      assert g != h && st.sweep[g] == after.sweep[g];
    }
  }

  lemma ClaimTables(st: State, batch: set<Row>)
    requires Tables(st) && batch <= st.deadlines
    ensures Tables(ClaimStep(st, batch))
  {
    TrackedKept(st, ClaimStep(st, batch));
  }

  lemma MarkTables(st: State, h: Handling, status: OrderStatus)
    requires Tables(st) && h in st.sweep && h.order in st.orders && !st.sweep[h].Recorded?
    requires
      || (OpenOrder(st, h.order) && status == Offering)
      || (status == NoTakers
          && (st.orders[h.order].status == NoTakers
              || (OpenOrder(st, h.order) && !HasOpenOffer(st.offers, h.order))))
    ensures Tables(MarkStep(st, h, status))
  {
    var after := MarkStep(st, h, status);
    MarkPlaced(st.orders, st.offers, h.order, status);
    TrackedKept(st, after);
    WatchedAfter(st, after);
    MarkOwned(st.orders, st.offers, h.order, status);
  }

  lemma MarkPlaced(orders: map<OrderId, OrderRow>, offers: map<Row, OfferStatus>, o: OrderId, status: OrderStatus)
    requires Placed(orders, offers) && o in orders && (IsOpen(status) || !HasOpenOffer(offers, o))
    ensures Placed(WithStatus(orders, o, status), offers)
  {
  }

  lemma MarkOwned(orders: map<OrderId, OrderRow>, offers: map<Row, OfferStatus>, o: OrderId, status: OrderStatus)
    requires Owned(orders, offers) && o in orders && status in {Offering, NoTakers}
    requires IsOpen(orders[o].status) || orders[o].status == NoTakers
    ensures Owned(WithStatus(orders, o, status), offers)
  {
  }

  lemma TakeOwned(orders: map<OrderId, OrderRow>, offers: map<Row, OfferStatus>, row: Row, taken: OrderRow)
    requires Owned(orders, offers) && row in offers && row.0 in orders && IsOpen(orders[row.0].status)
    requires taken.status == OrderStatus.Taken && taken.takenBy == Some(row.1)
    ensures Owned(orders[row.0 := taken], offers[row := OfferTaken])
  {
    var orders', offers' := orders[row.0 := taken], offers[row := OfferTaken];
    forall r | r in offers'
      ensures offers'[r] != Declined
      ensures offers'[r] == OfferTaken ==> r.0 in orders' && orders'[r.0].takenBy == Some(r.1)
    {
      if r != row {
        assert r in offers;
        if offers[r] == OfferTaken {
          assert r.0 != row.0;
        }
      }
    }
    forall o | o in orders' && orders'[o].takenBy.Some?
      ensures var r := (o, orders'[o].takenBy.value); r in offers' && offers'[r] == OfferTaken
    {
      if o != row.0 {
        assert (o, orders[o].takenBy.value) in offers;
      }
    }
  }

  lemma ReturnsNothing(rows: seq<Row>)
    ensures rows == [] || exists row :: row in rows
  {
    if rows != [] {
      assert rows[0] in rows;
    }
  }

  /** The competitor expiry inside `take` never finds a competitor. */
  lemma TakeExpiresNobody(st: State, o: OrderId, u: UserId, rows: seq<Row>)
    requires Placed(st.orders, st.offers) && IsOffered(st.offers, (o, u))
    requires Returns(rows, set row | row in OfferedRows(st.offers) && row.0 == o && row != (o, u))
    ensures rows == []
  {
    ReturnsNothing(rows);
  }

  lemma TakeTables(st: State, o: OrderId, u: UserId, price: real)
    requires Tables(st) && OpenOrder(st, o) && IsOffered(st.offers, (o, u))
    ensures Tables(TakeStep(st, o, u, price, []))
  {
    var row := (o, u);
    var after := TakeStep(st, o, u, price, []);
    assert after.offers == st.offers[row := OfferTaken];
    assert forall r :: IsOffered(after.offers, r) ==> IsOffered(st.offers, r) && r.0 != o;
    PlacedKept(st.orders, st.offers, after.orders, after.offers);
    TrackedKept(st, after);
    TakeOwned(st.orders, st.offers, row, after.orders[o]);
    WatchedAfter(st, after);
  }

  lemma CloseTables(st: State, o: OrderId, v: UserId, status: OrderStatus)
    requires Tables(st) && TakenFrom(st.orders, o, v) && status in {Completed, Cancelled, TimedOut}
    ensures Tables(CloseStep(st, o, v, status))
  {
    var after := CloseStep(st, o, v, status);
    PlacedKept(st.orders, st.offers, after.orders, after.offers);
    TrackedKept(st, after);
    WatchedAfter(st, after);
  }

  lemma CleanTables(st: State, o: OrderId, rows: seq<Row>)
    requires Tables(st) && o in st.orders && (OpenOrder(st, o) || st.orders[o].status == Cancelled)
    requires Returns(rows, set row | row in OfferedRows(st.offers) && row.0 == o)
    ensures Tables(CleanStep(st, o, rows))
  {
    var after := CleanStep(st, o, rows);
    ExpiredRow(st.offers, rows);
    forall row | IsOffered(after.offers, row) ensures row.0 != o {
      assert row in OfferedRows(st.offers) && row !in rows;
    }
    PlacedKept(st.orders, st.offers, after.orders, after.offers);
    OwnedAfterExpiry(st.orders, st.offers, rows);
    OwnedCancelled(st.orders, after.offers, o);
    WatchedAfter(st, after);
    TrackedKept(st, after);
  }

  lemma TablesListing(st: State, e: Event)
    requires IsListing(e) && Tables(st) && Enabled(st, e) && !Racy(st, e)
    ensures Tables(Apply(st, e))
  {
    match e {
      case ListDue(s, due) => ListTables(st, s, due);
      case SweepExpire(s, rows) => SweepExpireTables(st, s, rows);
      case ReadOffered(s) => ReadTables(st, s);
    }
  }

  lemma TablesHolding(st: State, e: Event)
    requires IsHolding(e) && Tables(st) && Enabled(st, e) && !Racy(st, e)
    ensures Tables(Apply(st, e))
  {
    match e {
      case TryReserve(h, v) => ReserveTables(st, h, v);
      case GiveUp(h) => GiveUpTables(st, h);
      case Schedule(h) => ScheduleTables(st, h);
    }
  }

  lemma TablesOffering(st: State, e: Event)
    requires IsOffering(e) && Tables(st) && Enabled(st, e) && !Racy(st, e)
    ensures Tables(Apply(st, e))
  {
    match e {
      case RecordOffer(h) => RecordTables(st, h);
      case Rollback(h) => RollbackTables(st, h);
    }
  }

  lemma TablesMarking(st: State, e: Event)
    requires IsMarking(e) && Tables(st) && Enabled(st, e) && !Racy(st, e)
    ensures Tables(Apply(st, e))
  {
    match e {
      case MarkOffering(h) => MarkTables(st, h, Offering);
      case MarkNoTakers(h) => MarkTables(st, h, NoTakers);
    }
  }

  lemma TablesCreate(st: State, e: Event)
    requires e.Create? && Tables(st) && Enabled(st, e) && !Racy(st, e)
    ensures Tables(Apply(st, e))
  {
    match e {
      case Create(o, job) => CreateTables(st, o, job);
    }
  }

  lemma TablesTake(st: State, e: Event)
    requires e.Take? && Tables(st) && Enabled(st, e) && !Racy(st, e)
    ensures Tables(Apply(st, e))
  {
    match e {
      case Take(o, v, online, profile, codePrice, rows) =>
        if TakeResult(st, o, v, online, profile) == TakeOk {
          TakeExpiresNobody(st, o, v, rows);
          TakeTables(st, o, v, Pricing.TakenPrice(st.orders[o].job, profile, codePrice));
        }
    }
  }

  lemma TablesComplete(st: State, e: Event)
    requires e.Complete? && Tables(st) && Enabled(st, e) && !Racy(st, e)
    ensures Tables(Apply(st, e))
  {
    match e {
      case Complete(o, v, payee, codePrice) =>
        CompleteCloses(st, o, v, payee, codePrice);
        if CompleteStep(st, o, v, payee, codePrice) != st {
          CloseTables(st, o, v, Completed);
          SameTables(CloseStep(st, o, v, Completed), CompleteStep(st, o, v, payee, codePrice));
        }
    }
  }

  lemma TablesRefusing(st: State, e: Event)
    requires IsRefusing(e) && Tables(st) && Enabled(st, e) && !Racy(st, e)
    ensures Tables(Apply(st, e))
  {
    match e {
      case Cancel(o, v) =>
        if TakenFrom(st.orders, o, v) {
          CloseTables(st, o, v, Cancelled);
          SameTables(CloseStep(st, o, v, Cancelled), CancelStep(st, o, v));
        }
      case TimeOut(o, v) =>
        if TakenFrom(st.orders, o, v) {
          CloseTables(st, o, v, TimedOut);
          SameTables(CloseStep(st, o, v, TimedOut), TimeOutStep(st, o, v));
        }
    }
  }

  lemma TablesClean(st: State, e: Event)
    requires e.Clean? && Tables(st) && Enabled(st, e) && !Racy(st, e)
    ensures Tables(Apply(st, e))
  {
    match e {
      case Clean(o, rows) =>
        if o in st.orders {
          CleanTables(st, o, rows);
        }
    }
  }

  lemma TablesExpiring(st: State, e: Event)
    requires IsExpiring(e) && Tables(st) && Enabled(st, e) && !Racy(st, e)
    ensures Tables(Apply(st, e))
  {
    match e {
      case ClaimDue(batch) => ClaimTables(st, batch);
      case ExpireDue(batch, rows) => ExpireDueTables(st, batch, rows);
    }
  }

  lemma TablesSettling(st: State, e: Event)
    requires IsSettling(e) && Tables(st) && Enabled(st, e) && !Racy(st, e)
    ensures Tables(Apply(st, e))
  {
    match e {
      case RateNotTaken(users) => SameTables(st, RateNotTakenStep(st, users));
      case RateIncomplete(v) => SameTables(st, RateIncompleteStep(st, v));
      case Release(users) => SameTables(st, ReleaseStep(st, users));
    }
  }

  lemma TablesKept(st: State, e: Event)
    requires Tables(st) && Enabled(st, e) && !Racy(st, e)
    ensures Tables(Apply(st, e))
  {
    if IsListing(e) {
      TablesListing(st, e);
    } else if IsHolding(e) {
      TablesHolding(st, e);
    } else if IsOffering(e) {
      TablesOffering(st, e);
    } else if IsMarking(e) {
      TablesMarking(st, e);
    } else if e.Create? {
      TablesCreate(st, e);
    } else if e.Take? {
      TablesTake(st, e);
    } else if e.Complete? {
      TablesComplete(st, e);
    } else if IsRefusing(e) {
      TablesRefusing(st, e);
    } else if e.Clean? {
      TablesClean(st, e);
    } else if IsExpiring(e) {
      TablesExpiring(st, e);
    } else {
      TablesSettling(st, e);
    }
  }

  lemma ForwardStatus(orders: map<OrderId, OrderRow>, o: OrderId, status: OrderStatus)
    requires o in orders && StatusStep(orders[o].status, status)
    ensures Forward(orders, WithStatus(orders, o, status))
  {
  }

  lemma ForwardByDispatcher(st: State, e: Event)
    requires ByDispatcher(e) && Enabled(st, e) && !Racy(st, e)
    ensures Forward(st.orders, Apply(st, e).orders)
  {
    match e {
      case MarkOffering(h) => ForwardStatus(st.orders, h.order, Offering);
      case MarkNoTakers(h) => ForwardStatus(st.orders, h.order, NoTakers);
      case ListDue(_, _) =>
      case SweepExpire(_, _) =>
      case ReadOffered(_) =>
      case TryReserve(_, _) =>
      case GiveUp(_) =>
      case RecordOffer(_) =>
      case Rollback(_) =>
      case Schedule(_) =>
    }
  }

  lemma ForwardTaken(orders: map<OrderId, OrderRow>, o: OrderId, taken: OrderRow)
    requires o in orders && IsOpen(orders[o].status) && orders[o].takenBy.None?
    requires taken.status == OrderStatus.Taken && taken.job == orders[o].job
    ensures Forward(orders, orders[o := taken])
  {
  }

  lemma ForwardTake(st: State, e: Event)
    requires e.Take? && Owned(st.orders, st.offers) && Enabled(st, e)
    ensures Forward(st.orders, Apply(st, e).orders)
  {
    if TakeResult(st, e.order, e.user, e.online, e.profile) == TakeOk {
      var price := Pricing.TakenPrice(st.orders[e.order].job, e.profile, e.codePrice);
      ForwardTaken(st.orders, e.order, TakeStep(st, e.order, e.user, price, e.rows).orders[e.order]);
    }
  }

  lemma ForwardByLifecycle(st: State, e: Event)
    requires ByLifecycle(e) && !e.Take? && Enabled(st, e) && !Racy(st, e)
    ensures Forward(st.orders, Apply(st, e).orders)
  {
    match e {
      case Create(_, _) =>
      case Complete(o, u, payee, codePrice) =>
        CompleteCloses(st, o, u, payee, codePrice);
        if TakenFrom(st.orders, o, u) {
          ForwardStatus(st.orders, o, Completed);
        }
      case Cancel(o, u) =>
        if TakenFrom(st.orders, o, u) {
          ForwardStatus(st.orders, o, Cancelled);
        }
      case TimeOut(o, u) =>
        if TakenFrom(st.orders, o, u) {
          ForwardStatus(st.orders, o, TimedOut);
        }
      case Clean(o, _) =>
        if o in st.orders {
          ForwardStatus(st.orders, o, Cancelled);
        }
    }
  }

  lemma ForwardKept(st: State, e: Event)
    requires Owned(st.orders, st.offers) && Enabled(st, e) && !Racy(st, e)
    ensures Forward(st.orders, Apply(st, e).orders)
  {
    if ByDispatcher(e) {
      ForwardByDispatcher(st, e);
    } else if e.Take? {
      ForwardTake(st, e);
    } else if ByLifecycle(e) {
      ForwardByLifecycle(st, e);
    }
  }

  // ---- the exact characterisation -------------------------------------------------------

  lemma InvKept(st: State, e: Event)
    requires Inv(st) && Enabled(st, e) && !Racy(st, e)
    ensures Inv(Apply(st, e)) && SafeStep(st, Apply(st, e))
  {
    forall u ensures CountedFor(Apply(st, e), u) {
      CountKept(st, e, u);
    }
    TablesKept(st, e);
    ForwardKept(st, e);
    BoundedKept(st, e);
  }

  lemma RollbackBreaks(st: State, h: Handling)
    requires Counted(st) && h in st.sweep && st.sweep[h].Recorded?
    requires !IsOffered(st.offers, (h.order, st.sweep[h].user))
    ensures !Counted(RollbackStep(st, h))
  {
    var u := st.sweep[h].user;
    assert CountedFor(st, u);
    RollbackCounts(st, h, u);
    assert !CountedFor(RollbackStep(st, h), u);
  }

  lemma CleanBreaks(st: State, o: OrderId, rows: seq<Row>)
    requires Counted(st) && Owned(st.orders, st.offers) && o in st.orders && st.orders[o].status == OrderStatus.Taken
    requires Returns(rows, set row | row in OfferedRows(st.offers) && row.0 == o)
    ensures !Counted(CleanStep(st, o, rows))
  {
    var u := st.orders[o].takenBy.value;
    assert CountedFor(st, u);
    CleanCounts(st, o, rows, u);
    assert !CountedFor(CleanStep(st, o, rows), u);
  }

  /** A second insert of a row loses a reservation; an offer on a closed or already offered order is misplaced. */
  lemma RecordBreaks(st: State, h: Handling)
    requires Counted(st) && Tracked(st) && h in st.sweep && st.sweep[h].Reserved?
    requires
      || !OpenOrder(st, h.order)
      || (h.order, st.sweep[h].user) in st.offers
      || HasOpenOffer(st.offers, h.order)
    ensures !Counted(RecordStep(st, h)) || !Placed(RecordStep(st, h).orders, RecordStep(st, h).offers)
  {
    var row, after := (h.order, st.sweep[h].user), RecordStep(st, h);
    if row in st.offers {
      assert CountedFor(st, row.1);
      RecordCounts(st, h, row.1);
      assert !CountedFor(after, row.1);
    } else {
      assert IsOffered(after.offers, row);
      if OpenOrder(st, h.order) {
        var other :| other in st.offers && IsOffered(st.offers, other) && other.0 == h.order;
        assert IsOffered(after.offers, other) && other != row;
      }
    }
  }

  lemma NoTakersBreaks(st: State, h: Handling)
    requires h.order in st.orders && st.orders[h.order].status != NoTakers
    requires !OpenOrder(st, h.order) || HasOpenOffer(st.offers, h.order)
    ensures
      var after := MarkStep(st, h, NoTakers);
      !Placed(after.orders, after.offers) || !Forward(st.orders, after.orders)
  {
    var after := MarkStep(st, h, NoTakers);
    if OpenOrder(st, h.order) {
      var row :| row in st.offers && IsOffered(st.offers, row) && row.0 == h.order;
      assert IsOffered(after.offers, row) && !IsOpen(after.orders[row.0].status);
    } else {
      assert !StatusStep(st.orders[h.order].status, after.orders[h.order].status);
    }
  }

  lemma RacyBreaks(st: State, e: Event)
    requires Inv(st) && Enabled(st, e) && Racy(st, e)
    ensures !SafeStep(st, Apply(st, e))
  {
    match e {
      case RecordOffer(h) => RecordBreaks(st, h);
      case MarkOffering(h) =>
        assert !StatusStep(st.orders[h.order].status, MarkStep(st, h, Offering).orders[h.order].status);
      case MarkNoTakers(h) => NoTakersBreaks(st, h);
      case Rollback(h) => RollbackBreaks(st, h);
      case Clean(o, _) =>
        if st.orders[o].status == OrderStatus.Taken {
          CleanBreaks(st, o, e.rows);
        } else {
          assert !StatusStep(st.orders[o].status, Apply(st, e).orders[o].status);
        }
      case _ =>
    }
  }

  /** A step is safe exactly when the missing status guard would have let it through. */
  lemma SafeIffNotRacy(st: State, e: Event)
    requires Inv(st) && Enabled(st, e)
    ensures SafeStep(st, Apply(st, e)) <==> !Racy(st, e)
  {
    if Racy(st, e) {
      RacyBreaks(st, e);
    } else {
      InvKept(st, e);
    }
  }
}
