/** The ledger and the rating counters agree with the tables, and no unit of work is lost. */
module Books {
  import opened Records
  import opened Protocol
  import opened Counting
  import opened Safety
  import opened Runs
  import Pricing

  // ---- ledger ------------------------------------------------------------------------

  predicate InLedger(ledger: seq<Credit>, o: OrderId) {
    exists i :: 0 <= i < |ledger| && ledger[i].order == o
  }

  /** A ledger row for exactly the completed orders, one each, credited to the taker. */
  ghost predicate Booked(orders: map<OrderId, OrderRow>, ledger: seq<Credit>) {
    && (forall i, j :: 0 <= i < j < |ledger| ==> ledger[i].order != ledger[j].order)
    && (forall i :: 0 <= i < |ledger| ==>
          var c := ledger[i];
          && c.order in orders
          && orders[c.order].status == Completed && orders[c.order].takenBy == Some(c.user))
    && (forall o :: o in orders && orders[o].status == Completed ==> InLedger(ledger, o))
  }

  lemma CreditKeepsBooked(
      orders: map<OrderId, OrderRow>, ledger: seq<Credit>, o: OrderId, u: UserId, amount: real)
    requires Booked(orders, ledger) && TakenFrom(orders, o, u)
    ensures Booked(WithStatus(orders, o, Completed), ledger + [Credit(u, o, amount)])
  {
    var orders', ledger' := WithStatus(orders, o, Completed), ledger + [Credit(u, o, amount)];
    forall p | p in orders' && orders'[p].status == Completed ensures InLedger(ledger', p)
    {
      if p == o {
        assert ledger'[|ledger|].order == o;
      } else {
        var i :| 0 <= i < |ledger| && ledger[i].order == p;
        assert ledger'[i].order == p;
      }
    }
  }

  lemma OthersKeepBooked(
      orders: map<OrderId, OrderRow>, orders': map<OrderId, OrderRow>, ledger: seq<Credit>)
    requires Booked(orders, ledger) && Forward(orders, orders')
    requires forall o :: o in orders' && orders'[o].status == Completed ==> o in orders && orders[o].status == Completed
    ensures Booked(orders', ledger)
  {
  }

  ghost predicate LedgerKept(st: State, after: State) {
    after.ledger == st.ledger
  }

  ghost predicate WithdrawsOnly(st: State, e: Event)
    requires Enabled(st, e)
  {
    e.Rollback? || e.Clean? || Apply(st, e).withdrawn == st.withdrawn
  }

  lemma LedgerListing(st: State, e: Event)
    requires Enabled(st, e) && (IsListing(e) || IsHolding(e))
    ensures LedgerKept(st, Apply(st, e)) && WithdrawsOnly(st, e)
  {
  }

  lemma LedgerOffering(st: State, e: Event)
    requires Enabled(st, e) && (IsOffering(e) || IsMarking(e))
    ensures LedgerKept(st, Apply(st, e)) && WithdrawsOnly(st, e)
  {
  }

  lemma LedgerOrders(st: State, e: Event)
    requires Enabled(st, e) && (e.Create? || e.Take? || e.Clean?)
    ensures LedgerKept(st, Apply(st, e)) && WithdrawsOnly(st, e)
  {
  }

  lemma LedgerRefusing(st: State, e: Event)
    requires Enabled(st, e) && IsRefusing(e)
    ensures LedgerKept(st, Apply(st, e)) && WithdrawsOnly(st, e)
  {
    match e {
      case Cancel(o, u) =>
        if TakenFrom(st.orders, o, u) {
          assert Apply(st, e) == CancelStep(st, o, u);
        }
      case TimeOut(o, u) =>
        if TakenFrom(st.orders, o, u) {
          assert Apply(st, e) == TimeOutStep(st, o, u);
        }
    }
  }

  lemma LedgerExpiring(st: State, e: Event)
    requires Enabled(st, e) && IsExpiring(e)
    ensures LedgerKept(st, Apply(st, e)) && WithdrawsOnly(st, e)
  {
  }

  lemma LedgerSettling(st: State, e: Event)
    requires Enabled(st, e) && IsSettling(e)
    ensures LedgerKept(st, Apply(st, e)) && WithdrawsOnly(st, e)
  {
  }

  /** Only completions write the ledger, and only roll-backs and clean-ups withdraw offers. */
  lemma LedgerUntouched(st: State, e: Event)
    requires Enabled(st, e) && !e.Complete?
    ensures LedgerKept(st, Apply(st, e)) && WithdrawsOnly(st, e)
  {
    if IsListing(e) || IsHolding(e) {
      LedgerListing(st, e);
    } else if IsOffering(e) || IsMarking(e) {
      LedgerOffering(st, e);
    } else if e.Create? || e.Take? || e.Clean? {
      LedgerOrders(st, e);
    } else if IsRefusing(e) {
      LedgerRefusing(st, e);
    } else if IsExpiring(e) {
      LedgerExpiring(st, e);
    } else {
      LedgerSettling(st, e);
    }
  }

  lemma OpeningCompletesNothing(st: State, e: Event, o: OrderId)
    requires Enabled(st, e) && (e.Create? || e.Take? || e.Clean? || IsOffering(e) || IsMarking(e))
    requires o in Apply(st, e).orders && Apply(st, e).orders[o].status == Completed
    ensures o in st.orders && st.orders[o].status == Completed
  {
  }

  lemma SettlingCompletesNothing(st: State, e: Event, o: OrderId)
    requires Enabled(st, e) && !e.Complete?
    requires !(e.Create? || e.Take? || e.Clean? || IsOffering(e) || IsMarking(e))
    requires o in Apply(st, e).orders && Apply(st, e).orders[o].status == Completed
    ensures o in st.orders && st.orders[o].status == Completed
  {
  }

  lemma NothingNewCompleted(st: State, e: Event, o: OrderId)
    requires Enabled(st, e) && !e.Complete?
    requires o in Apply(st, e).orders && Apply(st, e).orders[o].status == Completed
    ensures o in st.orders && st.orders[o].status == Completed
  {
    if e.Create? || e.Take? || e.Clean? || IsOffering(e) || IsMarking(e) {
      OpeningCompletesNothing(st, e, o);
    } else {
      SettlingCompletesNothing(st, e, o);
    }
  }

  lemma BookedKept(st: State, e: Event)
    requires Inv(st) && Enabled(st, e) && !Racy(st, e)
    requires Booked(st.orders, st.ledger)
    ensures Booked(Apply(st, e).orders, Apply(st, e).ledger)
  {
    if e.Complete? {
      match CompleteResult(st, e.order, e.user, e.payee, e.codePrice) {
        case Paid(amount) => CreditKeepsBooked(st.orders, st.ledger, e.order, e.user, amount);
        case _ =>
      }
    } else {
      ForwardKept(st, e);
      LedgerUntouched(st, e);
      forall o | o in Apply(st, e).orders && Apply(st, e).orders[o].status == Completed
        ensures o in st.orders && st.orders[o].status == Completed
      {
        NothingNewCompleted(st, e, o);
      }
      OthersKeepBooked(st.orders, Apply(st, e).orders, st.ledger);
    }
  }

  /** The unique index never fires: a completion aborts exactly when its amount cannot be computed. */
  lemma AbortIffNoAmount(st: State, e: Event)
    requires Booked(st.orders, st.ledger) && e.Complete?
    ensures CompleteResult(st, e.order, e.user, e.payee, e.codePrice) == Aborted <==>
      && TakenFrom(st.orders, e.order, e.user)
      && Pricing.CompletionAmount(st.orders[e.order].job, e.payee, e.codePrice).None?
    ensures CompleteResult(st, e.order, e.user, e.payee, e.codePrice) == Aborted ==> Apply(st, e) == st
  {
    if TakenFrom(st.orders, e.order, e.user) {
      assert !Credited(st.ledger, e.user, e.order);
    }
  }

  /** `balance_of`. */
  function Balance(ledger: seq<Credit>, u: UserId): real {
    if ledger == [] then 0.0
    else
      var last := ledger[|ledger| - 1];
      Balance(ledger[..|ledger| - 1], u) + if last.user == u then last.amount else 0.0
  }

  /** A balance is what the user's rows add up to, one row at a time. */
  lemma BalanceOfRow(ledger: seq<Credit>, credit: Credit, u: UserId)
    ensures Balance([], u) == 0.0
    ensures Balance(ledger + [credit], u) == Balance(ledger, u) + if credit.user == u then credit.amount else 0.0
  {
    assert (ledger + [credit])[..|ledger|] == ledger;
  }

  /** What the successful completions of a run are worth to a user. */
  ghost function Earned(st: State, run: seq<Event>, u: UserId): real
    requires Legal(st, run)
    decreases |run|
  {
    if run == [] then 0.0
    else EarnedBy(st, run[0], u) + Earned(Apply(st, run[0]), run[1..], u)
  }

  function EarnedBy(st: State, e: Event, u: UserId): real {
    if e.Complete? && e.user == u then
      match CompleteResult(st, e.order, u, e.payee, e.codePrice)
      case Paid(amount) => amount
      case _ => 0.0
    else 0.0
  }

  lemma BalanceStep(st: State, e: Event, u: UserId)
    requires Enabled(st, e)
    ensures Balance(Apply(st, e).ledger, u) == Balance(st.ledger, u) + EarnedBy(st, e, u)
  {
    if e.Complete? {
      var result := CompleteResult(st, e.order, e.user, e.payee, e.codePrice);
      if result.Paid? {
        var after := st.ledger + [Credit(e.user, e.order, result.amount)];
        assert after[..|after| - 1] == st.ledger;
        assert Apply(st, e).ledger == after;
      }
    } else {
      LedgerUntouched(st, e);
    }
  }

  /** Over any run at all, each balance is the sum of what that user's completions paid. */
  lemma {:induction false} BalanceIsEarned(st: State, run: seq<Event>, u: UserId)
    requires Legal(st, run)
    ensures Balance(Exec(st, run).ledger, u) == Balance(st.ledger, u) + Earned(st, run, u)
    decreases |run|
  {
    if run != [] {
      BalanceStep(st, run[0], u);
      BalanceIsEarned(Apply(st, run[0]), run[1..], u);
    }
  }

  // ---- ratings ------------------------------------------------------------------------

  function PackOrders(orders: map<OrderId, OrderRow>, u: UserId, status: OrderStatus): set<OrderId> {
    set o | o in orders && orders[o].status == status && orders[o].takenBy == Some(u) && !orders[o].job.withCodes
  }

  /** Offers that ran out on their user, as opposed to being withdrawn. */
  function LapsedRows(offers: map<Row, OfferStatus>, withdrawn: set<Row>, u: UserId): set<Row> {
    set row | row in offers && offers[row] == Expired && row.1 == u && row !in withdrawn
  }

  ghost predicate RatedFor(st: State, u: UserId) {
    && At(st.complete, u) == |PackOrders(st.orders, u, Completed)|
    && At(st.incomplete, u) + st.owedIncomplete[u] == |PackOrders(st.orders, u, Cancelled)|
    && At(st.notTaken, u) + st.owedNotTaken[u]
       == |LapsedRows(st.offers, st.withdrawn, u)| + |OrdersOf(st.orders, u, TimedOut)|
  }

  ghost predicate Historic(st: State) {
    forall row :: row in st.withdrawn ==> row in st.offers && st.offers[row] == Expired
  }

  /** The rating counters count the tables, up to the updates still owed. */
  ghost predicate Rated(st: State) {
    (forall u :: RatedFor(st, u)) && Historic(st)
  }

  lemma PackOrdersSame(orders: map<OrderId, OrderRow>, o: OrderId, row: OrderRow, u: UserId, s: OrderStatus)
    requires o !in PackOrders(orders, u, s)
    requires row.status != s || row.takenBy != Some(u) || row.job.withCodes
    ensures PackOrders(orders[o := row], u, s) == PackOrders(orders, u, s)
  {
  }

  lemma PackOrdersGrow(orders: map<OrderId, OrderRow>, o: OrderId, row: OrderRow, u: UserId, s: OrderStatus)
    requires row.status == s && row.takenBy == Some(u) && !row.job.withCodes
    ensures PackOrders(orders[o := row], u, s) == PackOrders(orders, u, s) + {o}
  {
  }

  lemma OrdersSame(orders: map<OrderId, OrderRow>, o: OrderId, row: OrderRow, u: UserId, s: OrderStatus)
    requires o in orders ==> orders[o].status != s || orders[o].takenBy != Some(u)
    requires row.status != s || row.takenBy != Some(u)
    ensures OrdersOf(orders[o := row], u, s) == OrdersOf(orders, u, s)
  {
  }

  /** An order nobody resolved before and after the change is in none of the rated sets. */
  lemma UnresolvedChange(st: State, after: State, o: OrderId, row: OrderRow, u: UserId)
    requires RatedFor(st, u) && after.orders == st.orders[o := row]
    requires o in st.orders ==>
      st.orders[o].status in {Pending, Offering, OrderStatus.Taken} || st.orders[o].takenBy.None?
    requires row.status in {Pending, Offering, OrderStatus.Taken} || row.takenBy.None?
    requires LapsedRows(after.offers, after.withdrawn, u) == LapsedRows(st.offers, st.withdrawn, u)
    requires after.complete == st.complete
    requires after.incomplete == st.incomplete && after.owedIncomplete == st.owedIncomplete
    requires after.notTaken == st.notTaken && after.owedNotTaken == st.owedNotTaken
    ensures RatedFor(after, u)
  {
    PackOrdersSame(st.orders, o, row, u, Completed);
    PackOrdersSame(st.orders, o, row, u, Cancelled);
    OrdersSame(st.orders, o, row, u, TimedOut);
  }

  lemma LapseRates(st: State, rows: seq<Row>, u: UserId)
    requires RatedFor(st, u) && Historic(st)
    requires Distinct(rows) && forall row :: row in rows ==> IsOffered(st.offers, row)
    ensures RatedFor(Lapse(st, rows), u)
  {
    UsersCount(rows, u);
    LapsedGrow(st.offers, st.withdrawn, rows, u);
    assert forall row :: row in rows ==> row !in st.withdrawn;
  }

  lemma LapsedGrow(offers: map<Row, OfferStatus>, withdrawn: set<Row>, rows: seq<Row>, u: UserId)
    requires forall row :: row in rows ==> IsOffered(offers, row) && row !in withdrawn
    ensures |LapsedRows(WithExpired(offers, rows), withdrawn, u)|
         == |LapsedRows(offers, withdrawn, u)| + |set row | row in rows && row.1 == u|
  {
    var mine := set row | row in rows && row.1 == u;
    var before := LapsedRows(offers, withdrawn, u);
    assert LapsedRows(WithExpired(offers, rows), withdrawn, u) == before + mine;
    assert before !! mine;
  }

  lemma ResolvedSets(orders: map<OrderId, OrderRow>, o: OrderId, v: UserId, u: UserId, status: OrderStatus)
    requires TakenFrom(orders, o, v) && status != OrderStatus.Taken
    ensures |PackOrders(WithStatus(orders, o, status), u, status)|
         == |PackOrders(orders, u, status)| + One(u == v && !orders[o].job.withCodes)
  {
    var row := orders[o].(status := status);
    if u == v && !row.job.withCodes {
      PackOrdersGrow(orders, o, row, u, status);
    } else {
      PackOrdersSame(orders, o, row, u, status);
    }
  }

  lemma PaidRates(st: State, o: OrderId, v: UserId, amount: real, u: UserId)
    requires RatedFor(st, u) && TakenFrom(st.orders, o, v)
    ensures RatedFor(PaidStep(st, o, v, amount), u)
  {
    var row := st.orders[o].(status := Completed);
    ResolvedSets(st.orders, o, v, u, Completed);
    PackOrdersSame(st.orders, o, row, u, Cancelled);
    OrdersSame(st.orders, o, row, u, TimedOut);
    IncrementedAt(st.complete, [v], u);
  }

  lemma CancelRates(st: State, o: OrderId, v: UserId, u: UserId)
    requires RatedFor(st, u) && TakenFrom(st.orders, o, v)
    ensures RatedFor(CancelStep(st, o, v), u)
  {
    var row := st.orders[o].(status := Cancelled);
    ResolvedSets(st.orders, o, v, u, Cancelled);
    PackOrdersSame(st.orders, o, row, u, Completed);
    OrdersSame(st.orders, o, row, u, TimedOut);
  }

  lemma TimeOutRates(st: State, o: OrderId, v: UserId, u: UserId)
    requires RatedFor(st, u) && TakenFrom(st.orders, o, v)
    ensures RatedFor(TimeOutStep(st, o, v), u)
  {
    var row := st.orders[o].(status := TimedOut);
    PackOrdersSame(st.orders, o, row, u, Completed);
    PackOrdersSame(st.orders, o, row, u, Cancelled);
    OrderUpdate(st.orders, o, row, u, TimedOut);
  }

  lemma WithdrawnRows(offers: map<Row, OfferStatus>, withdrawn: set<Row>, rows: seq<Row>, u: UserId)
    requires forall row :: row in rows ==> IsOffered(offers, row)
    ensures LapsedRows(WithExpired(offers, rows), withdrawn + (set r | r in rows), u)
         == LapsedRows(offers, withdrawn, u)
  {
  }

  lemma CleanRates(st: State, o: OrderId, rows: seq<Row>, u: UserId)
    requires RatedFor(st, u) && Owned(st.orders, st.offers)
    requires OpenOrder(st, o) || (o in st.orders && st.orders[o].status == Cancelled)
    requires forall row :: row in rows ==> IsOffered(st.offers, row)
    ensures RatedFor(CleanStep(st, o, rows), u)
  {
    WithdrawnRows(st.offers, st.withdrawn, rows, u);
    var after := CleanStep(st, o, rows);
    if OpenOrder(st, o) {
      UnresolvedChange(st, after, o, st.orders[o].(status := Cancelled), u);
    } else {
      assert after.orders == st.orders;
    }
  }

  lemma TakeRates(st: State, o: OrderId, v: UserId, price: real, u: UserId)
    requires RatedFor(st, u) && OpenOrder(st, o) && IsOffered(st.offers, (o, v))
    ensures RatedFor(TakeStep(st, o, v, price, []), u)
  {
    var after := TakeStep(st, o, v, price, []);
    assert after.offers == st.offers[(o, v) := OfferTaken];
    assert LapsedRows(after.offers, st.withdrawn, u) == LapsedRows(st.offers, st.withdrawn, u);
    UnresolvedChange(st, after, o, after.orders[o], u);
  }

  lemma RatedListing(st: State, e: Event, u: UserId)
    requires IsListing(e) && RatedFor(st, u) && Historic(st) && Tables(st) && Enabled(st, e) && !Racy(st, e)
    ensures RatedFor(Apply(st, e), u)
  {
    match e {
      case ListDue(_, _) =>
      case SweepExpire(s, rows) =>
        ReturnedAreOffered(st, rows, ListedRows(st, s));
        LapseRates(st, rows, u);
      case ReadOffered(_) =>
    }
  }

  lemma SameRates(a: State, b: State, u: UserId)
    requires RatedFor(a, u) && a.orders == b.orders && a.offers == b.offers && a.withdrawn == b.withdrawn
    requires a.complete == b.complete && a.incomplete == b.incomplete
    requires a.notTaken == b.notTaken && a.owedIncomplete == b.owedIncomplete && a.owedNotTaken == b.owedNotTaken
    ensures RatedFor(b, u)
  {
  }

  lemma ReserveRates(st: State, h: Handling, v: UserId, u: UserId)
    requires RatedFor(st, u) && h in st.sweep && st.sweep[h].Ready?
    ensures RatedFor(ReserveStep(st, h, v), u)
  {
    SameRates(st, ReserveStep(st, h, v), u);
  }

  lemma ScheduleRates(st: State, h: Handling, u: UserId)
    requires RatedFor(st, u) && h in st.sweep && st.sweep[h].Recorded?
    ensures RatedFor(ScheduleStep(st, h), u)
  {
    SameRates(st, ScheduleStep(st, h), u);
  }

  lemma RatedHolding(st: State, e: Event, u: UserId)
    requires IsHolding(e) && RatedFor(st, u) && Enabled(st, e)
    ensures RatedFor(Apply(st, e), u)
  {
    match e {
      case TryReserve(h, v) => ReserveRates(st, h, v, u);
      case GiveUp(h) => SameRates(st, GiveUpStep(st, h), u);
      case Schedule(h) => ScheduleRates(st, h, u);
    }
  }

  lemma RecordRates(st: State, h: Handling, u: UserId)
    requires RatedFor(st, u) && h in st.sweep && st.sweep[h].Reserved?
    ensures RatedFor(RecordStep(st, h), u)
  {
    assert LapsedRows(RecordStep(st, h).offers, st.withdrawn, u) == LapsedRows(st.offers, st.withdrawn, u);
  }

  lemma RollbackRates(st: State, h: Handling, u: UserId)
    requires RatedFor(st, u) && h in st.sweep && st.sweep[h].Recorded?
    ensures RatedFor(RollbackStep(st, h), u)
  {
    var row := (h.order, st.sweep[h].user);
    WithdrawnRows(st.offers, st.withdrawn, if IsOffered(st.offers, row) then [row] else [], u);
  }

  lemma RatedOffering(st: State, e: Event, u: UserId)
    requires IsOffering(e) && RatedFor(st, u) && Historic(st) && Tables(st) && Enabled(st, e) && !Racy(st, e)
    ensures RatedFor(Apply(st, e), u)
  {
    match e {
      case RecordOffer(h) => RecordRates(st, h, u);
      case Rollback(h) => RollbackRates(st, h, u);
    }
  }

  lemma MarkRates(st: State, h: Handling, status: OrderStatus, u: UserId)
    requires RatedFor(st, u) && Owned(st.orders, st.offers) && h.order in st.orders && status in {Offering, NoTakers}
    requires OpenOrder(st, h.order) || st.orders[h.order].status == NoTakers
    ensures RatedFor(MarkStep(st, h, status), u)
  {
    UnresolvedChange(st, MarkStep(st, h, status), h.order, st.orders[h.order].(status := status), u);
  }

  lemma RatedMarking(st: State, e: Event, u: UserId)
    requires IsMarking(e) && RatedFor(st, u) && Historic(st) && Tables(st) && Enabled(st, e) && !Racy(st, e)
    ensures RatedFor(Apply(st, e), u)
  {
    match e {
      case MarkOffering(h) => MarkRates(st, h, Offering, u);
      case MarkNoTakers(h) => MarkRates(st, h, NoTakers, u);
    }
  }

  lemma RatedCreate(st: State, e: Event, u: UserId)
    requires e.Create? && RatedFor(st, u) && Historic(st) && Tables(st) && Enabled(st, e) && !Racy(st, e)
    ensures RatedFor(Apply(st, e), u)
  {
    match e {
      case Create(o, job) => UnresolvedChange(st, Apply(st, e), o, OrderRow(job, Pending, None, None), u);
    }
  }

  lemma RatedTake(st: State, e: Event, u: UserId)
    requires e.Take? && RatedFor(st, u) && Historic(st) && Tables(st) && Enabled(st, e) && !Racy(st, e)
    ensures RatedFor(Apply(st, e), u)
  {
    if TakeResult(st, e.order, e.user, e.online, e.profile) == TakeOk {
      var price := Pricing.TakenPrice(st.orders[e.order].job, e.profile, e.codePrice);
      TakeExpiresNobody(st, e.order, e.user, e.rows);
      TakeRates(st, e.order, e.user, price, u);
      SameRates(TakeStep(st, e.order, e.user, price, []), Apply(st, e), u);
    }
  }

  lemma RatedComplete(st: State, e: Event, u: UserId)
    requires e.Complete? && RatedFor(st, u) && Historic(st) && Tables(st) && Enabled(st, e) && !Racy(st, e)
    ensures RatedFor(Apply(st, e), u)
  {
    match e {
      case Complete(o, v, payee, codePrice) =>
        match CompleteResult(st, o, v, payee, codePrice) {
          case Paid(amount) => PaidRates(st, o, v, amount, u);
          case _ =>
        }
    }
  }

  lemma RatedRefusing(st: State, e: Event, u: UserId)
    requires IsRefusing(e) && RatedFor(st, u) && Historic(st) && Tables(st) && Enabled(st, e) && !Racy(st, e)
    ensures RatedFor(Apply(st, e), u)
  {
    match e {
      case Cancel(o, v) =>
        if TakenFrom(st.orders, o, v) {
          CancelRates(st, o, v, u);
        }
      case TimeOut(o, v) =>
        if TakenFrom(st.orders, o, v) {
          TimeOutRates(st, o, v, u);
        }
    }
  }

  lemma RatedClean(st: State, e: Event, u: UserId)
    requires e.Clean? && RatedFor(st, u) && Historic(st) && Tables(st) && Enabled(st, e) && !Racy(st, e)
    ensures RatedFor(Apply(st, e), u)
  {
    match e {
      case Clean(o, rows) =>
        if o in st.orders {
          ReturnedAreOffered(st, rows, set row | row in OfferedRows(st.offers) && row.0 == o);
          CleanRates(st, o, rows, u);
        }
    }
  }

  lemma RatedExpiring(st: State, e: Event, u: UserId)
    requires IsExpiring(e) && RatedFor(st, u) && Historic(st) && Tables(st) && Enabled(st, e) && !Racy(st, e)
    ensures RatedFor(Apply(st, e), u)
  {
    match e {
      case ClaimDue(batch) =>
      case ExpireDue(batch, rows) =>
        ReturnedAreOffered(st, rows, batch * OfferedRows(st.offers));
        LapseRates(st, rows, u);
    }
  }

  lemma RatedSettling(st: State, e: Event, u: UserId)
    requires IsSettling(e) && RatedFor(st, u) && Historic(st) && Tables(st) && Enabled(st, e) && !Racy(st, e)
    ensures RatedFor(Apply(st, e), u)
  {
    match e {
      case RateNotTaken(users) => IncrementedAt(st.notTaken, users, u);
      case RateIncomplete(v) => IncrementedAt(st.incomplete, [v], u);
      case Release(users) =>
    }
  }

  lemma ExpiredListing(st: State, e: Event, row: Row)
    requires (IsListing(e) || IsHolding(e)) && Enabled(st, e) && row in st.offers && st.offers[row] == Expired
    ensures row in Apply(st, e).offers && Apply(st, e).offers[row] == Expired
  {
  }

  lemma ExpiredOffering(st: State, e: Event, row: Row)
    requires (IsOffering(e) || IsMarking(e)) && Enabled(st, e) && row in st.offers && st.offers[row] == Expired
    ensures row in Apply(st, e).offers && Apply(st, e).offers[row] == Expired
  {
  }

  lemma ExpiredOrders(st: State, e: Event, row: Row)
    requires (e.Create? || e.Take? || e.Clean?) && Enabled(st, e) && row in st.offers && st.offers[row] == Expired
    ensures row in Apply(st, e).offers && Apply(st, e).offers[row] == Expired
  {
  }

  lemma ExpiredClosing(st: State, e: Event, row: Row)
    requires (e.Complete? || IsRefusing(e)) && Enabled(st, e) && row in st.offers && st.offers[row] == Expired
    ensures row in Apply(st, e).offers && Apply(st, e).offers[row] == Expired
  {
    if e.Complete? {
      CompleteCloses(st, e.order, e.user, e.payee, e.codePrice);
    }
  }

  lemma ExpiredExpiring(st: State, e: Event, row: Row)
    requires IsExpiring(e) && Enabled(st, e) && row in st.offers && st.offers[row] == Expired
    ensures row in Apply(st, e).offers && Apply(st, e).offers[row] == Expired
  {
  }

  lemma ExpiredSettling(st: State, e: Event, row: Row)
    requires IsSettling(e) && Enabled(st, e) && row in st.offers && st.offers[row] == Expired
    ensures row in Apply(st, e).offers && Apply(st, e).offers[row] == Expired
  {
  }

  lemma ExpiredStaysExpired(st: State, e: Event, row: Row)
    requires Enabled(st, e) && row in st.offers && st.offers[row] == Expired
    ensures row in Apply(st, e).offers && Apply(st, e).offers[row] == Expired
  {
    if IsListing(e) || IsHolding(e) {
      ExpiredListing(st, e, row);
    } else if IsOffering(e) || IsMarking(e) {
      ExpiredOffering(st, e, row);
    } else if e.Create? || e.Take? || e.Clean? {
      ExpiredOrders(st, e, row);
    } else if e.Complete? || IsRefusing(e) {
      ExpiredClosing(st, e, row);
    } else if IsExpiring(e) {
      ExpiredExpiring(st, e, row);
    } else {
      ExpiredSettling(st, e, row);
    }
  }

  lemma WithdrawnByRollback(st: State, h: Handling, row: Row)
    requires h in st.sweep && st.sweep[h].Recorded? && row in RollbackStep(st, h).withdrawn && row !in st.withdrawn
    ensures row in RollbackStep(st, h).offers && RollbackStep(st, h).offers[row] == Expired
  {
  }

  lemma WithdrawnByCleanUp(st: State, o: OrderId, rows: seq<Row>, row: Row)
    requires o in st.orders && Returns(rows, set r | r in OfferedRows(st.offers) && r.0 == o)
    requires row in CleanStep(st, o, rows).withdrawn && row !in st.withdrawn
    ensures row in CleanStep(st, o, rows).offers && CleanStep(st, o, rows).offers[row] == Expired
  {
  }

  lemma NothingWithdrawn(st: State, e: Event)
    requires Enabled(st, e) && !e.Rollback? && !e.Clean?
    ensures Apply(st, e).withdrawn == st.withdrawn
  {
    if e.Complete? {
      CompleteCloses(st, e.order, e.user, e.payee, e.codePrice);
    } else {
      LedgerUntouched(st, e);
    }
  }

  lemma WithdrawnAreExpired(st: State, e: Event, row: Row)
    requires Historic(st) && Enabled(st, e) && row in Apply(st, e).withdrawn
    ensures row in Apply(st, e).offers && Apply(st, e).offers[row] == Expired
  {
    if !e.Rollback? && !e.Clean? {
      NothingWithdrawn(st, e);
    }
    if row in st.withdrawn {
      ExpiredStaysExpired(st, e, row);
    } else if e.Rollback? {
      WithdrawnByRollback(st, e.hand, row);
    } else {
      WithdrawnByCleanUp(st, e.order, e.rows, row);
    }
  }

  lemma RatedKept(st: State, e: Event)
    requires Inv(st) && Rated(st) && Enabled(st, e) && !Racy(st, e)
    ensures Rated(Apply(st, e))
  {
    forall row | row in Apply(st, e).withdrawn
      ensures row in Apply(st, e).offers && Apply(st, e).offers[row] == Expired
    {
      WithdrawnAreExpired(st, e, row);
    }
    forall u ensures RatedFor(Apply(st, e), u) {
      RatedForKept(st, e, u);
    }
  }

  lemma RatedForKept(st: State, e: Event, u: UserId)
    requires Rated(st) && Tables(st) && Enabled(st, e) && !Racy(st, e)
    ensures RatedFor(Apply(st, e), u)
  {
    assert RatedFor(st, u);
    if IsListing(e) {
      RatedListing(st, e, u);
    } else if IsHolding(e) {
      RatedHolding(st, e, u);
    } else if IsOffering(e) {
      RatedOffering(st, e, u);
    } else if IsMarking(e) {
      RatedMarking(st, e, u);
    } else if e.Create? {
      RatedCreate(st, e, u);
    } else if e.Take? {
      RatedTake(st, e, u);
    } else if e.Complete? {
      RatedComplete(st, e, u);
    } else if IsRefusing(e) {
      RatedRefusing(st, e, u);
    } else if e.Clean? {
      RatedClean(st, e, u);
    } else if IsExpiring(e) {
      RatedExpiring(st, e, u);
    } else {
      RatedSettling(st, e, u);
    }
  }

  lemma InitBooks(limit: nat)
    ensures Rated(Init(limit)) && Booked(Init(limit).orders, Init(limit).ledger)
  {
    var st := Init(limit);
    forall u ensures RatedFor(st, u) {
      assert PackOrders(st.orders, u, Completed) == {} && PackOrders(st.orders, u, Cancelled) == {};
      assert OrdersOf(st.orders, u, TimedOut) == {} && LapsedRows(st.offers, st.withdrawn, u) == {};
    }
  }

  lemma {:induction false} BooksFrom(st: State, run: seq<Event>)
    requires Inv(st) && Rated(st) && Booked(st.orders, st.ledger)
    requires Legal(st, run) && NoRace(st, run)
    ensures
      var end := Exec(st, run);
      Inv(end) && Rated(end) && Booked(end.orders, end.ledger)
    decreases |run|
  {
    if run != [] {
      InvKept(st, run[0]);
      RatedKept(st, run[0]);
      BookedKept(st, run[0]);
      BooksFrom(Apply(st, run[0]), run[1..]);
    }
  }

  /** In every state a race-free run reaches, ledger and ratings agree with the tables. */
  lemma BooksBalance(limit: nat, run: seq<Event>)
    requires Legal(Init(limit), run) && NoRace(Init(limit), run)
    ensures
      var end := Exec(Init(limit), run);
      Inv(end) && Rated(end) && Booked(end.orders, end.ledger)
  {
    InitInv(limit);
    InitBooks(limit);
    BooksFrom(Init(limit), run);
  }

  /** In every state a race-free run reaches, an order has a ledger row exactly when it is completed. */
  lemma LedgerRowIff(limit: nat, run: seq<Event>, o: OrderId)
    requires Legal(Init(limit), run) && NoRace(Init(limit), run)
    ensures
      var end := Exec(Init(limit), run);
      InLedger(end.ledger, o) <==> o in end.orders && end.orders[o].status == Completed
  {
    BooksBalance(limit, run);
  }

  /** Ledger and ratings agree in any store the services have led to while orders being dispatched were left alone. */
  lemma StoredBooksBalance(limit: nat, log: seq<Event>, st: State)
    requires Leads(Init(limit), log, st) && Legal(Init(limit), log) && ExclusiveRun(Init(limit), log)
    ensures Inv(st) && Rated(st) && Booked(st.orders, st.ledger)
  {
    LeadsIsExec(Init(limit), log, st);
    InitInv(limit);
    ExclusiveRunsFrom(Init(limit), log);
    BooksBalance(limit, log);
  }

  // ---- conservation -----------------------------------------------------------------------

  function RowsFor(offers: map<Row, OfferStatus>, u: UserId): set<Row> {
    set row | row in offers && row.1 == u
  }

  function TakenEver(orders: map<OrderId, OrderRow>, u: UserId): set<OrderId> {
    set o | o in orders && orders[o].takenBy == Some(u)
  }

  lemma {:induction false} PairedSize(ids: set<OrderId>, u: UserId, rows: set<Row>)
    requires forall row :: row in rows <==> row.1 == u && row.0 in ids
    ensures |rows| == |ids|
    decreases |ids|
  {
    if ids == {} {
      assert rows == {};
    } else {
      var o :| o in ids;
      assert (o, u) in rows;
      PairedSize(ids - {o}, u, rows - {(o, u)});
    }
  }

  /** Nothing is owed to the user or promised to it. */
  ghost predicate Quiet(st: State, u: UserId) {
    && st.owedRelease[u] == 0 && st.owedNotTaken[u] == 0 && st.owedIncomplete[u] == 0
    && HeldFor(st.sweep, u) == {}
  }

  lemma RowsByFate(offers: map<Row, OfferStatus>, withdrawn: set<Row>, u: UserId)
    requires forall row :: row in withdrawn ==> row in offers && offers[row] == Expired
    requires forall row :: row in offers ==> offers[row] != Declined
    ensures |RowsFor(offers, u) - withdrawn|
         == |RowsOf(offers, u, Offered)| + |RowsOf(offers, u, OfferTaken)| + |LapsedRows(offers, withdrawn, u)|
  {
    var a, b, c := RowsOf(offers, u, Offered), RowsOf(offers, u, OfferTaken), LapsedRows(offers, withdrawn, u);
    forall row ensures row in RowsFor(offers, u) - withdrawn <==> row in a + b + c {
    }
    assert RowsFor(offers, u) - withdrawn == a + b + c;
    assert a !! b && (a + b) !! c;
  }

  lemma TakenRowsAreTakenOrders(orders: map<OrderId, OrderRow>, offers: map<Row, OfferStatus>, u: UserId)
    requires Owned(orders, offers)
    ensures |RowsOf(offers, u, OfferTaken)| == |TakenEver(orders, u)|
  {
    var ids, rows := TakenEver(orders, u), RowsOf(offers, u, OfferTaken);
    forall row ensures row in rows <==> row.1 == u && row.0 in ids {
      if row.1 == u && row.0 in ids {
        assert row == (row.0, orders[row.0].takenBy.value);
      }
    }
    PairedSize(ids, u, rows);
  }

  lemma TakenHaveOutcomes(orders: map<OrderId, OrderRow>, offers: map<Row, OfferStatus>, u: UserId)
    requires Owned(orders, offers)
    ensures TakenEver(orders, u)
         == OrdersOf(orders, u, OrderStatus.Taken) + OrdersOf(orders, u, Completed)
            + OrdersOf(orders, u, Cancelled) + OrdersOf(orders, u, TimedOut)
  {
    forall o
      ensures o in TakenEver(orders, u) <==>
        o in OrdersOf(orders, u, OrderStatus.Taken) + OrdersOf(orders, u, Completed)
             + OrdersOf(orders, u, Cancelled) + OrdersOf(orders, u, TimedOut)
    {
    }
  }

  lemma TakenByOutcome(orders: map<OrderId, OrderRow>, offers: map<Row, OfferStatus>, u: UserId)
    requires Owned(orders, offers)
    ensures |TakenEver(orders, u)|
         == InWork(orders, u) + |OrdersOf(orders, u, Completed)|
            + |OrdersOf(orders, u, Cancelled)| + |OrdersOf(orders, u, TimedOut)|
  {
    var w, c, x, t := OrdersOf(orders, u, OrderStatus.Taken), OrdersOf(orders, u, Completed),
      OrdersOf(orders, u, Cancelled), OrdersOf(orders, u, TimedOut);
    TakenHaveOutcomes(orders, offers, u);
    assert w !! c && (w + c) !! x && (w + c + x) !! t;
  }

  /**
   * Conservation: for a user who took pack orders only, every offer recorded and not withdrawn is
   * in the pending counter or in exactly one of the three rating counters.
   */
  lemma OffersAreConserved(st: State, u: UserId)
    requires Inv(st) && Rated(st) && Quiet(st, u)
    requires forall o :: o in TakenEver(st.orders, u) ==> !st.orders[o].job.withCodes
    ensures |RowsFor(st.offers, u) - st.withdrawn|
         == At(st.pending, u) + At(st.complete, u) + At(st.incomplete, u) + At(st.notTaken, u)
  {
    assert CountedFor(st, u) && RatedFor(st, u);
    RowsByFate(st.offers, st.withdrawn, u);
    TakenRowsAreTakenOrders(st.orders, st.offers, u);
    TakenByOutcome(st.orders, st.offers, u);
    PackOnly(st.orders, u);
  }

  lemma PackOnly(orders: map<OrderId, OrderRow>, u: UserId)
    requires forall o :: o in TakenEver(orders, u) ==> !orders[o].job.withCodes
    ensures PackOrders(orders, u, Completed) == OrdersOf(orders, u, Completed)
    ensures PackOrders(orders, u, Cancelled) == OrdersOf(orders, u, Cancelled)
  {
    forall o, s | o in OrdersOf(orders, u, s) ensures o in TakenEver(orders, u) {
    }
    assert PackOrders(orders, u, Completed) == OrdersOf(orders, u, Completed);
    assert PackOrders(orders, u, Cancelled) == OrdersOf(orders, u, Cancelled);
  }
}
