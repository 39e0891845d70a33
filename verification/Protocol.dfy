/**
 * The offer/take protocol as a state machine. Every event is one step the code performs atomically:
 * one SQL statement, one transaction, one Lua script or one MULTI pipeline. The four processes
 * interleave freely between events.
 */
module Protocol {
  import opened Records
  import Pricing

  datatype OrderRow = OrderRow(job: Job, status: OrderStatus, takenBy: Option<UserId>, takenPrice: Option<real>)

  datatype Credit = Credit(user: UserId, order: OrderId, amount: real)

  /**
   * The handling of one order by one sweep. A sweep that raises leaves the handlings of its other orders
   * running, so the next sweep may begin beside them and may even list the same orders.
   */
  datatype Handling = Handling(sweep: nat, order: OrderId)

  /** How far a handling has come. */
  datatype Phase =
    | Listed                                     // returned by list_due_for_fanout
    | Swept                                      // the order's outstanding offers were expired
    | Ready(seen: set<UserId>)                   // the users offered so far were read
    | Reserved(seen: set<UserId>, user: UserId)  // the user's counter was incremented
    | Recorded(user: UserId)                     // the offer row was inserted
    | Scheduled(user: UserId)                    // delivered, and its deadline was queued

  datatype State = State(
    limit: nat,                            // MAX_ORDERS_PENDING
    // Postgres
    orders: map<OrderId, OrderRow>,
    offers: map<Row, OfferStatus>,
    ledger: seq<Credit>,
    // Redis
    pending: map<UserId, int>,
    complete: map<UserId, int>,
    incomplete: map<UserId, int>,
    notTaken: map<UserId, int>,
    deadlines: set<Row>,
    // work a process has begun and still owes
    sweep: map<Handling, Phase>,
    claimed: set<Row>,
    owedRelease: multiset<UserId>,
    owedNotTaken: multiset<UserId>,
    owedIncomplete: multiset<UserId>,
    // history, read by the statements only
    withdrawn: set<Row>)                   // offers expired by a rollback or a clean-up

  datatype Event =
    | Create(order: OrderId, job: Job)
    | ListDue(sweep: nat, due: set<OrderId>)
    | SweepExpire(sweep: nat, rows: seq<Row>)
    | ReadOffered(sweep: nat)
    | TryReserve(hand: Handling, user: UserId)
    | GiveUp(hand: Handling)
    | RecordOffer(hand: Handling)
    | Rollback(hand: Handling)
    | Schedule(hand: Handling)
    | MarkOffering(hand: Handling)
    | MarkNoTakers(hand: Handling)
    | Take(order: OrderId, user: UserId, online: bool, profile: Profile, codePrice: real, rows: seq<Row>)
    | Complete(order: OrderId, user: UserId, payee: Profile, codePrice: real)
    | Cancel(order: OrderId, user: UserId)
    | TimeOut(order: OrderId, user: UserId)
    | Clean(order: OrderId, rows: seq<Row>)
    | ClaimDue(batch: set<Row>)
    | ExpireDue(batch: set<Row>, rows: seq<Row>)
    | RateNotTaken(users: seq<UserId>)
    | RateIncomplete(user: UserId)
    | Release(users: seq<UserId>)

  // The kinds of step, by the part of the code that takes them.
  predicate IsListing(e: Event) { e.ListDue? || e.SweepExpire? || e.ReadOffered? }

  predicate IsHolding(e: Event) { e.TryReserve? || e.GiveUp? || e.Schedule? }

  predicate IsOffering(e: Event) { e.RecordOffer? || e.Rollback? }

  predicate IsMarking(e: Event) { e.MarkOffering? || e.MarkNoTakers? }

  predicate IsRefusing(e: Event) { e.Cancel? || e.TimeOut? }

  predicate IsExpiring(e: Event) { e.ClaimDue? || e.ExpireDue? }

  predicate IsSettling(e: Event) { e.RateNotTaken? || e.RateIncomplete? || e.Release? }

  predicate ByDispatcher(e: Event) { IsListing(e) || IsHolding(e) || IsOffering(e) || IsMarking(e) }

  predicate ByLifecycle(e: Event) { e.Create? || e.Take? || e.Complete? || IsRefusing(e) || e.Clean? }

  function Init(limit: nat): State {
    State(limit, map[], map[], [], map[], map[], map[], map[], {}, map[], {},
          multiset{}, multiset{}, multiset{}, {})
  }

  // ---- counters ----------------------------------------------------------

  /** A Redis counter; a missing key reads as 0. */
  function At(counters: map<UserId, int>, user: UserId): int {
    if user in counters then counters[user] else 0
  }

  function Incremented(counters: map<UserId, int>, users: seq<UserId>): map<UserId, int>
    decreases |users|
  {
    if users == [] then counters
    else Incremented(counters[users[0] := At(counters, users[0]) + 1], users[1..])
  }

  /** The _RELEASE script: decrement each key in turn, never below 0. */
  function Released(counters: map<UserId, int>, users: seq<UserId>): map<UserId, int>
    decreases |users|
  {
    if users == [] then counters
    else
      var left := At(counters, users[0]) - 1;
      Released(counters[users[0] := if left < 0 then 0 else left], users[1..])
  }

  // ---- offers and orders ---------------------------------------------------

  predicate IsOpen(status: OrderStatus) { status == Pending || status == Offering }

  predicate OpenOrder(st: State, order: OrderId) {
    order in st.orders && IsOpen(st.orders[order].status)
  }

  predicate IsOffered(offers: map<Row, OfferStatus>, row: Row) {
    row in offers && offers[row] == Offered
  }

  predicate TakenFrom(orders: map<OrderId, OrderRow>, order: OrderId, user: UserId) {
    order in orders && orders[order].status == OrderStatus.Taken && orders[order].takenBy == Some(user)
  }

  function OfferedRows(offers: map<Row, OfferStatus>): set<Row> {
    set row | row in offers && offers[row] == Offered
  }

  function WithExpired(offers: map<Row, OfferStatus>, rows: seq<Row>): map<Row, OfferStatus> {
    map row | row in offers :: if row in rows then Expired else offers[row]
  }

  function Users(rows: seq<Row>): (users: seq<UserId>)
    ensures |users| == |rows|
  {
    if rows == [] then [] else [rows[0].1] + Users(rows[1..])
  }

  /** The users of the rows, in their order. */
  lemma {:induction false} UsersAre(rows: seq<Row>, i: nat)
    requires i < |rows|
    ensures Users(rows)[i] == rows[i].1
  {
    if i > 0 {
      UsersAre(rows[1..], i - 1);
    }
  }

  /** `rows` is what a statement that touches exactly `hit` returns, in some order. */
  ghost predicate Returns(rows: seq<Row>, hit: set<Row>) {
    && (forall i, j :: 0 <= i < j < |rows| ==> rows[i] != rows[j])
    && (forall row :: row in rows <==> row in hit)
  }

  function OrdersOf(orders: map<OrderId, OrderRow>, user: UserId, status: OrderStatus): set<OrderId> {
    set o | o in orders && orders[o].status == status && orders[o].takenBy == Some(user)
  }

  /** `count_in_work`. */
  function InWork(orders: map<OrderId, OrderRow>, user: UserId): nat {
    |OrdersOf(orders, user, OrderStatus.Taken)|
  }

  function SeenUsers(offers: map<Row, OfferStatus>, order: OrderId): (seen: set<UserId>)
    ensures forall row :: row in offers && row.0 == order ==> row.1 in seen
    ensures forall u :: u in seen ==> (order, u) in offers
  {
    set row | row in offers && row.0 == order :: row.1
  }

  function WithStatus(orders: map<OrderId, OrderRow>, order: OrderId, status: OrderStatus): map<OrderId, OrderRow>
    requires order in orders
  {
    orders[order := orders[order].(status := status)]
  }

  // ---- take and complete ----------------------------------------------------

  datatype TakeOutcome = TakeOk | Unavailable | LimitReached | Offline | AmountError

  /** The checks of `take`, in its order. Any outcome but TakeOk rolls the transaction back. */
  function TakeResult(st: State, order: OrderId, user: UserId, online: bool, profile: Profile): TakeOutcome {
    if !online then Offline
    else if InWork(st.orders, user) >= st.limit then LimitReached
    else if order !in st.orders then Unavailable
    else
      var job := st.orders[order].job;
      if profile.withCodes != job.withCodes then Unavailable
      else if Pricing.ValidateTake(job, profile).None? then AmountError
      else if Pricing.ValidateTake(job, profile) == Some(false) then Unavailable
      else if !IsOffered(st.offers, (order, user)) then Unavailable
      else if !IsOpen(st.orders[order].status) then Unavailable
      else TakeOk
  }

  predicate Credited(ledger: seq<Credit>, user: UserId, order: OrderId) {
    exists i :: 0 <= i < |ledger| && ledger[i].order == order && ledger[i].user == user
  }

  datatype CompleteOutcome = Paid(amount: real) | NotInWork | Aborted

  /**
   * How `complete` ends; Aborted is an exception inside the transaction. The profile of the taker is always
   * found: `taken_by` is a foreign key, cleared when a profile is deleted, and the closing update holds the
   * row.
   */
  function CompleteResult(
      st: State, order: OrderId, user: UserId, payee: Profile, codePrice: real): CompleteOutcome
  {
    if !TakenFrom(st.orders, order, user) then NotInWork
    else
      match Pricing.CompletionAmount(st.orders[order].job, payee, codePrice)
      case None => Aborted
      case Some(amount) => if Credited(st.ledger, user, order) then Aborted else Paid(amount)
  }

  // ---- the steps -------------------------------------------------------------

  ghost predicate Enabled(st: State, e: Event) {
    match e
    case Create(o, _) => o !in st.orders
    case ListDue(s, due) => (forall h :: h in st.sweep ==> h.sweep != s) && forall o :: o in due ==> OpenOrder(st, o)
    case SweepExpire(s, rows) =>
      && (forall h :: h in st.sweep && h.sweep == s ==> st.sweep[h].Listed?)
      && Returns(rows, ListedRows(st, s))
    case ReadOffered(s) => forall h :: h in st.sweep && h.sweep == s ==> st.sweep[h].Swept?
    case TryReserve(h, u) => h in st.sweep && st.sweep[h].Ready? && u !in st.sweep[h].seen
    case GiveUp(h) => h in st.sweep && st.sweep[h].Ready?
    case RecordOffer(h) => h in st.sweep && st.sweep[h].Reserved?
    case Rollback(h) => h in st.sweep && st.sweep[h].Recorded?
    case Schedule(h) => h in st.sweep && st.sweep[h].Recorded?
    case MarkOffering(h) => h in st.sweep && st.sweep[h].Scheduled? && h.order in st.orders
    case MarkNoTakers(h) => h in st.sweep && st.sweep[h].Ready? && h.order in st.orders
    case Take(o, u, online, profile, _, rows) =>
      TakeResult(st, o, u, online, profile) == TakeOk ==>
        Returns(rows, set row | row in OfferedRows(st.offers) && row.0 == o && row != (o, u))
    case Complete(_, _, _, _) => true
    case Cancel(_, _) => true
    case TimeOut(_, _) => true
    case Clean(o, rows) => Returns(rows, set row | row in OfferedRows(st.offers) && row.0 == o)
    case ClaimDue(batch) => batch <= st.deadlines
    case ExpireDue(batch, rows) => batch <= st.claimed && Returns(rows, batch * OfferedRows(st.offers))
    case RateNotTaken(users) => multiset(users) <= st.owedNotTaken
    case RateIncomplete(u) => u in st.owedIncomplete
    case Release(users) => multiset(users) <= st.owedRelease
  }

  /** The open offers of the orders a sweep has listed. */
  function ListedRows(st: State, s: nat): set<Row> {
    set row | row in OfferedRows(st.offers) && Handling(s, row.0) in st.sweep
  }

  /** The offers in `rows` expire: their users are to be rated and released. */
  function Lapse(st: State, rows: seq<Row>): State {
    st.(offers := WithExpired(st.offers, rows),
        owedNotTaken := st.owedNotTaken + multiset(Users(rows)),
        owedRelease := st.owedRelease + multiset(Users(rows)))
  }

  /** `list_due_for_fanout`. */
  function ListStep(st: State, s: nat, due: set<OrderId>): State {
    st.(sweep := st.sweep + map o | o in due :: Handling(s, o) := Listed)
  }

  /** `expire_offered_for_orders`. */
  function SweepExpireStep(st: State, s: nat, rows: seq<Row>): State {
    Lapse(st, rows).(sweep := map h | h in st.sweep :: if h.sweep == s then Swept else st.sweep[h])
  }

  /** `offered_user_ids_many`. */
  function ReadStep(st: State, s: nat): State {
    st.(sweep :=
          map h | h in st.sweep :: if h.sweep == s then Ready(SeenUsers(st.offers, h.order)) else st.sweep[h])
  }

  predicate Reservable(st: State, u: UserId) { At(st.pending, u) + 1 <= st.limit }

  /** The _RESERVE script: increment, and take it back when that exceeds the limit. */
  function ReserveStep(st: State, h: Handling, u: UserId): State
    requires h in st.sweep && st.sweep[h].Ready?
  {
    var reserved := Reservable(st, u);
    st.(pending := st.pending[u := At(st.pending, u) + if reserved then 1 else 0],
        sweep := if reserved then st.sweep[h := Reserved(st.sweep[h].seen, u)] else st.sweep)
  }

  /** The handling ends with nothing done: everyone ranked is at the limit, or the selection raised. */
  function GiveUpStep(st: State, h: Handling): State {
    st.(sweep := st.sweep - {h})
  }

  /** `record_offer`: ON CONFLICT DO NOTHING. */
  function RecordStep(st: State, h: Handling): State
    requires h in st.sweep && st.sweep[h].Reserved?
  {
    var row := (h.order, st.sweep[h].user);
    st.(offers := if row in st.offers then st.offers else st.offers[row := Offered],
        sweep := st.sweep[h := Recorded(row.1)])
  }

  /** `_rollback_offer`: expire the row if it is still open, release either way. */
  function RollbackStep(st: State, h: Handling): State
    requires h in st.sweep && st.sweep[h].Recorded?
  {
    var row := (h.order, st.sweep[h].user);
    var hit := if IsOffered(st.offers, row) then [row] else [];
    st.(offers := WithExpired(st.offers, hit),
        withdrawn := st.withdrawn + (set r | r in hit),
        owedRelease := st.owedRelease + multiset{row.1},
        sweep := st.sweep - {h})
  }

  /** `OfferDeadlineQueue.schedule`. */
  function ScheduleStep(st: State, h: Handling): State
    requires h in st.sweep && st.sweep[h].Recorded?
  {
    var u := st.sweep[h].user;
    st.(deadlines := st.deadlines + {(h.order, u)}, sweep := st.sweep[h := Scheduled(u)])
  }

  /** `mark_offering` and `mark_no_takers`: by id only. */
  function MarkStep(st: State, h: Handling, status: OrderStatus): State
    requires h.order in st.orders
  {
    st.(orders := WithStatus(st.orders, h.order, status), sweep := st.sweep - {h})
  }

  /** The committed `take` transaction. */
  function TakeStep(st: State, o: OrderId, u: UserId, price: real, rows: seq<Row>): State
    requires o in st.orders
  {
    Lapse(
      st.(offers := st.offers[(o, u) := OfferTaken],
          orders := st.orders[o := OrderRow(st.orders[o].job, OrderStatus.Taken, Some(u), Some(price))]),
      rows)
  }

  /** `_resolve`: a taken order closes and its user is to be released. */
  function CloseStep(st: State, o: OrderId, u: UserId, status: OrderStatus): State
    requires o in st.orders
  {
    st.(orders := WithStatus(st.orders, o, status), owedRelease := st.owedRelease + multiset{u})
  }

  function PaidStep(st: State, o: OrderId, u: UserId, amount: real): State
    requires o in st.orders
  {
    CloseStep(st, o, u, Completed).(
      ledger := st.ledger + [Credit(u, o, amount)],
      complete := if st.orders[o].job.withCodes then st.complete else Incremented(st.complete, [u]))
  }

  /** `complete`: an abort rolls everything back. */
  function CompleteStep(st: State, o: OrderId, u: UserId, payee: Profile, codePrice: real): State {
    match CompleteResult(st, o, u, payee, codePrice)
    case NotInWork => st
    case Aborted => st
    case Paid(amount) => PaidStep(st, o, u, amount)
  }

  /** Apart from the ledger and the rating, a completion that succeeds only closes the order. */
  lemma CompleteCloses(st: State, o: OrderId, u: UserId, payee: Profile, codePrice: real)
    ensures
      var after := CompleteStep(st, o, u, payee, codePrice);
      || after == st
      || (TakenFrom(st.orders, o, u)
          && after.(ledger := st.ledger, complete := st.complete) == CloseStep(st, o, u, Completed))
  {
    match CompleteResult(st, o, u, payee, codePrice) {
      case Paid(amount) =>
      case _ =>
    }
  }

  function CancelStep(st: State, o: OrderId, u: UserId): State
    requires o in st.orders
  {
    CloseStep(st, o, u, Cancelled).(
      owedIncomplete :=
        if st.orders[o].job.withCodes then st.owedIncomplete else st.owedIncomplete + multiset{u})
  }

  function TimeOutStep(st: State, o: OrderId, u: UserId): State
    requires o in st.orders
  {
    CloseStep(st, o, u, TimedOut).(owedNotTaken := st.owedNotTaken + multiset{u})
  }

  /** `clean_order`: cancel by id only, expire the order's open offers. */
  function CleanStep(st: State, o: OrderId, rows: seq<Row>): State
    requires o in st.orders
  {
    st.(orders := WithStatus(st.orders, o, Cancelled),
        offers := WithExpired(st.offers, rows),
        withdrawn := st.withdrawn + (set row | row in rows),
        owedRelease := st.owedRelease + multiset(Users(rows)))
  }

  /** `claim_due`. */
  function ClaimStep(st: State, batch: set<Row>): State {
    st.(deadlines := st.deadlines - batch, claimed := st.claimed + batch)
  }

  /** `expire_many` on a claimed batch. */
  function ExpireDueStep(st: State, batch: set<Row>, rows: seq<Row>): State {
    Lapse(st, rows).(claimed := st.claimed - batch)
  }

  function RateNotTakenStep(st: State, users: seq<UserId>): State {
    st.(notTaken := Incremented(st.notTaken, users), owedNotTaken := st.owedNotTaken - multiset(users))
  }

  function RateIncompleteStep(st: State, u: UserId): State {
    st.(incomplete := Incremented(st.incomplete, [u]), owedIncomplete := st.owedIncomplete - multiset{u})
  }

  function ReleaseStep(st: State, users: seq<UserId>): State {
    st.(pending := Released(st.pending, users), owedRelease := st.owedRelease - multiset(users))
  }

  ghost function Apply(st: State, e: Event): State
    requires Enabled(st, e)
  {
    match e
    case Create(o, job) => st.(orders := st.orders[o := OrderRow(job, Pending, None, None)])
    case ListDue(s, due) => ListStep(st, s, due)
    case SweepExpire(s, rows) => SweepExpireStep(st, s, rows)
    case ReadOffered(s) => ReadStep(st, s)
    case TryReserve(h, u) => ReserveStep(st, h, u)
    case GiveUp(h) => GiveUpStep(st, h)
    case RecordOffer(h) => RecordStep(st, h)
    case Rollback(h) => RollbackStep(st, h)
    case Schedule(h) => ScheduleStep(st, h)
    case MarkOffering(h) => MarkStep(st, h, Offering)
    case MarkNoTakers(h) => MarkStep(st, h, NoTakers)
    case Take(o, u, online, profile, codePrice, rows) =>
      if TakeResult(st, o, u, online, profile) != TakeOk then st
      else TakeStep(st, o, u, Pricing.TakenPrice(st.orders[o].job, profile, codePrice), rows)
    case Complete(o, u, payee, codePrice) => CompleteStep(st, o, u, payee, codePrice)
    case Cancel(o, u) => if TakenFrom(st.orders, o, u) then CancelStep(st, o, u) else st
    case TimeOut(o, u) => if TakenFrom(st.orders, o, u) then TimeOutStep(st, o, u) else st
    case Clean(o, rows) => if o in st.orders then CleanStep(st, o, rows) else st
    case ClaimDue(batch) => ClaimStep(st, batch)
    case ExpireDue(batch, rows) => ExpireDueStep(st, batch, rows)
    case RateNotTaken(users) => RateNotTakenStep(st, users)
    case RateIncomplete(u) => RateIncompleteStep(st, u)
    case Release(users) => ReleaseStep(st, users)
  }

  // ---- runs -------------------------------------------------------------------

  ghost predicate Legal(st: State, run: seq<Event>)
    decreases |run|
  {
    run == [] || (Enabled(st, run[0]) && Legal(Apply(st, run[0]), run[1..]))
  }

  ghost function Exec(st: State, run: seq<Event>): State
    requires Legal(st, run)
    decreases |run|
  {
    if run == [] then st else Exec(Apply(st, run[0]), run[1..])
  }

  /** The states a run passes through. */
  ghost predicate IsTrace(trace: seq<State>, run: seq<Event>) {
    && |trace| == |run| + 1
    && forall i :: 0 <= i < |run| ==> Enabled(trace[i], run[i]) && trace[i + 1] == Apply(trace[i], run[i])
  }

  ghost predicate Leads(from: State, run: seq<Event>, to: State) {
    exists trace :: IsTrace(trace, run) && trace[0] == from && trace[|run|] == to
  }

  /** A step, then the rating and the release it owes. */
  lemma SettledAfter(before: seq<Event>, log: seq<Event>, e: Event, users: seq<UserId>)
    requires log == (before + [e]) + [RateNotTaken(users), Release(users)]
    ensures log == before + [e, RateNotTaken(users), Release(users)]
  {
  }

  lemma Regroup<T>(a: seq<T>, b: seq<T>, c: seq<T>)
    ensures (a + b) + c == a + (b + c)
  {
  }

  lemma LeadsNowhere(st: State)
    ensures Leads(st, [], st)
  {
    assert IsTrace([st], []);
  }

  /** Free of the steps' meaning, so that it can be used without unfolding them. */
  lemma TraceGrows(trace: seq<State>, run: seq<Event>, e: Event, after: State)
    requires IsTrace(trace, run) && Enabled(trace[|run|], e) && after == Apply(trace[|run|], e)
    ensures IsTrace(trace + [after], run + [e])
  {
    var trace', run' := trace + [after], run + [e];
    forall i | 0 <= i < |run'| ensures Enabled(trace'[i], run'[i]) && trace'[i + 1] == Apply(trace'[i], run'[i]) {
      if i < |run| {
        assert trace'[i] == trace[i] && trace'[i + 1] == trace[i + 1] && run'[i] == run[i];
      }
    }
  }

  lemma LeadsOn(from: State, run: seq<Event>, to: State, e: Event)
    requires Leads(from, run, to) && Enabled(to, e)
    ensures Leads(from, run + [e], Apply(to, e))
  {
    var trace :| IsTrace(trace, run) && trace[0] == from && trace[|run|] == to;
    TraceGrows(trace, run, e, Apply(to, e));
    assert (trace + [Apply(to, e)])[0] == from && (trace + [Apply(to, e)])[|run + [e]|] == Apply(to, e);
  }

  lemma {:induction false} TraceIsRun(trace: seq<State>, run: seq<Event>)
    requires IsTrace(trace, run)
    ensures Legal(trace[0], run) && Exec(trace[0], run) == trace[|run|]
    decreases |run|
  {
    if run != [] {
      assert Enabled(trace[0], run[0]) && trace[1] == Apply(trace[0], run[0]);
      TraceIsRun(trace[1..], run[1..]);
    }
  }

  lemma LeadsIsExec(from: State, run: seq<Event>, to: State)
    requires Leads(from, run, to)
    ensures Legal(from, run) && to == Exec(from, run)
  {
    var trace :| IsTrace(trace, run) && trace[0] == from && trace[|run|] == to;
    TraceIsRun(trace, run);
  }

  lemma SweepExpireLeads(from: State, run: seq<Event>, st: State, s: nat, rows: seq<Row>)
    requires Leads(from, run, st) && forall h :: h in st.sweep && h.sweep == s ==> st.sweep[h].Listed?
    requires Returns(rows, ListedRows(st, s))
    ensures Leads(from, run + [SweepExpire(s, rows)], SweepExpireStep(st, s, rows))
  {
    LeadsOn(from, run, st, SweepExpire(s, rows));
  }

  lemma ExpireDueLeads(from: State, run: seq<Event>, st: State, batch: set<Row>, rows: seq<Row>)
    requires Leads(from, run, st) && batch <= st.claimed && Returns(rows, batch * OfferedRows(st.offers))
    ensures Leads(from, run + [ExpireDue(batch, rows)], ExpireDueStep(st, batch, rows))
  {
    LeadsOn(from, run, st, ExpireDue(batch, rows));
  }

  lemma ReadLeads(from: State, run: seq<Event>, st: State, s: nat)
    requires Leads(from, run, st) && forall h :: h in st.sweep && h.sweep == s ==> st.sweep[h].Swept?
    ensures Leads(from, run + [ReadOffered(s)], ReadStep(st, s))
  {
    LeadsOn(from, run, st, ReadOffered(s));
  }

  lemma ReserveLeads(from: State, run: seq<Event>, st: State, h: Handling, u: UserId)
    requires Leads(from, run, st) && h in st.sweep && st.sweep[h].Ready? && u !in st.sweep[h].seen
    ensures Leads(from, run + [TryReserve(h, u)], ReserveStep(st, h, u))
  {
    LeadsOn(from, run, st, TryReserve(h, u));
  }

  lemma ReleaseLeads(from: State, run: seq<Event>, st: State, users: seq<UserId>)
    requires Leads(from, run, st) && multiset(users) <= st.owedRelease
    ensures Leads(from, run + [Release(users)], ReleaseStep(st, users))
  {
    LeadsOn(from, run, st, Release(users));
  }

  lemma RateNotTakenLeads(from: State, run: seq<Event>, st: State, users: seq<UserId>)
    requires Leads(from, run, st) && multiset(users) <= st.owedNotTaken
    ensures Leads(from, run + [RateNotTaken(users)], RateNotTakenStep(st, users))
  {
    LeadsOn(from, run, st, RateNotTaken(users));
  }

  lemma RateIncompleteLeads(from: State, run: seq<Event>, st: State, u: UserId)
    requires Leads(from, run, st) && u in st.owedIncomplete
    ensures Leads(from, run + [RateIncomplete(u)], RateIncompleteStep(st, u))
  {
    LeadsOn(from, run, st, RateIncomplete(u));
  }

  lemma TakeAbortLeads(
      from: State, run: seq<Event>, st: State, o: OrderId, u: UserId, online: bool, profile: Profile, price: real)
    requires Leads(from, run, st) && TakeResult(st, o, u, online, profile) != TakeOk
    ensures Leads(from, run + [Take(o, u, online, profile, price, [])], st)
  {
    LeadsOn(from, run, st, Take(o, u, online, profile, price, []));
  }

  lemma TakeLeads(
      from: State, run: seq<Event>, st: State, o: OrderId, u: UserId, profile: Profile, price: real, rows: seq<Row>)
    requires Leads(from, run, st) && TakeResult(st, o, u, true, profile) == TakeOk
    requires Returns(rows, set row | row in OfferedRows(st.offers) && row.0 == o && row != (o, u))
    ensures
      Leads(from, run + [Take(o, u, true, profile, price, rows)],
            TakeStep(st, o, u, Pricing.TakenPrice(st.orders[o].job, profile, price), rows))
  {
    LeadsOn(from, run, st, Take(o, u, true, profile, price, rows));
  }

  lemma CompleteLeads(
      from: State, run: seq<Event>, st: State, o: OrderId, u: UserId, payee: Profile, codePrice: real)
    requires Leads(from, run, st)
    ensures Leads(from, run + [Complete(o, u, payee, codePrice)], CompleteStep(st, o, u, payee, codePrice))
  {
    LeadsOn(from, run, st, Complete(o, u, payee, codePrice));
  }

  lemma CancelLeads(from: State, run: seq<Event>, st: State, o: OrderId, u: UserId)
    requires Leads(from, run, st)
    ensures Leads(from, run + [Cancel(o, u)], if TakenFrom(st.orders, o, u) then CancelStep(st, o, u) else st)
  {
    LeadsOn(from, run, st, Cancel(o, u));
  }

  lemma TimeOutLeads(from: State, run: seq<Event>, st: State, o: OrderId, u: UserId)
    requires Leads(from, run, st)
    ensures Leads(from, run + [TimeOut(o, u)], if TakenFrom(st.orders, o, u) then TimeOutStep(st, o, u) else st)
  {
    LeadsOn(from, run, st, TimeOut(o, u));
  }

  lemma CleanLeads(from: State, run: seq<Event>, st: State, o: OrderId, rows: seq<Row>)
    requires Leads(from, run, st) && o in st.orders
    requires Returns(rows, set row | row in OfferedRows(st.offers) && row.0 == o)
    ensures Leads(from, run + [Clean(o, rows)], CleanStep(st, o, rows))
  {
    LeadsOn(from, run, st, Clean(o, rows));
  }
}
