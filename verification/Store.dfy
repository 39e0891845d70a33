/**
 * Postgres and Redis as one mutable store, with the statements, scripts and pipelines the services
 * run on it. The ghost log lists the protocol events performed so far; Valid ties the fields to it.
 */
module Store {
  import opened Records
  import opened Protocol

  /** `offered_by_order.get(order_id, set())`. */
  function OfferedTo(offered: map<OrderId, set<UserId>>, order: OrderId): set<UserId> {
    if order in offered then offered[order] else {}
  }

  class Database {
    const limit: nat
    var orders: map<OrderId, OrderRow>
    var offers: map<Row, OfferStatus>
    var ledger: seq<Credit>
    var pending: map<UserId, int>
    var complete: map<UserId, int>
    var incomplete: map<UserId, int>
    var notTaken: map<UserId, int>
    var deadlines: set<Row>
    ghost var st: State
    ghost var log: seq<Event>

    constructor (limit: nat)
      ensures Valid() && this.limit == limit && log == []
    {
      this.limit := limit;
      orders, offers, ledger, deadlines := map[], map[], [], {};
      pending, complete, incomplete, notTaken := map[], map[], map[], map[];
      st, log := Init(limit), [];
      LeadsNowhere(Init(limit));
    }

    /** The fields hold what `st` says. */
    ghost predicate Shows()
      reads this
    {
      && limit == st.limit && orders == st.orders && offers == st.offers && ledger == st.ledger
      && pending == st.pending && complete == st.complete && incomplete == st.incomplete
      && notTaken == st.notTaken && deadlines == st.deadlines
    }

    /** The store is what the protocol says it is after the logged events. */
    ghost predicate Valid()
      reads this
    {
      Leads(Init(limit), log, st) && Shows()
    }

    /** The rows of `hit`, in whatever order the database returns them. */
    method Fetch(hit: set<Row>) returns (rows: seq<Row>)
      ensures Returns(rows, hit)
    {
      rows := [];
      var rest := hit;
      while rest != {}
        invariant rest <= hit && Returns(rows, hit - rest)
        decreases |rest|
      {
        var row :| row in rest;
        rows := rows + [row];
        rest := rest - {row};
      }
    }

    // ---- OrderRepository ----------------------------------------------------------

    method Add(order: OrderId, job: Job)
      requires Valid() && order !in orders
      modifies `orders, `st, `log
      ensures Valid() && log == old(log) + [Create(order, job)]
    {
      orders := orders[order := OrderRow(job, Pending, None, None)];
      assert Leads(Init(limit), log + [Create(order, job)], st.(orders := orders)) by {
        LeadsOn(Init(limit), log, st, Create(order, job));
      }
      st, log := st.(orders := orders), log + [Create(order, job)];
    }

    /** `list_due_for_fanout`; which open orders are due is up to the clock, so `due` is given. */
    ghost method ListDueForFanout(s: nat, due: set<OrderId>)
      requires Valid() && (forall h :: h in st.sweep ==> h.sweep != s) && forall o :: o in due ==> OpenOrder(st, o)
      modifies `st, `log
      ensures Valid() && log == old(log) + [ListDue(s, due)] && st == ListStep(old(st), s, due)
    {
      assert Leads(Init(limit), log + [ListDue(s, due)], ListStep(st, s, due)) by {
        LeadsOn(Init(limit), log, st, ListDue(s, due));
      }
      st, log := ListStep(st, s, due), log + [ListDue(s, due)];
    }

    method MarkOffering(order: OrderId, ghost h: Handling)
      requires Valid() && Enabled(st, Event.MarkOffering(h)) && h.order == order
      modifies `orders, `st, `log
      ensures Valid() && log == old(log) + [Event.MarkOffering(h)] && st == MarkStep(old(st), h, Offering)
    {
      orders := orders[order := orders[order].(status := Offering)];
      assert Leads(Init(limit), log + [Event.MarkOffering(h)], MarkStep(st, h, Offering)) by {
        LeadsOn(Init(limit), log, st, Event.MarkOffering(h));
      }
      st, log := MarkStep(st, h, Offering), log + [Event.MarkOffering(h)];
    }

    method MarkNoTakers(order: OrderId, ghost h: Handling)
      requires Valid() && Enabled(st, Event.MarkNoTakers(h)) && h.order == order
      modifies `orders, `st, `log
      ensures Valid() && log == old(log) + [Event.MarkNoTakers(h)] && st == MarkStep(old(st), h, NoTakers)
    {
      orders := orders[order := orders[order].(status := NoTakers)];
      assert Leads(Init(limit), log + [Event.MarkNoTakers(h)], MarkStep(st, h, NoTakers)) by {
        LeadsOn(Init(limit), log, st, Event.MarkNoTakers(h));
      }
      st, log := MarkStep(st, h, NoTakers), log + [Event.MarkNoTakers(h)];
    }

    /** `count_in_work`. */
    method CountInWork(user: UserId) returns (n: nat)
      ensures n == InWork(orders, user)
    {
      var rest := orders.Keys;
      n := 0;
      while rest != {}
        invariant rest <= orders.Keys
        invariant n == |OrdersOf(orders, user, OrderStatus.Taken) - rest|
        decreases |rest|
      {
        var o :| o in rest;
        ghost var counted := OrdersOf(orders, user, OrderStatus.Taken) - rest;
        if orders[o].status == OrderStatus.Taken && orders[o].takenBy == Some(user) {
          assert OrdersOf(orders, user, OrderStatus.Taken) - (rest - {o}) == counted + {o};
          n := n + 1;
        } else {
          assert OrdersOf(orders, user, OrderStatus.Taken) - (rest - {o}) == counted;
        }
        rest := rest - {o};
      }
      assert OrdersOf(orders, user, OrderStatus.Taken) - {} == OrdersOf(orders, user, OrderStatus.Taken);
    }

    /** `claim_for_take`: WHERE status is pending or offering. */
    method ClaimForTake(order: OrderId, user: UserId, takenPrice: real) returns (claimed: bool)
      modifies `orders
      ensures claimed == (order in old(orders) && IsOpen(old(orders)[order].status))
      ensures orders ==
        if claimed
        then old(orders)[order := OrderRow(old(orders)[order].job, OrderStatus.Taken, Some(user), Some(takenPrice))]
        else old(orders)
    {
      claimed := order in orders && IsOpen(orders[order].status);
      if claimed {
        orders := orders[order := OrderRow(orders[order].job, OrderStatus.Taken, Some(user), Some(takenPrice))];
      }
    }

    /** `_resolve`: WHERE taken_by is the user and status is taken. */
    method Resolve(order: OrderId, user: UserId, status: OrderStatus) returns (resolved: bool)
      modifies `orders
      ensures resolved == TakenFrom(old(orders), order, user)
      ensures orders == if resolved then WithStatus(old(orders), order, status) else old(orders)
    {
      resolved := order in orders && orders[order].status == OrderStatus.Taken && orders[order].takenBy == Some(user);
      if resolved {
        orders := orders[order := orders[order].(status := status)];
      }
    }

    // ---- OrderOfferRepository ------------------------------------------------------

    /** `record_offer`: ON CONFLICT DO NOTHING. */
    method RecordOffer(order: OrderId, user: UserId, ghost h: Handling)
      requires Valid() && h.order == order && h in st.sweep && st.sweep[h].Reserved? && st.sweep[h].user == user
      modifies `offers, `st, `log
      ensures Valid() && log == old(log) + [Event.RecordOffer(h)] && st == RecordStep(old(st), h)
    {
      if (order, user) !in offers {
        offers := offers[(order, user) := Offered];
      }
      assert Leads(Init(limit), log + [Event.RecordOffer(h)], RecordStep(st, h)) by {
        LeadsOn(Init(limit), log, st, Event.RecordOffer(h));
      }
      st, log := RecordStep(st, h), log + [Event.RecordOffer(h)];
    }

    /** `_resolve_offer`: WHERE status is offered. */
    method ResolveOffer(order: OrderId, user: UserId, status: OfferStatus) returns (resolved: bool)
      modifies `offers
      ensures resolved == IsOffered(old(offers), (order, user))
      ensures offers == if resolved then old(offers)[(order, user) := status] else old(offers)
    {
      resolved := (order, user) in offers && offers[(order, user)] == Offered;
      if resolved {
        offers := offers[(order, user) := status];
      }
    }

    /** An UPDATE ... SET expired ... RETURNING over the offered rows among `wanted`. */
    method Expire(wanted: set<Row>) returns (rows: seq<Row>)
      modifies `offers
      ensures Returns(rows, wanted * OfferedRows(old(offers)))
      ensures offers == WithExpired(old(offers), rows)
    {
      rows := Fetch(set row | row in wanted && row in offers && offers[row] == Offered);
      offers := map row | row in offers :: if row in rows then Expired else offers[row];
    }

    /** `expire_offered`. */
    method ExpireOffered(order: OrderId) returns (rows: seq<Row>)
      modifies `offers
      ensures Returns(rows, set row | row in OfferedRows(old(offers)) && row.0 == order)
      ensures offers == WithExpired(old(offers), rows)
    {
      rows := Expire(set row | row in offers && row.0 == order);
    }

    /** `expire_offered_for_orders` on the table alone. */
    method ExpireOfferedOf(due: seq<OrderId>) returns (rows: seq<Row>)
      modifies `offers
      ensures Returns(rows, set row | row in OfferedRows(old(offers)) && row.0 in due)
      ensures offers == WithExpired(old(offers), rows)
    {
      rows := Expire(set row | row in offers && row.0 in due);
    }

    /** `expire_offered_for_orders` of the orders a sweep has listed. */
    method ExpireOfferedForOrders(due: seq<OrderId>, ghost s: nat) returns (rows: seq<Row>)
      requires Valid() && (forall h :: h in st.sweep && h.sweep == s ==> st.sweep[h].Listed?)
      requires forall o :: o in due <==> Handling(s, o) in st.sweep
      modifies `offers, `st, `log
      ensures Valid() && log == old(log) + [SweepExpire(s, rows)] && st == SweepExpireStep(old(st), s, rows)
      ensures Returns(rows, set row | row in OfferedRows(old(offers)) && row.0 in due)
      ensures offers == WithExpired(old(offers), rows)
    {
      rows := ExpireOfferedOf(due);
      assert Leads(Init(limit), log + [SweepExpire(s, rows)], SweepExpireStep(st, s, rows)) by {
        SweepExpireLeads(Init(limit), log, st, s, rows);
      }
      st, log := SweepExpireStep(st, s, rows), log + [SweepExpire(s, rows)];
    }

    /** `expire_many` on a batch taken from the deadline queue. */
    method ExpireMany(batch: seq<Row>, ghost due: set<Row>) returns (rows: seq<Row>)
      requires Valid() && Returns(batch, due) && due <= st.claimed
      modifies `offers, `st, `log
      ensures Valid() && log == old(log) + [ExpireDue(due, rows)] && st == ExpireDueStep(old(st), due, rows)
      ensures Returns(rows, due * OfferedRows(old(offers)))
    {
      var wanted := set row | row in batch;
      rows := Expire(wanted);
      assert wanted == due;
      assert Leads(Init(limit), log + [ExpireDue(due, rows)], ExpireDueStep(st, due, rows)) by {
        ExpireDueLeads(Init(limit), log, st, due, rows);
      }
      st, log := ExpireDueStep(st, due, rows), log + [ExpireDue(due, rows)];
    }

    /** The rows of `offered_user_ids_many` gathered per order. */
    method GatherOffered(due: seq<OrderId>) returns (result: map<OrderId, set<UserId>>)
      ensures forall o :: o in due ==> OfferedTo(result, o) == SeenUsers(offers, o)
    {
      var rows := Fetch(set row | row in offers && row.0 in due);
      result := map[];
      for i := 0 to |rows|
        invariant forall o, u :: o in result && u in result[o] ==> (o, u) in rows[..i]
        invariant forall row :: row in rows[..i] ==> row.0 in result && row.1 in result[row.0]
      {
        var (o, u) := rows[i];
        assert rows[..i + 1] == rows[..i] + [rows[i]];
        result := result[o := OfferedTo(result, o) + {u}];
      }
      assert rows[..|rows|] == rows;
      forall o | o in due ensures OfferedTo(result, o) == SeenUsers(offers, o) {
        forall u ensures u in OfferedTo(result, o) <==> u in SeenUsers(offers, o) {
          assert u in SeenUsers(offers, o) ==> (o, u) in rows;
        }
      }
    }

    /** `offered_user_ids_many`: for each order the users it was ever offered to, whatever came of it. */
    method OfferedUserIdsMany(due: seq<OrderId>, ghost s: nat) returns (result: map<OrderId, set<UserId>>)
      requires Valid() && forall h :: h in st.sweep && h.sweep == s ==> st.sweep[h].Swept?
      modifies `st, `log
      ensures Valid() && log == old(log) + [ReadOffered(s)] && st == ReadStep(old(st), s)
      ensures forall o :: o in due ==> OfferedTo(result, o) == SeenUsers(offers, o)
    {
      result := GatherOffered(due);
      assert Leads(Init(limit), log + [ReadOffered(s)], ReadStep(st, s)) by {
        ReadLeads(Init(limit), log, st, s);
      }
      st, log := ReadStep(st, s), log + [ReadOffered(s)];
    }

    /** `expire_one`, the database half of `_rollback_offer`. */
    method ExpireOne(order: OrderId, user: UserId, ghost h: Handling)
      requires Valid() && h.order == order && h in st.sweep && st.sweep[h] == Recorded(user)
      modifies `offers, `st, `log
      ensures Valid() && log == old(log) + [Rollback(h)] && st == RollbackStep(old(st), h)
    {
      var expired := ResolveOffer(order, user, Expired);
      assert offers == RollbackStep(st, h).offers;
      assert Leads(Init(limit), log + [Rollback(h)], RollbackStep(st, h)) by {
        LeadsOn(Init(limit), log, st, Rollback(h));
      }
      st, log := RollbackStep(st, h), log + [Rollback(h)];
    }

    /** The handling ends with nothing done. */
    ghost method LeaveForNextSweep(h: Handling)
      requires Valid() && h in st.sweep && st.sweep[h].Ready?
      modifies `st, `log
      ensures Valid() && log == old(log) + [GiveUp(h)] && st == GiveUpStep(old(st), h)
    {
      assert Leads(Init(limit), log + [GiveUp(h)], GiveUpStep(st, h)) by {
        LeadsOn(Init(limit), log, st, GiveUp(h));
      }
      st, log := GiveUpStep(st, h), log + [GiveUp(h)];
    }

    // ---- TransactionsRepository --------------------------------------------------------

    /** `record_credit`; false when the unique index refuses the row. */
    method RecordCredit(user: UserId, order: OrderId, amount: real) returns (inserted: bool)
      modifies `ledger
      ensures inserted == !Credited(old(ledger), user, order)
      ensures ledger == if inserted then old(ledger) + [Credit(user, order, amount)] else old(ledger)
    {
      inserted := !Credited(ledger, user, order);
      if inserted {
        ledger := ledger + [Credit(user, order, amount)];
      }
    }

    // ---- PendingOrdersRepository and RatingRepository -----------------------------------

    /** The _RESERVE script: increment, and take it back when that exceeds the limit. */
    method Increment(user: UserId) returns (reserved: bool)
      modifies `pending
      ensures reserved == (At(old(pending), user) + 1 <= limit)
      ensures pending == old(pending)[user := At(old(pending), user) + if reserved then 1 else 0]
    {
      pending := pending[user := At(pending, user) + 1];
      reserved := true;
      if pending[user] > limit {
        pending := pending[user := pending[user] - 1];
        reserved := false;
      }
    }

    /** `reserve`, on behalf of a handling. */
    method Reserve(user: UserId, ghost h: Handling) returns (reserved: bool)
      requires Valid() && h in st.sweep && st.sweep[h].Ready? && user !in st.sweep[h].seen
      modifies `pending, `st, `log
      ensures Valid() && log == old(log) + [TryReserve(h, user)]
      ensures st == ReserveStep(old(st), h, user) && reserved == Reservable(old(st), user)
    {
      reserved := Increment(user);
      assert Leads(Init(limit), log + [TryReserve(h, user)], ReserveStep(st, h, user)) by {
        ReserveLeads(Init(limit), log, st, h, user);
      }
      st, log := ReserveStep(st, h, user), log + [TryReserve(h, user)];
    }

    /** `release_many`, the _RELEASE script: decrement each key in turn, never below 0. */
    method ReleaseMany(users: seq<UserId>)
      modifies `pending
      ensures pending == Released(old(pending), users)
    {
      for i := 0 to |users|
        invariant Released(pending, users[i..]) == Released(old(pending), users)
      {
        assert users[i..][0] == users[i] && users[i..][1..] == users[i + 1..];
        ghost var was := pending;
        var left := At(pending, users[i]) - 1;
        pending := pending[users[i] := left];
        if left < 0 {
          pending := pending[users[i] := 0];
        }
        assert pending == was[users[i] := if left < 0 then 0 else left];
      }
    }

    /** A release that is owed, as a step of the protocol. */
    method ReleaseOwed(users: seq<UserId>)
      requires Valid() && multiset(users) <= st.owedRelease
      modifies `pending, `st, `log
      ensures Valid() && log == old(log) + [Release(users)] && st == ReleaseStep(old(st), users)
    {
      ReleaseMany(users);
      assert Leads(Init(limit), log + [Release(users)], ReleaseStep(st, users)) by {
        ReleaseLeads(Init(limit), log, st, users);
      }
      st, log := ReleaseStep(st, users), log + [Release(users)];
    }

    /** `record_not_taken`: one increment for each time a user is named. */
    method RecordNotTaken(users: seq<UserId>)
      modifies `notTaken
      ensures notTaken == Incremented(old(notTaken), users)
    {
      for i := 0 to |users|
        invariant Incremented(notTaken, users[i..]) == Incremented(old(notTaken), users)
      {
        assert users[i..][0] == users[i] && users[i..][1..] == users[i + 1..];
        notTaken := notTaken[users[i] := At(notTaken, users[i]) + 1];
      }
    }

    /** A rating that is owed, as a step of the protocol. */
    method RateOwed(users: seq<UserId>)
      requires Valid() && multiset(users) <= st.owedNotTaken
      modifies `notTaken, `st, `log
      ensures Valid() && log == old(log) + [RateNotTaken(users)] && st == RateNotTakenStep(old(st), users)
    {
      RecordNotTaken(users);
      assert Leads(Init(limit), log + [RateNotTaken(users)], RateNotTakenStep(st, users)) by {
        RateNotTakenLeads(Init(limit), log, st, users);
      }
      st, log := RateNotTakenStep(st, users), log + [RateNotTaken(users)];
    }

    /** Rate and release the users whose offer or order ran out, in that order. */
    method ReleaseNotTaken(users: seq<UserId>)
      requires Valid() && multiset(users) <= st.owedNotTaken && multiset(users) <= st.owedRelease
      modifies `notTaken, `pending, `st, `log
      ensures Valid() && log == old(log) + [RateNotTaken(users), Release(users)]
      ensures st == ReleaseStep(RateNotTakenStep(old(st), users), users)
    {
      RateOwed(users);
      ReleaseOwed(users);
    }

    /** `record_cancellation`. */
    method RecordCancellation(user: UserId)
      modifies `incomplete
      ensures incomplete == Incremented(old(incomplete), [user])
    {
      incomplete := incomplete[user := At(incomplete, user) + 1];
    }

    /** A cancellation's rating, as a step of the protocol. */
    method RateCancellation(user: UserId)
      requires Valid() && user in st.owedIncomplete
      modifies `incomplete, `st, `log
      ensures Valid() && log == old(log) + [RateIncomplete(user)] && st == RateIncompleteStep(old(st), user)
    {
      RecordCancellation(user);
      assert Leads(Init(limit), log + [RateIncomplete(user)], RateIncompleteStep(st, user)) by {
        RateIncompleteLeads(Init(limit), log, st, user);
      }
      st, log := RateIncompleteStep(st, user), log + [RateIncomplete(user)];
    }

    /** The counter part of `record_completion`. */
    method RecordCompletion(user: UserId)
      modifies `complete
      ensures complete == Incremented(old(complete), [user])
    {
      complete := complete[user := At(complete, user) + 1];
    }

    // ---- OfferDeadlineQueue -------------------------------------------------------------

    /** `schedule`. */
    method ScheduleDeadline(order: OrderId, user: UserId, ghost h: Handling)
      requires Valid() && h.order == order && h in st.sweep && st.sweep[h] == Recorded(user)
      modifies `deadlines, `st, `log
      ensures Valid() && log == old(log) + [Schedule(h)] && st == ScheduleStep(old(st), h)
    {
      deadlines := deadlines + {(order, user)};
      assert Leads(Init(limit), log + [Schedule(h)], ScheduleStep(st, h)) by {
        LeadsOn(Init(limit), log, st, Schedule(h));
      }
      st, log := ScheduleStep(st, h), log + [Schedule(h)];
    }

    /** `claim_due`: the due members leave the queue for exactly one poller. */
    method ClaimDue(due: set<Row>) returns (batch: seq<Row>)
      requires Valid() && due <= deadlines
      modifies `deadlines, `st, `log
      ensures Valid() && log == old(log) + [Event.ClaimDue(due)] && st == ClaimStep(old(st), due)
      ensures Returns(batch, due)
    {
      batch := Fetch(due);
      deadlines := deadlines - due;
      assert Leads(Init(limit), log + [Event.ClaimDue(due)], ClaimStep(st, due)) by {
        LeadsOn(Init(limit), log, st, Event.ClaimDue(due));
      }
      st, log := ClaimStep(st, due), log + [Event.ClaimDue(due)];
    }
  }
}
