/** OrderLifecycle: taking, completing, cancelling and timing out an order. */
module Lifecycle {
  import opened Records
  import opened Protocol
  import opened Store
  import opened Counting
  import Packages
  import Pricing
  import Tiers

  lemma OneCounted(counters: map<UserId, int>, user: UserId)
    ensures forall u :: At(Incremented(counters, [user]), u) == At(counters, u) + One(u == user)
  {
    forall u ensures At(Incremented(counters, [user]), u) == At(counters, u) + One(u == user) {
      IncrementedAt(counters, [user], u);
    }
  }

  lemma OneReleased(counters: map<UserId, int>, user: UserId)
    ensures forall u ::
      At(Released(counters, [user]), u)
      == if u != user then At(counters, u) else if At(counters, u) < 1 then 0 else At(counters, u) - 1
  {
    forall u
      ensures At(Released(counters, [user]), u)
           == if u != user then At(counters, u) else if At(counters, u) < 1 then 0 else At(counters, u) - 1
    {
      ReleasedIs(counters, [user], u);
    }
  }

  /** The profile does this kind of work, and its tier and prices do for the order. */
  predicate Suits(job: Job, profile: Profile) {
    && profile.withCodes == job.withCodes
    && Pricing.ValidateTake(job, profile) == Some(true)
  }

  /** Said out: codes need a tier that allows every code, packs one that allows every size, and all prices. */
  lemma SuitsIff(job: Job, profile: Profile)
    ensures job.withCodes ==>
      (Suits(job, profile) <==> profile.withCodes && Tiers.Allows(Tiers.CodeTiers, profile.tier, job.codeAmounts))
    ensures !job.withCodes ==>
      var counts := Packages.Decompose(job.amount);
      Suits(job, profile) <==>
        && !profile.withCodes && counts.Some? && profile.prices.Some? && profile.prices.value != map[]
        && forall i :: 0 <= i < |counts.value| ==>
             && counts.value[i].0 in profile.prices.value
             && Tiers.Allows(Tiers.PackTiers, profile.tier, [counts.value[i].0])
  {
    if !job.withCodes && Packages.Decompose(job.amount).Some? {
      var counts := Packages.Decompose(job.amount).value;
      forall i | 0 <= i < |counts|
        ensures Tiers.Allows(Tiers.PackTiers, profile.tier, [counts[i].0])
            <==> Tiers.Fits(Tiers.PackTiers, profile.tier, Pricing.Sizes(counts)[i])
      {
        assert [counts[i].0][0] == counts[i].0;
      }
    }
  }

  /** When `take` gives which answer. */
  lemma TakeAnswers(st: State, order: OrderId, user: UserId, online: bool, profile: Profile)
    ensures
      var result := TakeResult(st, order, user, online, profile);
      var held := set o |
        o in st.orders && st.orders[o].status == OrderStatus.Taken && st.orders[o].takenBy == Some(user);
      && (result == Offline <==> !online)
      && (result == LimitReached <==> online && |held| >= st.limit)
      && (result == AmountError <==>
            && online && |held| < st.limit && order in st.orders && !profile.withCodes
            && !st.orders[order].job.withCodes && Packages.Decompose(st.orders[order].job.amount).None?)
      && (result == TakeOk <==>
            && online && |held| < st.limit && order in st.orders && Suits(st.orders[order].job, profile)
            && (order, user) in st.offers && st.offers[(order, user)] == Offered
            && (st.orders[order].status == Pending || st.orders[order].status == Offering))
  {
  }

  /** The offer rows after a take. */
  lemma TakenRows(offers: map<Row, OfferStatus>, row: Row, rows: seq<Row>)
    requires IsOffered(offers, row) && Returns(rows, set r | r in OfferedRows(offers) && r.0 == row.0 && r != row)
    ensures forall r :: r in rows <==> r in offers && offers[r] == Offered && r.0 == row.0 && r.1 != row.1
    ensures
      var after := WithExpired(offers[row := OfferTaken], rows);
      && after.Keys == offers.Keys
      && forall r :: r in after ==>
           after[r] == if r == row then OfferTaken else if r in rows then Expired else offers[r]
  {
  }

  lemma TakePrice(job: Job, profile: Profile, codePrice: real)
    requires Pricing.ValidateTake(job, profile) == Some(true)
    ensures
      var prices := if profile.prices.Some? then profile.prices.value else map[];
      var counts := Packages.Decompose(job.amount);
      && (!job.withCodes ==> counts.Some? && forall i :: 0 <= i < |counts.value| ==> counts.value[i].0 in prices)
      && Pricing.TakenPrice(job, profile, codePrice)
         == if job.withCodes then codePrice else Pricing.FullPrice(prices, counts.value)
  {
  }

  /** What a completion that pays credits. */
  lemma PaidAmount(st: State, order: OrderId, user: UserId, payee: Profile, codePrice: real)
    requires CompleteResult(st, order, user, payee, codePrice).Paid?
    ensures
      var job, amount := st.orders[order].job, CompleteResult(st, order, user, payee, codePrice).amount;
      var prices := if payee.prices.Some? then payee.prices.value else map[];
      var counts := Packages.Decompose(job.amount);
      if job.withCodes then amount == codePrice
      else
        && counts.Some? && (forall i :: 0 <= i < |counts.value| ==> counts.value[i].0 in prices)
        && amount == Pricing.FullPrice(prices, counts.value)
  {
    Pricing.CompletionPays(st.orders[order].job, payee, codePrice);
  }

  /** What it does to the counters, release included. */
  lemma PaidCounts(st: State, order: OrderId, user: UserId, payee: Profile, codePrice: real)
    requires CompleteResult(st, order, user, payee, codePrice).Paid?
    ensures
      var after := ReleaseStep(CompleteStep(st, order, user, payee, codePrice), [user]);
      forall u ::
        && At(after.complete, u) == At(st.complete, u) + One(u == user && !st.orders[order].job.withCodes)
        && At(after.pending, u) == if u != user then At(st.pending, u)
                                   else if At(st.pending, u) < 1 then 0 else At(st.pending, u) - 1
  {
    OneCounted(st.complete, user);
    OneReleased(st.pending, user);
  }

  class OrderLifecycle {
    const db: Database

    constructor (db: Database)
      ensures this.db == db
    {
      this.db := db;
    }

    /** An aborted take leaves its event, and nothing else, behind. */
    ghost method Abort(order: OrderId, user: UserId, online: bool, profile: Profile, codePrice: real)
      requires db.Valid() && TakeResult(db.st, order, user, online, profile) != TakeOk
      modifies db`log
      ensures db.Valid() && db.log == old(db.log) + [Event.Take(order, user, online, profile, codePrice, [])]
    {
      assert Leads(Init(db.limit), db.log + [Event.Take(order, user, online, profile, codePrice, [])], db.st) by {
        TakeAbortLeads(Init(db.limit), db.log, db.st, order, user, online, profile, codePrice);
      }
      db.log := db.log + [Event.Take(order, user, online, profile, codePrice, [])];
    }

    /** The checks `take` makes before it writes, in its order; TakeOk lets it go on. */
    method Admit(order: OrderId, user: UserId, online: bool, profile: Profile) returns (result: TakeOutcome)
      ensures result == TakeOk ==>
        && online && InWork(db.orders, user) < db.limit && order in db.orders
        && profile.withCodes == db.orders[order].job.withCodes
        && Pricing.ValidateTake(db.orders[order].job, profile) == Some(true)
      ensures db.limit == db.st.limit && db.orders == db.st.orders && result != TakeOk ==>
        result == TakeResult(db.st, order, user, online, profile)
    {
      if !online {
        return Offline;
      }
      var inWork := db.CountInWork(user);
      if inWork >= db.limit {
        return LimitReached;
      }
      if order !in db.orders || profile.withCodes != db.orders[order].job.withCodes {
        return Unavailable;
      }
      var valid := Pricing.ValidateTake(db.orders[order].job, profile);
      if valid.None? {
        return AmountError;
      }
      return if valid.value then TakeOk else Unavailable;
    }

    /**
     * The writes of `take`: claim the offer, claim the order, expire the competitors. Either all of
     * them happen or none.
     */
    method Claim(order: OrderId, user: UserId, price: real) returns (claimed: bool, rows: seq<Row>)
      modifies db`orders, db`offers
      ensures claimed ==
        (IsOffered(old(db.offers), (order, user)) && order in old(db.orders) && IsOpen(old(db.orders)[order].status))
      ensures !claimed ==> rows == [] && db.orders == old(db.orders) && db.offers == old(db.offers)
      ensures claimed ==>
        Returns(rows, set row | row in OfferedRows(old(db.offers)) && row.0 == order && row != (order, user))
      ensures claimed ==> db.offers == WithExpired(old(db.offers)[(order, user) := OfferTaken], rows)
      ensures claimed ==>
        db.orders == old(db.orders)[order :=
          OrderRow(old(db.orders)[order].job, OrderStatus.Taken, Some(user), Some(price))]
    {
      var offersBefore := db.offers;
      claimed := db.ResolveOffer(order, user, OfferTaken);
      if !claimed {
        return false, [];
      }
      claimed := db.ClaimForTake(order, user, price);
      if !claimed {
        db.offers := offersBefore;
        return false, [];
      }
      rows := db.ExpireOffered(order);
      assert (set row | row in OfferedRows(offersBefore[(order, user) := OfferTaken]) && row.0 == order)
          == (set row | row in OfferedRows(offersBefore) && row.0 == order && row != (order, user));
    }

    /** The second half of the transaction of `take`, for a user that was admitted. */
    method ClaimAndCommit(order: OrderId, user: UserId, profile: Profile, codePrice: real)
      returns (claimed: bool, rows: seq<Row>)
      requires db.Valid() && order in db.orders && profile.withCodes == db.orders[order].job.withCodes
      requires InWork(db.orders, user) < db.limit
      requires Pricing.ValidateTake(db.orders[order].job, profile) == Some(true)
      modifies db`orders, db`offers, db`st, db`log
      ensures db.Valid() && claimed == (TakeResult(old(db.st), order, user, true, profile) == TakeOk)
      ensures !claimed ==> TakeResult(old(db.st), order, user, true, profile) == Unavailable
      ensures db.log == old(db.log) + [Event.Take(order, user, true, profile, codePrice, rows)]
      ensures claimed ==>
        multiset(Users(rows)) <= db.st.owedNotTaken && multiset(Users(rows)) <= db.st.owedRelease
      ensures claimed ==>
        && Returns(rows, set row | row in OfferedRows(old(db.offers)) && row.0 == order && row != (order, user))
        && db.offers == WithExpired(old(db.offers)[(order, user) := OfferTaken], rows)
        && db.orders == old(db.orders)[order := OrderRow(
             old(db.orders)[order].job, OrderStatus.Taken, Some(user),
             Some(Pricing.TakenPrice(old(db.orders)[order].job, profile, codePrice)))]
      ensures !claimed ==> rows == [] && db.orders == old(db.orders) && db.offers == old(db.offers)
    {
      var price := Pricing.TakenPrice(db.orders[order].job, profile, codePrice);
      claimed, rows := Claim(order, user, price);
      if !claimed {
        Abort(order, user, true, profile, codePrice);
        return;
      }
      ghost var event := Event.Take(order, user, true, profile, codePrice, rows);
      ghost var next := TakeStep(db.st, order, user, price, rows);
      assert Leads(Init(db.limit), db.log + [event], next) by {
        TakeLeads(Init(db.limit), db.log, db.st, order, user, profile, codePrice, rows);
      }
      db.st, db.log := next, db.log + [event];
    }

    /** The transaction of `take`. */
    method Transact(order: OrderId, user: UserId, online: bool, profile: Profile, codePrice: real)
      returns (result: TakeOutcome, rows: seq<Row>)
      requires db.Valid()
      modifies db`orders, db`offers, db`st, db`log
      ensures db.Valid() && result == TakeResult(old(db.st), order, user, online, profile)
      ensures db.log == old(db.log) + [Event.Take(order, user, online, profile, codePrice, rows)]
      ensures result == TakeOk ==>
        multiset(Users(rows)) <= db.st.owedNotTaken && multiset(Users(rows)) <= db.st.owedRelease
      ensures result == TakeOk ==>
        && order in old(db.orders) && Pricing.ValidateTake(old(db.orders)[order].job, profile) == Some(true)
        && Returns(rows, set row | row in OfferedRows(old(db.offers)) && row.0 == order && row != (order, user))
        && db.offers == WithExpired(old(db.offers)[(order, user) := OfferTaken], rows)
        && db.orders == old(db.orders)[order := OrderRow(
             old(db.orders)[order].job, OrderStatus.Taken, Some(user),
             Some(Pricing.TakenPrice(old(db.orders)[order].job, profile, codePrice)))]
      ensures result != TakeOk ==> rows == [] && db.orders == old(db.orders) && db.offers == old(db.offers)
    {
      result := Admit(order, user, online, profile);
      rows := [];
      if result != TakeOk {
        Abort(order, user, online, profile, codePrice);
        return;
      }
      var claimed: bool;
      claimed, rows := ClaimAndCommit(order, user, profile, codePrice);
      result := if claimed then TakeOk else Unavailable;
    }

    /** The transaction and, if it committed, the rating and the release of the competitors. */
    method TakeAndSettle(order: OrderId, user: UserId, online: bool, profile: Profile, codePrice: real)
      returns (result: TakeOutcome, rows: seq<Row>)
      requires db.Valid()
      modifies db`orders, db`offers, db`notTaken, db`pending, db`st, db`log
      ensures db.Valid() && result == TakeResult(old(db.st), order, user, online, profile)
      ensures
        var taken := Event.Take(order, user, online, profile, codePrice, rows);
        db.log ==
          old(db.log) + if result == TakeOk then [taken, RateNotTaken(Users(rows)), Release(Users(rows))] else [taken]
      ensures result == TakeOk ==>
        && order in old(db.orders) && Pricing.ValidateTake(old(db.orders)[order].job, profile) == Some(true)
        && Returns(rows, set row | row in OfferedRows(old(db.offers)) && row.0 == order && row != (order, user))
        && db.offers == WithExpired(old(db.offers)[(order, user) := OfferTaken], rows)
        && db.orders == old(db.orders)[order := OrderRow(
             old(db.orders)[order].job, OrderStatus.Taken, Some(user),
             Some(Pricing.TakenPrice(old(db.orders)[order].job, profile, codePrice)))]
      ensures result == TakeOk ==>
        && db.notTaken == Incremented(old(db.notTaken), Users(rows))
        && db.pending == Released(old(db.pending), Users(rows))
      ensures result != TakeOk ==>
        && rows == [] && db.orders == old(db.orders) && db.offers == old(db.offers)
        && db.notTaken == old(db.notTaken) && db.pending == old(db.pending)
    {
      ghost var before := db.log;
      result, rows := Transact(order, user, online, profile, codePrice);
      if result == TakeOk {
        db.ReleaseNotTaken(Users(rows));
        SettledAfter(before, db.log, Event.Take(order, user, online, profile, codePrice, rows), Users(rows));
      }
    }

    /**
     * `take`: the competitors it expired, if any, are rated and released after the commit. Besides the log
     * the contract says when each answer is given and what a take that succeeds changes.
     */
    method Take(order: OrderId, user: UserId, online: bool, profile: Profile, codePrice: real)
      returns (result: TakeOutcome, rows: seq<Row>)
      requires db.Valid()
      modifies db`orders, db`offers, db`notTaken, db`pending, db`st, db`log
      ensures db.Valid() && result == TakeResult(old(db.st), order, user, online, profile)
      ensures
        var taken := Event.Take(order, user, online, profile, codePrice, rows);
        db.log ==
          old(db.log) + if result == TakeOk then [taken, RateNotTaken(Users(rows)), Release(Users(rows))] else [taken]
      // the answers
      ensures
        var held := set o | o in old(db.orders) && old(db.orders)[o].status == OrderStatus.Taken
                      && old(db.orders)[o].takenBy == Some(user);
        && (result == Offline <==> !online)
        && (result == LimitReached <==> online && |held| >= db.limit)
        && (result == AmountError <==>
              && online && |held| < db.limit && order in old(db.orders) && !profile.withCodes
              && !old(db.orders)[order].job.withCodes && Packages.Decompose(old(db.orders)[order].job.amount).None?)
        && (result == TakeOk <==>
              && online && |held| < db.limit && order in old(db.orders)
              && Suits(old(db.orders)[order].job, profile)
              && (order, user) in old(db.offers) && old(db.offers)[(order, user)] == Offered
              && (old(db.orders)[order].status == Pending || old(db.orders)[order].status == Offering))
      // what changes
      ensures result != TakeOk ==>
        && rows == [] && db.orders == old(db.orders) && db.offers == old(db.offers)
        && db.notTaken == old(db.notTaken) && db.pending == old(db.pending)
      ensures result == TakeOk ==>
        var job := old(db.orders)[order].job;
        var prices := if profile.prices.Some? then profile.prices.value else map[];
        var counts := Packages.Decompose(job.amount);
        && (!job.withCodes ==> counts.Some? && forall i :: 0 <= i < |counts.value| ==> counts.value[i].0 in prices)
        && var price := if job.withCodes then codePrice else Pricing.FullPrice(prices, counts.value);
           db.orders == old(db.orders)[order := OrderRow(job, OrderStatus.Taken, Some(user), Some(price))]
      ensures result == TakeOk ==>
        && (forall i, j :: 0 <= i < j < |rows| ==> rows[i] != rows[j])
        && (forall row :: row in rows <==>
              row in old(db.offers) && old(db.offers)[row] == Offered && row.0 == order && row.1 != user)
        && db.offers.Keys == old(db.offers).Keys
        && forall row :: row in db.offers ==>
             db.offers[row] == if row == (order, user) then OfferTaken
                               else if row in rows then Expired else old(db.offers)[row]
      ensures result == TakeOk ==> forall u ::
        var n, m := At(old(db.pending), u), multiset(Users(rows))[u];
        && At(db.notTaken, u) == At(old(db.notTaken), u) + m
        && At(db.pending, u) == if m == 0 then n else if n < m then 0 else n - m
    {
      ghost var start := db.st;
      TakeAnswers(start, order, user, online, profile);
      result, rows := TakeAndSettle(order, user, online, profile, codePrice);
      if result == TakeOk {
        TakePrice(start.orders[order].job, profile, codePrice);
        AllCounted(start.notTaken, Users(rows));
        AllReleased(start.pending, Users(rows));
        TakenRows(start.offers, (order, user), rows);
      }
    }

    /** `on_complete` of either strategy; false when it raises. */
    method OnComplete(order: OrderId, user: UserId, job: Job, profile: Profile, codePrice: real) returns (done: bool)
      modifies db`ledger, db`complete
      ensures
        var amount := Pricing.CompletionAmount(job, profile, codePrice);
        && done == (amount.Some? && !Credited(old(db.ledger), user, order))
        && db.ledger == (if done then old(db.ledger) + [Credit(user, order, amount.value)] else old(db.ledger))
        && db.complete ==
           (if done && !job.withCodes then Incremented(old(db.complete), [user]) else old(db.complete))
      ensures
        var prices := if profile.prices.Some? then profile.prices.value else map[];
        var counts := Packages.Decompose(job.amount);
        && (done ==> forall i :: 0 <= i < |old(db.ledger)| ==>
              old(db.ledger)[i].order != order || old(db.ledger)[i].user != user)
        && (job.withCodes && done ==> db.ledger == old(db.ledger) + [Credit(user, order, codePrice)])
        && (!job.withCodes && done ==>
              && counts.Some? && (forall i :: 0 <= i < |counts.value| ==> counts.value[i].0 in prices)
              && db.ledger == old(db.ledger) + [Credit(user, order, Pricing.FullPrice(prices, counts.value))])
        && (!done ==>
              || (exists i :: 0 <= i < |old(db.ledger)| && old(db.ledger)[i].order == order
                    && old(db.ledger)[i].user == user)
              || (!job.withCodes && counts.None?)
              || (!job.withCodes && exists i :: 0 <= i < |counts.value| && counts.value[i].0 !in prices))
    {
      Pricing.CompletionPays(job, profile, codePrice);
      if job.withCodes {
        done := db.RecordCredit(user, order, codePrice);
        return;
      }
      var counts := Packages.DecomposeAmount(job.amount);
      if counts.None? || !Pricing.Priced(Pricing.PricesOf(profile), counts.value) {
        return false;
      }
      done := db.RecordCredit(user, order, Pricing.FullPrice(Pricing.PricesOf(profile), counts.value));
      if done {
        db.RecordCompletion(user);
      }
    }

    /** The transaction of `complete`: an exception in `on_complete` rolls the closing back. */
    method Settle(order: OrderId, user: UserId, payee: Profile, codePrice: real)
      returns (result: CompleteOutcome)
      requires db.Shows()
      modifies db`orders, db`ledger, db`complete
      ensures result == CompleteResult(db.st, order, user, payee, codePrice)
      ensures
        var next := CompleteStep(db.st, order, user, payee, codePrice);
        db.orders == next.orders && db.ledger == next.ledger && db.complete == next.complete
      ensures result.Paid? ==> order in old(db.orders)
      ensures result.Paid? ==>
        var job := old(db.orders)[order].job;
        var prices := if payee.prices.Some? then payee.prices.value else map[];
        var counts := Packages.Decompose(job.amount);
        && (job.withCodes ==> result.amount == codePrice)
        && (!job.withCodes ==>
              && counts.Some? && (forall i :: 0 <= i < |counts.value| ==> counts.value[i].0 in prices)
              && result.amount == Pricing.FullPrice(prices, counts.value))
        && db.ledger == old(db.ledger) + [Credit(user, order, result.amount)]
      ensures !result.Paid? ==> db.orders == old(db.orders) && db.ledger == old(db.ledger)
    {
      var ordersBefore := db.orders;
      var resolved := db.Resolve(order, user, Completed);
      if !resolved {
        return NotInWork;
      }
      var done := OnComplete(order, user, db.orders[order].job, payee, codePrice);
      if !done {
        db.orders := ordersBefore;
        return Aborted;
      }
      return Paid(Pricing.CompletionAmount(db.orders[order].job, payee, codePrice).value);
    }

    /** The transaction of `complete` and its event. */
    method CloseAsCompleted(order: OrderId, user: UserId, payee: Profile, codePrice: real)
      returns (result: CompleteOutcome)
      requires db.Valid()
      modifies db`orders, db`ledger, db`complete, db`st, db`log
      ensures db.Valid() && result == CompleteResult(old(db.st), order, user, payee, codePrice)
      ensures db.log == old(db.log) + [Event.Complete(order, user, payee, codePrice)]
      ensures db.st == CompleteStep(old(db.st), order, user, payee, codePrice)
    {
      result := Settle(order, user, payee, codePrice);
      ghost var event, next :=
        Event.Complete(order, user, payee, codePrice), CompleteStep(db.st, order, user, payee, codePrice);
      assert Leads(Init(db.limit), db.log + [event], next) by {
        CompleteLeads(Init(db.limit), db.log, db.st, order, user, payee, codePrice);
      }
      assert next.limit == db.limit && next.offers == db.offers && next.pending == db.pending
          && next.incomplete == db.incomplete && next.notTaken == db.notTaken && next.deadlines == db.deadlines by {
        CompleteCloses(db.st, order, user, payee, codePrice);
      }
      db.st, db.log := next, db.log + [event];
    }

    /** `complete`. Besides the log the contract says who is paid what, whatever became of the profile since. */
    method Complete(order: OrderId, user: UserId, payee: Profile, codePrice: real)
      returns (result: CompleteOutcome)
      requires db.Valid()
      modifies db`orders, db`ledger, db`complete, db`pending, db`st, db`log
      ensures db.Valid() && result == CompleteResult(old(db.st), order, user, payee, codePrice)
      ensures
        var event := Event.Complete(order, user, payee, codePrice);
        db.log == old(db.log) + if result.Paid? then [event, Release([user])] else [event]
      ensures result == NotInWork <==>
        !(order in old(db.orders) && old(db.orders)[order].status == OrderStatus.Taken
          && old(db.orders)[order].takenBy == Some(user))
      ensures !result.Paid? ==>
        && db.orders == old(db.orders) && db.ledger == old(db.ledger) && db.complete == old(db.complete)
        && db.pending == old(db.pending)
      ensures result.Paid? ==>
        && db.ledger == old(db.ledger) + [Credit(user, order, result.amount)]
        && db.orders == old(db.orders)[order := old(db.orders)[order].(status := Completed)]
      ensures result.Paid? ==>
        var job := old(db.orders)[order].job;
        var prices := if payee.prices.Some? then payee.prices.value else map[];
        var counts := Packages.Decompose(job.amount);
        if job.withCodes then result.amount == codePrice
        else
          && counts.Some? && (forall i :: 0 <= i < |counts.value| ==> counts.value[i].0 in prices)
          && result.amount == Pricing.FullPrice(prices, counts.value)
      ensures result == Aborted ==>
        var job := old(db.orders)[order].job;
        var prices := if payee.prices.Some? then payee.prices.value else map[];
        var counts := Packages.Decompose(job.amount);
        || (exists i ::
              0 <= i < |old(db.ledger)| && old(db.ledger)[i].order == order && old(db.ledger)[i].user == user)
        || (!job.withCodes &&
              (counts.None? || exists i :: 0 <= i < |counts.value| && counts.value[i].0 !in prices))
      ensures result.Paid? ==> forall u ::
        && At(db.complete, u) == At(old(db.complete), u) + One(u == user && !old(db.orders)[order].job.withCodes)
        && At(db.pending, u) == if u != user then At(old(db.pending), u)
                                else if At(old(db.pending), u) < 1 then 0 else At(old(db.pending), u) - 1
    {
      ghost var start := db.st;
      if TakenFrom(start.orders, order, user) {
        Pricing.CompletionPays(start.orders[order].job, payee, codePrice);
      }
      result := CloseAsCompleted(order, user, payee, codePrice);
      if result.Paid? {
        db.ReleaseOwed([user]);
        PaidAmount(start, order, user, payee, codePrice);
        PaidCounts(start, order, user, payee, codePrice);
      }
    }

    /** The UPDATE of `cancel`. */
    method CloseAsCancelled(order: OrderId, user: UserId) returns (found: bool)
      requires db.Valid()
      modifies db`orders, db`st, db`log
      ensures db.Valid() && db.log == old(db.log) + [Event.Cancel(order, user)]
      ensures found == TakenFrom(old(db.st).orders, order, user)
      ensures db.st == if found then CancelStep(old(db.st), order, user) else old(db.st)
    {
      found := db.Resolve(order, user, Cancelled);
      ghost var next := if found then CancelStep(db.st, order, user) else db.st;
      assert Leads(Init(db.limit), db.log + [Event.Cancel(order, user)], next) by {
        CancelLeads(Init(db.limit), db.log, db.st, order, user);
      }
      db.st, db.log := next, db.log + [Event.Cancel(order, user)];
    }

    /** `cancel`. */
    method Cancel(order: OrderId, user: UserId) returns (found: bool)
      requires db.Valid()
      modifies db`orders, db`incomplete, db`pending, db`st, db`log
      ensures db.Valid() && found == TakenFrom(old(db.st).orders, order, user)
      ensures
        var cancelled := Event.Cancel(order, user);
        db.log ==
          old(db.log) + if !found then [cancelled]
                        else if old(db.st).orders[order].job.withCodes then [cancelled, Release([user])]
                        else [cancelled, RateIncomplete(user), Release([user])]
      ensures found <==>
        order in old(db.orders) && old(db.orders)[order].status == OrderStatus.Taken
        && old(db.orders)[order].takenBy == Some(user)
      ensures !found ==>
        db.orders == old(db.orders) && db.incomplete == old(db.incomplete) && db.pending == old(db.pending)
      ensures found ==> db.orders == old(db.orders)[order := old(db.orders)[order].(status := Cancelled)]
      ensures found ==> forall u ::
        && At(db.incomplete, u) == At(old(db.incomplete), u) + One(u == user && !old(db.orders)[order].job.withCodes)
        && At(db.pending, u) == if u != user then At(old(db.pending), u)
                                else if At(old(db.pending), u) < 1 then 0 else At(old(db.pending), u) - 1
    {
      found := CloseAsCancelled(order, user);
      if found {
        OneCounted(db.incomplete, user);
        OneReleased(db.pending, user);
        if !db.orders[order].job.withCodes {
          db.RateCancellation(user);
        }
        db.ReleaseOwed([user]);
      }
    }

    /** The UPDATE of `expire_taken`. */
    method CloseAsTimedOut(order: OrderId, user: UserId) returns (found: bool)
      requires db.Valid()
      modifies db`orders, db`st, db`log
      ensures db.Valid() && db.log == old(db.log) + [Event.TimeOut(order, user)]
      ensures found == TakenFrom(old(db.st).orders, order, user)
      ensures db.st == if found then TimeOutStep(old(db.st), order, user) else old(db.st)
    {
      found := db.Resolve(order, user, TimedOut);
      ghost var next := if found then TimeOutStep(db.st, order, user) else db.st;
      assert Leads(Init(db.limit), db.log + [Event.TimeOut(order, user)], next) by {
        TimeOutLeads(Init(db.limit), db.log, db.st, order, user);
      }
      db.st, db.log := next, db.log + [Event.TimeOut(order, user)];
    }

    /** `expire_taken`. */
    method ExpireTaken(order: OrderId, user: UserId) returns (found: bool)
      requires db.Valid()
      modifies db`orders, db`notTaken, db`pending, db`st, db`log
      ensures db.Valid() && found == TakenFrom(old(db.st).orders, order, user)
      ensures
        var late := Event.TimeOut(order, user);
        db.log == old(db.log) + if found then [late, RateNotTaken([user]), Release([user])] else [late]
      ensures found <==>
        order in old(db.orders) && old(db.orders)[order].status == OrderStatus.Taken
        && old(db.orders)[order].takenBy == Some(user)
      ensures !found ==>
        db.orders == old(db.orders) && db.notTaken == old(db.notTaken) && db.pending == old(db.pending)
      ensures found ==> db.orders == old(db.orders)[order := old(db.orders)[order].(status := TimedOut)]
      ensures found ==> forall u ::
        && At(db.notTaken, u) == At(old(db.notTaken), u) + One(u == user)
        && At(db.pending, u) == if u != user then At(old(db.pending), u)
                                else if At(old(db.pending), u) < 1 then 0 else At(old(db.pending), u) - 1
    {
      found := CloseAsTimedOut(order, user);
      if found {
        OneCounted(db.notTaken, user);
        OneReleased(db.pending, user);
        db.ReleaseNotTaken([user]);
      }
    }
  }

  class OrderEntityService {
    const db: Database

    constructor (db: Database)
      ensures this.db == db
    {
      this.db := db;
    }

    /** The transaction of `clean_order`: cancel the order by id, expire its offers. */
    method CancelAndExpire(order: OrderId) returns (rows: seq<Row>)
      requires db.Valid() && order in db.orders
      modifies db`orders, db`offers, db`st, db`log
      ensures db.Valid() && db.log == old(db.log) + [Clean(order, rows)]
      ensures multiset(Users(rows)) <= db.st.owedRelease
      ensures db.orders == old(db.orders)[order := old(db.orders)[order].(status := Cancelled)]
      ensures Returns(rows, set row | row in OfferedRows(old(db.offers)) && row.0 == order)
      ensures db.offers == WithExpired(old(db.offers), rows)
    {
      db.orders := db.orders[order := db.orders[order].(status := Cancelled)];
      rows := db.ExpireOffered(order);
      ghost var next := CleanStep(db.st, order, rows);
      assert Leads(Init(db.limit), db.log + [Clean(order, rows)], next) by {
        CleanLeads(Init(db.limit), db.log, db.st, order, rows);
      }
      db.st, db.log := next, db.log + [Clean(order, rows)];
    }

    /** `clean_order`. */
    method CleanOrder(order: OrderId) returns (rows: seq<Row>)
      requires db.Valid()
      modifies db`orders, db`offers, db`pending, db`st, db`log
      ensures db.Valid()
      ensures db.log ==
        old(db.log) + if order in old(db.st).orders then [Clean(order, rows), Release(Users(rows))] else []
      ensures db.orders ==
        if order in old(db.orders) then old(db.orders)[order := old(db.orders)[order].(status := Cancelled)]
        else old(db.orders)
      ensures (forall i, j :: 0 <= i < j < |rows| ==> rows[i] != rows[j]) && forall row ::
        row in rows <==>
          order in old(db.orders) && row in old(db.offers) && old(db.offers)[row] == Offered && row.0 == order
      ensures db.offers.Keys == old(db.offers).Keys && forall row :: row in db.offers ==>
        db.offers[row] == if row in rows then Expired else old(db.offers)[row]
      ensures forall u ::
        var n, m := At(old(db.pending), u), multiset(Users(rows))[u];
        At(db.pending, u) == if m == 0 then n else if n < m then 0 else n - m
    {
      rows := [];
      if order !in db.orders {
        return;
      }
      rows := CancelAndExpire(order);
      AllReleased(db.pending, Users(rows));
      db.ReleaseOwed(Users(rows));
    }
  }
}
