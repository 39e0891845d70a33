/** OrderFanoutService and OfferExpiryService: sweeps, offers, roll-backs and expiry by deadline. */
module Fanout {
  import opened Records
  import opened Protocol
  import opened Store
  import opened Counting
  import opened Safety
  import opened Runs

  /** What comes of sending the offer message. */
  datatype Reach = NoChat | SendFails | Delivered

  /** `select_candidates`: the ranked users, or None when it raises. */
  type Select = (OrderId, set<UserId>) -> Option<seq<UserId>>

  // ---- what one attempt does ---------------------------------------------------------------

  /** Position of the first candidate with a free slot; the length when there is none. */
  function FirstFree(pending: map<UserId, int>, limit: nat, ranked: seq<UserId>): (k: nat)
    ensures k <= |ranked|
    ensures forall i :: 0 <= i < k ==> At(pending, ranked[i]) + 1 > limit
    ensures k < |ranked| ==> At(pending, ranked[k]) + 1 <= limit
  {
    if ranked == [] || At(pending, ranked[0]) + 1 <= limit then 0
    else 1 + FirstFree(pending, limit, ranked[1..])
  }

  lemma FreeIff(pending: map<UserId, int>, limit: nat, ranked: seq<UserId>, i: nat)
    requires i < |ranked| && i <= FirstFree(pending, limit, ranked)
    ensures At(pending, ranked[i]) + 1 <= limit <==> i == FirstFree(pending, limit, ranked)
  {
  }

  function Attempts(h: Handling, users: seq<UserId>): (events: seq<Event>)
    ensures |events| == |users| && forall i :: 0 <= i < |users| ==> events[i] == TryReserve(h, users[i])
  {
    seq(|users|, i requires 0 <= i < |users| => TryReserve(h, users[i]))
  }

  function Delivery(h: Handling, user: UserId, reach: Reach): seq<Event> {
    if reach.Delivered? then [RecordOffer(h), Schedule(h), MarkOffering(h)]
    else [RecordOffer(h), Rollback(h), Release([user])]
  }

  /** Everything one call of `offer_order_to_next_user` does. */
  function OfferRun(
      pending: map<UserId, int>, limit: nat, h: Handling, selected: Option<seq<UserId>>,
      reach: UserId -> Reach): seq<Event>
  {
    match selected
    case None => [GiveUp(h)]
    case Some(ranked) =>
      if ranked == [] then [MarkNoTakers(h)]
      else
        var k := FirstFree(pending, limit, ranked);
        if k == |ranked| then Attempts(h, ranked) + [GiveUp(h)]
        else Attempts(h, ranked[..k + 1]) + Delivery(h, ranked[k], reach(ranked[k]))
  }

  /** Counters after refused attempts: a refused key is left as it was, if need be as an explicit 0. */
  function Touched(pending: map<UserId, int>, users: seq<UserId>): map<UserId, int>
    decreases |users|
  {
    if users == [] then pending else Touched(pending[users[0] := At(pending, users[0])], users[1..])
  }

  /** Counters once the `k`-th candidate has its slot. */
  function Held(pending: map<UserId, int>, ranked: seq<UserId>, k: nat): map<UserId, int>
    requires k < |ranked|
  {
    var touched := Touched(pending, ranked[..k]);
    touched[ranked[k] := At(touched, ranked[k]) + 1]
  }

  lemma HeldIs(
      start: map<UserId, int>, ranked: seq<UserId>, k: nat, touched: map<UserId, int>, held: map<UserId, int>)
    requires k < |ranked| && touched == Touched(start, ranked[..k])
    requires held == touched[ranked[k] := At(touched, ranked[k]) + 1]
    ensures held == Held(start, ranked, k)
  {
  }

  /** The counters one attempt leaves behind. */
  function AfterOffer(
      pending: map<UserId, int>, limit: nat, selected: Option<seq<UserId>>, reach: UserId -> Reach): map<UserId, int>
  {
    if selected.None? || selected.value == [] then pending
    else
      var ranked := selected.value;
      var k := FirstFree(pending, limit, ranked);
      if k == |ranked| then Touched(pending, ranked)
      else if reach(ranked[k]).Delivered? then Held(pending, ranked, k)
      else Released(Held(pending, ranked, k), [ranked[k]])
  }

  /** Who gets the slot: the first candidate below the limit. */
  function Recipient(pending: map<UserId, int>, limit: nat, selected: Option<seq<UserId>>): (got: Option<UserId>)
    ensures got.None? <==>
      selected.None? || forall i :: 0 <= i < |selected.value| ==> At(pending, selected.value[i]) + 1 > limit
    ensures got.Some? ==>
      exists k :: 0 <= k < |selected.value| && selected.value[k] == got.value && At(pending, got.value) + 1 <= limit
        && forall i :: 0 <= i < k ==> At(pending, selected.value[i]) + 1 > limit
  {
    if selected.None? then None
    else
      var k := FirstFree(pending, limit, selected.value);
      if k == |selected.value| then None else Some(selected.value[k])
  }

  /** What an attempt does to the counters, said per user. */
  lemma CountersAfter(
      pending: map<UserId, int>, limit: nat, selected: Option<seq<UserId>>, reach: UserId -> Reach, u: UserId)
    requires At(pending, u) >= 0
    ensures
      var got := Recipient(pending, limit, selected);
      At(AfterOffer(pending, limit, selected, reach), u)
      == At(pending, u) + if got == Some(u) && reach(u).Delivered? then 1 else 0
  {
    if selected.Some? && selected.value != [] {
      var ranked := selected.value;
      var k := FirstFree(pending, limit, ranked);
      if k == |ranked| {
        TouchedAt(pending, ranked, u);
      } else {
        TouchedAt(pending, ranked[..k], u);
        TouchedAt(pending, ranked[..k], ranked[k]);
        ReleasedIs(Held(pending, ranked, k), [ranked[k]], u);
      }
    }
  }

  lemma {:induction false} TouchedAt(pending: map<UserId, int>, users: seq<UserId>, u: UserId)
    ensures At(Touched(pending, users), u) == At(pending, u)
    decreases |users|
  {
    if users != [] {
      TouchedAt(pending[users[0] := At(pending, users[0])], users[1..], u);
    }
  }

  // ---- what one sweep does ---------------------------------------------------------------------

  function AsSeen(offered: map<OrderId, set<UserId>>): OrderId -> set<UserId> {
    o => OfferedTo(offered, o)
  }

  function SeenIn(offers: map<Row, OfferStatus>): OrderId -> set<UserId> {
    o => SeenUsers(offers, o)
  }

  /** Expire and release what is still open on the orders listed. */
  function Listing(s: nat, ids: set<OrderId>, rows: seq<Row>): (steps: seq<Event>)
    ensures SweepSteps(steps + [ReadOffered(s)])
  {
    var listed := [ListDue(s, ids)] + [SweepExpire(s, rows)];
    if rows == [] then listed else listed + [RateNotTaken(Users(rows)), Release(Users(rows))]
  }

  /**
   * The attempts of a sweep, one order after the other: each starts from the counters the last one left,
   * with the users asked before the sweep excluded. The sweep ends with the first selection that raises.
   */
  function SweepRun(
      pending: map<UserId, int>, limit: nat, s: nat, due: seq<OrderId>, seen: OrderId -> set<UserId>, select: Select,
      reach: UserId -> Reach): seq<Event>
    decreases |due|
  {
    if due == [] then []
    else
      var selected := select(due[0], seen(due[0]));
      OfferRun(pending, limit, Handling(s, due[0]), selected, reach)
      + if selected.None? then []
        else SweepRun(AfterOffer(pending, limit, selected, reach), limit, s, due[1..], seen, select, reach)
  }

  lemma SweepRunNext(
      pending: map<UserId, int>, limit: nat, s: nat, due: seq<OrderId>, i: nat, seen: OrderId -> set<UserId>,
      select: Select, reach: UserId -> Reach, steps: seq<Event>)
    requires i < |due|
    ensures
      var selected := select(due[i], seen(due[i]));
      var did := OfferRun(pending, limit, Handling(s, due[i]), selected, reach);
      var after := AfterOffer(pending, limit, selected, reach);
      && steps + SweepRun(pending, limit, s, due[i..], seen, select, reach) ==
         (if selected.None? then steps + did
          else (steps + did) + SweepRun(after, limit, s, due[i + 1..], seen, select, reach))
      && Handled(due[i..], seen, select) == if selected.None? then 1 else 1 + Handled(due[i + 1..], seen, select)
  {
    var selected := select(due[i], seen(due[i]));
    var did := OfferRun(pending, limit, Handling(s, due[i]), selected, reach);
    var after := AfterOffer(pending, limit, selected, reach);
    assert due[i..][0] == due[i] && due[i..][1..] == due[i + 1..];
    Regroup(steps, did, SweepRun(after, limit, s, due[i + 1..], seen, select, reach));
    assert did + [] == did;
  }

  /** How many orders a sweep gets to. */
  function Handled(due: seq<OrderId>, seen: OrderId -> set<UserId>, select: Select): (n: nat)
    ensures n <= |due| && (due != [] ==> n > 0)
    ensures forall i :: 0 <= i < n - 1 ==> select(due[i], seen(due[i])).Some?
    ensures n < |due| ==> select(due[n - 1], seen(due[n - 1])).None?
  {
    if due == [] then 0
    else if select(due[0], seen(due[0])).None? then 1
    else 1 + Handled(due[1..], seen, select)
  }

  lemma {:induction false} SameSeen(
      pending: map<UserId, int>, limit: nat, s: nat, due: seq<OrderId>, seen: OrderId -> set<UserId>,
      seen': OrderId -> set<UserId>, select: Select, reach: UserId -> Reach)
    requires forall o :: o in due ==> seen(o) == seen'(o)
    ensures
      SweepRun(pending, limit, s, due, seen, select, reach) == SweepRun(pending, limit, s, due, seen', select, reach)
    ensures Handled(due, seen, select) == Handled(due, seen', select)
    decreases |due|
  {
    if due != [] {
      assert due[0] in due;
      var selected := select(due[0], seen(due[0]));
      SameSeen(AfterOffer(pending, limit, selected, reach), limit, s, due[1..], seen, seen', select, reach);
    }
  }

  /** No candidate was offered the order before. */
  ghost predicate Fresh(ranked: seq<UserId>, seen: set<UserId>) {
    forall i :: 0 <= i < |ranked| ==> ranked[i] !in seen
  }

  /** Selections leave out the users they are told to exclude. */
  ghost predicate Excluding(select: Select) {
    forall o, seen :: select(o, seen).Some? ==> Fresh(select(o, seen).value, seen)
  }

  lemma AttemptsLogged(log: seq<Event>, h: Handling, ranked: seq<UserId>, i: nat)
    requires i < |ranked|
    ensures (log + Attempts(h, ranked[..i])) + [TryReserve(h, ranked[i])] == log + Attempts(h, ranked[..i + 1])
  {
    assert Attempts(h, ranked[..i + 1]) == Attempts(h, ranked[..i]) + [TryReserve(h, ranked[i])];
    Regroup(log, Attempts(h, ranked[..i]), [TryReserve(h, ranked[i])]);
  }

  lemma {:induction false} TouchedGrows(pending: map<UserId, int>, users: seq<UserId>, u: UserId)
    ensures
      var touched := Touched(pending, users);
      Touched(pending, users + [u]) == touched[u := At(touched, u)]
    ensures forall v :: At(Touched(pending, users), v) == At(pending, v)
    decreases |users|
  {
    if users == [] {
      assert [] + [u] == [u] && [u][1..] == [];
      var next := pending[u := At(pending, u)];
      assert Touched(pending, [u]) == Touched(next, []) == next;
    } else {
      var next := pending[users[0] := At(pending, users[0])];
      assert (users + [u])[0] == users[0] && (users + [u])[1..] == users[1..] + [u];
      TouchedGrows(next, users[1..], u);
      assert forall v :: At(next, v) == At(pending, v);
    }
  }

  lemma TouchedNext(pending: map<UserId, int>, ranked: seq<UserId>, i: nat)
    requires i < |ranked|
    ensures
      var touched := Touched(pending, ranked[..i]);
      && Touched(pending, ranked[..i + 1]) == touched[ranked[i] := At(touched, ranked[i])]
      && At(touched, ranked[i]) == At(pending, ranked[i])
  {
    TouchedGrows(pending, ranked[..i], ranked[i]);
    assert ranked[..i + 1] == ranked[..i] + [ranked[i]];
  }

  // ---- sweeps that nothing interrupts are safe -----------------------------------------------------

  /** The steps a sweep takes, its settling of expired offers and roll-backs included. */
  ghost predicate SweepSteps(steps: seq<Event>) {
    forall i :: 0 <= i < |steps| ==> ByDispatcher(steps[i]) || IsSettling(steps[i])
  }

  /** Beyond its listing a sweep takes no orders. */
  ghost predicate NothingListed(steps: seq<Event>) {
    forall i :: 0 <= i < |steps| ==> !steps[i].ListDue?
  }

  lemma {:induction false} SweepIsExclusive(st: State, run: seq<Event>)
    requires Legal(st, run) && SweepSteps(run) && NothingListed(run)
    ensures ExclusiveRun(st, run)
    decreases |run|
  {
    if run != [] {
      assert (ByDispatcher(run[0]) || IsSettling(run[0])) && !run[0].ListDue?;
      assert forall i :: 0 <= i < |run[1..]| ==> run[1..][i] == run[i + 1];
      SweepIsExclusive(Apply(st, run[0]), run[1..]);
    }
  }

  /** A sweep that nothing interrupts, not even a handling of an earlier sweep, keeps every guarantee. */
  lemma SweepsAreSafe(st: State, s: nat, due: set<OrderId>, run: seq<Event>)
    requires Inv(st) && st.sweep == map[] && SweepSteps(run) && NothingListed(run)
    requires Legal(st, [ListDue(s, due)] + run)
    ensures AlwaysSafe(st, [ListDue(s, due)] + run) && Inv(Exec(st, [ListDue(s, due)] + run))
  {
    var whole := [ListDue(s, due)] + run;
    assert whole[0] == ListDue(s, due) && whole[1..] == run;
    SweepIsExclusive(Apply(st, whole[0]), run);
    SweepsInTurnAreExclusive(st, s, due);
    ExclusiveRunsFrom(st, whole);
    RunSafeIffNoRace(st, whole);
  }

  lemma OfferRunIsSweep(
      pending: map<UserId, int>, limit: nat, h: Handling, selected: Option<seq<UserId>>, reach: UserId -> Reach)
    ensures SweepSteps(OfferRun(pending, limit, h, selected, reach))
    ensures NothingListed(OfferRun(pending, limit, h, selected, reach))
  {
  }

  lemma {:induction false} SweepRunIsSweep(
      pending: map<UserId, int>, limit: nat, s: nat, due: seq<OrderId>, seen: OrderId -> set<UserId>, select: Select,
      reach: UserId -> Reach)
    ensures SweepSteps(SweepRun(pending, limit, s, due, seen, select, reach))
    ensures NothingListed(SweepRun(pending, limit, s, due, seen, select, reach))
    decreases |due|
  {
    if due != [] {
      var selected := select(due[0], seen(due[0]));
      OfferRunIsSweep(pending, limit, Handling(s, due[0]), selected, reach);
      SweepRunIsSweep(AfterOffer(pending, limit, selected, reach), limit, s, due[1..], seen, select, reach);
    }
  }

  // ---- handlings of one sweep -------------------------------------------------------------------------

  ghost predicate DistinctOrders(due: seq<OrderId>) {
    forall i, j :: 0 <= i < j < |due| ==> due[i] != due[j]
  }

  /** Besides the handlings there were, the sweep still has the orders of `due`, as it read them. */
  ghost predicate Waiting(
      sweep: map<Handling, Phase>, before: set<Handling>, s: nat, ids: set<OrderId>, seen: OrderId -> set<UserId>,
      due: seq<OrderId>)
  {
    && (forall h :: h in sweep <==> h in before || (h.sweep == s && h.order in due))
    && (forall h :: h in before ==> h.sweep != s)
    && (forall o :: o in due ==> o in ids && sweep[Handling(s, o)] == Ready(seen(o)))
  }

  lemma WaitingNext(
      sweep: map<Handling, Phase>, before: set<Handling>, s: nat, ids: set<OrderId>, seen: OrderId -> set<UserId>,
      due: seq<OrderId>, i: nat)
    requires i < |due| && DistinctOrders(due) && Waiting(sweep, before, s, ids, seen, due[i..])
    ensures due[i] in ids && Handling(s, due[i]) in sweep && sweep[Handling(s, due[i])] == Ready(seen(due[i]))
    ensures Waiting(sweep - {Handling(s, due[i])}, before, s, ids, seen, due[i + 1..])
  {
    assert due[i..] == [due[i]] + due[i + 1..];
    assert due[i] !in due[i + 1..];
  }

  lemma OfferRunCases(pending: map<UserId, int>, limit: nat, h: Handling, ranked: seq<UserId>, reach: UserId -> Reach)
    requires ranked != []
    ensures
      var k := FirstFree(pending, limit, ranked);
      var run := OfferRun(pending, limit, h, Some(ranked), reach);
      var after := AfterOffer(pending, limit, Some(ranked), reach);
      if k == |ranked| then
        run == Attempts(h, ranked) + [GiveUp(h)] && after == Touched(pending, ranked)
      else
        && run == Attempts(h, ranked[..k + 1]) + Delivery(h, ranked[k], reach(ranked[k]))
        && after == if reach(ranked[k]).Delivered? then Held(pending, ranked, k)
                    else Released(Held(pending, ranked, k), [ranked[k]])
  {
  }

  /** Nothing is left to be released or rated beyond what was. */
  ghost predicate SameDebts(before: State, after: State) {
    && after.owedRelease == before.owedRelease && after.owedNotTaken == before.owedNotTaken
    && after.owedIncomplete == before.owedIncomplete
  }

  /** What is selected for each order of a sweep. */
  function Chosen(due: seq<OrderId>, seen: OrderId -> set<UserId>, select: Select): (chosen: seq<Option<seq<UserId>>>)
    ensures |chosen| == |due| && forall i :: 0 <= i < |due| ==> chosen[i] == select(due[i], seen(due[i]))
  {
    seq(|due|, i requires 0 <= i < |due| => select(due[i], seen(due[i])))
  }

  lemma ChosenAreNew(
      offers: map<Row, OfferStatus>, due: seq<OrderId>, i: nat, seen: OrderId -> set<UserId>, select: Select)
    requires i < |due| && Excluding(select) && SeenUsers(offers, due[i]) == seen(due[i])
    ensures
      var chosen := Chosen(due, seen, select)[i];
      chosen.Some? ==> forall u :: u in chosen.value ==> (due[i], u) !in offers
  {
    var chosen := Chosen(due, seen, select)[i];
    if chosen.Some? {
      forall u | u in chosen.value ensures (due[i], u) !in offers {
        assert Fresh(chosen.value, seen(due[i]));
        assert u !in SeenUsers(offers, due[i]);
      }
    }
  }

  lemma SameChosen(due: seq<OrderId>, seen: OrderId -> set<UserId>, seen': OrderId -> set<UserId>, select: Select)
    requires forall o :: o in due ==> seen(o) == seen'(o)
    ensures Chosen(due, seen, select) == Chosen(due, seen', select)
  {
    forall i | 0 <= i < |due| ensures Chosen(due, seen, select)[i] == Chosen(due, seen', select)[i] {
      assert due[i] in due;
    }
  }

  /** What one attempt changes, when the user it reserves has no row of the order yet. */
  ghost predicate Attempted(
      before: State, after: State, o: OrderId, selected: Option<seq<UserId>>, reach: UserId -> Reach)
  {
    var got := Recipient(before.pending, before.limit, selected);
    var sent := got.Some? && reach(got.value).Delivered?;
    && o in before.orders && after.limit == before.limit
    && after.pending == AfterOffer(before.pending, before.limit, selected, reach)
    && after.orders == (if selected == Some([]) then before.orders[o := before.orders[o].(status := NoTakers)]
                        else if sent then before.orders[o := before.orders[o].(status := Offering)]
                        else before.orders)
    && after.deadlines == (if sent then before.deadlines + {(o, got.value)} else before.deadlines)
    && (got.None? ==> after.offers == before.offers)
    && (got.Some? && (o, got.value) !in before.offers ==>
          after.offers == before.offers[(o, got.value) := if sent then Offered else Expired])
  }

  /** Whoever is sent an offer has one unit more, and nobody else changes. */
  ghost predicate AddsOne(
      before: map<UserId, int>, after: map<UserId, int>, got: Option<UserId>, reach: UserId -> Reach)
  {
    forall u :: At(before, u) >= 0 ==>
      At(after, u) == At(before, u) + if got == Some(u) && reach(u).Delivered? then 1 else 0
  }

  lemma AttemptAddsOne(
      pending: map<UserId, int>, limit: nat, selected: Option<seq<UserId>>, reach: UserId -> Reach)
    ensures AddsOne(pending, AfterOffer(pending, limit, selected, reach), Recipient(pending, limit, selected), reach)
  {
    forall u | At(pending, u) >= 0
      ensures
        var got := Recipient(pending, limit, selected);
        At(AfterOffer(pending, limit, selected, reach), u)
        == At(pending, u) + if got == Some(u) && reach(u).Delivered? then 1 else 0
    {
      CountersAfter(pending, limit, selected, reach, u);
    }
  }

  /** What the attempt made with the counters `turn` has come to for its order. */
  ghost predicate EndsAs(
      start: State, st: State, o: OrderId, selected: Option<seq<UserId>>, reach: UserId -> Reach,
      turn: map<UserId, int>)
  {
    var got := Recipient(turn, start.limit, selected);
    var sent := got.Some? && reach(got.value).Delivered?;
    && o in start.orders && o in st.orders
    && st.orders[o] == (if selected == Some([]) then start.orders[o].(status := NoTakers)
                        else if sent then start.orders[o].(status := Offering)
                        else start.orders[o])
    && (got.Some? ==> (o, got.value) in st.offers && st.offers[(o, got.value)] == if sent then Offered else Expired)
    && (sent ==> (o, got.value) in st.deadlines)
  }

  /** Where the loop of a sweep stands before its `i`-th attempt. */
  ghost predicate OfferedSoFar(
      start: State, st: State, due: seq<OrderId>, i: nat, turns: seq<map<UserId, int>>,
      chosen: seq<Option<seq<UserId>>>, reach: UserId -> Reach)
  {
    && i <= |due| == |chosen| && |turns| == i + 1 && turns[0] == start.pending && turns[i] == st.pending
    && st.limit == start.limit && st.orders.Keys == start.orders.Keys
    && (forall j, k :: 0 <= j < i && k == j + 1 ==>
          AddsOne(turns[j], turns[k], Recipient(turns[j], start.limit, chosen[j]), reach))
    && (forall j :: 0 <= j < i ==> EndsAs(start, st, due[j], chosen[j], reach, turns[j]))
    && (forall o :: o in start.orders && o !in due[..i] ==> st.orders[o] == start.orders[o])
    && (forall row :: row in start.offers ==> row in st.offers && st.offers[row] == start.offers[row])
    && (forall row :: row in st.offers && row !in start.offers ==> row.0 in due[..i])
    && (forall j, u {:trigger (due[j], u) in st.offers} ::
          0 <= j < i && (due[j], u) in st.offers && (due[j], u) !in start.offers ==>
          Recipient(turns[j], start.limit, chosen[j]) == Some(u))
  }

  /** Whom an attempt of the sweep reserves has no row of the order yet. */
  lemma RecipientIsNew(
      start: State, st: State, due: seq<OrderId>, i: nat, turns: seq<map<UserId, int>>, seen: OrderId -> set<UserId>,
      select: Select, reach: UserId -> Reach)
    requires DistinctOrders(due) && i < |due| && Excluding(select) && SeenUsers(start.offers, due[i]) == seen(due[i])
    requires OfferedSoFar(start, st, due, i, turns, Chosen(due, seen, select), reach)
    ensures
      var got := Recipient(st.pending, st.limit, Chosen(due, seen, select)[i]);
      got.Some? ==> (due[i], got.value) !in st.offers
  {
    ChosenAreNew(start.offers, due, i, seen, select);
    assert due[i] !in due[..i];
  }

  lemma EarlierTurnEnds(
      start: State, st: State, after: State, due: seq<OrderId>, i: nat, turns: seq<map<UserId, int>>,
      chosen: seq<Option<seq<UserId>>>, reach: UserId -> Reach, j: nat)
    requires OfferedSoFar(start, st, due, i, turns, chosen, reach) && DistinctOrders(due) && i < |due| && j < i
    requires Attempted(st, after, due[i], chosen[i], reach)
    requires Recipient(st.pending, st.limit, chosen[i]).Some? ==>
      (due[i], Recipient(st.pending, st.limit, chosen[i]).value) !in st.offers
    ensures EndsAs(start, after, due[j], chosen[j], reach, turns[j])
  {
    assert EndsAs(start, st, due[j], chosen[j], reach, turns[j]) && due[j] != due[i];
  }

  lemma TurnEnds(
      start: State, st: State, after: State, due: seq<OrderId>, i: nat, turns: seq<map<UserId, int>>,
      chosen: seq<Option<seq<UserId>>>, reach: UserId -> Reach, j: nat)
    requires OfferedSoFar(start, st, due, i, turns, chosen, reach) && DistinctOrders(due) && i < |due| && j <= i
    requires Attempted(st, after, due[i], chosen[i], reach) && due[i] in start.orders
    requires Recipient(st.pending, st.limit, chosen[i]).Some? ==>
      (due[i], Recipient(st.pending, st.limit, chosen[i]).value) !in st.offers
    ensures EndsAs(start, after, due[j], chosen[j], reach, turns[j])
  {
    assert due[i] !in due[..i];
    if j < i {
      EarlierTurnEnds(start, st, after, due, i, turns, chosen, reach, j);
    }
  }

  lemma TurnRows(
      start: State, st: State, after: State, due: seq<OrderId>, i: nat, turns: seq<map<UserId, int>>,
      chosen: seq<Option<seq<UserId>>>, reach: UserId -> Reach)
    requires OfferedSoFar(start, st, due, i, turns, chosen, reach) && DistinctOrders(due) && i < |due|
    requires Attempted(st, after, due[i], chosen[i], reach)
    requires Recipient(st.pending, st.limit, chosen[i]).Some? ==>
      (due[i], Recipient(st.pending, st.limit, chosen[i]).value) !in st.offers
    ensures forall row :: row in start.offers ==> row in after.offers && after.offers[row] == start.offers[row]
    ensures forall row :: row in after.offers && row !in start.offers ==> row.0 in due[..i + 1]
    ensures forall j, u {:trigger (due[j], u) in after.offers} ::
              0 <= j < i + 1 && (due[j], u) in after.offers && (due[j], u) !in start.offers ==>
      Recipient((turns + [after.pending])[j], start.limit, chosen[j]) == Some(u)
  {
    var more := turns + [after.pending];
    assert due[..i + 1] == due[..i] + [due[i]] && due[i] !in due[..i];
    forall j, u | 0 <= j < i + 1 && (due[j], u) in after.offers && (due[j], u) !in start.offers
      ensures Recipient(more[j], start.limit, chosen[j]) == Some(u)
    {
      assert more[j] == turns[j];
      assert j < i ==> due[j] != due[i];
    }
  }

  lemma TurnAdds(
      start: State, st: State, after: State, due: seq<OrderId>, i: nat, turns: seq<map<UserId, int>>,
      chosen: seq<Option<seq<UserId>>>, reach: UserId -> Reach, j: nat, k: nat)
    requires OfferedSoFar(start, st, due, i, turns, chosen, reach) && i < |due| && j <= i && k == j + 1
    requires after.pending == AfterOffer(st.pending, st.limit, chosen[i], reach)
    ensures
      var more := turns + [after.pending];
      AddsOne(more[j], more[k], Recipient(more[j], start.limit, chosen[j]), reach)
  {
    var more := turns + [after.pending];
    if j < i {
      assert more[j] == turns[j] && more[k] == turns[k];
    } else {
      AttemptAddsOne(st.pending, st.limit, chosen[i], reach);
      assert more[j] == st.pending && more[k] == after.pending;
    }
  }

  lemma OnlyItsOrder(
      st: State, after: State, order: OrderId, selected: Option<seq<UserId>>, reach: UserId -> Reach)
    requires Attempted(st, after, order, selected, reach)
    ensures after.orders.Keys == st.orders.Keys
    ensures forall o :: o in st.orders && o != order ==> after.orders[o] == st.orders[o]
  {
  }

  lemma TurnOrders(
      start: State, st: State, after: State, due: seq<OrderId>, i: nat, selected: Option<seq<UserId>>,
      reach: UserId -> Reach)
    requires i < |due| && st.orders.Keys == start.orders.Keys
    requires forall o :: o in start.orders && o !in due[..i] ==> st.orders[o] == start.orders[o]
    requires Attempted(st, after, due[i], selected, reach)
    ensures after.orders.Keys == start.orders.Keys
    ensures forall o :: o in start.orders && o !in due[..i + 1] ==> after.orders[o] == start.orders[o]
  {
    assert due[..i + 1] == due[..i] + [due[i]];
    OnlyItsOrder(st, after, due[i], selected, reach);
  }

  lemma TurnsAdd(
      start: State, st: State, after: State, due: seq<OrderId>, i: nat, turns: seq<map<UserId, int>>,
      chosen: seq<Option<seq<UserId>>>, reach: UserId -> Reach)
    requires OfferedSoFar(start, st, due, i, turns, chosen, reach) && i < |due|
    requires after.pending == AfterOffer(st.pending, st.limit, chosen[i], reach)
    ensures
      var more := turns + [after.pending];
      forall j, k :: 0 <= j < i + 1 && k == j + 1 ==>
        AddsOne(more[j], more[k], Recipient(more[j], start.limit, chosen[j]), reach)
  {
    var more := turns + [after.pending];
    forall j, k | 0 <= j < i + 1 && k == j + 1
      ensures AddsOne(more[j], more[k], Recipient(more[j], start.limit, chosen[j]), reach)
    {
      TurnAdds(start, st, after, due, i, turns, chosen, reach, j, k);
    }
  }

  lemma TurnsEnd(
      start: State, st: State, after: State, due: seq<OrderId>, i: nat, turns: seq<map<UserId, int>>,
      chosen: seq<Option<seq<UserId>>>, reach: UserId -> Reach)
    requires OfferedSoFar(start, st, due, i, turns, chosen, reach) && DistinctOrders(due) && i < |due|
    requires Attempted(st, after, due[i], chosen[i], reach) && due[i] in start.orders
    requires Recipient(st.pending, st.limit, chosen[i]).Some? ==>
      (due[i], Recipient(st.pending, st.limit, chosen[i]).value) !in st.offers
    ensures forall j :: 0 <= j < i + 1 ==>
      EndsAs(start, after, due[j], chosen[j], reach, (turns + [after.pending])[j])
  {
    forall j | 0 <= j < i + 1 ensures EndsAs(start, after, due[j], chosen[j], reach, (turns + [after.pending])[j]) {
      TurnEnds(start, st, after, due, i, turns, chosen, reach, j);
    }
  }

  lemma SoFar(
      start: State, st: State, due: seq<OrderId>, i: nat, turns: seq<map<UserId, int>>,
      chosen: seq<Option<seq<UserId>>>, reach: UserId -> Reach)
    requires i <= |due| == |chosen| && |turns| == i + 1 && turns[0] == start.pending && turns[i] == st.pending
    requires st.limit == start.limit && st.orders.Keys == start.orders.Keys
    requires forall j, k :: 0 <= j < i && k == j + 1 ==>
      AddsOne(turns[j], turns[k], Recipient(turns[j], start.limit, chosen[j]), reach)
    requires forall j :: 0 <= j < i ==> EndsAs(start, st, due[j], chosen[j], reach, turns[j])
    requires forall o :: o in start.orders && o !in due[..i] ==> st.orders[o] == start.orders[o]
    requires forall row :: row in start.offers ==> row in st.offers && st.offers[row] == start.offers[row]
    requires forall row :: row in st.offers && row !in start.offers ==> row.0 in due[..i]
    requires forall j, u {:trigger (due[j], u) in st.offers} ::
      0 <= j < i && (due[j], u) in st.offers && (due[j], u) !in start.offers ==>
      Recipient(turns[j], start.limit, chosen[j]) == Some(u)
    ensures OfferedSoFar(start, st, due, i, turns, chosen, reach)
  {
  }

  lemma TurnTaken(
      start: State, st: State, after: State, due: seq<OrderId>, i: nat, turns: seq<map<UserId, int>>,
      chosen: seq<Option<seq<UserId>>>, reach: UserId -> Reach)
    requires OfferedSoFar(start, st, due, i, turns, chosen, reach) && DistinctOrders(due) && i < |due|
    requires Attempted(st, after, due[i], chosen[i], reach) && due[i] in start.orders
    requires Recipient(st.pending, st.limit, chosen[i]).Some? ==>
      (due[i], Recipient(st.pending, st.limit, chosen[i]).value) !in st.offers
    ensures OfferedSoFar(start, after, due, i + 1, turns + [after.pending], chosen, reach)
  {
    TurnOrders(start, st, after, due, i, chosen[i], reach);
    TurnsAdd(start, st, after, due, i, turns, chosen, reach);
    TurnsEnd(start, st, after, due, i, turns, chosen, reach);
    TurnRows(start, st, after, due, i, turns, chosen, reach);
    SoFar(start, after, due, i + 1, turns + [after.pending], chosen, reach);
  }

  lemma TurnDone(
      start: State, st: State, after: State, due: seq<OrderId>, i: nat, turns: seq<map<UserId, int>>,
      seen: OrderId -> set<UserId>, select: Select, reach: UserId -> Reach)
    requires OfferedSoFar(start, st, due, i, turns, Chosen(due, seen, select), reach) && DistinctOrders(due)
    requires Excluding(select) && i < |due| && due[i] in start.orders
    requires forall o :: o in due ==> SeenUsers(start.offers, o) == seen(o)
    requires Attempted(st, after, due[i], Chosen(due, seen, select)[i], reach)
    ensures OfferedSoFar(start, after, due, i + 1, turns + [after.pending], Chosen(due, seen, select), reach)
  {
    RecipientIsNew(start, st, due, i, turns, seen, select, reach);
    TurnTaken(start, st, after, due, i, turns, Chosen(due, seen, select), reach);
  }

  /** The counters of a sweep, attempt by attempt. */
  lemma TurnsCount(
      start: State, mid: State, after: State, rows: seq<Row>, due: seq<OrderId>, handled: nat,
      turns: seq<map<UserId, int>>, select: Select, reach: UserId -> Reach)
    requires mid.pending == Released(start.pending, Users(rows))
    requires OfferedSoFar(mid, after, due, handled, turns, Chosen(due, SeenIn(start.offers), select), reach)
    ensures forall u :: At(start.pending, u) >= 0 ==>
      var n, m := At(start.pending, u), multiset(Users(rows))[u];
      At(turns[0], u) == if n < m then 0 else n - m
    ensures forall i, j, u :: 0 <= i < handled && j == i + 1 && At(turns[i], u) >= 0 ==>
      var got := Recipient(turns[i], mid.limit, select(due[i], SeenUsers(start.offers, due[i])));
      At(turns[j], u) == At(turns[i], u) + if got == Some(u) && reach(u).Delivered? then 1 else 0
  {
    forall u | At(start.pending, u) >= 0
      ensures
        var n, m := At(start.pending, u), multiset(Users(rows))[u];
        At(turns[0], u) == if n < m then 0 else n - m
    {
      ReleasedIs(start.pending, Users(rows), u);
    }
    var chosen := Chosen(due, SeenIn(start.offers), select);
    forall i, j, u | 0 <= i < handled && j == i + 1 && At(turns[i], u) >= 0
      ensures
        var got := Recipient(turns[i], mid.limit, select(due[i], SeenUsers(start.offers, due[i])));
        At(turns[j], u) == At(turns[i], u) + if got == Some(u) && reach(u).Delivered? then 1 else 0
    {
      assert AddsOne(turns[i], turns[j], Recipient(turns[i], mid.limit, chosen[i]), reach);
    }
  }

  lemma OrderEnds(
      start: State, mid: State, after: State, rows: seq<Row>, due: seq<OrderId>, handled: nat,
      turns: seq<map<UserId, int>>, chosen: seq<Option<seq<UserId>>>, reach: UserId -> Reach, i: nat)
    requires mid.orders == start.orders && mid.offers == WithExpired(start.offers, rows)
    requires OfferedSoFar(mid, after, due, handled, turns, chosen, reach) && i < handled
    requires chosen[i].Some? ==> forall u :: u in chosen[i].value ==> (due[i], u) !in mid.offers
    ensures
      var got := Recipient(turns[i], mid.limit, chosen[i]);
      var sent := got.Some? && reach(got.value).Delivered?;
      && due[i] in after.orders && due[i] in start.orders
      && after.orders[due[i]] == (if chosen[i] == Some([]) then start.orders[due[i]].(status := NoTakers)
                                  else if sent then start.orders[due[i]].(status := Offering)
                                  else start.orders[due[i]])
      && (got.Some? ==>
            && (due[i], got.value) in after.offers && (due[i], got.value) !in start.offers
            && after.offers[(due[i], got.value)] == if sent then Offered else Expired)
      && (sent ==> (due[i], got.value) in after.deadlines)
  {
    assert EndsAs(mid, after, due[i], chosen[i], reach, turns[i]);
  }

  /** The orders of a sweep at its end. */
  lemma OrdersEnd(
      start: State, mid: State, after: State, rows: seq<Row>, due: seq<OrderId>, handled: nat,
      turns: seq<map<UserId, int>>, seen: OrderId -> set<UserId>, select: Select, reach: UserId -> Reach)
    requires mid.orders == start.orders && mid.offers == WithExpired(start.offers, rows)
    requires OfferedSoFar(mid, after, due, handled, turns, Chosen(due, seen, select), reach) && Excluding(select)
    requires forall o :: o in due ==> seen(o) == SeenUsers(mid.offers, o)
    ensures forall i :: 0 <= i < handled ==>
      var chosen := Chosen(due, seen, select)[i];
      var got := Recipient(turns[i], mid.limit, chosen);
      var sent := got.Some? && reach(got.value).Delivered?;
      && due[i] in after.orders && due[i] in start.orders
      && after.orders[due[i]] == (if chosen == Some([]) then start.orders[due[i]].(status := NoTakers)
                                  else if sent then start.orders[due[i]].(status := Offering)
                                  else start.orders[due[i]])
      && (got.Some? ==>
            && (due[i], got.value) in after.offers && (due[i], got.value) !in start.offers
            && after.offers[(due[i], got.value)] == if sent then Offered else Expired)
      && (sent ==> (due[i], got.value) in after.deadlines)
  {
    forall i | 0 <= i < handled
      ensures
        var chosen := Chosen(due, seen, select)[i];
        var got := Recipient(turns[i], mid.limit, chosen);
        var sent := got.Some? && reach(got.value).Delivered?;
        && due[i] in after.orders && due[i] in start.orders
        && after.orders[due[i]] == (if chosen == Some([]) then start.orders[due[i]].(status := NoTakers)
                                    else if sent then start.orders[due[i]].(status := Offering)
                                    else start.orders[due[i]])
        && (got.Some? ==>
              && (due[i], got.value) in after.offers && (due[i], got.value) !in start.offers
              && after.offers[(due[i], got.value)] == if sent then Offered else Expired)
        && (sent ==> (due[i], got.value) in after.deadlines)
    {
      ChosenAreNew(mid.offers, due, i, seen, select);
      OrderEnds(start, mid, after, rows, due, handled, turns, Chosen(due, seen, select), reach, i);
    }
  }

  /** What a sweep comes to for counters, orders and offers. */
  ghost predicate SweepComesTo(
      start: State, end: State, rows: seq<Row>, due: seq<OrderId>, handled: nat, turns: seq<map<UserId, int>>,
      select: Select, reach: UserId -> Reach)
  {
    && handled <= |due| && |turns| == handled + 1 && turns[handled] == end.pending
    && (forall u :: At(start.pending, u) >= 0 ==>
          var n, m := At(start.pending, u), multiset(Users(rows))[u];
          At(turns[0], u) == if n < m then 0 else n - m)
    && (forall i, j, u :: 0 <= i < handled && j == i + 1 && At(turns[i], u) >= 0 ==>
          var got := Recipient(turns[i], start.limit, select(due[i], SeenUsers(start.offers, due[i])));
          At(turns[j], u) == At(turns[i], u) + if got == Some(u) && reach(u).Delivered? then 1 else 0)
    && end.orders.Keys == start.orders.Keys
    && (forall o :: o in end.orders && o !in due[..handled] ==> end.orders[o] == start.orders[o])
    && (forall i :: 0 <= i < handled ==>
          var selected := select(due[i], SeenUsers(start.offers, due[i]));
          var got := Recipient(turns[i], start.limit, selected);
          var sent := got.Some? && reach(got.value).Delivered?;
          && due[i] in end.orders
          && end.orders[due[i]] == (if selected == Some([]) then start.orders[due[i]].(status := NoTakers)
                                    else if sent then start.orders[due[i]].(status := Offering)
                                    else start.orders[due[i]])
          && (got.Some? ==>
                && (due[i], got.value) in end.offers && (due[i], got.value) !in start.offers
                && end.offers[(due[i], got.value)] == if sent then Offered else Expired)
          && (sent ==> (due[i], got.value) in end.deadlines))
    && (forall row :: row in start.offers ==>
          row in end.offers && end.offers[row] == if row in rows then Expired else start.offers[row])
    && (forall row :: row in end.offers && row !in start.offers ==> row.0 in due[..handled])
    && (forall i, u {:trigger (due[i], u) in end.offers} ::
          0 <= i < handled && (due[i], u) in end.offers && (due[i], u) !in start.offers ==>
          Recipient(turns[i], start.limit, select(due[i], SeenUsers(start.offers, due[i]))) == Some(u))
  }

  lemma ComesTo(
      start: State, mid: State, end: State, rows: seq<Row>, due: seq<OrderId>, handled: nat,
      turns: seq<map<UserId, int>>, select: Select, reach: UserId -> Reach)
    requires mid.orders == start.orders && mid.offers == WithExpired(start.offers, rows)
    requires mid.limit == start.limit && mid.pending == Released(start.pending, Users(rows)) && Excluding(select)
    requires OfferedSoFar(mid, end, due, handled, turns, Chosen(due, SeenIn(start.offers), select), reach)
    ensures SweepComesTo(start, end, rows, due, handled, turns, select, reach)
  {
    forall o ensures SeenIn(start.offers)(o) == SeenUsers(mid.offers, o) {
      SeenAfterExpiry(start.offers, rows, o);
    }
    TurnsCount(start, mid, end, rows, due, handled, turns, select, reach);
    OldRowsEnd(start, mid, end, rows, due, handled, turns, Chosen(due, SeenIn(start.offers), select), reach);
    OrdersEnd(start, mid, end, rows, due, handled, turns, SeenIn(start.offers), select, reach);
  }

  lemma NothingDue(st: State, select: Select, reach: UserId -> Reach)
    ensures Returns([], set row | row in OfferedRows(st.offers) && row.0 in [])
    ensures WithExpired(st.offers, []) == st.offers && Users([]) == []
    ensures OfferedSoFar(st, st, [], 0, [st.pending], Chosen([], SeenIn(st.offers), select), reach)
  {
  }

  lemma OldRowsEnd(
      start: State, mid: State, after: State, rows: seq<Row>, due: seq<OrderId>, handled: nat,
      turns: seq<map<UserId, int>>, chosen: seq<Option<seq<UserId>>>, reach: UserId -> Reach)
    requires mid.offers == WithExpired(start.offers, rows)
    requires OfferedSoFar(mid, after, due, handled, turns, chosen, reach)
    ensures forall row :: row in start.offers ==>
      row in after.offers && after.offers[row] == if row in rows then Expired else start.offers[row]
    ensures forall row :: row in after.offers && row !in start.offers ==> row.0 in due[..handled]
    ensures forall i, u {:trigger (due[i], u) in after.offers} ::
              0 <= i < handled && (due[i], u) in after.offers && (due[i], u) !in start.offers ==>
      Recipient(turns[i], mid.limit, chosen[i]) == Some(u)
  {
  }

  /** Rating and releasing the users of lapsed offers settles what the lapse left to do. */
  lemma SettlesLapse(before: State, lapsed: State, users: seq<UserId>)
    requires lapsed.owedNotTaken == before.owedNotTaken + multiset(users)
    requires lapsed.owedRelease == before.owedRelease + multiset(users)
    requires lapsed.owedIncomplete == before.owedIncomplete
    ensures SameDebts(before, ReleaseStep(RateNotTakenStep(lapsed, users), users))
    ensures users == [] ==> SameDebts(before, lapsed)
  {
  }

  class OrderFanout {
    const db: Database

    constructor (db: Database)
      ensures this.db == db
    {
      this.db := db;
    }

    method TryCandidate(user: UserId, ghost h: Handling) returns (reserved: bool)
      requires db.Valid() && h in db.st.sweep && db.st.sweep[h].Ready? && user !in db.st.sweep[h].seen
      modifies db`pending, db`st, db`log
      ensures db.Valid() && db.log == old(db.log) + [TryReserve(h, user)]
      ensures reserved == (At(old(db.pending), user) + 1 <= db.limit)
      ensures reserved ==> db.pending == old(db.pending)[user := At(old(db.pending), user) + 1]
      ensures !reserved ==> db.pending == old(db.pending)[user := At(old(db.pending), user)]
      ensures db.st.sweep ==
        if reserved then old(db.st).sweep[h := Reserved(old(db.st).sweep[h].seen, user)] else old(db.st).sweep
      ensures SameDebts(old(db.st), db.st)
    {
      reserved := db.Reserve(user, h);
    }

    /** One turn of the loop, those ranked before having been refused. */
    method TryRanked(ranked: seq<UserId>, i: nat, ghost start: map<UserId, int>, ghost h: Handling)
      returns (reserved: bool)
      requires db.Valid() && h in db.st.sweep && db.st.sweep[h].Ready? && Fresh(ranked, db.st.sweep[h].seen)
      requires i < |ranked| && i <= FirstFree(start, db.limit, ranked) && db.pending == Touched(start, ranked[..i])
      modifies db`pending, db`st, db`log
      ensures db.Valid() && db.log == old(db.log) + [TryReserve(h, ranked[i])]
      ensures reserved == (i == FirstFree(start, db.limit, ranked))
      ensures db.pending == if reserved then Held(start, ranked, i) else Touched(start, ranked[..i + 1])
      ensures db.st.sweep ==
        if reserved then old(db.st).sweep[h := Reserved(old(db.st).sweep[h].seen, ranked[i])] else old(db.st).sweep
      ensures SameDebts(old(db.st), db.st)
    {
      TouchedNext(start, ranked, i);
      FreeIff(start, db.limit, ranked, i);
      ghost var touched := db.pending;
      reserved := TryCandidate(ranked[i], h);
      if reserved {
        HeldIs(start, ranked, i, touched, db.pending);
      }
    }

    /** The reservation loop over the ranked candidates. */
    method ReserveNext(ranked: seq<UserId>, ghost h: Handling) returns (next: Option<UserId>, ghost tried: seq<Event>)
      requires db.Valid() && h in db.st.sweep && db.st.sweep[h].Ready? && Fresh(ranked, db.st.sweep[h].seen)
      modifies db`pending, db`st, db`log
      ensures db.Valid() && db.log == old(db.log) + tried && SameDebts(old(db.st), db.st)
      ensures
        var k := FirstFree(old(db.pending), db.limit, ranked);
        if k == |ranked| then
          && next == None && tried == Attempts(h, ranked) && db.st.sweep == old(db.st).sweep
          && db.pending == Touched(old(db.pending), ranked)
        else
          && next == Some(ranked[k]) && tried == Attempts(h, ranked[..k + 1])
          && db.st.sweep == old(db.st).sweep[h := Reserved(old(db.st).sweep[h].seen, ranked[k])]
          && db.pending == Held(old(db.pending), ranked, k)
    {
      ghost var k, before, start := FirstFree(db.pending, db.limit, ranked), db.log, db.pending;
      for i := 0 to |ranked|
        invariant db.Valid() && i <= k && db.st.sweep == old(db.st).sweep && SameDebts(old(db.st), db.st)
        invariant db.pending == Touched(start, ranked[..i]) && db.log == before + Attempts(h, ranked[..i])
      {
        AttemptsLogged(before, h, ranked, i);
        var reserved := TryRanked(ranked, i, start, h);
        if reserved {
          return Some(ranked[i]), Attempts(h, ranked[..i + 1]);
        }
      }
      assert k == |ranked| && ranked[..|ranked|] == ranked;
      return None, Attempts(h, ranked);
    }

    /** `_rollback_offer`. */
    method RollbackOffer(order: OrderId, user: UserId, ghost h: Handling)
      requires db.Valid() && h.order == order && h in db.st.sweep && db.st.sweep[h] == Recorded(user)
      modifies db`offers, db`pending, db`st, db`log
      ensures db.Valid() && db.log == old(db.log) + [Rollback(h), Release([user])]
      ensures db.st.sweep == old(db.st).sweep - {h} && db.pending == Released(old(db.pending), [user])
      ensures SameDebts(old(db.st), db.st)
      ensures db.offers ==
        if IsOffered(old(db.offers), (order, user)) then old(db.offers)[(order, user) := Expired] else old(db.offers)
    {
      db.ExpireOne(order, user, h);
      db.ReleaseOwed([user]);
    }

    /** The message arrived: queue its deadline, then mark the order. */
    method Keep(order: OrderId, user: UserId, ghost h: Handling)
      requires db.Valid() && h.order == order && order in db.orders
      requires h in db.st.sweep && db.st.sweep[h] == Recorded(user)
      modifies db`deadlines, db`orders, db`st, db`log
      ensures db.Valid() && db.log == old(db.log) + [Schedule(h), MarkOffering(h)]
      ensures db.st.sweep == old(db.st).sweep - {h} && SameDebts(old(db.st), db.st)
      ensures db.orders == old(db.orders)[order := old(db.orders)[order].(status := Offering)]
      ensures db.deadlines == old(db.deadlines) + {(order, user)}
    {
      db.ScheduleDeadline(order, user, h);
      db.MarkOffering(order, h);
    }

    method KeepOrWithdraw(order: OrderId, user: UserId, reach: Reach, ghost h: Handling)
      requires db.Valid() && h.order == order && order in db.orders
      requires h in db.st.sweep && db.st.sweep[h] == Recorded(user)
      modifies db`orders, db`offers, db`pending, db`deadlines, db`st, db`log
      ensures db.Valid()
      ensures db.log == old(db.log) + Delivery(h, user, reach)[1..]
      ensures db.st.sweep == old(db.st).sweep - {h} && SameDebts(old(db.st), db.st)
      ensures db.pending == if reach.Delivered? then old(db.pending) else Released(old(db.pending), [user])
      ensures db.orders ==
        if reach.Delivered? then old(db.orders)[order := old(db.orders)[order].(status := Offering)]
        else old(db.orders)
      ensures db.deadlines == if reach.Delivered? then old(db.deadlines) + {(order, user)} else old(db.deadlines)
      ensures db.offers ==
        if !reach.Delivered? && IsOffered(old(db.offers), (order, user))
        then old(db.offers)[(order, user) := Expired]
        else old(db.offers)
    {
      if reach.Delivered? {
        Keep(order, user, h);
      } else {
        RollbackOffer(order, user, h);
      }
    }

    /** From the reservation on: record the offer, send it, and keep or withdraw it. */
    method Deliver(order: OrderId, user: UserId, reach: Reach, ghost h: Handling)
      requires db.Valid() && h.order == order && order in db.orders
      requires h in db.st.sweep && db.st.sweep[h].Reserved? && db.st.sweep[h].user == user
      modifies db`orders, db`offers, db`pending, db`deadlines, db`st, db`log
      ensures db.Valid() && db.log == old(db.log) + Delivery(h, user, reach)
      ensures db.st.sweep == old(db.st).sweep - {h} && SameDebts(old(db.st), db.st)
      ensures db.pending == if reach.Delivered? then old(db.pending) else Released(old(db.pending), [user])
      ensures db.orders ==
        if reach.Delivered? then old(db.orders)[order := old(db.orders)[order].(status := Offering)]
        else old(db.orders)
      ensures db.deadlines == if reach.Delivered? then old(db.deadlines) + {(order, user)} else old(db.deadlines)
      ensures (order, user) !in old(db.offers) ==>
        db.offers == old(db.offers)[(order, user) := if reach.Delivered? then Offered else Expired]
    {
      ghost var before := db.log;
      db.RecordOffer(order, user, h);
      KeepOrWithdraw(order, user, reach, h);
      Regroup(before, [RecordOffer(h)], Delivery(h, user, reach)[1..]);
    }

    /** `offer_order_to_next_user`; `selected` is what `select_candidates` came to, None a raise. */
    method OfferOrderToNextUser(
        order: OrderId, selected: Option<seq<UserId>>, reach: UserId -> Reach, ghost h: Handling)
      returns (raised: bool)
      requires db.Valid() && h.order == order && order in db.orders && h in db.st.sweep && db.st.sweep[h].Ready?
      requires selected.Some? ==> Fresh(selected.value, db.st.sweep[h].seen)
      modifies db`orders, db`offers, db`pending, db`deadlines, db`st, db`log
      ensures db.Valid() && raised == selected.None?
      ensures db.log == old(db.log) + OfferRun(old(db.pending), db.limit, h, selected, reach)
      ensures db.pending == AfterOffer(old(db.pending), db.limit, selected, reach)
      ensures db.st.sweep == old(db.st).sweep - {h} && SameDebts(old(db.st), db.st)
      ensures
        var got := Recipient(old(db.pending), db.limit, selected);
        var sent := got.Some? && reach(got.value).Delivered?;
        && db.orders == (if selected == Some([])
                         then old(db.orders)[order := old(db.orders)[order].(status := NoTakers)]
                         else if sent then old(db.orders)[order := old(db.orders)[order].(status := Offering)]
                         else old(db.orders))
        && db.deadlines == (if sent then old(db.deadlines) + {(order, got.value)} else old(db.deadlines))
        && (got.None? ==> db.offers == old(db.offers))
        && (got.Some? && (order, got.value) !in old(db.offers) ==>
              db.offers == old(db.offers)[(order, got.value) := if sent then Offered else Expired])
    {
      if selected.None? {
        db.LeaveForNextSweep(h);
        return true;
      }
      if selected.value == [] {
        db.MarkNoTakers(order, h);
        return false;
      }
      OfferToFirstFree(order, selected.value, reach, h);
      return false;
    }

    /** The same with candidates to try. */
    method OfferToFirstFree(order: OrderId, ranked: seq<UserId>, reach: UserId -> Reach, ghost h: Handling)
      requires db.Valid() && h.order == order && order in db.orders && h in db.st.sweep && db.st.sweep[h].Ready?
      requires ranked != [] && Fresh(ranked, db.st.sweep[h].seen)
      modifies db`orders, db`offers, db`pending, db`deadlines, db`st, db`log
      ensures db.Valid() && db.log == old(db.log) + OfferRun(old(db.pending), db.limit, h, Some(ranked), reach)
      ensures db.pending == AfterOffer(old(db.pending), db.limit, Some(ranked), reach)
      ensures db.st.sweep == old(db.st).sweep - {h} && SameDebts(old(db.st), db.st)
      ensures
        var got := Recipient(old(db.pending), db.limit, Some(ranked));
        var sent := got.Some? && reach(got.value).Delivered?;
        && db.orders == (if sent then old(db.orders)[order := old(db.orders)[order].(status := Offering)]
                         else old(db.orders))
        && db.deadlines == (if sent then old(db.deadlines) + {(order, got.value)} else old(db.deadlines))
        && (got.None? ==> db.offers == old(db.offers))
        && (got.Some? && (order, got.value) !in old(db.offers) ==>
              db.offers == old(db.offers)[(order, got.value) := if sent then Offered else Expired])
    {
      ghost var before, run := db.log, OfferRun(db.pending, db.limit, h, Some(ranked), reach);
      OfferRunCases(db.pending, db.limit, h, ranked, reach);
      var next: Option<UserId>;
      ghost var tried: seq<Event>;
      next, tried := ReserveNext(ranked, h);
      match next {
        case None =>
          assert run == tried + [GiveUp(h)];
          db.LeaveForNextSweep(h);
          Regroup(before, tried, [GiveUp(h)]);
        case Some(user) =>
          assert run == tried + Delivery(h, user, reach(user));
          Deliver(order, user, reach(user), h);
          Regroup(before, tried, Delivery(h, user, reach(user)));
      }
    }

    /** The listing, and the statement that ends the offers still open on the orders listed. */
    method ListAndExpire(due: seq<OrderId>, ghost s: nat, ghost ids: set<OrderId>) returns (rows: seq<Row>)
      requires db.Valid() && (forall h :: h in db.st.sweep ==> h.sweep != s) && forall o :: o in due <==> o in ids
      requires forall o :: o in ids ==> OpenOrder(db.st, o)
      modifies db`offers, db`st, db`log
      ensures db.Valid() && db.log == old(db.log) + ([ListDue(s, ids)] + [SweepExpire(s, rows)])
      ensures db.st == SweepExpireStep(ListStep(old(db.st), s, ids), s, rows)
      ensures Returns(rows, set row | row in OfferedRows(old(db.offers)) && row.0 in due)
      ensures db.offers == WithExpired(old(db.offers), rows)
      ensures forall h :: h in db.st.sweep <==> h in old(db.st).sweep || (h.sweep == s && h.order in due)
      ensures forall h :: h in db.st.sweep && h.sweep == s ==> db.st.sweep[h].Swept?
    {
      ghost var before := db.log;
      db.ListDueForFanout(s, ids);
      rows := db.ExpireOfferedForOrders(due, s);
      Regroup(before, [ListDue(s, ids)], [SweepExpire(s, rows)]);
    }

    /** `_release_not_taken`, which does nothing for an empty list. */
    method SettleLapsed(rows: seq<Row>, ghost before: State)
      requires db.Valid() && db.st.owedNotTaken == before.owedNotTaken + multiset(Users(rows))
      requires db.st.owedRelease == before.owedRelease + multiset(Users(rows))
      requires db.st.owedIncomplete == before.owedIncomplete && db.st.notTaken == before.notTaken
      modifies db`notTaken, db`pending, db`st, db`log
      ensures db.Valid() && SameDebts(before, db.st) && db.st.sweep == old(db.st).sweep
      ensures db.notTaken == Incremented(before.notTaken, Users(rows))
      ensures db.pending == Released(old(db.pending), Users(rows))
      ensures db.log ==
        old(db.log) + if rows == [] then [] else [RateNotTaken(Users(rows)), Release(Users(rows))]
    {
      SettlesLapse(before, db.st, Users(rows));
      if rows != [] {
        db.ReleaseNotTaken(Users(rows));
      }
    }

    /** The offers still open on the orders that are due again run out. */
    method ExpireStale(due: seq<OrderId>, ghost s: nat, ghost ids: set<OrderId>) returns (rows: seq<Row>)
      requires db.Valid() && (forall h :: h in db.st.sweep ==> h.sweep != s) && forall o :: o in due <==> o in ids
      requires forall o :: o in ids ==> OpenOrder(db.st, o)
      modifies db`offers, db`notTaken, db`pending, db`st, db`log
      ensures db.Valid() && db.log == old(db.log) + Listing(s, ids, rows)
      ensures Returns(rows, set row | row in OfferedRows(old(db.offers)) && row.0 in due)
      ensures db.offers == WithExpired(old(db.offers), rows) && db.pending == Released(old(db.pending), Users(rows))
      ensures forall h :: h in db.st.sweep <==> h in old(db.st).sweep || (h.sweep == s && h.order in due)
      ensures forall h :: h in db.st.sweep && h.sweep == s ==> db.st.sweep[h].Swept?
      ensures SameDebts(old(db.st), db.st)
      ensures db.notTaken == Incremented(old(db.notTaken), Users(rows))
    {
      ghost var before, start := db.log, db.st;
      rows := ListAndExpire(due, s, ids);
      SettleLapsed(rows, start);
      ghost var settled := if rows == [] then [] else [RateNotTaken(Users(rows)), Release(Users(rows))];
      Regroup(before, [ListDue(s, ids)] + [SweepExpire(s, rows)], settled);
    }

    /** `offered_user_ids_many` as the sweep uses it. */
    method ReadSeen(due: seq<OrderId>, ghost s: nat) returns (offered: map<OrderId, set<UserId>>)
      requires db.Valid() && (forall h :: h in db.st.sweep && h.sweep == s ==> db.st.sweep[h].Swept? && h.order in due)
      requires forall o :: o in due ==> Handling(s, o) in db.st.sweep
      modifies db`st, db`log
      ensures db.Valid() && db.log == old(db.log) + [ReadOffered(s)] && db.st.sweep.Keys == old(db.st).sweep.Keys
      ensures SameDebts(old(db.st), db.st)
      ensures forall o :: o in due ==> OfferedTo(offered, o) == SeenUsers(db.offers, o)
      ensures forall o :: o in due ==> db.st.sweep[Handling(s, o)] == Ready(OfferedTo(offered, o))
    {
      offered := db.OfferedUserIdsMany(due, s);
    }

    /** The attempt for one order of the sweep. */
    method OfferOne(
        order: OrderId, offered: map<OrderId, set<UserId>>, select: Select, reach: UserId -> Reach, ghost h: Handling)
      returns (raised: bool)
      requires db.Valid() && h.order == order && order in db.orders && h in db.st.sweep
      requires db.st.sweep[h] == Ready(OfferedTo(offered, order)) && Excluding(select)
      modifies db`orders, db`offers, db`pending, db`deadlines, db`st, db`log
      ensures
        var selected := select(order, OfferedTo(offered, order));
        && raised == selected.None?
        && db.log == old(db.log) + OfferRun(old(db.pending), db.limit, h, selected, reach)
        && Attempted(old(db.st), db.st, order, selected, reach)
      ensures db.Valid() && db.st.sweep == old(db.st).sweep - {h} && SameDebts(old(db.st), db.st)
    {
      raised := OfferOrderToNextUser(order, select(order, OfferedTo(offered, order)), reach, h);
    }

    /** One turn of the loop, with what it means for the rest of the sweep. */
    method OfferTurn(
        due: seq<OrderId>, i: nat, offered: map<OrderId, set<UserId>>, select: Select, reach: UserId -> Reach,
        ghost s: nat, ghost before: set<Handling>, ghost steps: seq<Event>)
      returns (raised: bool, ghost did: seq<Event>)
      requires db.Valid() && DistinctOrders(due) && Excluding(select) && i < |due|
      requires Waiting(db.st.sweep, before, s, db.orders.Keys, AsSeen(offered), due[i..])
      modifies db`orders, db`offers, db`pending, db`deadlines, db`st, db`log
      ensures db.Valid() && db.log == old(db.log) + did && SameDebts(old(db.st), db.st)
      ensures Attempted(old(db.st), db.st, due[i], Chosen(due, AsSeen(offered), select)[i], reach)
      ensures raised == Chosen(due, AsSeen(offered), select)[i].None?
      ensures
        var seen := AsSeen(offered);
        && steps + SweepRun(old(db.pending), db.limit, s, due[i..], seen, select, reach) ==
           (if raised then steps + did
            else (steps + did) + SweepRun(db.pending, db.limit, s, due[i + 1..], seen, select, reach))
        && Handled(due[i..], seen, select) == if raised then 1 else 1 + Handled(due[i + 1..], seen, select)
      ensures Waiting(db.st.sweep, before, s, old(db.orders).Keys, AsSeen(offered), due[i + 1..])
    {
      ghost var seen, h := AsSeen(offered), Handling(s, due[i]);
      WaitingNext(db.st.sweep, before, s, db.orders.Keys, seen, due, i);
      SweepRunNext(db.pending, db.limit, s, due, i, seen, select, reach, steps);
      did := OfferRun(db.pending, db.limit, h, select(due[i], seen(due[i])), reach);
      raised := OfferOne(due[i], offered, select, reach, h);
    }

    /**
     * The loop of `sweep_and_fan_out`. The first exception ends it: the other orders' handlings are left
     * running, to be taken up after the sweep has returned.
     */
    method OfferEach(
        due: seq<OrderId>, offered: map<OrderId, set<UserId>>, select: Select, reach: UserId -> Reach, ghost s: nat,
        ghost before: set<Handling>)
      returns (handled: nat, ghost steps: seq<Event>, ghost turns: seq<map<UserId, int>>)
      requires db.Valid() && DistinctOrders(due) && Excluding(select)
      requires Waiting(db.st.sweep, before, s, db.orders.Keys, AsSeen(offered), due)
      requires forall o :: o in due ==> SeenUsers(db.offers, o) == AsSeen(offered)(o)
      modifies db`orders, db`offers, db`pending, db`deadlines, db`st, db`log
      ensures db.Valid() && db.log == old(db.log) + steps && SameDebts(old(db.st), db.st)
      ensures
        var seen := AsSeen(offered);
        && steps == SweepRun(old(db.pending), db.limit, s, due, seen, select, reach)
        && handled == Handled(due, seen, select)
        && Waiting(db.st.sweep, before, s, old(db.orders).Keys, seen, due[handled..])
        && OfferedSoFar(old(db.st), db.st, due, handled, turns, Chosen(due, seen, select), reach)
    {
      ghost var seen, start := AsSeen(offered), db.st;
      ghost var chosen := Chosen(due, seen, select);
      ghost var whole := SweepRun(db.pending, db.limit, s, due, seen, select, reach);
      steps, turns := [], [db.pending];
      assert due[0..] == due && [] + whole == whole;
      for i := 0 to |due|
        invariant db.Valid() && db.log == old(db.log) + steps && SameDebts(start, db.st)
        invariant steps + SweepRun(db.pending, db.limit, s, due[i..], seen, select, reach) == whole
        invariant i + Handled(due[i..], seen, select) == Handled(due, seen, select)
        invariant OfferedSoFar(start, db.st, due, i, turns, chosen, reach)
        invariant Waiting(db.st.sweep, before, s, old(db.orders).Keys, seen, due[i..])
      {
        ghost var st := db.st;
        var raised: bool;
        ghost var did: seq<Event>;
        raised, did := OfferTurn(due, i, offered, select, reach, s, before, steps);
        Regroup(old(db.log), steps, did);
        TurnDone(start, st, db.st, due, i, turns, seen, select, reach);
        steps, turns := steps + did, turns + [db.pending];
        if raised {
          return i + 1, steps, turns;
        }
      }
      assert due[|due|..] == [];
      return |due|, steps, turns;
    }

    /** The first half of `sweep_and_fan_out`. */
    method BeginSweep(due: seq<OrderId>, ghost s: nat, ghost ids: set<OrderId>)
      returns (rows: seq<Row>, offered: map<OrderId, set<UserId>>)
      requires db.Valid() && (forall h :: h in db.st.sweep ==> h.sweep != s) && forall o :: o in due <==> o in ids
      requires forall o :: o in ids ==> OpenOrder(db.st, o)
      modifies db`offers, db`notTaken, db`pending, db`st, db`log
      ensures db.Valid() && db.log == old(db.log) + (Listing(s, ids, rows) + [ReadOffered(s)])
      ensures SameDebts(old(db.st), db.st) && db.offers == WithExpired(old(db.offers), rows)
      ensures db.notTaken == Incremented(old(db.notTaken), Users(rows))
      ensures forall o :: o in due ==> AsSeen(offered)(o) == SeenUsers(db.offers, o)
      ensures Returns(rows, set row | row in OfferedRows(old(db.offers)) && row.0 in due)
      ensures db.pending == Released(old(db.pending), Users(rows))
      ensures forall o :: o in due ==> AsSeen(offered)(o) == SeenIn(old(db.offers))(o)
      ensures Waiting(db.st.sweep, old(db.st).sweep.Keys, s, db.orders.Keys, AsSeen(offered), due)
    {
      ghost var before := db.log;
      rows := ExpireStale(due, s, ids);
      offered := ReadSeen(due, s);
      Regroup(before, Listing(s, ids, rows), [ReadOffered(s)]);
      forall o | o in due ensures AsSeen(offered)(o) == SeenIn(old(db.offers))(o) {
        SeenAfterExpiry(old(db.offers), rows, o);
      }
    }

    /** The steps of a sweep and what they come to. */
    method SweepDue(due: seq<OrderId>, select: Select, reach: UserId -> Reach, ghost s: nat)
      returns (rows: seq<Row>, handled: nat, ghost turns: seq<map<UserId, int>>)
      requires db.Valid() && DistinctOrders(due) && Excluding(select)
      requires (forall h :: h in db.st.sweep ==> h.sweep != s) && forall o :: o in due ==> OpenOrder(db.st, o)
      modifies db`notTaken, db`orders, db`offers, db`pending, db`deadlines, db`st, db`log
      ensures db.Valid() && handled == Handled(due, SeenIn(old(db.offers)), select)
      ensures Returns(rows, set row | row in OfferedRows(old(db.offers)) && row.0 in due)
      ensures db.log == old(db.log) +
        if due == [] then []
        else
          Listing(s, (set o | o in due), rows) + [ReadOffered(s)]
          + SweepRun(Released(old(db.pending), Users(rows)), db.limit, s, due, SeenIn(old(db.offers)), select, reach)
      ensures forall h ::
        h in db.st.sweep <==> h in old(db.st).sweep || (h.sweep == s && h.order in due[handled..])
      ensures db.notTaken == Incremented(old(db.notTaken), Users(rows)) && SameDebts(old(db.st), db.st)
      ensures SweepComesTo(old(db.st), db.st, rows, due, handled, turns, select, reach)
    {
      rows, handled, turns := [], 0, [db.pending];
      if due == [] {
        NothingDue(db.st, select, reach);
        ComesTo(db.st, db.st, db.st, rows, due, handled, turns, select, reach);
        return;
      }
      rows, handled, turns := SweepSome(due, select, reach, s);
    }

    /** The steps of a sweep that has orders to offer. */
    method SweepSome(due: seq<OrderId>, select: Select, reach: UserId -> Reach, ghost s: nat)
      returns (rows: seq<Row>, handled: nat, ghost turns: seq<map<UserId, int>>)
      requires db.Valid() && DistinctOrders(due) && Excluding(select) && due != []
      requires (forall h :: h in db.st.sweep ==> h.sweep != s) && forall o :: o in due ==> OpenOrder(db.st, o)
      modifies db`notTaken, db`orders, db`offers, db`pending, db`deadlines, db`st, db`log
      ensures db.Valid() && handled == Handled(due, SeenIn(old(db.offers)), select)
      ensures Returns(rows, set row | row in OfferedRows(old(db.offers)) && row.0 in due)
      ensures db.log == old(db.log) +
        (Listing(s, (set o | o in due), rows) + [ReadOffered(s)]
         + SweepRun(Released(old(db.pending), Users(rows)), db.limit, s, due, SeenIn(old(db.offers)), select, reach))
      ensures forall h ::
        h in db.st.sweep <==> h in old(db.st).sweep || (h.sweep == s && h.order in due[handled..])
      ensures db.notTaken == Incremented(old(db.notTaken), Users(rows)) && SameDebts(old(db.st), db.st)
      ensures SweepComesTo(old(db.st), db.st, rows, due, handled, turns, select, reach)
    {
      ghost var start := db.st;
      ghost var before, there := db.log, db.st.sweep.Keys;
      var offered: map<OrderId, set<UserId>>;
      rows, offered := BeginSweep(due, s, set o | o in due);
      ghost var mid, rated := db.st, db.notTaken;
      assert SameDebts(start, mid);
      SameSeen(db.pending, db.limit, s, due, AsSeen(offered), SeenIn(old(db.offers)), select, reach);
      SameChosen(due, SeenIn(old(db.offers)), AsSeen(offered), select);
      ghost var steps: seq<Event>;
      handled, steps, turns := OfferEach(due, offered, select, reach, s, there);
      assert SameDebts(mid, db.st) && db.notTaken == rated;
      Regroup(before, Listing(s, (set o | o in due), rows) + [ReadOffered(s)], steps);
      ComesTo(start, mid, db.st, rows, due, handled, turns, select, reach);
    }

    /**
     * `sweep_and_fan_out`, the `s`-th sweep. It lists, expires and releases, reads who was asked, and
     * makes the attempts of `SweepRun`; after a raise the handlings of the remaining orders stay behind.
     * `turns` are the counters each attempt met. Besides the log the contract says what the sweep comes to:
     * whose rating it lowered, that nothing is left owed, and how each order ended (in terms of `st`, which
     * Valid ties to the fields).
     */
    method SweepAndFanOut(due: seq<OrderId>, select: Select, reach: UserId -> Reach, ghost s: nat)
      returns (rows: seq<Row>, handled: nat, ghost turns: seq<map<UserId, int>>)
      requires db.Valid() && DistinctOrders(due) && Excluding(select)
      requires (forall h :: h in db.st.sweep ==> h.sweep != s) && forall o :: o in due ==> OpenOrder(db.st, o)
      modifies db
      ensures db.Valid() && handled == Handled(due, SeenIn(old(db.offers)), select)
      ensures Returns(rows, set row | row in OfferedRows(old(db.offers)) && row.0 in due)
      ensures db.log == old(db.log) +
        if due == [] then []
        else
          Listing(s, (set o | o in due), rows) + [ReadOffered(s)]
          + SweepRun(Released(old(db.pending), Users(rows)), db.limit, s, due, SeenIn(old(db.offers)), select, reach)
      ensures forall h ::
        h in db.st.sweep <==> h in old(db.st).sweep || (h.sweep == s && h.order in due[handled..])
      // ratings, debts, and what is not the sweep's business
      ensures forall u :: At(db.notTaken, u) == At(old(db.notTaken), u) + multiset(Users(rows))[u]
      ensures db.st.owedNotTaken == old(db.st).owedNotTaken && db.st.owedRelease == old(db.st).owedRelease
      ensures db.st.owedIncomplete == old(db.st).owedIncomplete
      ensures db.ledger == old(db.ledger) && db.complete == old(db.complete) && db.incomplete == old(db.incomplete)
      // counters
      ensures |turns| == handled + 1 && turns[handled] == db.st.pending
      ensures forall u :: At(old(db.st).pending, u) >= 0 ==>
        var n, m := At(old(db.st).pending, u), multiset(Users(rows))[u];
        At(turns[0], u) == if n < m then 0 else n - m
      ensures forall i, j, u :: 0 <= i < handled && j == i + 1 && At(turns[i], u) >= 0 ==>
        var got := Recipient(turns[i], old(db.st).limit, select(due[i], SeenUsers(old(db.st).offers, due[i])));
        At(turns[j], u) == At(turns[i], u) + if got == Some(u) && reach(u).Delivered? then 1 else 0
      // orders and offers
      ensures db.st.orders.Keys == old(db.st).orders.Keys
      ensures forall o :: o in db.st.orders && o !in due[..handled] ==> db.st.orders[o] == old(db.st).orders[o]
      ensures forall i :: 0 <= i < handled ==>
        var selected := select(due[i], SeenUsers(old(db.st).offers, due[i]));
        var got := Recipient(turns[i], old(db.st).limit, selected);
        var sent := got.Some? && reach(got.value).Delivered?;
        && due[i] in db.st.orders
        && db.st.orders[due[i]] == (if selected == Some([]) then old(db.st).orders[due[i]].(status := NoTakers)
                                 else if sent then old(db.st).orders[due[i]].(status := Offering)
                                 else old(db.st).orders[due[i]])
        && (got.Some? ==>
              && (due[i], got.value) in db.st.offers && (due[i], got.value) !in old(db.st).offers
              && db.st.offers[(due[i], got.value)] == if sent then Offered else Expired)
        && (sent ==> (due[i], got.value) in db.st.deadlines)
      ensures forall row :: row in old(db.st).offers ==>
        row in db.st.offers && db.st.offers[row] == if row in rows then Expired else old(db.st).offers[row]
      ensures forall row :: row in db.st.offers && row !in old(db.st).offers ==> row.0 in due[..handled]
      ensures forall i, u {:trigger (due[i], u) in db.st.offers} ::
        0 <= i < handled && (due[i], u) in db.st.offers && (due[i], u) !in old(db.st).offers ==>
        Recipient(turns[i], old(db.st).limit, select(due[i], SeenUsers(old(db.st).offers, due[i]))) == Some(u)
    {
      ghost var rated := db.notTaken;
      rows, handled, turns := SweepDue(due, select, reach, s);
      AllCounted(rated, Users(rows));
    }
  }

  lemma SeenAfterExpiry(offers: map<Row, OfferStatus>, rows: seq<Row>, o: OrderId)
    ensures SeenUsers(WithExpired(offers, rows), o) == SeenUsers(offers, o)
  {
  }

  lemma NothingToSettle(log: seq<Event>, rows: seq<Row>)
    requires rows == []
    ensures log + [] == log && Users(rows) == []
  {
  }

  lemma ExpiredOf(offers: map<Row, OfferStatus>, rows: seq<Row>, due: set<Row>)
    requires Returns(rows, due * OfferedRows(offers))
    ensures WithExpired(offers, rows).Keys == offers.Keys
    ensures forall row :: row in offers ==>
      WithExpired(offers, rows)[row] == if row in due && offers[row] == Offered then Expired else offers[row]
    ensures rows == [] ==> WithExpired(offers, rows) == offers
  {
  }

  class OfferExpiry {
    const db: Database

    constructor (db: Database)
      ensures this.db == db
    {
      this.db := db;
    }

    /** Rating and releasing whom the statement names. */
    method SettleRows(rows: seq<Row>)
      requires db.Valid() && multiset(Users(rows)) <= db.st.owedNotTaken
      requires multiset(Users(rows)) <= db.st.owedRelease
      modifies db`notTaken, db`pending, db`st, db`log
      ensures db.Valid()
      ensures db.log == old(db.log) + if rows == [] then [] else [RateNotTaken(Users(rows)), Release(Users(rows))]
      ensures db.notTaken == Incremented(old(db.notTaken), Users(rows))
      ensures db.pending == Released(old(db.pending), Users(rows))
    {
      if rows != [] {
        db.ReleaseNotTaken(Users(rows));
      }
    }

    /** The statement, and the rating and release of whom it names. */
    method ExpireAndSettle(batch: seq<Row>, ghost due: set<Row>) returns (rows: seq<Row>)
      requires db.Valid() && Returns(batch, due) && due <= db.st.claimed
      modifies db`offers, db`notTaken, db`pending, db`st, db`log
      ensures db.Valid() && Returns(rows, due * OfferedRows(old(db.offers)))
      ensures
        db.log == old(db.log) + if rows == [] then [ExpireDue(due, [])]
                                else [ExpireDue(due, rows), RateNotTaken(Users(rows)), Release(Users(rows))]
      ensures db.offers == WithExpired(old(db.offers), rows)
      ensures db.notTaken == Incremented(old(db.notTaken), Users(rows))
      ensures db.pending == Released(old(db.pending), Users(rows))
    {
      ghost var before := db.log;
      rows := db.ExpireMany(batch, due);
      ghost var expired := db.log;
      SettleRows(rows);
      if rows != [] {
        SettledAfter(before, db.log, ExpireDue(due, rows), Users(rows));
      } else {
        NothingToSettle(expired, rows);
      }
    }

    /** `expire_offers`: acts on the rows that were actually expired, not on the deadlines. */
    method ExpireOffers(batch: seq<Row>, ghost due: set<Row>) returns (rows: seq<Row>)
      requires db.Valid() && Returns(batch, due) && due <= db.st.claimed
      modifies db`offers, db`notTaken, db`pending, db`st, db`log
      ensures db.Valid() && Returns(rows, due * OfferedRows(old(db.offers)))
      ensures
        db.log == old(db.log) + if batch == [] then []
                                else if rows == [] then [ExpireDue(due, [])]
                                else [ExpireDue(due, rows), RateNotTaken(Users(rows)), Release(Users(rows))]
      ensures db.offers.Keys == old(db.offers).Keys && forall row :: row in db.offers ==>
        db.offers[row] == if row in due && old(db.offers)[row] == Offered then Expired else old(db.offers)[row]
      ensures forall u :: At(db.notTaken, u) == At(old(db.notTaken), u) + multiset(Users(rows))[u]
      ensures forall u ::
        var n, m := At(old(db.pending), u), multiset(Users(rows))[u];
        At(db.pending, u) == if m == 0 then n else if n < m then 0 else n - m
    {
      rows := [];
      ghost var offers, rated, held := db.offers, db.notTaken, db.pending;
      if batch != [] {
        rows := ExpireAndSettle(batch, due);
      }
      ExpiredOf(offers, rows, due);
      AllCounted(rated, Users(rows));
      AllReleased(held, Users(rows));
    }
  }
}
