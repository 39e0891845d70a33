/** Concrete runs from the empty state that reach what the unguarded writes break. */
module Witnesses {
  import opened Records
  import opened Protocol
  import opened Counting
  import opened Safety
  import opened Runs
  import Packages

  const FIRST := OrderId(1)
  const TAKER := UserId(7)
  const CODE_JOB := Job(true, 0, [60])
  const CODE_TAKER := Profile(Active, true, true, 0, None)
  const HAND := Handling(0, FIRST)
  const TAKE := Take(FIRST, TAKER, true, CODE_TAKER, 5.0, [])

  lemma Step(st: State, e: Event, after: State, rest: seq<Event>)
    requires Enabled(st, e) && Apply(st, e) == after && Legal(after, rest)
    ensures Legal(st, [e] + rest) && Exec(st, [e] + rest) == Exec(after, rest)
    ensures NoRace(st, [e] + rest) <==> !Racy(st, e) && NoRace(after, rest)
  {
    assert ([e] + rest)[0] == e && ([e] + rest)[1..] == rest;
  }

  /** `rest` leads from one state to another and is race-free or not, as told. */
  ghost predicate Goes(st: State, run: seq<Event>, end: State, raceFree: bool) {
    Legal(st, run) && Exec(st, run) == end && (NoRace(st, run) <==> raceFree)
  }

  lemma GoesNowhere(st: State)
    ensures Goes(st, [], st, true)
  {
  }

  lemma StepGoes(st: State, e: Event, after: State, rest: seq<Event>, end: State, raceFree: bool)
    requires Enabled(st, e) && Apply(st, e) == after && Goes(after, rest, end, raceFree)
    ensures Goes(st, [e] + rest, end, !Racy(st, e) && raceFree)
  {
    Step(st, e, after, rest);
  }

  // ---- one order, offered to one user ---------------------------------------------------

  /** The order pending and in one handling's hands. */
  function Hand(limit: nat, phase: Phase): State {
    Init(limit).(orders := map[FIRST := OrderRow(CODE_JOB, Pending, None, None)], sweep := map[HAND := phase])
  }

  /** The user's slot reserved and the offer recorded, delivery under way. */
  function RecordedState(limit: nat): State {
    Hand(limit, Recorded(TAKER)).(pending := map[TAKER := 1], offers := map[(FIRST, TAKER) := Offered])
  }

  function Offering1(rest: seq<Event>): seq<Event> {
    [TryReserve(HAND, TAKER)] + ([RecordOffer(HAND)] + rest)
  }

  lemma ToRecorded(limit: nat, rest: seq<Event>, end: State, raceFree: bool)
    requires limit >= 1 && Goes(RecordedState(limit), rest, end, raceFree)
    ensures Goes(Hand(limit, Ready({})), Offering1(rest), end, raceFree)
  {
    var held := Hand(limit, Reserved({}, TAKER)).(pending := map[TAKER := 1]);
    assert RecordStep(held, HAND) == RecordedState(limit);
    StepGoes(held, RecordOffer(HAND), RecordedState(limit), rest, end, raceFree);
    assert ReserveStep(Hand(limit, Ready({})), HAND, TAKER) == held;
    StepGoes(Hand(limit, Ready({})), TryReserve(HAND, TAKER), held, [RecordOffer(HAND)] + rest, end, raceFree);
  }

  function Sweeping1(rest: seq<Event>): seq<Event> {
    [SweepExpire(0, [])] + ([ReadOffered(0)] + rest)
  }

  lemma ToReady(limit: nat, rest: seq<Event>, end: State, raceFree: bool)
    requires Goes(Hand(limit, Ready({})), rest, end, raceFree)
    ensures Goes(Hand(limit, Listed), Sweeping1(rest), end, raceFree)
  {
    var listed, swept := Hand(limit, Listed), Hand(limit, Swept);
    assert SeenUsers(swept.offers, FIRST) == {};
    assert ReadStep(swept, 0).sweep == map[HAND := Ready({})];
    StepGoes(swept, ReadOffered(0), Hand(limit, Ready({})), rest, end, raceFree);
    NothingExpires(listed.offers);
    assert SweepExpireStep(listed, 0, []).sweep == map[HAND := Swept];
    StepGoes(listed, SweepExpire(0, []), swept, [ReadOffered(0)] + rest, end, raceFree);
  }

  function Listing1(rest: seq<Event>): seq<Event> {
    [Create(FIRST, CODE_JOB)] + ([ListDue(0, {FIRST})] + rest)
  }

  lemma ToListed(limit: nat, rest: seq<Event>, end: State, raceFree: bool)
    requires Goes(Hand(limit, Listed), rest, end, raceFree)
    ensures Goes(Init(limit), Listing1(rest), end, raceFree)
  {
    var created := Init(limit).(orders := map[FIRST := OrderRow(CODE_JOB, Pending, None, None)]);
    assert ListStep(created, 0, {FIRST}).sweep == map[HAND := Listed];
    StepGoes(created, ListDue(0, {FIRST}), Hand(limit, Listed), rest, end, raceFree);
    StepGoes(Init(limit), Create(FIRST, CODE_JOB), created, [ListDue(0, {FIRST})] + rest, end, raceFree);
  }

  /** Order created, listed, swept, read, reserved for the user and recorded; then `rest`. */
  function Offered1(rest: seq<Event>): seq<Event> {
    Listing1(Sweeping1(Offering1(rest)))
  }

  lemma FromInit(limit: nat, rest: seq<Event>, end: State, raceFree: bool)
    requires limit >= 1 && Goes(RecordedState(limit), rest, end, raceFree)
    ensures Goes(Init(limit), Offered1(rest), end, raceFree)
  {
    ToRecorded(limit, rest, end, raceFree);
    ToReady(limit, Offering1(rest), end, raceFree);
    ToListed(limit, Sweeping1(Offering1(rest)), end, raceFree);
  }

  lemma UnsafeRun(limit: nat, run: seq<Event>, end: State)
    requires Goes(Init(limit), run, end, false)
    ensures !AlwaysSafe(Init(limit), run)
  {
    InitInv(limit);
    RunSafeIffNoRace(Init(limit), run);
  }

  function TakenRow(status: OrderStatus): OrderRow {
    OrderRow(CODE_JOB, status, Some(TAKER), Some(5.0))
  }

  function TakenAt(st: State): State {
    st.(offers := map[(FIRST, TAKER) := OfferTaken], orders := map[FIRST := TakenRow(OrderStatus.Taken)])
  }

  lemma NothingExpires(offers: map<Row, OfferStatus>)
    ensures WithExpired(offers, []) == offers && Users([]) == []
  {
  }

  lemma TakeSucceeds(st: State, status: OrderStatus)
    requires st.limit >= 1 && IsOpen(status) && st.orders == map[FIRST := OrderRow(CODE_JOB, status, None, None)]
    requires st.offers == map[(FIRST, TAKER) := Offered]
    ensures Enabled(st, TAKE) && Apply(st, TAKE) == TakeStep(st, FIRST, TAKER, 5.0, [])
  {
    assert OrdersOf(st.orders, TAKER, OrderStatus.Taken) == {};
    assert TakeResult(st, FIRST, TAKER, true, CODE_TAKER) == TakeOk;
  }

  lemma TakeStepIs(st: State, status: OrderStatus)
    requires st.orders == map[FIRST := OrderRow(CODE_JOB, status, None, None)]
    requires st.offers == map[(FIRST, TAKER) := Offered]
    ensures TakeStep(st, FIRST, TAKER, 5.0, []) == TakenAt(st)
  {
    var offers := map[(FIRST, TAKER) := OfferTaken];
    assert st.offers[(FIRST, TAKER) := OfferTaken] == offers;
    NothingExpires(offers);
  }

  lemma TakeIs(st: State, status: OrderStatus)
    requires st.limit >= 1 && IsOpen(status) && st.orders == map[FIRST := OrderRow(CODE_JOB, status, None, None)]
    requires st.offers == map[(FIRST, TAKER) := Offered]
    ensures Enabled(st, TAKE) && !Racy(st, TAKE) && Apply(st, TAKE) == TakenAt(st)
  {
    TakeSucceeds(st, status);
    TakeStepIs(st, status);
  }

  lemma NothingTakenNorOpen(st: State, row: OrderRow, offer: OfferStatus)
    requires st.orders == map[FIRST := row] && row.status != OrderStatus.Taken
    requires st.offers == map[(FIRST, TAKER) := offer] && offer != Offered && st.sweep == map[]
    ensures RowsOf(st.offers, TAKER, Offered) == {} && InWork(st.orders, TAKER) == 0 && HeldFor(st.sweep, TAKER) == {}
  {
    assert OrdersOf(st.orders, TAKER, OrderStatus.Taken) == {};
  }

  // ---- take before mark_offering -----------------------------------------------------------

  function DeliveredState(limit: nat): State {
    RecordedState(limit).(deadlines := {(FIRST, TAKER)}, sweep := map[HAND := Scheduled(TAKER)])
  }

  function OverwrittenState(limit: nat): State {
    TakenAt(DeliveredState(limit)).(orders := map[FIRST := TakenRow(Offering)], sweep := map[])
  }

  const EARLY_TAKE: seq<Event> := Offered1([Schedule(HAND)] + ([TAKE] + ([MarkOffering(HAND)] + [])))

  lemma TakeThenMark(limit: nat)
    requires limit >= 1
    ensures Goes(DeliveredState(limit), [TAKE] + ([MarkOffering(HAND)] + []), OverwrittenState(limit), false)
  {
    var mid, end := TakenAt(DeliveredState(limit)), OverwrittenState(limit);
    assert mid.sweep - {HAND} == map[];
    assert MarkStep(mid, HAND, Offering) == end;
    GoesNowhere(end);
    StepGoes(mid, MarkOffering(HAND), end, [], end, true);
    TakeIs(DeliveredState(limit), Pending);
    StepGoes(DeliveredState(limit), TAKE, mid, [MarkOffering(HAND)] + [], end, false);
  }

  /**
   * A user who presses "take" after the message arrives and before mark_offering is overwritten: the
   * order is offered again though taken, and the counter keeps a unit nothing accounts for.
   */
  lemma EarlyTakeBreaks(limit: nat)
    requires limit >= 1
    ensures
      && Goes(Init(limit), EARLY_TAKE, OverwrittenState(limit), false) && !AlwaysSafe(Init(limit), EARLY_TAKE)
      && var end := OverwrittenState(limit);
      && end.orders[FIRST].status == Offering && end.orders[FIRST].takenBy == Some(TAKER)
      && At(end.pending, TAKER) == 1 && !CountedFor(end, TAKER)
  {
    var end := OverwrittenState(limit);
    TakeThenMark(limit);
    assert ScheduleStep(RecordedState(limit), HAND) == DeliveredState(limit);
    var later := [TAKE] + ([MarkOffering(HAND)] + []);
    StepGoes(RecordedState(limit), Schedule(HAND), DeliveredState(limit), later, end, false);
    FromInit(limit, [Schedule(HAND)] + later, end, false);
    UnsafeRun(limit, EARLY_TAKE, end);
    NothingTakenNorOpen(end, TakenRow(Offering), OfferTaken);
  }

  // ---- take before a roll-back ----------------------------------------------------------------

  function RolledBackState(limit: nat): State {
    TakenAt(RecordedState(limit)).(sweep := map[], owedRelease := multiset{TAKER})
  }

  const LATE_ROLLBACK: seq<Event> := Offered1([TAKE] + ([Rollback(HAND)] + []))

  lemma RollbackIs(limit: nat)
    ensures
      var mid := TakenAt(RecordedState(limit));
      && Enabled(mid, Rollback(HAND)) && Racy(mid, Rollback(HAND))
      && Apply(mid, Rollback(HAND)) == RolledBackState(limit)
  {
    var mid := TakenAt(RecordedState(limit));
    NothingExpires(mid.offers);
    assert mid.sweep - {HAND} == map[];
    var none: seq<Row> := [];
    assert mid.withdrawn + (set r | r in none) == {};
    assert RollbackStep(mid, HAND) == RolledBackState(limit);
  }

  /**
   * The message arrives although its sending is reported as failed, and the user takes at once: the
   * roll-back releases the slot that the taken order still needs.
   */
  lemma LateRollbackBreaks(limit: nat)
    requires limit >= 1
    ensures
      && Goes(Init(limit), LATE_ROLLBACK, RolledBackState(limit), false) && !AlwaysSafe(Init(limit), LATE_ROLLBACK)
      && var end := RolledBackState(limit);
      && end.orders[FIRST].status == OrderStatus.Taken && At(end.pending, TAKER) == 1
      && end.owedRelease[TAKER] == 1 && !CountedFor(end, TAKER)
  {
    var mid, end := TakenAt(RecordedState(limit)), RolledBackState(limit);
    RollbackIs(limit);
    GoesNowhere(end);
    StepGoes(mid, Rollback(HAND), end, [], end, true);
    TakeIs(RecordedState(limit), Pending);
    StepGoes(RecordedState(limit), TAKE, mid, [Rollback(HAND)] + [], end, false);
    FromInit(limit, [TAKE] + ([Rollback(HAND)] + []), end, false);
    UnsafeRun(limit, LATE_ROLLBACK, end);
    assert OrdersOf(end.orders, TAKER, OrderStatus.Taken) == {FIRST};
  }

  // ---- a taken order ------------------------------------------------------------------------------

  function OfferedState(limit: nat): State {
    DeliveredState(limit).(orders := map[FIRST := OrderRow(CODE_JOB, Offering, None, None)], sweep := map[])
  }

  /** Offered, marked and taken without a race; then `rest`. */
  function Taken1(rest: seq<Event>): seq<Event> {
    Offered1([Schedule(HAND)] + ([MarkOffering(HAND)] + ([TAKE] + rest)))
  }

  lemma ToTakenFromSent(limit: nat, rest: seq<Event>, end: State, raceFree: bool)
    requires limit >= 1 && Goes(TakenAt(OfferedState(limit)), rest, end, raceFree)
    ensures Goes(DeliveredState(limit), [MarkOffering(HAND)] + ([TAKE] + rest), end, raceFree)
  {
    var sent, marked := DeliveredState(limit), OfferedState(limit);
    TakeIs(marked, Offering);
    StepGoes(marked, TAKE, TakenAt(marked), rest, end, raceFree);
    assert sent.sweep - {HAND} == map[];
    assert MarkStep(sent, HAND, Offering) == marked;
    StepGoes(sent, MarkOffering(HAND), marked, [TAKE] + rest, end, raceFree);
  }

  lemma ToTaken(limit: nat, rest: seq<Event>, end: State, raceFree: bool)
    requires limit >= 1 && Goes(TakenAt(OfferedState(limit)), rest, end, raceFree)
    ensures Goes(Init(limit), Taken1(rest), end, raceFree)
  {
    var later := [MarkOffering(HAND)] + ([TAKE] + rest);
    ToTakenFromSent(limit, rest, end, raceFree);
    assert ScheduleStep(RecordedState(limit), HAND) == DeliveredState(limit);
    StepGoes(RecordedState(limit), Schedule(HAND), DeliveredState(limit), later, end, raceFree);
    FromInit(limit, [Schedule(HAND)] + later, end, raceFree);
  }

  function CleanedState(limit: nat): State {
    TakenAt(OfferedState(limit)).(orders := map[FIRST := TakenRow(Cancelled)])
  }

  const LATE_CLEAN: seq<Event> := Taken1([Clean(FIRST, [])] + [])

  lemma CleanIs(limit: nat)
    ensures
      var mid, e := TakenAt(OfferedState(limit)), Clean(FIRST, []);
      Enabled(mid, e) && Racy(mid, e) && Apply(mid, e) == CleanedState(limit)
  {
    var mid := TakenAt(OfferedState(limit));
    NothingExpires(mid.offers);
    var none: seq<Row> := [];
    assert mid.withdrawn + (set r | r in none) == {};
    assert CleanStep(mid, FIRST, []) == CleanedState(limit);
  }

  /** Cleaning up a taken order cancels it and never gives the taker's slot back. */
  lemma LateCleanBreaks(limit: nat)
    requires limit >= 1
    ensures
      && Goes(Init(limit), LATE_CLEAN, CleanedState(limit), false) && !AlwaysSafe(Init(limit), LATE_CLEAN)
      && var end := CleanedState(limit);
      && At(end.pending, TAKER) == 1 && end.owedRelease[TAKER] == 0 && !CountedFor(end, TAKER)
  {
    var mid, end := TakenAt(OfferedState(limit)), CleanedState(limit);
    CleanIs(limit);
    GoesNowhere(end);
    StepGoes(mid, Clean(FIRST, []), end, [], end, true);
    ToTaken(limit, [Clean(FIRST, [])] + [], end, false);
    UnsafeRun(limit, LATE_CLEAN, end);
    NothingTakenNorOpen(end, TakenRow(Cancelled), OfferTaken);
  }

  // ---- two sweeps over the same order -----------------------------------------------------------------

  const BAD := OrderId(2)
  const BAD_JOB := Job(false, 360, [])
  const BAD_HAND := Handling(0, BAD)
  const HAND2 := Handling(1, FIRST)
  const BAD_HAND2 := Handling(1, BAD)

  /** Two orders are pending; the handlings under way are given. */
  function Two(limit: nat, sweep: map<Handling, Phase>): State {
    Init(limit).(
      orders := map[FIRST := OrderRow(CODE_JOB, Pending, None, None), BAD := OrderRow(BAD_JOB, Pending, None, None)],
      sweep := sweep)
  }

  /** What is left when the second sweep has read: the first order is in two hands. */
  function Doubled(limit: nat): State {
    Two(limit, READY_AGAIN)
  }

  function CreateTwo(rest: seq<Event>): seq<Event> {
    [Create(FIRST, CODE_JOB)] + ([Create(BAD, BAD_JOB)] + ([ListDue(0, {FIRST, BAD})] + rest))
  }

  /** The phases of one sweep's handlings all move to `phase`. */
  function Moved(sweep: map<Handling, Phase>, s: nat, phase: Phase): map<Handling, Phase> {
    map h | h in sweep :: if h.sweep == s then phase else sweep[h]
  }

  /** With nothing offered yet, a sweep expires nothing and reads that nobody was asked. */
  lemma EmptySweepExpire(limit: nat, s: nat, sweep: map<Handling, Phase>)
    requires forall h :: h in sweep && h.sweep == s ==> sweep[h].Listed?
    ensures Enabled(Two(limit, sweep), SweepExpire(s, []))
    ensures Apply(Two(limit, sweep), SweepExpire(s, [])) == Two(limit, Moved(sweep, s, Swept))
  {
    var st := Two(limit, sweep);
    NothingExpires(st.offers);
    assert SweepExpireStep(st, s, []).sweep == Moved(sweep, s, Swept);
  }

  lemma EmptyRead(limit: nat, s: nat, sweep: map<Handling, Phase>)
    requires forall h :: h in sweep && h.sweep == s ==> sweep[h].Swept?
    ensures Enabled(Two(limit, sweep), ReadOffered(s))
    ensures Apply(Two(limit, sweep), ReadOffered(s)) == Two(limit, Moved(sweep, s, Ready({})))
  {
    var st := Two(limit, sweep);
    forall h | h in st.sweep ensures SeenUsers(st.offers, h.order) == {} {
    }
    assert ReadStep(st, s).sweep == Moved(sweep, s, Ready({}));
  }

  /** A listed sweep expires and reads. */
  lemma SweptAndRead(limit: nat, s: nat, sweep: map<Handling, Phase>, rest: seq<Event>, end: State, raceFree: bool)
    requires forall h :: h in sweep && h.sweep == s ==> sweep[h].Listed?
    requires Goes(Two(limit, Moved(sweep, s, Ready({}))), rest, end, raceFree)
    ensures Goes(Two(limit, sweep), [SweepExpire(s, [])] + ([ReadOffered(s)] + rest), end, raceFree)
  {
    var swept := Moved(sweep, s, Swept);
    assert Moved(swept, s, Ready({})) == Moved(sweep, s, Ready({}));
    EmptyRead(limit, s, swept);
    StepGoes(Two(limit, swept), ReadOffered(s), Two(limit, Moved(sweep, s, Ready({}))), rest, end, raceFree);
    EmptySweepExpire(limit, s, sweep);
    StepGoes(Two(limit, sweep), SweepExpire(s, []), Two(limit, swept), [ReadOffered(s)] + rest, end, raceFree);
  }

  lemma TwoListed(limit: nat, s: nat, sweep: map<Handling, Phase>, sweep': map<Handling, Phase>)
    requires forall h :: h in sweep ==> h.sweep != s
    requires sweep' == sweep + map[Handling(s, FIRST) := Listed, Handling(s, BAD) := Listed]
    ensures Enabled(Two(limit, sweep), ListDue(s, {FIRST, BAD}))
    ensures Apply(Two(limit, sweep), ListDue(s, {FIRST, BAD})) == Two(limit, sweep')
  {
    var due := {FIRST, BAD};
    var listed := map o | o in due :: Handling(s, o) := Listed;
    assert listed == map[Handling(s, FIRST) := Listed, Handling(s, BAD) := Listed];
    assert ListStep(Two(limit, sweep), s, due).sweep == sweep';
  }

  const LISTED_TWO: map<Handling, Phase> := map[HAND := Listed, BAD_HAND := Listed]
  const READY_TWO: map<Handling, Phase> := map[HAND := Ready({}), BAD_HAND := Ready({})]
  const READY_ONE: map<Handling, Phase> := map[HAND := Ready({})]
  const LISTED_AGAIN: map<Handling, Phase> := map[HAND := Ready({}), HAND2 := Listed, BAD_HAND2 := Listed]
  const READY_AGAIN: map<Handling, Phase> := map[HAND := Ready({}), HAND2 := Ready({}), BAD_HAND2 := Ready({})]

  lemma CreatedTwo(limit: nat)
    ensures
      var one := Init(limit).(orders := map[FIRST := OrderRow(CODE_JOB, Pending, None, None)]);
      && Apply(Init(limit), Create(FIRST, CODE_JOB)) == one
      && Enabled(one, Create(BAD, BAD_JOB)) && Apply(one, Create(BAD, BAD_JOB)) == Two(limit, map[])
  {
    var one := Init(limit).(orders := map[FIRST := OrderRow(CODE_JOB, Pending, None, None)]);
    assert one.orders[BAD := OrderRow(BAD_JOB, Pending, None, None)] == Two(limit, map[]).orders;
  }

  lemma TwoCreated(limit: nat, rest: seq<Event>, end: State, raceFree: bool)
    requires Goes(Two(limit, LISTED_TWO), rest, end, raceFree)
    ensures Goes(Init(limit), CreateTwo(rest), end, raceFree)
  {
    var one := Init(limit).(orders := map[FIRST := OrderRow(CODE_JOB, Pending, None, None)]);
    var later := [ListDue(0, {FIRST, BAD})] + rest;
    TwoListed(limit, 0, map[], LISTED_TWO);
    StepGoes(Two(limit, map[]), ListDue(0, {FIRST, BAD}), Two(limit, LISTED_TWO), rest, end, raceFree);
    CreatedTwo(limit);
    StepGoes(one, Create(BAD, BAD_JOB), Two(limit, map[]), later, end, raceFree);
    StepGoes(Init(limit), Create(FIRST, CODE_JOB), one, [Create(BAD, BAD_JOB)] + later, end, raceFree);
  }

  function SweepTwo(rest: seq<Event>): seq<Event> {
    [SweepExpire(0, [])] + ([ReadOffered(0)] + ([GiveUp(BAD_HAND)] + rest))
  }

  lemma BadGivesUp(limit: nat, rest: seq<Event>, end: State, raceFree: bool)
    requires Goes(Two(limit, READY_ONE), rest, end, raceFree)
    ensures Goes(Two(limit, READY_TWO), [GiveUp(BAD_HAND)] + rest, end, raceFree)
  {
    assert READY_TWO - {BAD_HAND} == READY_ONE;
    StepGoes(Two(limit, READY_TWO), GiveUp(BAD_HAND), Two(limit, READY_ONE), rest, end, raceFree);
  }

  /** The first sweep reads; selecting for the undividable order raises, and its other handling goes on. */
  lemma TwoSwept(limit: nat, rest: seq<Event>, end: State, raceFree: bool)
    requires Goes(Two(limit, READY_ONE), rest, end, raceFree)
    ensures Goes(Two(limit, LISTED_TWO), SweepTwo(rest), end, raceFree)
  {
    BadGivesUp(limit, rest, end, raceFree);
    assert Moved(LISTED_TWO, 0, Ready({})) == READY_TWO;
    SweptAndRead(limit, 0, LISTED_TWO, [GiveUp(BAD_HAND)] + rest, end, raceFree);
  }

  function SweepAgain(rest: seq<Event>): seq<Event> {
    [ListDue(1, {FIRST, BAD})] + ([SweepExpire(1, [])] + ([ReadOffered(1)] + rest))
  }

  /** The second sweep lists both orders again. */
  lemma TwoSweptAgain(limit: nat, rest: seq<Event>, end: State, raceFree: bool)
    requires Goes(Doubled(limit), rest, end, raceFree)
    ensures Goes(Two(limit, READY_ONE), SweepAgain(rest), end, raceFree)
  {
    var later := [SweepExpire(1, [])] + ([ReadOffered(1)] + rest);
    assert Moved(LISTED_AGAIN, 1, Ready({})) == READY_AGAIN;
    SweptAndRead(limit, 1, LISTED_AGAIN, rest, end, raceFree);
    TwoListed(limit, 1, READY_ONE, LISTED_AGAIN);
    StepGoes(Two(limit, READY_ONE), ListDue(1, {FIRST, BAD}), Two(limit, LISTED_AGAIN), later, end, raceFree);
  }

  /** Both handlings have recorded their offer, to the same user or to another. */
  function OverlapState(limit: nat, second: UserId): State {
    Doubled(limit).(
      pending := if second == TAKER then map[TAKER := 2] else map[TAKER := 1, second := 1],
      offers := map[(FIRST, TAKER) := Offered, (FIRST, second) := Offered],
      sweep := map[HAND := Recorded(TAKER), HAND2 := Recorded(second), BAD_HAND2 := Ready({})])
  }

  function FirstRecorded(limit: nat): State {
    Doubled(limit).(
      pending := map[TAKER := 1], offers := map[(FIRST, TAKER) := Offered],
      sweep := map[HAND := Recorded(TAKER), HAND2 := Ready({}), BAD_HAND2 := Ready({})])
  }

  lemma SecondRecords(limit: nat, second: UserId)
    requires limit >= 2
    ensures
      var run := [TryReserve(HAND2, second)] + ([RecordOffer(HAND2)] + []);
      Goes(FirstRecorded(limit), run, OverlapState(limit, second), false)
  {
    var before, end := FirstRecorded(limit), OverlapState(limit, second);
    var held := before.(
      pending := end.pending,
      sweep := map[HAND := Recorded(TAKER), HAND2 := Reserved({}, second), BAD_HAND2 := Ready({})]);
    GoesNowhere(end);
    assert (FIRST, TAKER) in held.offers && IsOffered(held.offers, (FIRST, TAKER));
    assert RecordStep(held, HAND2).offers == end.offers && RecordStep(held, HAND2).sweep == end.sweep;
    StepGoes(held, RecordOffer(HAND2), end, [], end, true);
    assert ReserveStep(before, HAND2, second).pending == held.pending;
    assert ReserveStep(before, HAND2, second).sweep == held.sweep;
    StepGoes(before, TryReserve(HAND2, second), held, [RecordOffer(HAND2)] + [], end, false);
  }

  lemma FirstRecords(limit: nat, rest: seq<Event>, end: State, raceFree: bool)
    requires limit >= 1 && Goes(FirstRecorded(limit), rest, end, raceFree)
    ensures Goes(Doubled(limit), Offering1(rest), end, raceFree)
  {
    var held := Doubled(limit).(
      pending := map[TAKER := 1],
      sweep := map[HAND := Reserved({}, TAKER), HAND2 := Ready({}), BAD_HAND2 := Ready({})]);
    assert RecordStep(held, HAND).sweep == FirstRecorded(limit).sweep;
    assert RecordStep(held, HAND) == FirstRecorded(limit);
    StepGoes(held, RecordOffer(HAND), FirstRecorded(limit), rest, end, raceFree);
    assert ReserveStep(Doubled(limit), HAND, TAKER).sweep == held.sweep;
    assert ReserveStep(Doubled(limit), HAND, TAKER) == held;
    StepGoes(Doubled(limit), TryReserve(HAND, TAKER), held, [RecordOffer(HAND)] + rest, end, raceFree);
  }

  function OverlapRun(second: UserId): seq<Event> {
    CreateTwo(SweepTwo(SweepAgain(Offering1([TryReserve(HAND2, second)] + ([RecordOffer(HAND2)] + [])))))
  }

  /**
   * Two sweeps, no take and no clean-up: the selection for an undividable order ends the first sweep while
   * its other handling goes on, and the second sweep lists that order again. Offered to one user twice,
   * the user's counter ends one too high; offered to two users, the order has two open offers.
   */
  lemma OverlapBreaks(limit: nat, second: UserId)
    requires limit >= 2
    ensures Goes(Init(limit), OverlapRun(second), OverlapState(limit, second), false)
    ensures !AlwaysSafe(Init(limit), OverlapRun(second))
    ensures
      var end := OverlapState(limit, second);
      if second == TAKER then At(end.pending, TAKER) == 2 && !CountedFor(end, TAKER)
      else IsOffered(end.offers, (FIRST, TAKER)) && IsOffered(end.offers, (FIRST, second))
  {
    var end, tail := OverlapState(limit, second), [TryReserve(HAND2, second)] + ([RecordOffer(HAND2)] + []);
    SecondRecords(limit, second);
    FirstRecords(limit, tail, end, false);
    TwoSweptAgain(limit, Offering1(tail), end, false);
    TwoSwept(limit, SweepAgain(Offering1(tail)), end, false);
    TwoCreated(limit, SweepTwo(SweepAgain(Offering1(tail))), end, false);
    UnsafeRun(limit, OverlapRun(second), end);
    if second == TAKER {
      OverlapMiscounts(limit);
    }
  }

  lemma OverlapMiscounts(limit: nat)
    ensures !CountedFor(OverlapState(limit, TAKER), TAKER)
  {
    var end := OverlapState(limit, TAKER);
    assert RowsOf(end.offers, TAKER, Offered) == {(FIRST, TAKER)};
    assert OrdersOf(end.orders, TAKER, OrderStatus.Taken) == {} && HeldFor(end.sweep, TAKER) == {};
  }

  /** Why the first sweep ends early: selecting for the order of 360 units raises. */
  lemma BadOrderRaises()
    ensures Packages.Decompose(BAD_JOB.amount) == None
  {
    Packages.GreedyIsIncomplete();
  }
}
