/**
 * OrderTimeoutService: a taken order is reminded twice and then timed out by a chain of scheduler jobs.
 * Time is an integer clock; every method is one step, so other steps may fall between any two.
 */
module Timeouts {
  import opened Records

  const TTL_BUFFER := 300

  datatype Stage = Notify1 | Notify2 | Expiry

  datatype TimerJob = TimerJob(stage: Stage, user: UserId, due: int)

  /** A job taken off the scheduler whose coroutine has not ended; `checked` once it saw the order in work. */
  datatype Callback = Callback(stage: Stage, user: UserId, checked: bool)

  datatype Message = Message(chat: int, id: int, text: string)

  /** The hash of stored messages; a hash only pings wrote has neither taken message nor TTL. */
  datatype Stored = Stored(taken: Option<Message>, pings: set<nat>, expiresAt: Option<int>)

  /** History: when remember_taken ran, and what it stored. */
  datatype Remembered = Remembered(at: int, message: Message)

  /** History: who a timer was started for and when, and the lateness summed up when it last scheduled. */
  datatype Timer = Timer(user: UserId, start: int, late: nat)

  function Next(stage: Stage): Stage {
    if stage.Notify1? then Notify2 else Expiry
  }

  predicate Alive(stored: Stored, now: int) {
    stored.expiresAt.None? || now < stored.expiresAt.value
  }

  class OrderTimeouts {
    const delay1: nat
    const delay2: nat
    const delay3: nat
    var now: int
    var taken: map<OrderId, UserId>           // orders whose row says taken, with taken_by
    var jobs: map<OrderId, TimerJob>          // the scheduler holds one job per order id
    var callbacks: map<OrderId, Callback>
    var messages: map<OrderId, Stored>
    ghost var timers: map<OrderId, Timer>
    ghost var remembered: map<OrderId, Remembered>
    ghost var popped: set<OrderId>   // records taken out and not stored again since
    ghost var timedOutAt: map<OrderId, int>

    constructor (delay1: nat, delay2: nat, delay3: nat)
      ensures Valid() && timers == map[] && taken == map[]
      ensures this.delay1 == delay1 && this.delay2 == delay2 && this.delay3 == delay3
    {
      this.delay1, this.delay2, this.delay3 := delay1, delay2, delay3;
      now, taken, jobs, callbacks, messages := 0, map[], map[], map[], map[];
      timers, remembered, popped, timedOutAt := map[], map[], {}, map[];
    }

    /** From the start of a timer to the end of a stage's delay. */
    function Offset(stage: Stage): nat {
      match stage
      case Notify1 => delay1
      case Notify2 => delay1 + delay2
      case Expiry => delay1 + delay2 + delay3
    }

    /** The delay a stage's job is scheduled with. */
    function Delay(stage: Stage): nat {
      match stage
      case Notify1 => delay1
      case Notify2 => delay2
      case Expiry => delay3
    }

    function Ttl(): nat { delay1 + delay2 + delay3 + TTL_BUFFER }

    ghost predicate InWork(order: OrderId, user: UserId)
      reads `taken
    {
      order in taken && taken[order] == user
    }

    /** A started order in work has exactly one job pending or one callback running, due when it should be. */
    ghost predicate Chained()
      reads this
    {
      forall o :: o in timers && o in taken && taken[o] == timers[o].user ==>
        && (o in jobs <==> o !in callbacks)
        && (o in jobs ==>
              && jobs[o].user == timers[o].user
              && jobs[o].due == timers[o].start + Offset(jobs[o].stage) + timers[o].late)
        && (o in callbacks ==>
              && callbacks[o].user == timers[o].user
              && now >= timers[o].start + Offset(callbacks[o].stage) + timers[o].late)
    }

    /** The message was stored, was not popped since, and its TTL still runs. */
    ghost predicate Lives(order: OrderId)
      reads this
    {
      order in remembered && order !in popped && now < remembered[order].at + Ttl()
    }

    /** A message that lives is stored with its TTL; any other hash has neither message nor TTL. */
    ghost predicate Preserved()
      reads this
    {
      forall o ::
        if Lives(o) then
          && o in messages && messages[o].taken == Some(remembered[o].message)
          && messages[o].expiresAt == Some(remembered[o].at + Ttl())
        else
          o in messages ==> messages[o].taken.None? && messages[o].expiresAt.None?
    }

    ghost predicate Valid()
      reads this
    {
      && Chained() && Preserved()
      && (forall o :: o in jobs ==> o in timers && o !in callbacks)
      && (forall o :: o in callbacks ==> o in timers)
      && (forall o :: o in messages ==> o in timers)
      && (forall o :: o in remembered ==> o in timers)
      && (forall o :: o in timedOutAt ==> o in timers && timedOutAt[o] >= timers[o].start + Offset(Expiry))
    }

    /** Time passes; Redis drops exactly the keys whose TTL has run out. */
    method Tick(seconds: nat)
      requires Valid()
      modifies `now, `messages
      ensures Valid() && now == old(now) + seconds
      ensures forall o :: o in messages <==>
        o in old(messages) && (old(messages)[o].expiresAt == None || now < old(messages)[o].expiresAt.value)
      ensures forall o :: o in messages ==> messages[o] == old(messages)[o]
    {
      now := now + seconds;
      messages := map o | o in messages && Alive(messages[o], now) :: messages[o];
    }

    /** The lifecycle commits a take. */
    method Take(order: OrderId, user: UserId)
      requires Valid() && order !in taken && order !in timers
      modifies `taken
      ensures Valid() && taken == old(taken)[order := user]
    {
      taken := taken[order := user];
    }

    /** The lifecycle commits a completion or a cancellation. */
    method Resolve(order: OrderId)
      requires Valid()
      modifies `taken
      ensures Valid() && taken == old(taken) - {order}
    {
      taken := taken - {order};
    }

    /** `_schedule`: add the job under the order's id, replacing what is there. */
    method Schedule(order: OrderId, user: UserId, stage: Stage, delay: nat)
      modifies `jobs
      ensures jobs == old(jobs)[order := TimerJob(stage, user, now + delay)]
    {
      jobs := jobs[order := TimerJob(stage, user, now + delay)];
    }

    /** First half of `start`; the handler calls it once, after a successful take. */
    method Start(order: OrderId, user: UserId)
      requires Valid() && order !in timers
      modifies `jobs, `timers
      ensures Valid() && timers == old(timers)[order := Timer(user, now, 0)]
      ensures jobs == old(jobs)[order := TimerJob(Notify1, user, now + delay1)]
    {
      Schedule(order, user, Notify1, delay1);
      timers := timers[order := Timer(user, now, 0)];
    }

    /** The pings stored for an order. */
    function PingsOf(order: OrderId): set<nat>
      reads `messages
    {
      if order in messages then messages[order].pings else {}
    }

    /** Second half of `start`: `remember_taken`. */
    method RememberTaken(order: OrderId, message: Message)
      requires Valid() && order in timers && order !in remembered
      modifies `messages, `remembered, `popped
      ensures Valid() && remembered == old(remembered)[order := Remembered(now, message)]
      ensures popped == old(popped) - {order} && Lives(order)
      ensures
        var pings := if order in old(messages) then old(messages)[order].pings else {};
        messages ==
          old(messages)[order := Stored(Some(message), pings, Some(now + delay1 + delay2 + delay3 + 300))]
    {
      messages := messages[order := Stored(Some(message), PingsOf(order), Some(now + Ttl()))];
      remembered, popped := remembered[order := Remembered(now, message)], popped - {order};
    }

    /** The scheduler takes a due job and starts its coroutine. */
    method Fire(order: OrderId)
      requires Valid() && order in jobs && jobs[order].due <= now
      modifies `jobs, `callbacks
      ensures Valid() && order !in jobs
      ensures callbacks == old(callbacks)[order := Callback(old(jobs)[order].stage, old(jobs)[order].user, false)]
    {
      callbacks := callbacks[order := Callback(jobs[order].stage, jobs[order].user, false)];
      jobs := jobs - {order};
    }

    /** `_in_work`, the first thing each callback does; it ends there when the order was resolved. */
    method CheckInWork(order: OrderId)
      requires Valid() && order in callbacks && !callbacks[order].checked
      modifies `callbacks
      ensures Valid()
      ensures
        var callback := old(callbacks)[order];
        callbacks ==
          if InWork(order, callback.user) then old(callbacks)[order := callback.(checked := true)]
          else old(callbacks) - {order}
    {
      var user := callbacks[order].user;
      if order in taken && taken[order] == user {
        callbacks := callbacks[order := callbacks[order].(checked := true)];
      } else {
        callbacks := callbacks - {order};
      }
    }

    /**
     * `add_ping`: HSET, which creates a missing key without a TTL. In work or not, that happens exactly when
     * the order's message was never stored, has outlived its TTL or was popped.
     */
    method AddPing(order: OrderId, ping: nat)
      requires Valid() && order in timers
      modifies `messages
      ensures Valid() && order in messages
      ensures messages ==
        old(messages)[order :=
          if order in old(messages) then old(messages)[order].(pings := old(messages)[order].pings + {ping})
          else Stored(None, {ping}, None)]
      ensures messages[order].expiresAt.None? <==>
        order !in remembered || order in popped
        || now >= remembered[order].at + delay1 + delay2 + delay3 + 300
    {
      if order in messages {
        messages := messages[order := messages[order].(pings := messages[order].pings + {ping})];
      } else {
        messages := messages[order := Stored(None, {ping}, None)];
      }
    }

    /** The end of a notification callback: the next job of the chain, counted from now. */
    method ScheduleNext(order: OrderId)
      requires Valid() && order in callbacks && callbacks[order].checked && !callbacks[order].stage.Expiry?
      modifies `jobs, `callbacks, `timers
      ensures Valid() && callbacks == old(callbacks) - {order}
      ensures
        var callback := old(callbacks)[order];
        && jobs == old(jobs)[order :=
             if callback.stage == Notify1 then TimerJob(Notify2, callback.user, now + delay2)
             else TimerJob(Expiry, callback.user, now + delay3)]
        && var timer := old(timers)[order];
           timers ==
             if InWork(order, timer.user)
             then old(timers)[order := timer.(late := now - (timer.start + Offset(callback.stage)))]
             else old(timers)
    {
      var callback := callbacks[order];
      Schedule(order, callback.user, Next(callback.stage), Delay(Next(callback.stage)));
      callbacks := callbacks - {order};
      if InWork(order, timers[order].user) {
        timers := timers[order := timers[order].(late := now - (timers[order].start + Offset(callback.stage)))];
      }
    }

    /** `pop`. */
    method Pop(order: OrderId) returns (record: Option<Stored>)
      modifies `messages, `popped
      ensures messages == old(messages) - {order} && popped == old(popped) + {order}
      ensures record ==
        if order in old(messages) && old(messages)[order].taken.Some? then Some(old(messages)[order]) else None
    {
      record := if order in messages && messages[order].taken.Some? then Some(messages[order]) else None;
      messages, popped := messages - {order}, popped + {order};
    }

    /** Its stored message can still be found. */
    predicate Remembers(order: OrderId)
      reads `messages
    {
      order in messages && messages[order].taken.Some?
    }

    /**
     * `expire_taken` from the expiry callback, which acts only on an order still in work: never earlier
     * than the three delays after the start, and with the stored message still there exactly while the
     * jobs were together less than the buffer late.
     */
    method ExpireTaken(order: OrderId) returns (timedOut: bool)
      requires Valid() && order in callbacks && callbacks[order].checked && callbacks[order].stage.Expiry?
      modifies `taken, `timedOutAt
      ensures Valid() && timedOut == InWorkBefore(old(taken), order, callbacks[order].user)
      ensures taken == if timedOut then old(taken) - {order} else old(taken)
      ensures timedOut && old(taken)[order] == timers[order].user ==>
        order in timedOutAt && timedOutAt[order] == now && now >= timers[order].start + delay1 + delay2 + delay3
      ensures timedOut && old(taken)[order] == timers[order].user && order in remembered ==>
        var late := now - (timers[order].start + delay1 + delay2 + delay3);
        && (Remembers(order) <==>
              order !in popped && late < 300 + (remembered[order].at - timers[order].start))
        && (Remembers(order) ==> messages[order].taken == Some(remembered[order].message))
    {
      assert InWork(order, timers[order].user) ==> now >= timers[order].start + Offset(Expiry);
      timedOut := order in taken && taken[order] == callbacks[order].user;
      if timedOut {
        if taken[order] == timers[order].user {
          timedOutAt := timedOutAt[order := now];
        }
        taken := taken - {order};
      }
    }

    /**
     * `_render_timed_out`, the end of the expiry callback, which does not ask whether the order was timed out:
     * it is rendered so exactly when its message still lives.
     */
    method RenderTimedOut(order: OrderId) returns (rendered: Option<Stored>)
      requires Valid() && order in callbacks && !InWork(order, timers[order].user)
      modifies `callbacks, `messages, `popped
      ensures Valid() && callbacks == old(callbacks) - {order} && messages == old(messages) - {order}
      ensures popped == old(popped) + {order}
      ensures rendered.Some? <==>
        order in remembered && order !in old(popped) && now < remembered[order].at + delay1 + delay2 + delay3 + 300
      ensures rendered.Some? ==>
        rendered.value == old(messages)[order] && rendered.value.taken == Some(remembered[order].message)
    {
      rendered := Pop(order);
      callbacks := callbacks - {order};
    }

    /** `clear`; the handlers call it after the order was completed or cancelled. */
    method Clear(order: OrderId) returns (record: Option<Stored>)
      requires Valid() && order !in taken
      modifies `jobs, `messages, `popped
      ensures Valid() && jobs == old(jobs) - {order} && messages == old(messages) - {order}
      ensures popped == old(popped) + {order}
      ensures record == if old(Remembers(order)) then Some(old(messages)[order]) else None
    {
      jobs := jobs - {order};
      record := Pop(order);
    }

    /** An undisturbed order's job is fired on time, and its callback finds the order in work. */
    method RunDue(order: OrderId)
      requires Valid() && order in timers && InWork(order, timers[order].user)
      requires order in jobs && now <= jobs[order].due
      modifies this
      ensures Valid() && timers == old(timers) && taken == old(taken) && now == old(jobs)[order].due
      ensures remembered == old(remembered) && popped == old(popped)
      ensures order in callbacks && callbacks[order] == Callback(old(jobs)[order].stage, timers[order].user, true)
      ensures now == timers[order].start + Offset(callbacks[order].stage) + timers[order].late
    {
      Tick(jobs[order].due - now);
      Fire(order);
      CheckInWork(order);
    }

    /** One stage of it, the callback instantaneous. */
    method RunStage(order: OrderId)
      requires Valid() && order in timers && InWork(order, timers[order].user)
      requires order in jobs && now <= jobs[order].due && !jobs[order].stage.Expiry?
      modifies this
      ensures Valid() && order in timers && timers[order] == old(timers)[order] && taken == old(taken)
      ensures remembered == old(remembered) && popped == old(popped)
      ensures order in jobs && now <= jobs[order].due
      ensures jobs[order].stage == Next(old(jobs)[order].stage)
    {
      RunDue(order);
      ScheduleNext(order);
    }

    method RunExpiry(order: OrderId)
      requires Valid() && order in timers && InWork(order, timers[order].user)
      requires order in jobs && now <= jobs[order].due && jobs[order].stage.Expiry?
      modifies this
      ensures Valid() && order !in taken && order in timedOutAt && timedOutAt[order] == old(jobs)[order].due
    {
      RunDue(order);
      var timedOut := ExpireTaken(order);
      var rendered := RenderTimedOut(order);
    }

    /**
     * An order left alone, with every job fired on time and every callback instantaneous, is timed out
     * exactly when the delays have passed, later only by the lateness it already had.
     */
    method RunUndisturbed(order: OrderId)
      requires Valid() && order in timers && InWork(order, timers[order].user)
      requires order in jobs && now <= jobs[order].due
      modifies this
      ensures Valid() && order !in taken && order in timedOutAt
      ensures timedOutAt[order] == old(timers)[order].start + delay1 + delay2 + delay3 + old(timers)[order].late
    {
      while !jobs[order].stage.Expiry?
        invariant Valid() && order in timers && timers[order] == old(timers)[order] && taken == old(taken)
        invariant order in jobs && now <= jobs[order].due
        decreases if jobs[order].stage.Notify1? then 2 else if jobs[order].stage.Notify2? then 1 else 0
      {
        RunStage(order);
      }
      RunExpiry(order);
    }
  }

  // ---- runs that leave something behind ------------------------------------------------------

  /** An order is taken, its timer started and its message stored, all at once. */
  method Begin(timeouts: OrderTimeouts, order: OrderId, user: UserId, message: Message)
    requires timeouts.Valid() && order !in timeouts.taken && order !in timeouts.timers
    modifies timeouts
    ensures timeouts.Valid() && timeouts.now == old(timeouts.now) && timeouts.InWork(order, user)
    ensures order in timeouts.timers && timeouts.timers[order] == Timer(user, timeouts.now, 0)
    ensures order in timeouts.jobs && timeouts.jobs[order] == TimerJob(Notify1, user, timeouts.now + timeouts.delay1)
    ensures timeouts.Lives(order) && timeouts.remembered[order] == Remembered(timeouts.now, message)
  {
    timeouts.Take(order, user);
    timeouts.Start(order, user);
    timeouts.RememberTaken(order, message);
  }

  /**
   * The first job of an order fires when its stored message is gone: the ping it sends stays, without
   * message and without TTL.
   */
  method LatePing(timeouts: OrderTimeouts, order: OrderId, user: UserId, message: Message, ping: nat)
    requires timeouts.Valid() && order !in timeouts.taken && order !in timeouts.timers
    modifies timeouts
    ensures timeouts.Valid() && timeouts.InWork(order, user)
    ensures order in timeouts.messages && timeouts.messages[order] == Stored(None, {ping}, None)
  {
    Begin(timeouts, order, user, message);
    FireAfterTtl(timeouts, order, user);
    timeouts.AddPing(order, ping);
  }

  method FireAfterTtl(timeouts: OrderTimeouts, order: OrderId, user: UserId)
    requires timeouts.Valid() && timeouts.InWork(order, user) && order in timeouts.timers
    requires timeouts.timers[order].user == user && timeouts.Lives(order)
    requires timeouts.remembered[order].at == timeouts.now
    requires order in timeouts.jobs && timeouts.jobs[order] == TimerJob(Notify1, user, timeouts.now + timeouts.delay1)
    modifies timeouts
    ensures timeouts.Valid() && timeouts.InWork(order, user) && order in timeouts.timers
    ensures order !in timeouts.messages && order in timeouts.callbacks && timeouts.callbacks[order].checked
  {
    timeouts.Tick(timeouts.Ttl());
    timeouts.Fire(order);
    timeouts.CheckInWork(order);
  }

  /** The order of a running callback is completed and cleared, and then the callback stores its ping. */
  method ClearThenPing(timeouts: OrderTimeouts, order: OrderId, ping: nat)
    requires timeouts.Valid() && order in timeouts.timers
    modifies timeouts
    ensures timeouts.Valid() && order !in timeouts.taken && timeouts.now == old(timeouts.now)
    ensures order in timeouts.messages && timeouts.messages[order] == Stored(None, {ping}, None)
    ensures timeouts.remembered == old(timeouts.remembered)
  {
    timeouts.Resolve(order);
    var record := timeouts.Clear(order);
    timeouts.AddPing(order, ping);
  }

  /**
   * The first job finds its order in work; then the order is completed and cleared before the reminder is
   * stored: the ping stays without message and TTL, long before the TTL of the message would have run out.
   */
  method PingAfterClear(timeouts: OrderTimeouts, order: OrderId, user: UserId, message: Message, ping: nat)
    requires timeouts.Valid() && order !in timeouts.taken && order !in timeouts.timers
    modifies timeouts
    ensures timeouts.Valid() && order !in timeouts.taken
    ensures order in timeouts.messages && timeouts.messages[order] == Stored(None, {ping}, None)
    ensures order in timeouts.remembered && timeouts.now < timeouts.remembered[order].at + timeouts.Ttl()
  {
    Begin(timeouts, order, user, message);
    timeouts.RunDue(order);
    ClearThenPing(timeouts, order, ping);
  }

  /** A new order after its two reminders, each on time. */
  method Reminded(timeouts: OrderTimeouts, order: OrderId, user: UserId, message: Message)
    requires timeouts.Valid() && order !in timeouts.taken && order !in timeouts.timers
    modifies timeouts
    ensures timeouts.Valid() && timeouts.InWork(order, user) && order in timeouts.timers
    ensures order in timeouts.jobs && timeouts.now <= timeouts.jobs[order].due && timeouts.jobs[order].stage.Expiry?
    ensures timeouts.timers[order] == Timer(user, old(timeouts.now), 0) && order !in timeouts.popped
    ensures order in timeouts.remembered && timeouts.remembered[order] == Remembered(old(timeouts.now), message)
  {
    Begin(timeouts, order, user, message);
    timeouts.RunStage(order);
    timeouts.RunStage(order);
  }

  /** And its expiry callback has found it in work. */
  method CheckedLast(timeouts: OrderTimeouts, order: OrderId, user: UserId, message: Message)
    requires timeouts.Valid() && order !in timeouts.taken && order !in timeouts.timers
    modifies timeouts
    ensures timeouts.Valid() && timeouts.InWork(order, user) && order in timeouts.timers
    ensures timeouts.timers[order].user == user && timeouts.Lives(order)
    ensures timeouts.remembered[order].message == message
    ensures order in timeouts.callbacks && timeouts.callbacks[order] == Callback(Expiry, user, true)
  {
    Reminded(timeouts, order, user, message);
    timeouts.RunDue(order);
  }

  /**
   * The expiry callback finds the order in work; then the order is completed, and before the handler clears
   * it the callback, whose time-out no longer applies, renders it as timed out.
   */
  method TimedOutThoughCompleted(timeouts: OrderTimeouts, order: OrderId, user: UserId, message: Message)
    returns (timedOut: bool, rendered: Option<Stored>)
    requires timeouts.Valid() && order !in timeouts.taken && order !in timeouts.timers
    modifies timeouts
    ensures timeouts.Valid() && !timedOut && rendered.Some? && rendered.value.taken == Some(message)
  {
    CheckedLast(timeouts, order, user, message);
    timeouts.Resolve(order);
    timedOut := timeouts.ExpireTaken(order);
    assert timeouts.Lives(order);
    rendered := timeouts.RenderTimedOut(order);
  }

  predicate InWorkBefore(taken: map<OrderId, UserId>, order: OrderId, user: UserId) {
    order in taken && taken[order] == user
  }
}
