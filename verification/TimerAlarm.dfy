/** When the timerfd is armed and for when, and when timers run: what the operations of the timer queue do
    to its alarm and to expirations, event by event and over runs. */
module TimerAlarms {
  import opened Wrappers
  import opened Timers

  // ---- No lost alarm ----

  /** The timerfd is armed, and early enough for the earliest timer: at its expiration, or, if that
      is past or near, 100 microseconds after it was armed; or (`exact`) at that time and no other. */
  ghost predicate Covered(q: Queue, exact: bool) {
    && q.alarm.Some?
    && q.alarm.value.armedAt <= q.clock
    && q.timers != []
    && var limit := Max(q.timers[0].when, q.alarm.value.armedAt + 100);
       if exact then q.alarm.value.deadline == limit else q.alarm.value.deadline <= limit
  }

  /** Between events (`idle`) every earliest timer is covered. While a batch fires the alarm has been
      consumed, but expirations that are not positive, for which reset does not arm, are. */
  ghost predicate Guarded(q: Queue, idle: bool, exact: bool) {
    && q.clock > 0
    && (q.timers != [] && (idle || q.timers[0].when <= 0) ==> Covered(q, exact))
  }

  predicate NoCancels(ops: seq<Op>) {
    forall op :: op in ops ==> !op.Cancel?
  }

  ghost predicate CancelsNothing(e: Event) {
    match e
    case Act(op) => !op.Cancel?
    case Fire(_, scripts, _) => forall k: nat :: NoCancels(Script(scripts, k))
  }

  lemma AddKeepsGuarded(q: Queue, held: set<Address>, a: Address, idle: bool, exact: bool)
    requires Safe(q, held) && Guarded(q, idle, exact) && a in q.posted
    ensures Guarded(AddTimerInLoop(q, a), idle, exact)
  {
    InsertEffect(q.timers, Entry(q.heap[a].expiration, a));
  }

  lemma CancelKeepsGuarded(q: Queue, held: set<Address>, id: TimerId, idle: bool)
    requires Safe(q, held) && Guarded(q, idle, false)
    ensures Guarded(CancelInLoop(q, id), idle, false)
  {
    if id in q.active {
      EraseEffect(q.timers, Entry(q.heap[id.timer].expiration, id.timer));
      var left := CancelInLoop(q, id).timers;
      if left != [] {
        assert left[0] in left;
        assert q.timers[0].when <= left[0].when;
      }
    }
  }

  lemma {:induction false} DoAllKeepsGuarded(q: Queue, held: set<Address>, ops: seq<Op>, idle: bool, exact: bool)
    requires Safe(q, held) && Guarded(q, idle, exact) && (exact ==> NoCancels(ops))
    ensures Guarded(DoAll(q, ops), idle, exact)
    decreases |ops|
  {
    if ops != [] {
      assert ops[0] in ops && forall op :: op in ops[1..] ==> op in ops;
      DoKeepsSafe(q, held, ops[0]);
      DoKeepsGuarded(q, held, ops[0], idle, exact);
      DoAllKeepsGuarded(Do(q, ops[0]), held, ops[1..], idle, exact);
    }
  }

  lemma DoKeepsGuarded(q: Queue, held: set<Address>, op: Op, idle: bool, exact: bool)
    requires Safe(q, held) && Guarded(q, idle, exact) && (exact ==> !op.Cancel?)
    ensures Guarded(Do(q, op), idle, exact)
  {
    if Possible(q, op) {
      match op
      case Create(a, when, interval) =>
      case Add(a) => AddKeepsGuarded(q, held, a, idle, exact);
      case Cancel(id) => CancelKeepsGuarded(q, held, id, idle);
      case Wait(to) =>
    }
  }

  lemma RunBatchKeepsGuarded(q: Queue, batch: seq<Entry>, scripts: seq<seq<Op>>, now: int, exact: bool)
    requires Safe(q, Addresses(batch)) && Guarded(q, false, exact)
    requires exact ==> forall k: nat :: NoCancels(Script(scripts, k))
    ensures Guarded(RunBatch(q, batch, 0, scripts, now), false, exact)
  {
    var p := (s: Queue, k: nat) => Safe(s, Addresses(batch)) && Guarded(s, false, exact);
    forall s: Queue, k: nat | 0 <= k < |batch| && p(s, k)
      ensures p(Turn(s, batch, k, scripts, now), k + 1)
    {
      TurnKeepsSafe(s, batch, k, scripts, now);
      DoAllKeepsGuarded(Ran(s, batch[k].timer, now), Addresses(batch), Script(scripts, k), false, exact);
    }
    BatchInduction(p, q, batch, 0, scripts, now);
  }

  /** A restarted timer expires after `now`, so its insertion cannot hide an uncovered one. */
  lemma RecycleOneKeepsGuarded(q: Queue, held: set<Address>, a: Address, now: int, exact: bool)
    requires Safe(q, held + {a}) && a !in held && Guarded(q, false, exact) && now > 0
    ensures Guarded(RecycleOne(q, a, now), false, exact)
  {
    assert a in held + {a};
    if q.heap[a].repeat && IdOf(q, a) !in q.canceling {
      InsertEffect(q.timers, Entry(AddTime(now, q.heap[a].interval), a));
    }
  }

  lemma {:induction false} RecycleKeepsGuarded(q: Queue, batch: seq<Entry>, now: int, exact: bool)
    requires Safe(q, Addresses(batch)) && DistinctTimers(batch) && Guarded(q, false, exact) && now > 0
    ensures Guarded(Recycle(q, batch, now), false, exact)
    decreases |batch|
  {
    if batch != [] {
      var rest := batch[1..];
      HeadAndRest(batch);
      RecycleOneKeepsSafe(q, Addresses(rest), batch[0].timer, now);
      RecycleOneKeepsGuarded(q, Addresses(rest), batch[0].timer, now, exact);
      RecycleKeepsGuarded(RecycleOne(q, batch[0].timer, now), rest, now, exact);
    }
  }

  lemma OpenedIsGuarded(q: Queue, now: int, exact: bool)
    requires Safe(q, {}) && q.clock > 0
    ensures Guarded(Opened(q, now), false, exact)
  {
    DueIsExact(q, now);
    var left := Opened(q, now).timers;
    if left != [] {
      assert left[0] in left;
    }
  }

  lemma CalledIsGuarded(q: Queue, now: int, scripts: seq<seq<Op>>, exact: bool)
    requires Safe(q, {}) && q.clock > 0
    requires exact ==> forall k: nat :: NoCancels(Script(scripts, k))
    ensures Guarded(Called(q, now, scripts), false, exact)
  {
    OpenedIsSafe(q, now);
    OpenedIsGuarded(q, now, exact);
    RunBatchKeepsGuarded(Opened(q, now), Due(q, now), scripts, Max(q.clock, now), exact);
  }

  lemma RecycledIsGuarded(q: Queue, now: int, scripts: seq<seq<Op>>, exact: bool)
    requires Safe(q, {}) && q.clock > 0
    requires exact ==> forall k: nat :: NoCancels(Script(scripts, k))
    ensures Guarded(Recycled(q, now, scripts), false, exact)
  {
    DueIsExact(q, now);
    CalledIsSafe(q, now, scripts);
    CalledIsGuarded(q, now, scripts, exact);
    RecycleKeepsGuarded(Called(q, now, scripts), Due(q, now), Max(q.clock, now), exact);
  }

  lemma FireKeepsGuarded(q: Queue, now: int, scripts: seq<seq<Op>>, later: int, exact: bool)
    requires Safe(q, {}) && q.clock > 0
    requires exact ==> forall k: nat :: NoCancels(Script(scripts, k))
    ensures Guarded(HandleRead(q, now, scripts, later), true, exact)
  {
    Stages(q, now, scripts, later);
    RecycledAgrees(q, now, scripts);
    RecycledIsGuarded(q, now, scripts, exact);
    EndGuards(Recycled(q, now, scripts), later, exact);
  }

  lemma EndGuards(q: Queue, later: int, exact: bool)
    requires Agree(q) && Guarded(q, false, exact)
    ensures Guarded(Rearm(Tick(q, later)), true, exact)
  {
    AgreeAtAnyTime(q, Tick(q, later), []);
    RearmGuards(Tick(q, later), exact);
  }

  lemma StepKeepsGuarded(q: Queue, e: Event, exact: bool)
    requires Safe(q, {}) && Guarded(q, true, exact) && (exact ==> CancelsNothing(e))
    ensures Guarded(Step(q, e), true, exact)
  {
    match e
    case Act(op) => DoKeepsGuarded(q, {}, op, true, exact);
    case Fire(now, scripts, later) => FireKeepsGuarded(q, now, scripts, later, exact);
  }

  lemma RearmGuards(q: Queue, exact: bool)
    requires Agree(q) && Guarded(q, false, exact)
    ensures Guarded(Rearm(q), true, exact)
  {
    if q.timers != [] {
      assert q.timers[0] in q.timers;
    }
  }

  lemma {:induction false} RunKeepsGuarded(q: Queue, es: seq<Event>, exact: bool)
    requires Safe(q, {}) && Guarded(q, true, exact)
    requires exact ==> forall e :: e in es ==> CancelsNothing(e)
    ensures Guarded(Run(q, es), true, exact)
    decreases |es|
  {
    if es != [] {
      assert es[0] in es && forall e :: e in es[1..] ==> e in es;
      StepKeepsSafe(q, es[0]);
      StepKeepsGuarded(q, es[0], exact);
      RunKeepsGuarded(Step(q, es[0]), es[1..], exact);
    }
  }

  /** Between any two events, if a timer is waiting then the timerfd will fire for the earliest one:
      insertion arms only when the earliest changes, cancelling never arms, and reset arms only for
      positive expirations, and that is enough for every expiration, positive or not. */
  lemma NoLostAlarm(q: Queue, es: seq<Event>)
    requires Safe(q, {}) && Guarded(q, true, false)
    ensures Guarded(Run(q, es), true, false)
  {
    RunKeepsGuarded(q, es, false);
  }

  /** And while nothing is cancelled it fires for that one exactly: never before its expiration, or before
      100 microseconds after it was armed. */
  lemma AlarmIsExact(clock: int, es: seq<Event>)
    requires clock > 0 && forall e :: e in es ==> CancelsNothing(e)
    ensures var q := Run(Empty(clock), es);
      q.timers != [] ==>
        q.alarm.Some? && q.alarm.value.deadline == Max(q.timers[0].when, q.alarm.value.armedAt + 100)
  {
    EmptyIsSafe(clock);
    RunKeepsGuarded(Empty(clock), es, true);
  }

  // ---- What each event does to the alarm ----

  /** An insertion arms the timerfd exactly when the new timer expires before every other one, and then for
      it, counted from now. */
  lemma AddArmsExactly(q: Queue, held: set<Address>, a: Address)
    requires Safe(q, held) && a in q.posted
    ensures var q' := AddTimerInLoop(q, a);
      && q'.timers != [] && q'.clock == q.clock
      && q'.alarm == if q.timers == [] || q'.timers[0].when < q.timers[0].when
                     then Some(Alarm(Max(q'.timers[0].when, q.clock + 100), q.clock))
                     else q.alarm
  {
    InsertEffect(q.timers, Entry(q.heap[a].expiration, a));
  }

  /** Nothing else outside a firing touches it. */
  lemma OthersNeverArm(q: Queue, op: Op)
    requires !op.Add?
    ensures Do(q, op).alarm == q.alarm
  {}

  /** Armed since `t`, or not expired by then. */
  predicate Pending(alarm: Option<Alarm>, t: int) {
    alarm.Some? ==> alarm.value.armedAt >= t || alarm.value.deadline > t
  }

  /** Armed, from now, for the first timer, if that expires at a positive time; and no expiration before `t`
      is left unread. */
  ghost predicate ArmedFrom(q: Queue, t: int) {
    && (q.timers != [] && q.timers[0].when > 0 ==>
          q.alarm == Some(Alarm(Max(q.timers[0].when, q.clock + 100), q.clock)))
    && Pending(q.alarm, t) && q.clock >= t
  }

  lemma {:induction false} DoAllPending(q: Queue, ops: seq<Op>, t: int)
    requires q.clock >= t && Pending(q.alarm, t)
    ensures DoAll(q, ops).clock >= t && Pending(DoAll(q, ops).alarm, t)
    decreases |ops|
  {
    if ops != [] {
      DoAllPending(Do(q, ops[0]), ops[1..], t);
    }
  }

  lemma RunBatchPending(q: Queue, batch: seq<Entry>, scripts: seq<seq<Op>>, now: int, t: int)
    requires q.clock >= t && Pending(q.alarm, t)
    ensures var q' := RunBatch(q, batch, 0, scripts, now);
      q'.clock >= t && Pending(q'.alarm, t)
  {
    var p := (s: Queue, k: nat) => s.clock >= t && Pending(s.alarm, t);
    forall s: Queue, k: nat | 0 <= k < |batch| && p(s, k)
      ensures p(Turn(s, batch, k, scripts, now), k + 1)
    {
      DoAllPending(Ran(s, batch[k].timer, now), Script(scripts, k), t);
    }
    BatchInduction(p, q, batch, 0, scripts, now);
  }

  lemma {:induction false} RecycleKeepsAlarm(q: Queue, batch: seq<Entry>, now: int)
    ensures Recycle(q, batch, now).alarm == q.alarm && Recycle(q, batch, now).clock == q.clock
    decreases |batch|
  {
    if batch != [] {
      RecycleKeepsAlarm(RecycleOne(q, batch[0].timer, now), batch[1..], now);
    }
  }

  /** A firing at `t` ends with the timerfd armed, from then, for the first timer that is left, if that
      expires at a positive time. Otherwise it never leaves an expiration unread: what is armed was armed by
      a callback, or is still to come. */
  lemma FireArmsExactly(q: Queue, now: int, scripts: seq<seq<Op>>, later: int)
    requires Safe(q, {})
    ensures ArmedFrom(HandleRead(q, now, scripts, later), Max(q.clock, now))
  {
    Stages(q, now, scripts, later);
    RecycledAgrees(q, now, scripts);
    RecycledPending(q, now, scripts);
    EndArmsExactly(Recycled(q, now, scripts), later, Max(q.clock, now));
  }

  lemma EndArmsExactly(q: Queue, later: int, t: int)
    requires Agree(q) && Pending(q.alarm, t) && q.clock >= t
    ensures ArmedFrom(Rearm(Tick(q, later)), t)
  {
    AgreeAtAnyTime(q, Tick(q, later), []);
    RearmExactly(Tick(q, later));
  }

  lemma RecycledAgrees(q: Queue, now: int, scripts: seq<seq<Op>>)
    requires Safe(q, {})
    ensures Agree(Recycled(q, now, scripts))
  {
    RecycledIsSafe(q, now, scripts);
  }

  lemma RecycledPending(q: Queue, now: int, scripts: seq<seq<Op>>)
    requires Safe(q, {})
    ensures var q3 := Recycled(q, now, scripts);
      Pending(q3.alarm, Max(q.clock, now)) && q3.clock >= Max(q.clock, now)
  {
    var t := Max(q.clock, now);
    RunBatchPending(Opened(q, now), Due(q, now), scripts, t, t);
    RecycleKeepsAlarm(Called(q, now, scripts), Due(q, now), t);
  }

  lemma RearmExactly(q: Queue)
    requires Agree(q)
    ensures var q' := Rearm(q);
      && q'.timers == q.timers && q'.clock == q.clock
      && q'.alarm == if q.timers != [] && q.timers[0].when > 0
                     then Some(Alarm(Max(q.timers[0].when, q.clock + 100), q.clock))
                     else q.alarm
  {
    if q.timers != [] {
      assert q.timers[0] in q.timers;
    }
  }

  /** What an event may do to the alarm. */
  ghost predicate ArmsRightly(q: Queue, e: Event, q': Queue) {
    && (e.Act? && q'.alarm != q.alarm ==>
          && e.op.Add? && q'.timers != []
          && q'.alarm == Some(Alarm(Max(q'.timers[0].when, q'.clock + 100), q'.clock)))
    && (e.Fire? ==> ArmedFrom(q', Max(q.clock, e.now)))
  }

  lemma StepArms(q: Queue, e: Event)
    requires Safe(q, {})
    ensures ArmsRightly(q, e, Step(q, e))
  {
    match e
    case Act(op) => DoArms(q, op);
    case Fire(now, scripts, later) => FireArmsExactly(q, now, scripts, later);
  }

  /** Over runs: an event that changes the alarm reads an expiration, or arms it then. Outside a firing only
      an insertion that changes the earliest timer arms, for that timer; a firing arms for the first timer
      left. */
  lemma AlarmOverRuns(clock: int, es: seq<Event>, e: Event)
    ensures ArmsRightly(Run(Empty(clock), es), e, Run(Empty(clock), es + [e]))
  {
    EmptyIsSafe(clock);
    TimersAreSafe(Empty(clock), es);
    StepArms(Run(Empty(clock), es), e);
    RunSnoc(Empty(clock), es, e);
  }

  lemma {:induction false} RunSnoc(q: Queue, es: seq<Event>, e: Event)
    ensures Run(q, es + [e]) == Step(Run(q, es), e)
    decreases |es|
  {
    if es == [] {
      assert [] + [e] == [e] && [e][1..] == [];
    } else {
      assert (es + [e])[1..] == es[1..] + [e];
      RunSnoc(Step(q, es[0]), es[1..], e);
    }
  }

  lemma DoArms(q: Queue, op: Op)
    requires Safe(q, {})
    ensures var q' := Do(q, op);
      q'.alarm != q.alarm ==>
        && op.Add? && q'.timers != []
        && q'.alarm == Some(Alarm(Max(q'.timers[0].when, q'.clock + 100), q'.clock))
  {
    if Possible(q, op) && op.Add? {
      AddArmsExactly(q, {}, op.timer);
    }
  }

  // ---- When a timer runs ----

  /** A timer is inserted for the time it was created for, with its own interval. */
  lemma AddedForItsTime(q: Queue, a: Address, when: int, interval: real)
    requires Safe(q, {}) && 0 < a < TOP && a !in q.heap
    ensures var q' := Do(Do(q, Create(a, when, interval)), Add(a));
      && Safe(q', {}) && a in q'.heap && InIndex(q', a)
      && q'.heap[a] == Timer(when, interval, interval > 0.0, |q.history|)
  {
    var q1 := Do(q, Create(a, when, interval));
    DoKeepsSafe(q, {}, Create(a, when, interval));
    DoKeepsSafe(q1, {}, Add(a));
    InsertEffect(q1.timers, Entry(when, a));
  }

  lemma {:induction false} RecycleLeaves(q: Queue, batch: seq<Entry>, now: int, a: Address)
    requires Safe(q, Addresses(batch)) && DistinctTimers(batch) && a in q.heap && a !in Addresses(batch)
    ensures var q' := Recycle(q, batch, now);
      a in q'.heap && q'.heap[a] == q.heap[a]
    decreases |batch|
  {
    if batch != [] {
      RecycleHead(q, batch, now);
      RecycleOneChanges(q, batch, now, a);
      RecycleLeaves(RecycleOne(q, batch[0].timer, now), batch[1..], now, a);
    }
  }

  lemma RecycleOneChanges(q: Queue, batch: seq<Entry>, now: int, a: Address)
    requires Safe(q, Addresses(batch)) && DistinctTimers(batch) && batch != [] && a in q.heap
    ensures var b := batch[0].timer;
      var q' := RecycleOne(q, b, now);
      && b !in Addresses(batch[1..]) && (a in Addresses(batch) <==> a == b || a in Addresses(batch[1..]))
      && (a != b ==> a in q'.heap && q'.heap[a] == q.heap[a])
      && (a == b && Survives(q, a) ==>
            a in q'.heap && q'.heap[a] == q.heap[a].(expiration := now + Micros(q.heap[a].interval)))
  {
    HeadAndRest(batch);
    RecycleOneFrame(q, Addresses(batch[1..]), batch[0].timer, now);
  }

  lemma {:induction false} RecycleRestarts(q: Queue, batch: seq<Entry>, now: int, a: Address)
    requires Safe(q, Addresses(batch)) && DistinctTimers(batch)
    requires a in Addresses(batch) && a in q.heap && Survives(q, a)
    ensures var q' := Recycle(q, batch, now);
      a in q'.heap && q'.heap[a] == q.heap[a].(expiration := now + Micros(q.heap[a].interval))
    decreases |batch|
  {
    var q1 := RecycleOne(q, batch[0].timer, now);
    RecycleHead(q, batch, now);
    RecycleOneChanges(q, batch, now, a);
    if a == batch[0].timer {
      RecycleLeaves(q1, batch[1..], now, a);
    } else {
      RecycleRestarts(q1, batch[1..], now, a);
    }
  }

  /** A repeating timer that fires at `t` and is not cancelled by a callback of the batch is in the index
      again, for one interval after `t` and no other time. */
  lemma RepeatsOnTime(q: Queue, now: int, scripts: seq<seq<Op>>, later: int, a: Address)
    requires Safe(q, {}) && InIndex(q, a) && q.heap[a].expiration <= Max(q.clock, now) && q.heap[a].repeat
    requires !Cancels(scripts, |Due(q, now)|, IdOf(q, a))
    ensures var q' := HandleRead(q, now, scripts, later);
      && a in q'.heap && InIndex(q', a)
      && q'.heap[a] == q.heap[a].(expiration := Max(q.clock, now) + Micros(q.heap[a].interval))
  {
    var q3 := Called(q, now, scripts);
    var t := Max(q.clock, now);
    DueIsExact(q, now);
    FiredSurvives(q, now, scripts, a);
    CalledIsSafe(q, now, scripts);
    RecycleRestarts(q3, Due(q, now), t, a);
    RecycledIsSafe(q, now, scripts);
    RecycleKeepsPosted(q3, Due(q, now), t);
    StaysIndexed(Recycled(q, now, scripts), later, a);
    Stages(q, now, scripts, later);
  }

  lemma FiredSurvives(q: Queue, now: int, scripts: seq<seq<Op>>, a: Address)
    requires Safe(q, {}) && InIndex(q, a) && q.heap[a].expiration <= Max(q.clock, now) && q.heap[a].repeat
    requires !Cancels(scripts, |Due(q, now)|, IdOf(q, a))
    ensures var q3 := Called(q, now, scripts);
      && a in Addresses(Due(q, now)) && a in q3.heap && q3.heap[a] == q.heap[a]
      && Survives(q3, a) && a !in q3.posted
  {
    DueIsExact(q, now);
    assert Entry(q.heap[a].expiration, a) in Due(q, now);
    UnchangedByBatch(q, now, scripts, a);
    CancelledInBatch(q, now, scripts, a);
    CalledIsSafe(q, now, scripts);
  }

  lemma StaysIndexed(q: Queue, later: int, a: Address)
    requires Safe(q, {}) && a in q.heap && a !in q.posted
    ensures var q' := Rearm(Tick(q, later));
      q'.heap == q.heap && a in q'.heap && InIndex(q', a)
  {
    assert InIndex(q, a);
  }

  lemma {:induction false} RecycleKeepsPosted(q: Queue, batch: seq<Entry>, now: int)
    ensures Recycle(q, batch, now).posted == q.posted
    decreases |batch|
  {
    if batch != [] {
      RecycleKeepsPosted(RecycleOne(q, batch[0].timer, now), batch[1..], now);
    }
  }

  lemma {:induction false} RecycleKeepsCalling(q: Queue, batch: seq<Entry>, now: int)
    ensures Recycle(q, batch, now).calling == q.calling
    decreases |batch|
  {
    if batch != [] {
      RecycleKeepsCalling(RecycleOne(q, batch[0].timer, now), batch[1..], now);
    }
  }

  /** Between events no batch is firing, so a stale cancellation leaves nothing behind. */
  lemma {:induction false} QuietBetweenEvents(q: Queue, es: seq<Event>)
    requires Safe(q, {}) && !q.calling
    ensures !Run(q, es).calling
    decreases |es|
  {
    if es != [] {
      StepKeepsSafe(q, es[0]);
      match es[0] {
        case Act(op) =>
        case Fire(now, scripts, later) =>
          Stages(q, now, scripts, later);
          RecycleKeepsCalling(Called(q, now, scripts), Due(q, now), Max(q.clock, now));
      }
      QuietBetweenEvents(Step(q, es[0]), es[1..]);
    }
  }
}
