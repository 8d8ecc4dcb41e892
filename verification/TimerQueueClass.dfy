/** The class TimerQueue of src/net/timer_queue.cpp, its fields updated in place. Every method is
    proved to do what the functions of module Timers say, and in a safe state: no method dereferences
    or deletes a timer that is not alive. */
module TimerQueues {
  import opened Wrappers
  import opened Timers

  class TimerQueue {
    var timers: seq<Entry>
    var activeTimers: set<TimerId>
    var callingExpiredTimers: bool
    var cancelingTimers: set<TimerId>

    // The surroundings: the timers that have been allocated, addTimerInLoop calls the event loop holds,
    // the timerfd, the clock, and the count behind Timer::sequence_.
    var heap: map<Address, Timer>
    var posted: set<Address>
    var timerfd: Option<Alarm>
    var clock: int
    var numCreated: nat

    ghost var history: seq<Record>
    ghost var log: seq<nat>
    ghost var freed: seq<nat>
    ghost var held: set<Address>  // the timers of the batch that is firing

    ghost function Value(): Queue
      reads this
    {
      Queue(heap, posted, timers, activeTimers, callingExpiredTimers, cancelingTimers, timerfd, clock,
            history, log, freed, false)
    }

    ghost predicate Valid()
      reads this
    {
      Safe(Value(), held) && numCreated == |history|
    }

    constructor (now: int)
      ensures Valid() && held == {} && Value() == Empty(now)
    {
      timers, activeTimers, callingExpiredTimers, cancelingTimers := [], {}, false, {};
      heap, posted, timerfd, clock, numCreated := map[], {}, None, now, 0;
      history, log, freed, held := [], [], [], {};
      new;
      EmptyIsSafe(now);
    }

    /** addTimer, at the address that operator new returned. */
    method AddTimer(a: Address, when: int, interval: real) returns (id: TimerId)
      requires Valid() && Possible(Value(), Create(a, when, interval))
      modifies this
      ensures Valid() && held == old(held) && Value() == NewTimer(old(Value()), a, when, interval)
      ensures id == IdOf(Value(), a) && id.sequence == old(numCreated)
      ensures heap == old(heap)[a := Timer(when, interval, interval > 0.0, old(numCreated))]
      ensures posted == old(posted) + {a}
    {
      NewKeepsSafe(Value(), held, a, when, interval);
      id := TimerId(a, numCreated);
      heap := heap[a := Timer(when, interval, interval > 0.0, numCreated)];
      posted := posted + {a};
      numCreated := numCreated + 1;
      history := history + [Record(when, interval, [])];
    }

    method ResetTimerfd(expiration: int)
      modifies `timerfd
      ensures Value() == Arm(old(Value()), expiration)
      ensures timerfd == Some(Alarm(Max(expiration, clock + 100), clock))
    {
      var ts := HowMuchTimeFromNow(expiration, clock);
      timerfd := Some(Alarm(clock + ts.sec * 1_000_000 + ts.nsec / 1000, clock));
    }

    method Insert(timer: Address) returns (earliestChanged: bool)
      requires timer in heap
      modifies `timers, `activeTimers
      ensures (Value(), earliestChanged) == Timers.Insert(old(Value()), timer)
      ensures earliestChanged <==> old(timers) == [] || heap[timer].expiration < old(timers)[0].when
      ensures activeTimers == old(activeTimers) + {TimerId(timer, heap[timer].sequence)}
    {
      var when := heap[timer].expiration;
      earliestChanged := timers == [] || when < timers[0].when;
      timers := InsertEntry(timers, Entry(when, timer));
      activeTimers := activeTimers + {TimerId(timer, heap[timer].sequence)};
    }

    method AddTimerInLoop(timer: Address)
      requires Valid() && timer in posted
      modifies this
      ensures Valid() && held == old(held) && Value() == Timers.AddTimerInLoop(old(Value()), timer)
    {
      assert timer in heap;
      AddInPlace(timer);
      AddKeepsSafe(old(Value()), held, timer);
    }

    method AddInPlace(timer: Address)
      requires timer in heap
      modifies `posted, `timers, `activeTimers, `timerfd
      ensures Value() == Timers.AddTimerInLoop(old(Value()), timer)
    {
      posted := posted - {timer};
      var earliestChanged := Insert(timer);
      if earliestChanged {
        ResetTimerfd(heap[timer].expiration);
      }
    }

    method DeleteTimer(timer: Address)
      requires timer in heap
      modifies `heap, `freed
      ensures Value() == Delete(old(Value()), timer)
    {
      freed := freed + [heap[timer].sequence];
      heap := heap - {timer};
    }

    method CancelInLoop(timerId: TimerId)
      requires Valid()
      modifies this
      ensures Valid() && held == old(held) && Value() == Timers.CancelInLoop(old(Value()), timerId)
    {
      CancelInPlace(timerId);
      CancelKeepsSafe(old(Value()), held, timerId);
    }

    method CancelInPlace(timerId: TimerId)
      requires timerId in activeTimers ==> timerId.timer in heap
      modifies `timers, `activeTimers, `cancelingTimers, `heap, `freed
      ensures Value() == Timers.CancelInLoop(old(Value()), timerId)
    {
      if timerId in activeTimers {
        timers := EraseEntry(timers, Entry(heap[timerId.timer].expiration, timerId.timer));
        DeleteTimer(timerId.timer);
        activeTimers := activeTimers - {timerId};
      } else if callingExpiredTimers {
        cancelingTimers := cancelingTimers + {timerId};
      }
    }

    /** One thing that a callback does. */
    method Perform(op: Op)
      requires Valid()
      modifies this
      ensures Valid() && held == old(held) && Value() == Do(old(Value()), op)
    {
      DoKeepsSafe(Value(), held, op);
      match op
      case Create(a, when, interval) =>
        if 0 < a < TOP && a !in heap {
          var _ := AddTimer(a, when, interval);
        }
      case Add(a) =>
        if a in posted {
          AddTimerInLoop(a);
        }
      case Cancel(id) => CancelInLoop(id);
      case Wait(to) => clock := Max(clock, to);
    }

    method PerformAll(ops: seq<Op>)
      requires Valid()
      modifies this
      ensures Valid() && held == old(held) && Value() == DoAll(old(Value()), ops)
    {
      var i := 0;
      while i < |ops|
        invariant i <= |ops| && Valid() && held == old(held)
        invariant DoAll(Value(), ops[i..]) == DoAll(old(Value()), ops)
      {
        assert ops[i..][1..] == ops[i + 1..];
        Perform(ops[i]);
        i := i + 1;
      }
    }

    method GetExpired(now: int) returns (expired: seq<Entry>)
      requires Valid() && held == {}
      modifies `timers, `activeTimers, `held
      ensures (expired, Value()) == Timers.GetExpired(old(Value()), now)
      ensures Valid() && held == Addresses(expired) && DistinctTimers(expired)
    {
      ghost var was := Value();
      var end := LowerBound(timers, Entry(now, TOP));
      CutIsSafe(was, now);
      expired := timers[..end];
      timers := timers[end..];
      Deactivate(expired);
      held := Addresses(expired);
    }

    /** The loop of getExpired. */
    method Deactivate(expired: seq<Entry>)
      requires forall e :: e in expired ==> e.timer in heap
      modifies `activeTimers
      ensures Value() == Timers.Deactivate(old(Value()), expired)
    {
      var i := 0;
      while i < |expired|
        invariant i <= |expired|
        invariant Timers.Deactivate(Value(), expired[i..]) == Timers.Deactivate(old(Value()), expired)
      {
        var timer := expired[i].timer;
        assert expired[i..][0] == expired[i] && expired[i..][1..] == expired[i + 1..];
        activeTimers := activeTimers - {TimerId(timer, heap[timer].sequence)};
        i := i + 1;
      }
    }

    method Restart(timer: Address, now: int)
      requires timer in heap
      modifies `heap
      ensures Value() == Timers.Restart(old(Value()), timer, now)
      ensures var t := old(heap[timer]);
        heap == old(heap)[timer := t.(expiration := if t.repeat then now + Micros(t.interval) else 0)]
    {
      var t := heap[timer];
      heap := heap[timer := t.(expiration := if t.repeat then AddTime(now, t.interval) else 0)];
    }

    method Reset(expired: seq<Entry>, now: int, later: int)
      requires Valid() && held == Addresses(expired) && DistinctTimers(expired)
      modifies this
      ensures Valid() && held == {} && Value() == Rearm(Tick(Recycle(old(Value()), expired, now), later))
    {
      RecycleAll(expired, now);
      AdvanceClock(later);
      RearmFirst();
    }

    method AdvanceClock(to: int)
      requires Valid()
      modifies `clock
      ensures Valid() && Value() == Tick(old(Value()), to)
    {
      clock := Max(clock, to);
      SameTimers(old(Value()), Value(), held);
    }

    /** The end of reset. */
    method RearmFirst()
      requires Valid()
      modifies `timerfd
      ensures Valid() && Value() == Rearm(old(Value()))
    {
      RearmKeepsSafe(Value(), held);
      if timers != [] {
        assert timers[0] in timers;
        var nextExpire := heap[timers[0].timer].expiration;
        if nextExpire > 0 {
          ResetTimerfd(nextExpire);
        }
      }
    }

    /** The loop of reset. */
    method RecycleAll(expired: seq<Entry>, now: int)
      requires Valid() && held == Addresses(expired) && DistinctTimers(expired)
      modifies this
      ensures Valid() && held == {} && Value() == Recycle(old(Value()), expired, now)
    {
      var i := 0;
      while i < |expired|
        invariant i <= |expired| && Valid() && held == Addresses(expired[i..]) && DistinctTimers(expired[i..])
        invariant Recycle(Value(), expired[i..], now) == Recycle(old(Value()), expired, now)
      {
        ghost var rest := expired[i..];
        assert rest[1..] == expired[i + 1..] && rest[0] == expired[i];
        HeadAndRest(rest);
        RecycleTimer(rest[1..], expired[i].timer, now);
        i := i + 1;
      }
    }

    /** The body of that loop. */
    method RecycleInPlace(timer: Address, now: int)
      requires timer in heap
      modifies `heap, `freed, `timers, `activeTimers
      ensures Value() == RecycleOne(old(Value()), timer, now)
    {
      if heap[timer].repeat && TimerId(timer, heap[timer].sequence) !in cancelingTimers {
        Restart(timer, now);
        var _ := Insert(timer);
      } else {
        DeleteTimer(timer);
      }
    }

    method RecycleTimer(ghost rest: seq<Entry>, timer: Address, now: int)
      requires Valid() && held == Addresses(rest) + {timer} && timer !in Addresses(rest)
      modifies this
      ensures Valid() && held == Addresses(rest) && Value() == RecycleOne(old(Value()), timer, now)
    {
      assert timer in held;
      RecycleInPlace(timer, now);
      held := Addresses(rest);
      RecycleOneKeepsSafe(old(Value()), Addresses(rest), timer, now);
    }

    method RunTimer(timer: Address, now: int)
      requires Valid() && timer in held
      modifies `history, `log
      ensures Valid() && Value() == Ran(old(Value()), timer, now)
    {
      var n := heap[timer].sequence;
      history := history[n := history[n].(runs := history[n].runs + [now])];
      log := log + [n];
      SameTimers(old(Value()), Value(), held);
    }

    /** The firing loop of handleRead. */
    method RunAll(expired: seq<Entry>, scripts: seq<seq<Op>>, now: int)
      requires Valid() && held == Addresses(expired)
      modifies this
      ensures Valid() && held == old(held) && Value() == RunBatch(old(Value()), expired, 0, scripts, now)
    {
      var i := 0;
      while i < |expired|
        invariant i <= |expired| && Valid() && held == old(held)
        invariant RunBatch(Value(), expired, i, scripts, now) == RunBatch(old(Value()), expired, 0, scripts, now)
      {
        RunTurn(expired, i, scripts, now);
        i := i + 1;
      }
    }

    method RunTurn(expired: seq<Entry>, i: nat, scripts: seq<seq<Op>>, now: int)
      requires Valid() && held == Addresses(expired) && i < |expired|
      modifies this
      ensures Valid() && held == old(held) && Value() == Turn(old(Value()), expired, i, scripts, now)
    {
      assert expired[i] in expired;
      RunTimer(expired[i].timer, now);
      PerformAll(Script(scripts, i));
    }

    method ReadTimerfd()
      requires Valid()
      modifies `timerfd
      ensures Valid() && Value() == ReadAlarm(old(Value()))
      ensures timerfd == if old(timerfd).Some? && old(timerfd).value.deadline <= clock then None else old(timerfd)
    {
      if timerfd.Some? && timerfd.value.deadline <= clock {
        timerfd := None;
      }
      SameTimers(old(Value()), Value(), held);
    }

    method SetCalling(calling: bool, canceling: set<TimerId>)
      requires Valid()
      modifies `callingExpiredTimers, `cancelingTimers
      ensures Valid() && Value() == old(Value()).(calling := calling, canceling := canceling)
    {
      callingExpiredTimers, cancelingTimers := calling, canceling;
      SameTimers(old(Value()), Value(), held);
    }

    method HandleRead(now: int, scripts: seq<seq<Op>>, later: int)
      requires Valid() && held == {}
      modifies this
      ensures Valid() && held == {} && Value() == Timers.HandleRead(old(Value()), now, scripts, later)
    {
      AdvanceClock(now);
      var time := clock;
      ReadTimerfd();
      var expired := GetExpired(time);
      SetCalling(true, {});
      RunAll(expired, scripts, time);
      SetCalling(false, cancelingTimers);
      Reset(expired, time, later);
    }
  }

  lemma CutIsSafe(q: Queue, now: int)
    requires Safe(q, {})
    ensures var (expired, q') := Timers.GetExpired(q, now);
      && Safe(q', Addresses(expired)) && DistinctTimers(expired)
      && (forall e :: e in expired ==> e.timer in q.heap)
  {
    var n := LowerBound(q.timers, Entry(now, TOP));
    ExpiredAre(q, now);
    SplitByTime(q, now, n);
    CutKeepsSafe(q, n);
    assert forall e :: e in q.timers[..n] ==> e in q.timers;
  }
}
