/** The timer queue (src/net/timer_queue.cpp, timer.h, timer.cpp, timestamp.h) as values: two ordered
    indexes over timers that live on the heap, a timerfd that is armed for the earliest of them,
    and callbacks that may add and cancel timers while a batch is firing. Time is in microseconds. */
module Timers {
  import opened Wrappers

  /** Heap addresses; 0 is nullptr. A freed address may be handed out again. */
  type Address = nat
  const TOP: Address := 0xFFFF_FFFF_FFFF_FFFF

  datatype Timer = Timer(expiration: int, interval: real, repeat: bool, sequence: nat)
  datatype Entry = Entry(when: int, timer: Address)
  datatype TimerId = TimerId(timer: Address, sequence: nat)
  datatype Alarm = Alarm(deadline: int, armedAt: int)

  /** What became of the timer created with a given sequence number. */
  datatype Record = Record(first: int, interval: real, runs: seq<int>)

  datatype Queue = Queue(
    heap: map<Address, Timer>,
    posted: set<Address>,        // created, addTimerInLoop not yet run
    timers: seq<Entry>,          // timers_, in set order
    active: set<TimerId>,        // activeTimers_
    calling: bool,               // callingExpiredTimers_
    canceling: set<TimerId>,     // cancelingTimers_
    alarm: Option<Alarm>,        // what timerfd is armed for, until it is read
    clock: int,                  // the last time read
    history: seq<Record>,        // by sequence number
    log: seq<nat>,               // sequence numbers in the order their callbacks ran
    freed: seq<nat>,             // sequence numbers in the order their timers were deleted
    fault: bool)                 // a dead timer was used or deleted

  // ---- Time ----

  datatype Timespec = Timespec(sec: int, nsec: int)

  /** static_cast<int64_t>: towards zero. */
  function Truncate(x: real): int {
    if x >= 0.0 then x.Floor else -((-x).Floor)
  }

  /** Whole microseconds, the rest cut off towards zero. */
  function Micros(seconds: real): (m: int)
    ensures seconds >= 0.0 ==> m as real <= seconds * 1000000.0 < (m + 1) as real
    ensures seconds <= 0.0 ==> (m - 1) as real < seconds * 1000000.0 <= m as real
  {
    Truncate(seconds * 1000000.0)
  }

  function AddTime(t: int, seconds: real): int {
    t + Micros(seconds)
  }

  function HowMuchTimeFromNow(when: int, now: int): (ts: Timespec)
    ensures 0 <= ts.nsec < 1_000_000_000 && 0 <= ts.sec && ts.sec + ts.nsec > 0
    ensures ts.nsec % 1000 == 0
    ensures now + ts.sec * 1_000_000 + ts.nsec / 1000 == Max(when, now + 100)
  {
    var micros := if when - now < 100 then 100 else when - now;
    Timespec(micros / 1_000_000, micros % 1_000_000 * 1000)
  }

  /** Time passes; the clock read next is no earlier. */
  function Tick(q: Queue, to: int): Queue {
    q.(clock := Max(q.clock, to))
  }

  /** resetTimerfd: settime also forgets an expiration that was not read. */
  function Arm(q: Queue, when: int): Queue {
    var ts := HowMuchTimeFromNow(when, q.clock);
    q.(alarm := Some(Alarm(q.clock + ts.sec * 1_000_000 + ts.nsec / 1000, q.clock)))
  }

  /** readTimerfd: consumes an expiration, if there has been one. */
  function ReadAlarm(q: Queue): Queue {
    if q.alarm.Some? && q.alarm.value.deadline <= q.clock then q.(alarm := None) else q
  }

  // ---- The ordered set ----

  predicate Less(a: Entry, b: Entry) {
    a.when < b.when || (a.when == b.when && a.timer < b.timer)
  }

  function LowerBound(es: seq<Entry>, key: Entry): (n: nat)
    ensures n <= |es|
    ensures forall i :: 0 <= i < n ==> Less(es[i], key)
    ensures n < |es| ==> !Less(es[n], key)
  {
    if es == [] || !Less(es[0], key) then 0 else 1 + LowerBound(es[1..], key)
  }

  function InsertEntry(es: seq<Entry>, e: Entry): seq<Entry> {
    var n := LowerBound(es, e);
    if n < |es| && es[n] == e then es else es[..n] + [e] + es[n..]
  }

  function EraseEntry(es: seq<Entry>, e: Entry): seq<Entry> {
    var n := LowerBound(es, e);
    if n < |es| && es[n] == e then es[..n] + es[n + 1..] else es
  }

  // ---- Timers ----

  /** Reading a timer through a pointer; reading a dead one is a fault. */
  function Load(q: Queue, a: Address): Timer {
    if a in q.heap then q.heap[a] else Timer(0, 0.0, false, 0)
  }

  function Checked(q: Queue, a: Address): Queue {
    if a in q.heap then q else q.(fault := true)
  }

  function Delete(q: Queue, a: Address): Queue {
    if a !in q.heap then q.(fault := true)
    else q.(heap := q.heap - {a}, freed := q.freed + [q.heap[a].sequence])
  }

  function IdOf(q: Queue, a: Address): TimerId {
    TimerId(a, Load(q, a).sequence)
  }

  /** addTimer: a new timer at an address that is not in use, its insertion posted to the loop. */
  function NewTimer(q: Queue, a: Address, when: int, interval: real): Queue {
    q.(heap := q.heap[a := Timer(when, interval, interval > 0.0, |q.history|)],
       posted := q.posted + {a},
       history := q.history + [Record(when, interval, [])])
  }

  function Insert(q: Queue, a: Address): (Queue, bool) {
    var t := Load(q, a);
    (Checked(q, a).(timers := InsertEntry(q.timers, Entry(t.expiration, a)),
                    active := q.active + {TimerId(a, t.sequence)}),
     q.timers == [] || t.expiration < q.timers[0].when)
  }

  function AddTimerInLoop(q: Queue, a: Address): Queue {
    var (q', earliestChanged) := Insert(q.(posted := q.posted - {a}), a);
    if earliestChanged then Arm(q', Load(q, a).expiration) else q'
  }

  function CancelInLoop(q: Queue, id: TimerId): Queue {
    if id in q.active then
      Delete(Checked(q, id.timer).(timers := EraseEntry(q.timers, Entry(Load(q, id.timer).expiration, id.timer)),
                                   active := q.active - {id}),
             id.timer)
    else if q.calling then q.(canceling := q.canceling + {id})
    else q
  }

  /** The loop of getExpired: each expired timer leaves activeTimers_. */
  function Deactivate(q: Queue, batch: seq<Entry>): Queue
    decreases |batch|
  {
    if batch == [] then q
    else
      var a := batch[0].timer;
      Deactivate(Checked(q, a).(active := q.active - {IdOf(q, a)}), batch[1..])
  }

  function GetExpired(q: Queue, now: int): (seq<Entry>, Queue) {
    var n := LowerBound(q.timers, Entry(now, TOP));
    (q.timers[..n], Deactivate(q.(timers := q.timers[n..]), q.timers[..n]))
  }

  /** The loop of reset. */
  function Recycle(q: Queue, batch: seq<Entry>, now: int): Queue
    decreases |batch|
  {
    if batch == [] then q else Recycle(RecycleOne(q, batch[0].timer, now), batch[1..], now)
  }

  function RecycleOne(q: Queue, a: Address, now: int): Queue {
    if Load(q, a).repeat && IdOf(q, a) !in q.canceling then
      Insert(Restart(Checked(q, a), a, now), a).0
    else Delete(q, a)
  }

  function Restart(q: Queue, a: Address, now: int): Queue {
    if a !in q.heap then q.(fault := true)
    else
      var t := q.heap[a];
      q.(heap := q.heap[a := t.(expiration := if t.repeat then AddTime(now, t.interval) else 0)])
  }

  /** The end of reset: only a positive expiration is armed for. */
  function Rearm(q: Queue): Queue {
    if q.timers == [] then q
    else
      var first := q.timers[0].timer;
      var nextExpire := Load(q, first).expiration;
      if nextExpire > 0 then Arm(Checked(q, first), nextExpire) else Checked(q, first)
  }

  // ---- Callbacks ----

  /** What a callback, or any code on the loop thread, can do to the queue. An Add is the posted
      addTimerInLoop; called on the loop thread it follows its Create at once. */
  datatype Op =
    | Create(timer: Address, when: int, interval: real)
    | Add(timer: Address)
    | Cancel(id: TimerId)
    | Wait(to: int)

  /** operator new returns an address that is not in use, and each addTimerInLoop runs once. */
  predicate Possible(q: Queue, op: Op) {
    match op
    case Create(a, _, _) => 0 < a < TOP && a !in q.heap
    case Add(a) => a in q.posted
    case Cancel(_) => true
    case Wait(_) => true
  }

  function Do(q: Queue, op: Op): Queue {
    if !Possible(q, op) then q
    else
      match op
      case Create(a, when, interval) => NewTimer(q, a, when, interval)
      case Add(a) => AddTimerInLoop(q, a)
      case Cancel(id) => CancelInLoop(q, id)
      case Wait(to) => Tick(q, to)
  }

  function DoAll(q: Queue, ops: seq<Op>): Queue
    decreases |ops|
  {
    if ops == [] then q else DoAll(Do(q, ops[0]), ops[1..])
  }

  /** Timer::run, as far as the queue can tell. */
  function Ran(q: Queue, a: Address, now: int): Queue {
    var n := Load(q, a).sequence;
    if a !in q.heap || n >= |q.history| then q.(fault := true)
    else
      q.(history := q.history[n := q.history[n].(runs := q.history[n].runs + [now])],
         log := q.log + [n])
  }

  /** The script of the i-th callback of a batch. */
  function Script(scripts: seq<seq<Op>>, i: nat): seq<Op> {
    if i < |scripts| then scripts[i] else []
  }

  /** One turn of the firing loop: the i-th callback and its script. */
  function Turn(q: Queue, batch: seq<Entry>, i: nat, scripts: seq<seq<Op>>, now: int): Queue
    requires i < |batch|
  {
    DoAll(Ran(q, batch[i].timer, now), Script(scripts, i))
  }

  /** The loop over the expired entries, from the i-th on. */
  function RunBatch(q: Queue, batch: seq<Entry>, i: nat, scripts: seq<seq<Op>>, now: int): Queue
    requires i <= |batch|
    decreases |batch| - i
  {
    if i == |batch| then q
    else RunBatch(Turn(q, batch, i, scripts, now), batch, i + 1, scripts, now)
  }

  /** handleRead: `now` is when it reads the clock first, `later` when reset arms the timerfd. */
  function HandleRead(q: Queue, now: int, scripts: seq<seq<Op>>, later: int): Queue {
    var q1 := ReadAlarm(Tick(q, now));
    var (batch, q2) := GetExpired(q1, q1.clock);
    var q3 := RunBatch(q2.(calling := true, canceling := {}), batch, 0, scripts, q1.clock);
    Rearm(Tick(Recycle(q3.(calling := false), batch, q1.clock), later))
  }

  datatype Event = Act(op: Op) | Fire(now: int, scripts: seq<seq<Op>>, later: int)

  function Step(q: Queue, e: Event): Queue {
    match e
    case Act(op) => Do(q, op)
    case Fire(now, scripts, later) => HandleRead(q, now, scripts, later)
  }

  function Run(q: Queue, es: seq<Event>): Queue
    decreases |es|
  {
    if es == [] then q else Run(Step(q, es[0]), es[1..])
  }

  function Empty(clock: int): Queue {
    Queue(map[], {}, [], {}, false, {}, None, clock, [], [], [], false)
  }

  // ---- The set operations ----

  ghost predicate Sorted(es: seq<Entry>) {
    forall i, j :: 0 <= i < j < |es| ==> Less(es[i], es[j])
  }

  /** From the bound on, every element of a sorted list is beyond the key. */
  lemma BeyondBound(es: seq<Entry>, key: Entry)
    requires Sorted(es)
    ensures forall i :: LowerBound(es, key) <= i < |es| ==> !Less(es[i], key)
    ensures key in es <==> LowerBound(es, key) < |es| && es[LowerBound(es, key)] == key
  {}

  lemma InsertEffect(es: seq<Entry>, e: Entry)
    requires Sorted(es)
    ensures Sorted(InsertEntry(es, e))
    ensures forall x :: x in InsertEntry(es, e) <==> x in es || x == e
    ensures InsertEntry(es, e)[0] == if es == [] || Less(e, es[0]) then e else es[0]
  {
    BeyondBound(es, e);
    var n := LowerBound(es, e);
    if !(n < |es| && es[n] == e) {
      SplicedAt(es, e, n);
    }
  }

  lemma SplicedAt(es: seq<Entry>, e: Entry, n: nat)
    requires Sorted(es) && n <= |es|
    requires forall i :: 0 <= i < n ==> Less(es[i], e)
    requires forall i :: n <= i < |es| ==> Less(e, es[i])
    ensures Sorted(es[..n] + [e] + es[n..])
    ensures forall x :: x in es[..n] + [e] + es[n..] <==> x in es || x == e
  {
    var es' := es[..n] + [e] + es[n..];
    forall x | x in es
      ensures x in es'
    {
      var k :| 0 <= k < |es| && es[k] == x;
      assert es'[if k < n then k else k + 1] == x;
    }
    assert es'[n] == e;
  }

  lemma EraseEffect(es: seq<Entry>, e: Entry)
    requires Sorted(es)
    ensures Sorted(EraseEntry(es, e))
    ensures forall x :: x in EraseEntry(es, e) <==> x in es && x != e
  {
    BeyondBound(es, e);
    var n := LowerBound(es, e);
    if n < |es| && es[n] == e {
      var es' := EraseEntry(es, e);
      forall i | 0 <= i < |es'|
        ensures es'[i] == es[if i < n then i else i + 1]
      {
      }
      forall x
        ensures x in es' <==> x in es && x != e
      {
        if x in es && x != e {
          var k :| 0 <= k < |es| && es[k] == x;
          assert es'[if k < n then k else k - 1] == x;
        }
      }
    }
  }

  // ---- What holds of the queue ----

  /** timers_ and activeTimers_ hold the same timers, all alive, each under its current expiration. */
  ghost predicate Agree(q: Queue) {
    && Sorted(q.timers)
    && (forall e :: e in q.timers ==>
          e.timer in q.heap && q.heap[e.timer].expiration == e.when && IdOf(q, e.timer) in q.active)
    && (forall id :: id in q.active ==>
          id.timer in q.heap && q.heap[id.timer].sequence == id.sequence
          && Entry(q.heap[id.timer].expiration, id.timer) in q.timers)
  }

  ghost predicate InIndex(q: Queue, a: Address) {
    a in q.heap && Entry(q.heap[a].expiration, a) in q.timers
  }

  /** Every living timer has exactly one owner: a posted insertion, the indexes, or the batch. */
  ghost predicate Owned(q: Queue, held: set<Address>) {
    && q.posted <= q.heap.Keys && held <= q.heap.Keys && q.posted !! held
    && (forall a :: a in q.heap ==> (InIndex(q, a) <==> a !in q.posted && a !in held))
    && (forall a :: a in q.heap ==> 0 < a < TOP)
  }

  ghost predicate Alive(q: Queue, n: nat) {
    exists a :: a in q.heap && q.heap[a].sequence == n
  }

  /** Sequence numbers name timers for ever: living ones differ, and the others are exactly those
      deleted, each once. */
  ghost predicate Named(q: Queue) {
    && (forall a :: a in q.heap ==>
          q.heap[a].sequence < |q.history|
          && q.heap[a].interval == q.history[q.heap[a].sequence].interval
          && q.heap[a].repeat == (q.heap[a].interval > 0.0))
    && (forall a, b :: a in q.heap && b in q.heap && q.heap[a].sequence == q.heap[b].sequence ==> a == b)
    && (forall i, j :: 0 <= i < j < |q.freed| ==> q.freed[i] != q.freed[j])
    && (forall n: nat :: n in q.freed <==> n < |q.history| && !Alive(q, n))
  }

  ghost predicate Safe(q: Queue, held: set<Address>) {
    !q.fault && Agree(q) && Owned(q, held) && Named(q)
  }

  // ---- Each operation keeps it ----

  lemma NewKeepsSafe(q: Queue, held: set<Address>, a: Address, when: int, interval: real)
    requires Safe(q, held) && 0 < a < TOP && a !in q.heap
    ensures Safe(NewTimer(q, a, when, interval), held)
  {
    var q' := NewTimer(q, a, when, interval);
    forall n: nat
      ensures n in q'.freed <==> n < |q'.history| && !Alive(q', n)
    {
      if n == |q.history| {
        assert q'.heap[a].sequence == n;
      } else {
        SameAlive(q, q', n, a);
      }
    }
  }

  /** `a` aside, the heaps agree. */
  lemma SameAlive(q: Queue, q': Queue, n: nat, a: Address)
    requires forall b :: b != a ==> (b in q.heap <==> b in q'.heap)
    requires forall b :: b != a && b in q.heap ==> q.heap[b].sequence == q'.heap[b].sequence
    requires a in q.heap ==> q.heap[a].sequence != n
    requires a in q'.heap ==> q'.heap[a].sequence != n
    ensures Alive(q, n) <==> Alive(q', n)
  {
    if Alive(q, n) {
      var b :| b in q.heap && q.heap[b].sequence == n;
      assert b in q'.heap && q'.heap[b].sequence == n;
    }
    if Alive(q', n) {
      var b :| b in q'.heap && q'.heap[b].sequence == n;
      assert b in q.heap && q.heap[b].sequence == n;
    }
  }

  lemma InsertKeepsSafe(q: Queue, held: set<Address>, a: Address)
    requires Safe(q, held + {a}) && a in q.heap && a !in q.posted && a !in held
    ensures Safe(Insert(q, a).0, held)
  {
    var q' := Insert(q, a).0;
    InsertEffect(q.timers, Entry(q.heap[a].expiration, a));
    assert !InIndex(q, a);
    assert forall n: nat :: Alive(q, n) <==> Alive(q', n);
    assert forall b :: InIndex(q', b) <==> InIndex(q, b) || b == a;
  }

  lemma DeleteKeepsSafe(q: Queue, held: set<Address>, a: Address)
    requires Safe(q, held + {a}) && a in q.heap && a !in held
    ensures Safe(Delete(q, a), held)
    ensures !Alive(Delete(q, a), q.heap[a].sequence)
  {
    var q' := Delete(q, a);
    var gone := q.heap[a].sequence;
    assert Alive(q, gone);
    assert !InIndex(q, a);
    forall n: nat
      ensures n in q'.freed <==> n < |q'.history| && !Alive(q', n)
    {
      if n != gone {
        SameAlive(q, q', n, a);
      }
    }
  }

  lemma AddKeepsSafe(q: Queue, held: set<Address>, a: Address)
    requires Safe(q, held) && a in q.posted
    ensures Safe(AddTimerInLoop(q, a), held)
  {
    var q' := q.(posted := q.posted - {a});
    assert forall n: nat :: Alive(q, n) <==> Alive(q', n);
    assert forall b :: InIndex(q, b) <==> InIndex(q', b);
    assert Safe(q', held + {a});
    InsertKeepsSafe(q', held, a);
    var q'' := Insert(q', a).0;
    var q3 := AddTimerInLoop(q, a);
    assert forall n: nat :: Alive(q'', n) <==> Alive(q3, n);
    assert forall b :: InIndex(q'', b) <==> InIndex(q3, b);
  }

  lemma CancelKeepsSafe(q: Queue, held: set<Address>, id: TimerId)
    requires Safe(q, held)
    ensures Safe(CancelInLoop(q, id), held)
  {
    if id in q.active {
      var a := id.timer;
      var q' := q.(timers := EraseEntry(q.timers, Entry(q.heap[a].expiration, a)), active := q.active - {id});
      EraseEffect(q.timers, Entry(q.heap[a].expiration, a));
      assert forall n: nat :: Alive(q, n) <==> Alive(q', n);
      assert InIndex(q, a) && a !in held;
      assert Safe(q', held + {a});
      DeleteKeepsSafe(q', held, a);
    } else {
      var q' := CancelInLoop(q, id);
      assert forall n: nat :: Alive(q, n) <==> Alive(q', n);
      assert forall b :: InIndex(q, b) <==> InIndex(q', b);
    }
  }

  /** Only the timers and their owners matter. */
  lemma SameTimers(q: Queue, q': Queue, held: set<Address>)
    requires Safe(q, held) && !q'.fault
    requires q'.heap == q.heap && q'.posted == q.posted && q'.timers == q.timers && q'.active == q.active
    requires |q'.history| == |q.history| && q'.freed == q.freed
    requires forall n :: 0 <= n < |q.history| ==> q'.history[n].interval == q.history[n].interval
    ensures Safe(q', held)
  {
    assert forall n: nat :: Alive(q, n) <==> Alive(q', n);
    assert forall b :: InIndex(q, b) <==> InIndex(q', b);
  }

  lemma DoKeepsSafe(q: Queue, held: set<Address>, op: Op)
    requires Safe(q, held)
    ensures Safe(Do(q, op), held)
  {
    if Possible(q, op) {
      match op
      case Create(a, when, interval) => NewKeepsSafe(q, held, a, when, interval);
      case Add(a) => AddKeepsSafe(q, held, a);
      case Cancel(id) => CancelKeepsSafe(q, held, id);
      case Wait(to) => SameTimers(q, Tick(q, to), held);
    }
  }

  lemma {:induction false} DoAllKeepsSafe(q: Queue, held: set<Address>, ops: seq<Op>)
    requires Safe(q, held)
    ensures Safe(DoAll(q, ops), held)
    decreases |ops|
  {
    if ops != [] {
      DoKeepsSafe(q, held, ops[0]);
      DoAllKeepsSafe(Do(q, ops[0]), held, ops[1..]);
    }
  }

  // ---- Firing ----

  function Addresses(batch: seq<Entry>): set<Address> {
    set e | e in batch :: e.timer
  }

  function Ids(q: Queue, batch: seq<Entry>): set<TimerId> {
    set e | e in batch :: IdOf(q, e.timer)
  }

  lemma {:induction false} DeactivateEffect(q: Queue, batch: seq<Entry>)
    requires forall e :: e in batch ==> e.timer in q.heap
    ensures Deactivate(q, batch) == q.(active := q.active - Ids(q, batch))
    decreases |batch|
  {
    if batch == [] {
      assert q.active - Ids(q, batch) == q.active;
    } else {
      var q' := q.(active := q.active - {IdOf(q, batch[0].timer)});
      assert batch == [batch[0]] + batch[1..];
      DeactivateEffect(q', batch[1..]);
      assert Ids(q', batch[1..]) == Ids(q, batch[1..]);
      assert Ids(q, batch) == {IdOf(q, batch[0].timer)} + Ids(q, batch[1..]);
      assert q.active - {IdOf(q, batch[0].timer)} - Ids(q, batch[1..]) == q.active - Ids(q, batch);
    }
  }

  /** Two entries of one index differ in their timer. */
  ghost predicate DistinctTimers(batch: seq<Entry>) {
    forall i, j :: 0 <= i < j < |batch| ==> batch[i].timer != batch[j].timer
  }

  /** The batch is the due prefix of the index. */
  lemma ExpiredAre(q: Queue, now: int)
    requires Agree(q)
    ensures var n := LowerBound(q.timers, Entry(now, TOP));
      GetExpired(q, now) == (q.timers[..n], q.(timers := q.timers[n..], active := q.active - Ids(q, q.timers[..n])))
  {
    var n := LowerBound(q.timers, Entry(now, TOP));
    var batch := q.timers[..n];
    var q1 := q.(timers := q.timers[n..]);
    assert forall e :: e in batch ==> e in q.timers;
    DeactivateEffect(q1, batch);
    assert Ids(q1, batch) == Ids(q, batch);
  }

  lemma CutKeepsSafe(q: Queue, n: nat)
    requires Safe(q, {}) && n <= |q.timers| && DistinctTimers(q.timers)
    ensures Safe(q.(timers := q.timers[n..], active := q.active - Ids(q, q.timers[..n])), Addresses(q.timers[..n]))
  {
    var batch := q.timers[..n];
    var q' := q.(timers := q.timers[n..], active := q.active - Ids(q, batch));
    assert forall m: nat :: Alive(q, m) <==> Alive(q', m);
    assert forall e :: e in batch ==> e in q.timers;
    CutAgrees(q, n);
    forall a | a in q.heap
      ensures InIndex(q', a) <==> a !in q'.posted && a !in Addresses(batch)
    {
      HeldByBatch(q, n, a);
    }
  }

  lemma CutAgrees(q: Queue, n: nat)
    requires Agree(q) && n <= |q.timers| && DistinctTimers(q.timers)
    ensures Agree(q.(timers := q.timers[n..], active := q.active - Ids(q, q.timers[..n])))
  {
    var q' := q.(timers := q.timers[n..], active := q.active - Ids(q, q.timers[..n]));
    forall id | id in q'.active
      ensures Entry(q.heap[id.timer].expiration, id.timer) in q'.timers
    {
      HeldByBatch(q, n, id.timer);
      assert id == IdOf(q, id.timer);
    }
    forall e | e in q'.timers
      ensures e in q.timers && IdOf(q', e.timer) in q'.active
    {
      HeldByBatch(q, n, e.timer);
    }
  }

  lemma SplitByTime(q: Queue, now: int, n: nat)
    requires Agree(q) && Owned(q, {}) && n == LowerBound(q.timers, Entry(now, TOP))
    ensures forall e :: e in q.timers ==> (e in q.timers[..n] <==> e.when <= now)
    ensures forall e :: e in q.timers ==> (e in q.timers[n..] <==> e.when > now)
    ensures DistinctTimers(q.timers)
  {
    BeyondBound(q.timers, Entry(now, TOP));
    forall i | 0 <= i < |q.timers|
      ensures i < n <==> q.timers[i].when <= now
    {
      assert q.timers[i] in q.timers;
    }
    forall i, j | 0 <= i < j < |q.timers|
      ensures q.timers[i].timer != q.timers[j].timer
    {
      assert q.timers[i] in q.timers && q.timers[j] in q.timers;
    }
  }

  /** An indexed timer's entry is on one side of the cut. */
  lemma HeldByBatch(q: Queue, n: nat, a: Address)
    requires Agree(q) && n <= |q.timers| && a in q.heap && DistinctTimers(q.timers)
    ensures var e := Entry(q.heap[a].expiration, a);
      && (a in Addresses(q.timers[..n]) <==> e in q.timers[..n])
      && (e in q.timers <==> e in q.timers[..n] || e in q.timers[n..])
      && !(e in q.timers[..n] && e in q.timers[n..])
      && (IdOf(q, a) in Ids(q, q.timers[..n]) <==> e in q.timers[..n])
  {
    var e := Entry(q.heap[a].expiration, a);
    assert q.timers == q.timers[..n] + q.timers[n..];
    forall x | x in q.timers[..n] && x.timer == a
      ensures x == e
    {
      assert x in q.timers;
    }
  }

  /** The firing loop, seen from outside: what every turn keeps, the loop keeps. */
  lemma {:induction false} BatchInduction(p: (Queue, nat) -> bool, q: Queue, batch: seq<Entry>, i: nat,
                                          scripts: seq<seq<Op>>, now: int)
    requires i <= |batch| && p(q, i)
    requires forall s: Queue, k: nat :: i <= k < |batch| && p(s, k) ==> p(Turn(s, batch, k, scripts, now), k + 1)
    ensures p(RunBatch(q, batch, i, scripts, now), |batch|)
    decreases |batch| - i
  {
    if i < |batch| {
      BatchInduction(p, Turn(q, batch, i, scripts, now), batch, i + 1, scripts, now);
    }
  }

  lemma TurnKeepsSafe(q: Queue, batch: seq<Entry>, i: nat, scripts: seq<seq<Op>>, now: int)
    requires i < |batch| && Safe(q, Addresses(batch))
    ensures batch[i].timer in Addresses(batch)
    ensures Safe(Ran(q, batch[i].timer, now), Addresses(batch))
    ensures Safe(Turn(q, batch, i, scripts, now), Addresses(batch))
  {
    assert batch[i] in batch;
    var q1 := Ran(q, batch[i].timer, now);
    SameTimers(q, q1, Addresses(batch));
    DoAllKeepsSafe(q1, Addresses(batch), Script(scripts, i));
  }

  lemma RunBatchKeepsSafe(q: Queue, batch: seq<Entry>, scripts: seq<seq<Op>>, now: int)
    requires Safe(q, Addresses(batch))
    ensures Safe(RunBatch(q, batch, 0, scripts, now), Addresses(batch))
  {
    var p := (s: Queue, k: nat) => Safe(s, Addresses(batch));
    forall s: Queue, k: nat | 0 <= k < |batch| && p(s, k)
      ensures p(Turn(s, batch, k, scripts, now), k + 1)
    {
      TurnKeepsSafe(s, batch, k, scripts, now);
    }
    BatchInduction(p, q, batch, 0, scripts, now);
  }

  lemma RecycleOneKeepsSafe(q: Queue, held: set<Address>, a: Address, now: int)
    requires Safe(q, held + {a}) && a !in held
    ensures Safe(RecycleOne(q, a, now), held)
  {
    assert a in held + {a};
    if q.heap[a].repeat && IdOf(q, a) !in q.canceling {
      var q' := Restart(q, a, now);
      RestartKeepsSafe(q, held + {a}, a, now);
      InsertKeepsSafe(q', held, a);
    } else {
      DeleteKeepsSafe(q, held, a);
    }
  }

  lemma RestartKeepsSafe(q: Queue, held: set<Address>, a: Address, now: int)
    requires Safe(q, held) && a in held
    ensures Safe(Restart(q, a, now), held)
  {
    var q' := Restart(q, a, now);
    assert !InIndex(q, a);
    assert forall e :: e in q.timers ==> e.timer != a by {
      assert forall e :: e in q.timers ==> InIndex(q, e.timer);
    }
    forall n: nat
      ensures Alive(q, n) <==> Alive(q', n)
    {
      if Alive(q, n) {
        var b :| b in q.heap && q.heap[b].sequence == n;
        assert q'.heap[b].sequence == n;
      }
      if Alive(q', n) {
        var b :| b in q'.heap && q'.heap[b].sequence == n;
        assert q.heap[b].sequence == n;
      }
    }
    assert forall b :: InIndex(q, b) <==> InIndex(q', b);
  }

  lemma {:induction false} RecycleKeepsSafe(q: Queue, batch: seq<Entry>, now: int)
    requires Safe(q, Addresses(batch)) && DistinctTimers(batch)
    ensures Safe(Recycle(q, batch, now), {})
    decreases |batch|
  {
    if batch == [] {
      assert Addresses(batch) == {};
    } else {
      var rest := batch[1..];
      HeadAndRest(batch);
      RecycleOneKeepsSafe(q, Addresses(rest), batch[0].timer, now);
      RecycleKeepsSafe(RecycleOne(q, batch[0].timer, now), rest, now);
    }
  }

  lemma HeadAndRest(batch: seq<Entry>)
    requires batch != [] && DistinctTimers(batch)
    ensures Addresses(batch) == Addresses(batch[1..]) + {batch[0].timer}
    ensures batch[0].timer !in Addresses(batch[1..]) && DistinctTimers(batch[1..])
  {
    assert batch == [batch[0]] + batch[1..];
    forall e | e in batch[1..]
      ensures e.timer != batch[0].timer
    {
      var i :| 0 <= i < |batch[1..]| && batch[1..][i] == e;
      assert batch[i + 1] == e;
    }
  }

  lemma RearmKeepsSafe(q: Queue, held: set<Address>)
    requires Safe(q, held)
    ensures Safe(Rearm(q), held)
  {
    if q.timers != [] {
      assert q.timers[0] in q.timers;
      SameTimers(q, Rearm(q), held);
    }
  }

  // handleRead in stages: the batch taken out, its callbacks run, its timers recycled.

  function Due(q: Queue, now: int): seq<Entry> {
    q.timers[..LowerBound(q.timers, Entry(Max(q.clock, now), TOP))]
  }

  function Opened(q: Queue, now: int): Queue {
    q.(timers := q.timers[|Due(q, now)|..], active := q.active - Ids(q, Due(q, now)),
       calling := true, canceling := {}, alarm := ReadAlarm(Tick(q, now)).alarm, clock := Max(q.clock, now))
  }

  function Called(q: Queue, now: int, scripts: seq<seq<Op>>): Queue {
    RunBatch(Opened(q, now), Due(q, now), 0, scripts, Max(q.clock, now)).(calling := false)
  }

  function Recycled(q: Queue, now: int, scripts: seq<seq<Op>>): Queue {
    Recycle(Called(q, now, scripts), Due(q, now), Max(q.clock, now))
  }

  lemma Stages(q: Queue, now: int, scripts: seq<seq<Op>>, later: int)
    requires Safe(q, {})
    ensures HandleRead(q, now, scripts, later) == Rearm(Tick(Recycled(q, now, scripts), later))
  {
    var q1 := ReadAlarm(Tick(q, now));
    AgreeAtAnyTime(q, q1, Due(q, now));
    ExpiredAre(q1, q1.clock);
    assert GetExpired(q1, q1.clock).0 == Due(q, now);
    assert GetExpired(q1, q1.clock).1.(calling := true, canceling := {}) == Opened(q, now);
  }

  lemma AgreeAtAnyTime(q: Queue, q1: Queue, batch: seq<Entry>)
    requires Agree(q) && q1 == q.(alarm := q1.alarm, clock := q1.clock)
    ensures Agree(q1) && Ids(q1, batch) == Ids(q, batch)
  {}

  lemma {:induction false} DueIsExact(q: Queue, now: int)
    requires Safe(q, {})
    ensures Due(q, now) + Opened(q, now).timers == q.timers
    ensures Sorted(Due(q, now)) && DistinctTimers(Due(q, now))
    ensures forall e :: e in q.timers ==> (e in Due(q, now) <==> e.when <= Max(q.clock, now))
    ensures forall e :: e in Opened(q, now).timers ==> e in q.timers && e.when > Max(q.clock, now)
  {
    var n := |Due(q, now)|;
    SplitByTime(q, Max(q.clock, now), n);
    CutInTwo(q.timers, n);
  }

  lemma CutInTwo(es: seq<Entry>, n: nat)
    requires n <= |es| && Sorted(es) && DistinctTimers(es)
    ensures es[..n] + es[n..] == es && Sorted(es[..n]) && DistinctTimers(es[..n])
    ensures forall e :: e in es[n..] ==> e in es
  {}

  lemma OpenedIsSafe(q: Queue, now: int)
    requires Safe(q, {})
    ensures Safe(Opened(q, now), Addresses(Due(q, now)))
  {
    DueIsExact(q, now);
    var n := |Due(q, now)|;
    SplitByTime(q, Max(q.clock, now), n);
    CutKeepsSafe(q, n);
    var cut := q.(timers := q.timers[n..], active := q.active - Ids(q, q.timers[..n]));
    SameTimers(cut, Opened(q, now), Addresses(Due(q, now)));
  }

  lemma CalledIsSafe(q: Queue, now: int, scripts: seq<seq<Op>>)
    requires Safe(q, {})
    ensures Safe(Called(q, now, scripts), Addresses(Due(q, now)))
  {
    OpenedIsSafe(q, now);
    RunBatchKeepsSafe(Opened(q, now), Due(q, now), scripts, Max(q.clock, now));
    var r := RunBatch(Opened(q, now), Due(q, now), 0, scripts, Max(q.clock, now));
    SameTimers(r, r.(calling := false), Addresses(Due(q, now)));
  }

  lemma RecycledIsSafe(q: Queue, now: int, scripts: seq<seq<Op>>)
    requires Safe(q, {})
    ensures Safe(Recycled(q, now, scripts), {})
  {
    DueIsExact(q, now);
    CalledIsSafe(q, now, scripts);
    RecycleKeepsSafe(Called(q, now, scripts), Due(q, now), Max(q.clock, now));
  }

  lemma FireKeepsSafe(q: Queue, now: int, scripts: seq<seq<Op>>, later: int)
    requires Safe(q, {})
    ensures Safe(HandleRead(q, now, scripts, later), {})
  {
    Stages(q, now, scripts, later);
    RecycledIsSafe(q, now, scripts);
    var r := Recycled(q, now, scripts);
    SameTimers(r, Tick(r, later), {});
    RearmKeepsSafe(Tick(r, later), {});
  }

  lemma StepKeepsSafe(q: Queue, e: Event)
    requires Safe(q, {})
    ensures Safe(Step(q, e), {})
  {
    match e
    case Act(op) => DoKeepsSafe(q, {}, op);
    case Fire(now, scripts, later) => FireKeepsSafe(q, now, scripts, later);
  }

  /** However callbacks and other threads add and cancel, and however addresses are reused: the two
      indexes agree, every timer has one owner, each is deleted once, and none is used after. */
  lemma {:induction false} TimersAreSafe(q: Queue, es: seq<Event>)
    requires Safe(q, {})
    ensures Safe(Run(q, es), {})
    decreases |es|
  {
    if es != [] {
      StepKeepsSafe(q, es[0]);
      TimersAreSafe(Step(q, es[0]), es[1..]);
    }
  }

  // ---- What a batch runs ----

  /** The sequence numbers of the first `k` entries. */
  function Sequences(q: Queue, batch: seq<Entry>, k: nat): seq<nat>
    requires k <= |batch| && HeldInHeap(q, batch)
  {
    if k == 0 then [] else Sequences(q, batch, k - 1) + [q.heap[batch[k - 1].timer].sequence]
  }

  /** What the first `k` entries add to the runs of timer `n`. */
  function RunsIn(q: Queue, batch: seq<Entry>, k: nat, n: nat, now: int): seq<int>
    requires k <= |batch| && HeldInHeap(q, batch)
  {
    if exists i :: 0 <= i < k && q.heap[batch[i].timer].sequence == n then [now] else []
  }

  predicate HeldInHeap(q: Queue, batch: seq<Entry>) {
    forall i :: 0 <= i < |batch| ==> batch[i].timer in q.heap
  }

  lemma HeldAlive(q: Queue, batch: seq<Entry>)
    requires Safe(q, Addresses(batch))
    ensures HeldInHeap(q, batch)
  {
    forall i | 0 <= i < |batch|
      ensures batch[i].timer in q.heap
    {
      assert batch[i] in batch;
      assert batch[i].timer in Addresses(batch);
    }
  }

  /** Nothing a callback does touches a timer of the batch, the past, or the order of deletions. */
  ghost predicate Frame(q: Queue, q': Queue, held: set<Address>) {
    && q'.log == q.log && q'.clock >= q.clock && q'.calling == q.calling
    && |q'.history| >= |q.history|
    && (forall n :: 0 <= n < |q.history| ==> q'.history[n] == q.history[n])
    && q.freed <= q'.freed
    && (forall a :: a in held && a in q.heap ==> a in q'.heap && q'.heap[a] == q.heap[a])
  }

  /** Names the timer of an entry that is being fired: it cannot be active. */
  lemma HeldIsNotActive(q: Queue, held: set<Address>, id: TimerId)
    requires Safe(q, held) && id.timer in held
    ensures id !in q.active
  {
    assert !InIndex(q, id.timer);
  }

  lemma DoFrame(q: Queue, held: set<Address>, op: Op)
    requires Safe(q, held)
    ensures Frame(q, Do(q, op), held)
    ensures forall id: TimerId :: id.timer in held && q.calling ==>
              (id in Do(q, op).canceling <==> id in q.canceling || op == Cancel(id))
  {
    forall id: TimerId | id.timer in held
      ensures id !in q.active
    {
      HeldIsNotActive(q, held, id);
    }
  }

  lemma {:induction false} DoAllFrame(q: Queue, held: set<Address>, ops: seq<Op>)
    requires Safe(q, held)
    ensures Frame(q, DoAll(q, ops), held)
    ensures forall id: TimerId :: id.timer in held && q.calling ==>
              (id in DoAll(q, ops).canceling <==> id in q.canceling || Cancel(id) in ops)
    decreases |ops|
  {
    if ops != [] {
      DoKeepsSafe(q, held, ops[0]);
      DoFrame(q, held, ops[0]);
      DoAllFrame(Do(q, ops[0]), held, ops[1..]);
      assert ops == [ops[0]] + ops[1..];
    }
  }

  /** One of the first `count` callbacks cancels `id`. */
  ghost predicate Cancels(scripts: seq<seq<Op>>, count: nat, id: TimerId) {
    exists k: nat :: k < count && Cancel(id) in Script(scripts, k)
  }

  lemma CancelsNext(scripts: seq<seq<Op>>, k: nat, id: TimerId)
    ensures Cancels(scripts, k + 1, id) <==> Cancels(scripts, k, id) || Cancel(id) in Script(scripts, k)
  {}

  /** The timers of the batch are alive and unchanged. */
  ghost predicate KeepsHeld(q: Queue, q': Queue, batch: seq<Entry>) {
    HeldInHeap(q, batch) && HeldInHeap(q', batch)
    && forall i :: 0 <= i < |batch| ==> q'.heap[batch[i].timer] == q.heap[batch[i].timer]
  }

  ghost predicate Later(q: Queue, q': Queue) {
    q'.clock >= q.clock && q'.calling == q.calling && q.freed <= q'.freed && |q'.history| >= |q.history|
  }

  /** One turn runs its own timer and no other. */
  lemma TurnEffect(q: Queue, batch: seq<Entry>, i: nat, scripts: seq<seq<Op>>, now: int)
    requires i < |batch| && Safe(q, Addresses(batch))
    ensures var q' := Turn(q, batch, i, scripts, now);
      && KeepsHeld(q, q', batch) && Later(q, q')
      && q'.log == q.log + [q.heap[batch[i].timer].sequence]
      && forall n :: 0 <= n < |q.history| ==>
           var ran := if q.heap[batch[i].timer].sequence == n then [now] else [];
           q'.history[n] == q.history[n].(runs := q.history[n].runs + ran)
  {
    HeldAlive(q, batch);
    TurnKeepsSafe(q, batch, i, scripts, now);
    DoAllFrame(Ran(q, batch[i].timer, now), Addresses(batch), Script(scripts, i));
    forall k | 0 <= k < |batch|
      ensures batch[k].timer in Addresses(batch)
    {
      assert batch[k] in batch;
    }
  }

  /** The first `k` entries of the batch have run, in order. */
  ghost predicate Fired(q: Queue, q': Queue, batch: seq<Entry>, k: nat, now: int)
    requires k <= |batch|
  {
    && KeepsHeld(q, q', batch) && Later(q, q')
    && q'.log == q.log + Sequences(q, batch, k)
    && forall n :: 0 <= n < |q.history| ==>
         q'.history[n] == q.history[n].(runs := q.history[n].runs + RunsIn(q, batch, k, n, now))
  }

  lemma FiredNext(q: Queue, s: Queue, s': Queue, batch: seq<Entry>, k: nat, now: int)
    requires k < |batch| && Fired(q, s, batch, k, now)
    requires forall i :: 0 <= i < k ==> q.heap[batch[i].timer].sequence != q.heap[batch[k].timer].sequence
    requires KeepsHeld(s, s', batch) && Later(s, s') && s'.log == s.log + [s.heap[batch[k].timer].sequence]
    requires forall n :: 0 <= n < |s.history| ==>
               var ran := if s.heap[batch[k].timer].sequence == n then [now] else [];
               s'.history[n] == s.history[n].(runs := s.history[n].runs + ran)
    ensures Fired(q, s', batch, k + 1, now)
  {}

  /** Every entry of the batch runs once, in order, whatever the callbacks do; no other timer does. */
  lemma RunBatchRuns(q: Queue, batch: seq<Entry>, scripts: seq<seq<Op>>, now: int)
    requires Safe(q, Addresses(batch)) && DistinctTimers(batch)
    ensures Fired(q, RunBatch(q, batch, 0, scripts, now), batch, |batch|, now)
  {
    HeldAlive(q, batch);
    assert FiringLoop(q, q, batch, 0, now);
    var p := (s: Queue, k: nat) => FiringLoop(q, s, batch, k, now);
    forall s: Queue, k: nat | 0 <= k < |batch| && p(s, k)
      ensures p(Turn(s, batch, k, scripts, now), k + 1)
    {
      TurnFires(q, s, batch, k, scripts, now);
    }
    BatchInduction(p, q, batch, 0, scripts, now);
    assert FiringLoop(q, RunBatch(q, batch, 0, scripts, now), batch, |batch|, now);
  }

  /** The invariant of the firing loop. */
  ghost predicate FiringLoop(q: Queue, s: Queue, batch: seq<Entry>, k: nat, now: int) {
    k <= |batch| && Safe(s, Addresses(batch)) && Fired(q, s, batch, k, now) && DistinctSequences(q, batch)
  }

  ghost predicate DistinctSequences(q: Queue, batch: seq<Entry>)
    requires HeldInHeap(q, batch)
  {
    forall i, j :: 0 <= i < j < |batch| ==> q.heap[batch[i].timer].sequence != q.heap[batch[j].timer].sequence
  }

  lemma TurnFires(q: Queue, s: Queue, batch: seq<Entry>, k: nat, scripts: seq<seq<Op>>, now: int)
    requires k < |batch| && FiringLoop(q, s, batch, k, now)
    ensures FiringLoop(q, Turn(s, batch, k, scripts, now), batch, k + 1, now)
  {
    TurnKeepsSafe(s, batch, k, scripts, now);
    TurnEffect(s, batch, k, scripts, now);
    FiredNext(q, s, Turn(s, batch, k, scripts, now), batch, k, now);
  }

  /** And cancellations of its timers are remembered. */
  lemma RunBatchRemembers(q: Queue, batch: seq<Entry>, scripts: seq<seq<Op>>, now: int, id: TimerId)
    requires Safe(q, Addresses(batch)) && q.calling && id.timer in Addresses(batch)
    ensures id in RunBatch(q, batch, 0, scripts, now).canceling
       <==> id in q.canceling || Cancels(scripts, |batch|, id)
  {
    var p := (s: Queue, k: nat) =>
      Safe(s, Addresses(batch)) && s.calling && (id in s.canceling <==> id in q.canceling || Cancels(scripts, k, id));
    forall s: Queue, k: nat | 0 <= k < |batch| && p(s, k)
      ensures p(Turn(s, batch, k, scripts, now), k + 1)
    {
      TurnKeepsSafe(s, batch, k, scripts, now);
      DoAllFrame(Ran(s, batch[k].timer, now), Addresses(batch), Script(scripts, k));
      CancelsNext(scripts, k, id);
    }
    BatchInduction(p, q, batch, 0, scripts, now);
  }

  // ---- What becomes of the batch ----

  /** A fired timer is kept exactly when it repeats and was not cancelled by its own id. */
  predicate Survives(q: Queue, a: Address) {
    Load(q, a).repeat && IdOf(q, a) !in q.canceling
  }

  lemma RecycleOneFrame(q: Queue, held: set<Address>, a: Address, now: int)
    requires Safe(q, held + {a}) && a !in held
    ensures var q' := RecycleOne(q, a, now);
      && q'.log == q.log && q'.history == q.history && q'.canceling == q.canceling && q'.clock == q.clock
      && (forall b :: b in held ==> b in q.heap && b in q'.heap && q'.heap[b] == q.heap[b])
      && (Survives(q, a) ==>
            && q'.freed == q.freed
            && q'.heap == q.heap[a := q.heap[a].(expiration := AddTime(now, q.heap[a].interval))])
      && (!Survives(q, a) ==> q'.freed == q.freed + [q.heap[a].sequence] && q'.heap == q.heap - {a})
  {
    assert a in held + {a};
    assert forall b :: b in held ==> b in held + {a};
  }

  /** Timer `n` is in the batch and will not be kept. */
  ghost predicate Doomed(q: Queue, batch: seq<Entry>, n: nat)
    requires HeldInHeap(q, batch)
  {
    exists i :: 0 <= i < |batch| && q.heap[batch[i].timer].sequence == n && !Survives(q, batch[i].timer)
  }

  lemma DoomedLater(q: Queue, q1: Queue, batch: seq<Entry>, n: nat)
    requires batch != [] && HeldInHeap(q, batch) && HeldInHeap(q1, batch[1..]) && q1.canceling == q.canceling
    requires forall i :: 0 < i < |batch| ==> q1.heap[batch[1..][i - 1].timer] == q.heap[batch[i].timer]
    ensures Doomed(q, batch, n)
       <==> (q.heap[batch[0].timer].sequence == n && !Survives(q, batch[0].timer)) || Doomed(q1, batch[1..], n)
  {
    var rest := batch[1..];
    forall i | 0 < i < |batch|
      ensures batch[i] == rest[i - 1] && Survives(q1, rest[i - 1].timer) == Survives(q, batch[i].timer)
    {
    }
    if Doomed(q1, rest, n) {
      var i :| 0 <= i < |rest| && q1.heap[rest[i].timer].sequence == n && !Survives(q1, rest[i].timer);
      assert q.heap[batch[i + 1].timer].sequence == n && !Survives(q, batch[i + 1].timer);
    }
  }

  lemma {:induction false} RecycleFrame(q: Queue, batch: seq<Entry>, now: int)
    requires Safe(q, Addresses(batch)) && DistinctTimers(batch)
    ensures var q' := Recycle(q, batch, now);
      q'.log == q.log && q'.history == q.history && q'.clock == q.clock
    decreases |batch|
  {
    if batch != [] {
      RecycleHead(q, batch, now);
      RecycleFrame(RecycleOne(q, batch[0].timer, now), batch[1..], now);
    }
  }

  /** The first timer of the batch is kept or deleted; the others wait as they are. */
  lemma RecycleHead(q: Queue, batch: seq<Entry>, now: int)
    requires Safe(q, Addresses(batch)) && DistinctTimers(batch) && batch != []
    ensures var q1 := RecycleOne(q, batch[0].timer, now);
      var n := q.heap[batch[0].timer].sequence;
      && Safe(q1, Addresses(batch[1..])) && DistinctTimers(batch[1..])
      && HeldInHeap(q, batch) && HeldInHeap(q1, batch[1..])
      && q1.log == q.log && q1.history == q.history && q1.clock == q.clock && q1.canceling == q.canceling
      && q1.freed == (if Survives(q, batch[0].timer) then q.freed else q.freed + [n])
      && forall i :: 0 < i < |batch| ==> q1.heap[batch[1..][i - 1].timer] == q.heap[batch[i].timer]
  {
    var rest := batch[1..];
    var a := batch[0].timer;
    var q1 := RecycleOne(q, a, now);
    HeldAlive(q, batch);
    HeadAndRest(batch);
    RecycleOneKeepsSafe(q, Addresses(rest), a, now);
    RecycleOneFrame(q, Addresses(rest), a, now);
    HeldAlive(q1, rest);
    forall i | 0 < i < |batch|
      ensures q1.heap[rest[i - 1].timer] == q.heap[batch[i].timer]
    {
      assert rest[i - 1] in rest;
      assert rest[i - 1].timer in Addresses(rest);
    }
  }

  lemma {:induction false} RecycleDeletes(q: Queue, batch: seq<Entry>, now: int, n: nat)
    requires Safe(q, Addresses(batch)) && DistinctTimers(batch)
    ensures HeldInHeap(q, batch)
    ensures n in Recycle(q, batch, now).freed <==> n in q.freed || Doomed(q, batch, n)
    decreases |batch|
  {
    HeldAlive(q, batch);
    if batch != [] {
      var q1 := RecycleOne(q, batch[0].timer, now);
      RecycleHead(q, batch, now);
      DoomedLater(q, q1, batch, n);
      RecycleDeletes(q1, batch[1..], now, n);
    }
  }

  lemma RecycleEffect(q: Queue, batch: seq<Entry>, now: int, n: nat)
    requires Safe(q, Addresses(batch)) && DistinctTimers(batch)
    ensures var q' := Recycle(q, batch, now);
      && HeldInHeap(q, batch)
      && q'.log == q.log && q'.history == q.history && q'.clock == q.clock
      && (n in q'.freed <==> n in q.freed || Doomed(q, batch, n))
  {
    RecycleFrame(q, batch, now);
    RecycleDeletes(q, batch, now, n);
  }

  lemma {:induction false} SameSequences(q: Queue, q': Queue, batch: seq<Entry>, k: nat)
    requires k <= |batch| && KeepsHeld(q, q', batch)
    ensures Sequences(q', batch, k) == Sequences(q, batch, k)
  {
    if k > 0 {
      SameSequences(q, q', batch, k - 1);
    }
  }

  lemma DueByAddress(q: Queue, batch: seq<Entry>, rest: seq<Entry>, t: int, a: Address)
    requires Safe(q, {}) && HeldInHeap(q, batch) && batch + rest == q.timers && a in q.heap
    requires forall e :: e in q.timers ==> (e in batch <==> e.when <= t)
    ensures var fires := InIndex(q, a) && q.heap[a].expiration <= t;
      && RunsIn(q, batch, |batch|, q.heap[a].sequence, t) == (if fires then [t] else [])
      && (fires ==> a in Addresses(batch))
  {
    if InIndex(q, a) && q.heap[a].expiration <= t {
      assert Entry(q.heap[a].expiration, a) in batch;
    }
    forall i | 0 <= i < |batch| && q.heap[batch[i].timer].sequence == q.heap[a].sequence
      ensures batch[i] == Entry(q.heap[a].expiration, a) && batch[i] in q.timers && batch[i].when <= t
    {
      assert batch[i] in batch + rest;
      assert batch[i] in batch;
    }
  }

  lemma Fate(q: Queue, batch: seq<Entry>, a: Address)
    requires Safe(q, Addresses(batch)) && HeldInHeap(q, batch) && a in Addresses(batch) && a in q.heap
    ensures Doomed(q, batch, q.heap[a].sequence) <==> !Survives(q, a)
  {
    var e :| e in batch && e.timer == a;
    var i :| 0 <= i < |batch| && batch[i] == e;
    assert forall k :: 0 <= k < |batch| && q.heap[batch[k].timer].sequence == q.heap[a].sequence ==>
                         batch[k].timer == a;
  }

  /** What the callbacks of a firing add to the runs of any timer created before it. */
  lemma CalledHistory(q: Queue, now: int, scripts: seq<seq<Op>>, n: nat)
    requires Safe(q, {}) && n < |q.history|
    ensures var q3 := Called(q, now, scripts);
      var due := Due(q, now);
      && HeldInHeap(q, due) && n < |q3.history| && q.freed <= q3.freed
      && q3.log == q.log + Sequences(q, due, |due|)
      && q3.history[n] == q.history[n].(runs := q.history[n].runs + RunsIn(q, due, |due|, n, Max(q.clock, now)))
  {
    var due := Due(q, now);
    var q2 := Opened(q, now);
    CalledFired(q, now, scripts);
    SameSequences(q, q2, due, |due|);
    var r := RunBatch(q2, due, 0, scripts, Max(q.clock, now));
    assert r.log == q2.log + Sequences(q2, due, |due|);
    assert r.history[n] == q2.history[n].(runs := q2.history[n].runs + RunsIn(q2, due, |due|, n, Max(q.clock, now)));
  }

  lemma CalledFired(q: Queue, now: int, scripts: seq<seq<Op>>)
    requires Safe(q, {})
    ensures var q2 := Opened(q, now);
      var due := Due(q, now);
      HeldInHeap(q, due) && Fired(q2, RunBatch(q2, due, 0, scripts, Max(q.clock, now)), due, |due|, Max(q.clock, now))
  {
    OpenedIsSafe(q, now);
    DueIsExact(q, now);
    HeldAlive(Opened(q, now), Due(q, now));
    RunBatchRuns(Opened(q, now), Due(q, now), scripts, Max(q.clock, now));
  }

  lemma RecycledHistory(q: Queue, now: int, scripts: seq<seq<Op>>, later: int)
    requires Safe(q, {})
    ensures var q' := HandleRead(q, now, scripts, later);
      var q3 := Called(q, now, scripts);
      q'.history == q3.history && q'.log == q3.log
  {
    DueIsExact(q, now);
    CalledIsSafe(q, now, scripts);
    RecycleEffect(Called(q, now, scripts), Due(q, now), Max(q.clock, now), 0);
    Stages(q, now, scripts, later);
  }

  lemma DeletionsStay(q: Queue, now: int, scripts: seq<seq<Op>>, later: int, n: nat)
    requires Safe(q, {}) && n in Called(q, now, scripts).freed
    ensures n in HandleRead(q, now, scripts, later).freed
  {
    DueIsExact(q, now);
    CalledIsSafe(q, now, scripts);
    RecycleEffect(Called(q, now, scripts), Due(q, now), Max(q.clock, now), n);
    Stages(q, now, scripts, later);
  }

  /** A timer that fires is deleted unless it repeats and was not cancelled. */
  lemma FiringFate(q: Queue, now: int, scripts: seq<seq<Op>>, later: int, a: Address)
    requires Safe(q, {}) && a in q.heap && InIndex(q, a) && q.heap[a].expiration <= Max(q.clock, now)
    ensures q.heap[a].sequence !in HandleRead(q, now, scripts, later).freed
       <==> q.heap[a].repeat && !Cancels(scripts, |Due(q, now)|, TimerId(a, q.heap[a].sequence))
  {
    var due := Due(q, now);
    var n := q.heap[a].sequence;
    Stages(q, now, scripts, later);
    DueIsExact(q, now);
    assert Entry(q.heap[a].expiration, a) in due;
    UnchangedByBatch(q, now, scripts, a);
    CancelledInBatch(q, now, scripts, a);
    CalledIsSafe(q, now, scripts);
    FateOf(Called(q, now, scripts), due, Max(q.clock, now), a);
  }

  lemma FateOf(q: Queue, batch: seq<Entry>, now: int, a: Address)
    requires Safe(q, Addresses(batch)) && DistinctTimers(batch) && a in Addresses(batch) && a in q.heap
    ensures q.heap[a].sequence in Recycle(q, batch, now).freed <==> !Survives(q, a)
  {
    HeldAlive(q, batch);
    RecycleEffect(q, batch, now, q.heap[a].sequence);
    Fate(q, batch, a);
    assert Alive(q, q.heap[a].sequence);
  }

  lemma CancelledInBatch(q: Queue, now: int, scripts: seq<seq<Op>>, a: Address)
    requires Safe(q, {}) && a in q.heap && a in Addresses(Due(q, now))
    ensures var id := TimerId(a, q.heap[a].sequence);
      id in Called(q, now, scripts).canceling <==> Cancels(scripts, |Due(q, now)|, id)
  {
    OpenedIsSafe(q, now);
    RunBatchRemembers(Opened(q, now), Due(q, now), scripts, Max(q.clock, now), TimerId(a, q.heap[a].sequence));
  }

  lemma UnchangedByBatch(q: Queue, now: int, scripts: seq<seq<Op>>, a: Address)
    requires Safe(q, {}) && a in q.heap && a in Addresses(Due(q, now))
    ensures a in Called(q, now, scripts).heap && Called(q, now, scripts).heap[a] == q.heap[a]
  {
    var due := Due(q, now);
    DueIsExact(q, now);
    OpenedIsSafe(q, now);
    RunBatchRuns(Opened(q, now), due, scripts, Max(q.clock, now));
    var e :| e in due && e.timer == a;
    var i :| 0 <= i < |due| && due[i] == e;
  }

  /** One firing: exactly the due timers run, each once, in the order of their expirations (and of
      their addresses when equal), including those cancelled by an earlier callback of the batch;
      afterwards a fired timer still exists exactly when it repeats and no callback of the batch
      cancelled it by its own id. */
  lemma {:induction false} FiringIsExact(q: Queue, now: int, scripts: seq<seq<Op>>, later: int, a: Address)
    requires Safe(q, {}) && a in q.heap
    ensures var q' := HandleRead(q, now, scripts, later);
      var t := Max(q.clock, now);
      var n := q.heap[a].sequence;
      var fires := InIndex(q, a) && q.heap[a].expiration <= t;
      && (forall e :: e in q.timers ==> (e in Due(q, now) <==> e.when <= t)) && Sorted(Due(q, now))
      && HeldInHeap(q, Due(q, now)) && q'.log == q.log + Sequences(q, Due(q, now), |Due(q, now)|)
      && n < |q'.history| && q'.history[n].runs == q.history[n].runs + (if fires then [t] else [])
      && (fires ==> (n !in q'.freed <==> q.heap[a].repeat && !Cancels(scripts, |Due(q, now)|, TimerId(a, n))))
  {
    CalledHistory(q, now, scripts, q.heap[a].sequence);
    RecycledHistory(q, now, scripts, later);
    DueIsExact(q, now);
    DueByAddress(q, Due(q, now), Opened(q, now).timers, Max(q.clock, now), a);
    if InIndex(q, a) && q.heap[a].expiration <= Max(q.clock, now) {
      FiringFate(q, now, scripts, later, a);
    }
  }

  // ---- Cancelling ----

  lemma FreedStays(q: Queue, e: Event, n: nat)
    requires Safe(q, {}) && n in q.freed
    ensures n < |q.history| && n < |Step(q, e).history|
    ensures n in Step(q, e).freed && Step(q, e).history[n] == q.history[n]
  {
    match e
    case Act(op) => DoFrame(q, {}, op);
    case Fire(now, scripts, later) =>
      assert !Alive(q, n);
      CalledHistory(q, now, scripts, n);
      RecycledHistory(q, now, scripts, later);
      DeletionsStay(q, now, scripts, later, n);
  }

  /** A deleted timer never runs again, whoever lives at its address. */
  lemma {:induction false} NeverAgain(q: Queue, es: seq<Event>, n: nat)
    requires Safe(q, {}) && n in q.freed
    ensures n < |q.history| && n < |Run(q, es).history| && Run(q, es).history[n] == q.history[n]
    decreases |es|
  {
    if es != [] {
      StepKeepsSafe(q, es[0]);
      FreedStays(q, es[0], n);
      NeverAgain(Step(q, es[0]), es[1..], n);
    }
  }

  /** Cancelling a living timer deletes it exactly when its insertion has run and it is not in the batch
      that is firing. */
  lemma CancelWorksOnceInserted(q: Queue, held: set<Address>, id: TimerId)
    requires Safe(q, held) && id.timer in q.heap && q.heap[id.timer].sequence == id.sequence
    ensures id.sequence in CancelInLoop(q, id).freed <==> id.timer !in q.posted && id.timer !in held
  {
    CancelKeepsSafe(q, held, id);
    assert Alive(q, id.sequence);
    assert id in q.active <==> InIndex(q, id.timer);
  }

  /** Cancelling outside a firing is final. */
  lemma CancelIsFinal(q: Queue, id: TimerId, es: seq<Event>)
    requires Safe(q, {}) && id in q.active
    ensures var q' := Do(q, Cancel(id));
      id.sequence < |q.history| && id.sequence < |Run(q', es).history|
      && Run(q', es).history[id.sequence] == q.history[id.sequence]
  {
    CancelKeepsSafe(q, {}, id);
    NeverAgain(Do(q, Cancel(id)), es, id.sequence);
  }

  /** An id that names no indexed timer (deleted, never inserted, default, or of a timer that is being
      fired) leaves both indexes and every timer as they are, between events and from any callback. What
      it may leave behind suppresses the repeat of no other timer, whoever lives at its address. */
  lemma StaleCancel(q: Queue, held: set<Address>, id: TimerId)
    requires Safe(q, held)
    requires !(id.timer in q.heap && q.heap[id.timer].sequence == id.sequence && InIndex(q, id.timer))
    ensures var q' := CancelInLoop(q, id);
      && q' == q.(canceling := if q.calling then q.canceling + {id} else q.canceling)
      && forall a :: a in q.heap && IdOf(q, a) != id ==> (Survives(q', a) <==> Survives(q, a))
  {}

  // Cancelling a timer from a callback, whenever the timer was added.

  /** A deleted timer stays as it is for the rest of the batch. */
  lemma RunBatchLeaves(q: Queue, batch: seq<Entry>, i: nat, scripts: seq<seq<Op>>, now: int, n: nat)
    requires i <= |batch| && Safe(q, Addresses(batch)) && n in q.freed
    ensures var q' := RunBatch(q, batch, i, scripts, now);
      && Safe(q', Addresses(batch)) && n in q'.freed
      && n < |q.history| && n < |q'.history| && q'.history[n] == q.history[n]
  {
    var p := (s: Queue, k: nat) =>
      Safe(s, Addresses(batch)) && n in s.freed && n < |q.history| && n < |s.history| && s.history[n] == q.history[n];
    forall s: Queue, k: nat | i <= k < |batch| && p(s, k)
      ensures p(Turn(s, batch, k, scripts, now), k + 1)
    {
      TurnLeaves(s, batch, k, scripts, now, n);
    }
    assert !Alive(q, n);
    BatchInduction(p, q, batch, i, scripts, now);
  }

  lemma TurnLeaves(q: Queue, batch: seq<Entry>, i: nat, scripts: seq<seq<Op>>, now: int, n: nat)
    requires i < |batch| && Safe(q, Addresses(batch)) && n in q.freed
    ensures var q' := Turn(q, batch, i, scripts, now);
      && Safe(q', Addresses(batch)) && n in q'.freed
      && n < |q.history| && n < |q'.history| && q'.history[n] == q.history[n]
  {
    TurnKeepsSafe(q, batch, i, scripts, now);
    TurnEffect(q, batch, i, scripts, now);
    assert Alive(q, q.heap[batch[i].timer].sequence);
  }

  /** The rest of a firing: the rest of the script, of the batch, and reset. */
  function RestOfFiring(q: Queue, ops: seq<Op>, batch: seq<Entry>, i: nat, scripts: seq<seq<Op>>,
                        now: int, later: int): Queue
    requires i <= |batch|
  {
    Rearm(Tick(Recycle(RunBatch(DoAll(q, ops), batch, i, scripts, now).(calling := false), batch, now), later))
  }

  lemma RestLeaves(q: Queue, ops: seq<Op>, batch: seq<Entry>, i: nat, scripts: seq<seq<Op>>,
                   now: int, later: int, n: nat)
    requires i <= |batch| && Safe(q, Addresses(batch)) && DistinctTimers(batch) && n in q.freed
    ensures var q' := RestOfFiring(q, ops, batch, i, scripts, now, later);
      && Safe(q', {}) && n in q'.freed
      && n < |q.history| && n < |q'.history| && q'.history[n] == q.history[n]
  {
    var q1 := DoAll(q, ops);
    assert !Alive(q, n);
    DoAllKeepsSafe(q, Addresses(batch), ops);
    DoAllFrame(q, Addresses(batch), ops);
    RunBatchLeaves(q1, batch, i, scripts, now, n);
    ResetLeaves(RunBatch(q1, batch, i, scripts, now), batch, now, later, n);
  }

  lemma ResetLeaves(q: Queue, batch: seq<Entry>, now: int, later: int, n: nat)
    requires Safe(q, Addresses(batch)) && DistinctTimers(batch) && n in q.freed
    ensures var q' := Rearm(Tick(Recycle(q.(calling := false), batch, now), later));
      Safe(q', {}) && n in q'.freed && q'.history == q.history
  {
    var q1 := q.(calling := false);
    SameTimers(q, q1, Addresses(batch));
    RecycleKeepsSafe(q1, batch, now);
    RecycleEffect(q1, batch, now, n);
    var q2 := Recycle(q1, batch, now);
    SameTimers(q2, Tick(q2, later), {});
    RearmKeepsSafe(Tick(q2, later), {});
  }

  /** At any point of any callback: cancelling a timer that is in the index then, were it added before the
      firing or by a callback of the same batch, freezes its record for the rest of the firing and of
      every run. */
  lemma CancelMidBatchIsFinal(q: Queue, id: TimerId, ops: seq<Op>, batch: seq<Entry>, i: nat, scripts: seq<seq<Op>>,
                              now: int, later: int, es: seq<Event>)
    requires i <= |batch| && Safe(q, Addresses(batch)) && DistinctTimers(batch) && id in q.active
    ensures var q' := Run(RestOfFiring(CancelInLoop(q, id), ops, batch, i, scripts, now, later), es);
      id.sequence < |q.history| && id.sequence < |q'.history|
      && q'.history[id.sequence] == q.history[id.sequence]
  {
    var q1 := CancelInLoop(q, id);
    CancelKeepsSafe(q, Addresses(batch), id);
    assert id.sequence in q1.freed && q1.history == q.history;
    RestLeaves(q1, ops, batch, i, scripts, now, later, id.sequence);
    NeverAgain(RestOfFiring(q1, ops, batch, i, scripts, now, later), es, id.sequence);
  }

  lemma {:induction false} RunBatchInTwo(q: Queue, batch: seq<Entry>, i: nat, k: nat, scripts: seq<seq<Op>>, now: int)
    requires i <= k <= |batch|
    ensures RunBatch(q, batch, i, scripts, now)
         == RunBatch(RunBatch(q, batch[..k], i, scripts, now), batch, k, scripts, now)
    decreases k - i
  {
    if i < k {
      RunBatchInTwo(Turn(q, batch, i, scripts, now), batch, i + 1, k, scripts, now);
    }
  }

  lemma {:induction false} DoAllJoin(q: Queue, a: seq<Op>, b: seq<Op>)
    ensures DoAll(q, a + b) == DoAll(DoAll(q, a), b)
    decreases |a|
  {
    if a == [] {
      assert a + b == b;
    } else {
      assert (a + b)[1..] == a[1..] + b;
      DoAllJoin(Do(q, a[0]), a[1..], b);
    }
  }

  /** What the k-th callback of a firing sees after the first part of its script. */
  function Meanwhile(q: Queue, now: int, scripts: seq<seq<Op>>, k: nat, before: seq<Op>): Queue
    requires k < |Due(q, now)|
  {
    var t := Max(q.clock, now);
    DoAll(Ran(RunBatch(Opened(q, now), Due(q, now)[..k], 0, scripts, t), Due(q, now)[k].timer, t), before)
  }

  lemma MeanwhileIsSafe(q: Queue, now: int, scripts: seq<seq<Op>>, k: nat, before: seq<Op>)
    requires Safe(q, {}) && k < |Due(q, now)|
    ensures Safe(Meanwhile(q, now, scripts, k, before), Addresses(Due(q, now)))
  {
    var batch := Due(q, now);
    var t := Max(q.clock, now);
    OpenedIsSafe(q, now);
    RunFirstKeepsSafe(Opened(q, now), batch, k, scripts, t);
    var s := RunBatch(Opened(q, now), batch[..k], 0, scripts, t);
    TurnKeepsSafe(s, batch, k, scripts, t);
    DoAllKeepsSafe(Ran(s, batch[k].timer, t), Addresses(batch), before);
  }

  lemma RunFirstKeepsSafe(q: Queue, batch: seq<Entry>, k: nat, scripts: seq<seq<Op>>, now: int)
    requires k <= |batch| && Safe(q, Addresses(batch))
    ensures Safe(RunBatch(q, batch[..k], 0, scripts, now), Addresses(batch))
  {
    var p := (s: Queue, j: nat) => Safe(s, Addresses(batch));
    forall s: Queue, j: nat | 0 <= j < |batch[..k]| && p(s, j)
      ensures p(Turn(s, batch[..k], j, scripts, now), j + 1)
    {
      TurnKeepsSafe(s, batch, j, scripts, now);
    }
    BatchInduction(p, q, batch[..k], 0, scripts, now);
  }

  /** A firing, cut at a cancellation in one of its callbacks. */
  lemma FiringCutAtCancel(q: Queue, now: int, scripts: seq<seq<Op>>, later: int, k: nat, before: seq<Op>,
                          id: TimerId, ops: seq<Op>)
    requires Safe(q, {}) && k < |Due(q, now)| && Script(scripts, k) == before + ([Cancel(id)] + ops)
    ensures HandleRead(q, now, scripts, later)
         == RestOfFiring(CancelInLoop(Meanwhile(q, now, scripts, k, before), id), ops, Due(q, now), k + 1, scripts,
                         Max(q.clock, now), later)
  {
    var batch := Due(q, now);
    var t := Max(q.clock, now);
    var s := RunBatch(Opened(q, now), batch[..k], 0, scripts, t);
    Stages(q, now, scripts, later);
    RunBatchInTwo(Opened(q, now), batch, 0, k, scripts, t);
    DoAllJoin(Ran(s, batch[k].timer, t), before, [Cancel(id)] + ops);
    assert ([Cancel(id)] + ops)[1..] == ops;
  }

  /** So over whole firings: a timer in the index when a callback cancels it, also one that a callback of
      the same batch added, keeps the record it has then, for ever. */
  lemma CancelFromCallbackIsFinal(q: Queue, now: int, scripts: seq<seq<Op>>, later: int, k: nat, before: seq<Op>,
                                  id: TimerId, ops: seq<Op>, es: seq<Event>)
    requires Safe(q, {}) && k < |Due(q, now)| && Script(scripts, k) == before + ([Cancel(id)] + ops)
    requires id in Meanwhile(q, now, scripts, k, before).active
    ensures var s := Meanwhile(q, now, scripts, k, before);
      var q' := Run(HandleRead(q, now, scripts, later), es);
      && id.sequence < |s.history| && id.sequence < |q'.history|
      && q'.history[id.sequence] == s.history[id.sequence]
  {
    var s := Meanwhile(q, now, scripts, k, before);
    DueIsExact(q, now);
    MeanwhileIsSafe(q, now, scripts, k, before);
    FiringCutAtCancel(q, now, scripts, later, k, before, id, ops);
    CancelMidBatchIsFinal(s, id, ops, Due(q, now), k + 1, scripts, Max(q.clock, now), later, es);
  }

  /** Alive in the index, or already deleted: in either case a cancellation leaves it deleted. */
  lemma DoCancels(q: Queue, held: set<Address>, op: Op, id: TimerId)
    requires Safe(q, held) && (id in q.active || id.sequence in q.freed)
    ensures var q' := Do(q, op);
      (id in q'.active || id.sequence in q'.freed) && (op == Cancel(id) ==> id.sequence in q'.freed)
  {
    DoFrame(q, held, op);
    if op.Cancel? && op.id in q.active && id in q.active && op.id != id {
      assert op.id.timer != id.timer;
    }
  }

  lemma DeletedStays(q: Queue, held: set<Address>, ops: seq<Op>, n: nat)
    requires Safe(q, held)
    ensures n in q.freed ==> n in DoAll(q, ops).freed
  {
    DoAllFrame(q, held, ops);
  }

  lemma {:induction false} DoAllCancels(q: Queue, held: set<Address>, ops: seq<Op>, id: TimerId)
    requires Safe(q, held) && (id in q.active || id.sequence in q.freed)
    ensures var q' := DoAll(q, ops);
      (id in q'.active || id.sequence in q'.freed) && (Cancel(id) in ops ==> id.sequence in q'.freed)
    decreases |ops|
  {
    if ops != [] {
      var q1 := Do(q, ops[0]);
      DoKeepsSafe(q, held, ops[0]);
      DoCancels(q, held, ops[0], id);
      DoAllCancels(q1, held, ops[1..], id);
      DeletedStays(q1, held, ops[1..], id.sequence);
      assert Cancel(id) in ops <==> Cancel(id) == ops[0] || Cancel(id) in ops[1..] by {
        assert ops == [ops[0]] + ops[1..];
      }
    }
  }

  lemma RunBatchCancels(q: Queue, batch: seq<Entry>, scripts: seq<seq<Op>>, now: int, id: TimerId)
    requires Safe(q, Addresses(batch)) && id in q.active
    ensures Cancels(scripts, |batch|, id) ==> id.sequence in RunBatch(q, batch, 0, scripts, now).freed
  {
    var p := (s: Queue, k: nat) =>
      && Safe(s, Addresses(batch)) && (id in s.active || id.sequence in s.freed)
      && (Cancels(scripts, k, id) ==> id.sequence in s.freed);
    forall s: Queue, k: nat | 0 <= k < |batch| && p(s, k)
      ensures p(Turn(s, batch, k, scripts, now), k + 1)
    {
      TurnKeepsSafe(s, batch, k, scripts, now);
      TurnEffect(s, batch, k, scripts, now);
      DoAllCancels(Ran(s, batch[k].timer, now), Addresses(batch), Script(scripts, k), id);
      CancelsNext(scripts, k, id);
    }
    BatchInduction(p, q, batch, 0, scripts, now);
  }

  /** Cancelling from a callback is final too: a timer of the same batch runs in that batch, whether
      its turn is before or after, and then never again; any other runs no more at all. */
  lemma CancelWhileFiringIsFinal(q: Queue, now: int, scripts: seq<seq<Op>>, later: int, id: TimerId, es: seq<Event>)
    requires Safe(q, {}) && id in q.active
    requires Cancels(scripts, |Due(q, now)|, id)
    ensures var q' := Run(HandleRead(q, now, scripts, later), es);
      var t := Max(q.clock, now);
      id.sequence < |q.history| && id.sequence < |q'.history|
      && q'.history[id.sequence].runs
         == q.history[id.sequence].runs + (if q.heap[id.timer].expiration <= t then [t] else [])
  {
    var t := Max(q.clock, now);
    FiringIsExact(q, now, scripts, later, id.timer);
    var q' := HandleRead(q, now, scripts, later);
    StepKeepsSafe(q, Fire(now, scripts, later));
    if q.heap[id.timer].expiration > t {
      LaterCancelled(q, now, scripts, later, id);
    }
    assert Step(q, Fire(now, scripts, later)) == q';
    NeverAgain(q', es, id.sequence);
  }

  lemma LaterStaysActive(q: Queue, now: int, id: TimerId)
    requires Safe(q, {}) && id in q.active && q.heap[id.timer].expiration > Max(q.clock, now)
    ensures id in Opened(q, now).active
  {
    DueIsExact(q, now);
    forall e | e in Due(q, now)
      ensures IdOf(q, e.timer) != id
    {
      assert e in q.timers;
    }
  }

  lemma LaterCancelled(q: Queue, now: int, scripts: seq<seq<Op>>, later: int, id: TimerId)
    requires Safe(q, {}) && id in q.active && q.heap[id.timer].expiration > Max(q.clock, now)
    requires Cancels(scripts, |Due(q, now)|, id)
    ensures id.sequence in HandleRead(q, now, scripts, later).freed
  {
    var due := Due(q, now);
    OpenedIsSafe(q, now);
    LaterStaysActive(q, now, id);
    RunBatchCancels(Opened(q, now), due, scripts, Max(q.clock, now), id);
    DeletionsStay(q, now, scripts, later, id.sequence);
  }

  /** Cancelling a timer whose insertion is still posted is lost: the timer is inserted and fires
      all the same. */
  lemma CancelBeforeInsertionIsLost(q: Queue, id: TimerId, now: int, later: int)
    requires Safe(q, {}) && id.timer in q.posted && q.heap[id.timer].sequence == id.sequence
    requires q.heap[id.timer].expiration <= Max(q.clock, now)
    ensures var q' := HandleRead(Do(Do(q, Cancel(id)), Add(id.timer)), now, [], later);
      id.sequence < |q.history| && id.sequence < |q'.history|
      && q'.history[id.sequence].runs == q.history[id.sequence].runs + [Max(q.clock, now)]
  {
    var a := id.timer;
    assert id !in q.active by {
      assert !InIndex(q, a);
    }
    var q0 := Do(q, Cancel(id));
    var q1 := Do(q0, Add(a));
    DoKeepsSafe(q, {}, Cancel(id));
    DoKeepsSafe(q0, {}, Add(a));
    DoFrame(q, {}, Cancel(id));
    DoFrame(q0, {}, Add(a));
    InsertEffect(q0.timers, Entry(q.heap[a].expiration, a));
    assert InIndex(q1, a) && q1.clock == q.clock;
    FiringIsExact(q1, now, [], later, a);
  }

  lemma EmptyIsSafe(clock: int)
    ensures Safe(Empty(clock), {})
  {}

  lemma RunCons(q: Queue, e: Event, es: seq<Event>)
    ensures Run(q, [e] + es) == Run(Step(q, e), es)
  {
    assert ([e] + es)[1..] == es;
  }

  // ---- Pace ----

  function Last(runs: seq<int>): int
    requires runs != []
  {
    runs[|runs| - 1]
  }

  /** No run before the first expiration, and consecutive runs at least an interval apart. */
  ghost predicate Spaced(r: Record) {
    && (r.runs != [] ==> r.runs[0] >= r.first)
    && (forall i :: 0 < i < |r.runs| ==> r.runs[i - 1] + Micros(r.interval) <= r.runs[i])
  }

  /** The time before which a timer with this record must not run. */
  function NotBefore(r: Record): int {
    if r.runs == [] then r.first else Last(r.runs) + Micros(r.interval)
  }

  /** Timers wait for their time; those in `ran` have run at `now` and are not restarted yet. */
  ghost predicate Paced(q: Queue, ran: set<Address>, now: int) {
    && (forall n :: 0 <= n < |q.history| ==> Spaced(q.history[n]))
    && (forall n :: 0 <= n < |q.history| && q.history[n].runs != [] ==> Last(q.history[n].runs) <= q.clock)
    && (forall a :: a in q.heap ==> q.heap[a].sequence < |q.history|)
    && (forall a :: a in q.heap && a !in ran ==> q.heap[a].expiration >= NotBefore(q.history[q.heap[a].sequence]))
    && (forall a :: a in q.heap && a in ran ==>
          q.history[q.heap[a].sequence].runs != [] && Last(q.history[q.heap[a].sequence].runs) == now)
  }

  lemma DoKeepsPaced(q: Queue, held: set<Address>, op: Op, ran: set<Address>, now: int)
    requires Safe(q, held) && Paced(q, ran, now) && ran <= held
    ensures Paced(Do(q, op), ran, now)
  {
    if Possible(q, op) {
      match op
      case Create(a, when, interval) => NewKeepsPaced(q, a, when, interval, ran, now);
      case _ => DoFrame(q, held, op);
    }
  }

  lemma NewKeepsPaced(q: Queue, a: Address, when: int, interval: real, ran: set<Address>, now: int)
    requires Paced(q, ran, now) && a !in q.heap && a !in ran
    ensures Paced(NewTimer(q, a, when, interval), ran, now)
  {}

  lemma {:induction false} DoAllKeepsPaced(q: Queue, held: set<Address>, ops: seq<Op>, ran: set<Address>, now: int)
    requires Safe(q, held) && Paced(q, ran, now) && ran <= held
    ensures Paced(DoAll(q, ops), ran, now)
    decreases |ops|
  {
    if ops != [] {
      DoKeepsSafe(q, held, ops[0]);
      DoKeepsPaced(q, held, ops[0], ran, now);
      DoAllKeepsPaced(Do(q, ops[0]), held, ops[1..], ran, now);
    }
  }

  lemma RanKeepsPaced(q: Queue, a: Address, ran: set<Address>, now: int)
    requires Named(q) && Paced(q, ran, now) && a in q.heap && a !in ran
    requires q.heap[a].expiration <= now <= q.clock
    ensures Paced(Ran(q, a, now), ran + {a}, now)
  {}

  ghost predicate PacedLoop(q: Queue, s: Queue, batch: seq<Entry>, k: nat, now: int) {
    && k <= |batch| && Safe(s, Addresses(batch)) && KeepsHeld(q, s, batch) && now <= s.clock
    && Paced(s, Addresses(batch[..k]), now)
  }

  lemma TurnKeepsPaced(q: Queue, s: Queue, batch: seq<Entry>, k: nat, scripts: seq<seq<Op>>, now: int)
    requires k < |batch| && DistinctTimers(batch) && PacedLoop(q, s, batch, k, now)
    requires q.heap[batch[k].timer].expiration <= now
    ensures PacedLoop(q, Turn(s, batch, k, scripts, now), batch, k + 1, now)
  {
    var a := batch[k].timer;
    TurnKeepsSafe(s, batch, k, scripts, now);
    TurnEffect(s, batch, k, scripts, now);
    NextAddress(batch, k);
    RanKeepsPaced(s, a, Addresses(batch[..k]), now);
    DoAllKeepsPaced(Ran(s, a, now), Addresses(batch), Script(scripts, k), Addresses(batch[..k + 1]), now);
  }

  lemma NextAddress(batch: seq<Entry>, k: nat)
    requires k < |batch| && DistinctTimers(batch)
    ensures Addresses(batch[..k + 1]) == Addresses(batch[..k]) + {batch[k].timer}
    ensures batch[k].timer !in Addresses(batch[..k]) && Addresses(batch[..k + 1]) <= Addresses(batch)
  {
    assert batch[..k + 1] == batch[..k] + [batch[k]];
    forall e | e in batch[..k]
      ensures e.timer != batch[k].timer
    {
      var i :| 0 <= i < k && batch[i] == e;
    }
  }

  lemma RunBatchKeepsPaced(q: Queue, batch: seq<Entry>, scripts: seq<seq<Op>>, now: int)
    requires Safe(q, Addresses(batch)) && DistinctTimers(batch) && HeldInHeap(q, batch)
    requires Paced(q, {}, now) && now <= q.clock
    requires forall i :: 0 <= i < |batch| ==> q.heap[batch[i].timer].expiration <= now
    ensures Paced(RunBatch(q, batch, 0, scripts, now), Addresses(batch), now)
  {
    assert Addresses(batch[..0]) == {};
    assert PacedLoop(q, q, batch, 0, now);
    var p := (s: Queue, k: nat) => PacedLoop(q, s, batch, k, now);
    forall s: Queue, k: nat | 0 <= k < |batch| && p(s, k)
      ensures p(Turn(s, batch, k, scripts, now), k + 1)
    {
      TurnKeepsPaced(q, s, batch, k, scripts, now);
    }
    BatchInduction(p, q, batch, 0, scripts, now);
    assert PacedLoop(q, RunBatch(q, batch, 0, scripts, now), batch, |batch|, now);
    assert batch[..|batch|] == batch;
  }

  /** A restarted timer waits a whole interval from `now`, not from its last expiration. */
  lemma RecycleOneKeepsPaced(q: Queue, held: set<Address>, a: Address, now: int)
    requires Safe(q, held + {a}) && a !in held && Paced(q, held + {a}, now)
    ensures Paced(RecycleOne(q, a, now), held, now)
  {
    assert a in held + {a};
    RecycleOneFrame(q, held, a, now);
    var q' := RecycleOne(q, a, now);
    forall b | b in q'.heap && b !in held
      ensures q'.heap[b].expiration >= NotBefore(q'.history[q'.heap[b].sequence])
    {
      assert b != a ==> b !in held + {a};
    }
  }

  lemma {:induction false} RecycleKeepsPaced(q: Queue, batch: seq<Entry>, now: int)
    requires Safe(q, Addresses(batch)) && DistinctTimers(batch) && Paced(q, Addresses(batch), now)
    ensures Paced(Recycle(q, batch, now), {}, now)
    decreases |batch|
  {
    if batch == [] {
      assert Addresses(batch) == {};
    } else {
      HeadAndRest(batch);
      RecycleOneKeepsSafe(q, Addresses(batch[1..]), batch[0].timer, now);
      RecycleOneKeepsPaced(q, Addresses(batch[1..]), batch[0].timer, now);
      RecycleKeepsPaced(RecycleOne(q, batch[0].timer, now), batch[1..], now);
    }
  }

  lemma DueHaveExpired(q: Queue, now: int)
    requires Safe(q, {})
    ensures HeldInHeap(Opened(q, now), Due(q, now))
    ensures forall i :: 0 <= i < |Due(q, now)| ==>
              Opened(q, now).heap[Due(q, now)[i].timer].expiration <= Max(q.clock, now)
  {
    DueIsExact(q, now);
    forall i | 0 <= i < |Due(q, now)|
      ensures Due(q, now)[i] in q.timers && Due(q, now)[i].when <= Max(q.clock, now)
    {
      assert Due(q, now)[i] in Due(q, now);
    }
  }

  lemma OpenedIsPaced(q: Queue, now: int, t: int)
    requires Safe(q, {}) && Paced(q, {}, 0)
    ensures Paced(Opened(q, now), {}, t)
  {}

  lemma CalledIsPaced(q: Queue, now: int, scripts: seq<seq<Op>>)
    requires Safe(q, {}) && Paced(q, {}, 0)
    ensures Paced(Called(q, now, scripts), Addresses(Due(q, now)), Max(q.clock, now))
  {
    var t := Max(q.clock, now);
    DueIsExact(q, now);
    OpenedIsSafe(q, now);
    OpenedIsPaced(q, now, t);
    DueHaveExpired(q, now);
    RunBatchKeepsPaced(Opened(q, now), Due(q, now), scripts, t);
    var r := RunBatch(Opened(q, now), Due(q, now), 0, scripts, t);
    PacedWhoever(r, Called(q, now, scripts), Addresses(Due(q, now)), t);
  }

  /** Only the timers and their records matter, and that the clock has not gone back. */
  lemma PacedWhoever(q: Queue, q': Queue, ran: set<Address>, now: int)
    requires Paced(q, ran, now) && q'.heap == q.heap && q'.history == q.history && q'.clock >= q.clock
    ensures Paced(q', ran, now)
  {}

  lemma FireKeepsPaced(q: Queue, now: int, scripts: seq<seq<Op>>, later: int)
    requires Safe(q, {}) && Paced(q, {}, 0)
    ensures Paced(HandleRead(q, now, scripts, later), {}, 0)
  {
    Stages(q, now, scripts, later);
    DueIsExact(q, now);
    CalledIsSafe(q, now, scripts);
    CalledIsPaced(q, now, scripts);
    RecycleKeepsPaced(Called(q, now, scripts), Due(q, now), Max(q.clock, now));
    var r := Recycled(q, now, scripts);
    NobodyRan(r, Max(q.clock, now), 0);
    PacedWhoever(r, Rearm(Tick(r, later)), {}, 0);
  }

  lemma NobodyRan(q: Queue, now: int, now': int)
    requires Paced(q, {}, now)
    ensures Paced(q, {}, now')
  {}

  lemma StepKeepsPaced(q: Queue, e: Event)
    requires Safe(q, {}) && Paced(q, {}, 0)
    ensures Paced(Step(q, e), {}, 0)
  {
    match e
    case Act(op) => DoKeepsPaced(q, {}, op, {}, 0);
    case Fire(now, scripts, later) => FireKeepsPaced(q, now, scripts, later);
  }

  lemma {:induction false} RunKeepsPaced(q: Queue, es: seq<Event>)
    requires Safe(q, {}) && Paced(q, {}, 0)
    ensures Paced(Run(q, es), {}, 0)
    decreases |es|
  {
    if es != [] {
      StepKeepsSafe(q, es[0]);
      StepKeepsPaced(q, es[0]);
      RunKeepsPaced(Step(q, es[0]), es[1..]);
    }
  }

  lemma {:induction false} SpacedApart(r: Record, k: nat)
    requires Spaced(r) && k < |r.runs|
    ensures r.runs[k] >= r.first + k * Micros(r.interval)
  {
    if k > 0 {
      SpacedApart(r, k - 1);
      assert k * Micros(r.interval) == (k - 1) * Micros(r.interval) + Micros(r.interval);
    }
  }

  /** Over any run no timer fires early, and one that has run N times by clock T was first due at
      least (N - 1) intervals before T. */
  lemma RateBound(clock: int, es: seq<Event>, n: nat)
    requires n < |Run(Empty(clock), es).history|
    ensures var q := Run(Empty(clock), es);
      var r := q.history[n];
      && (forall i :: 0 <= i < |r.runs| ==> r.runs[i] >= r.first + i * Micros(r.interval))
      && (forall i :: 0 < i < |r.runs| ==> r.runs[i] - r.runs[i - 1] >= Micros(r.interval))
      && (r.runs != [] ==> (|r.runs| - 1) * Micros(r.interval) <= q.clock - r.first)
  {
    EmptyIsSafe(clock);
    RunKeepsPaced(Empty(clock), es);
    var r := Run(Empty(clock), es).history[n];
    forall i | 0 <= i < |r.runs|
      ensures r.runs[i] >= r.first + i * Micros(r.interval)
    {
      SpacedApart(r, i);
    }
  }
}
