/** The idle timeout of LoadBalancerHandler (src/app/load_balancer_handler.cpp): one-shot timers of 60
    seconds, on the timer queue that everything else on the loop uses. Each message of either side is
    meant to replace the timer of the one before. */
module IdleTimers {
  import opened Wrappers
  import opened Timers

  const IDLE_SECONDS: real := 60.0
  const IDLE_MICROS: int := 60_000_000

  datatype Watch = Watch(
    q: Queue,
    first: bool,                // first_byte_received_
    initial: TimerId,           // initial_timer_id_
    idle: TimerId,              // idle_timer_id_
    mine: map<TimerId, int>,    // every idle timer this handler started, with its deadline
    last: int)                  // when the last message came

  /** Messages, each with the address its new timer gets; and whatever else uses the queue. */
  datatype Happening =
    | Client(timer: Address)
    | Backend(timer: Address)
    | Other(e: Event)

  /** A TimerId of this handler is known to nobody else. */
  ghost predicate Foreign(mine: set<TimerId>, e: Event) {
    match e
    case Act(op) => op.Cancel? ==> op.id !in mine
    case Fire(_, scripts, _) => forall k: nat, id :: Cancel(id) in Script(scripts, k) ==> id !in mine
  }

  /** runAfter on the loop thread, outside the task queue: the insertion runs at once. */
  function RunAfter(q: Queue, a: Address, seconds: real): Queue {
    AddTimerInLoop(NewTimer(q, a, AddTime(q.clock, seconds), 0.0), a)
  }

  /** The id a message cancels before it starts its own timer. */
  function Replaced(w: Watch, h: Happening): TimerId
    requires !h.Other?
  {
    if h.Client? && !w.first then w.initial else w.idle
  }

  /** operator new returns an address that is not in use. */
  predicate Possible(w: Watch, h: Happening)
    requires !h.Other?
  {
    0 < h.timer < TOP && h.timer !in CancelInLoop(w.q, Replaced(w, h)).heap
  }

  /** A message: onMessage of the client connection, or the backend's message callback. */
  function Message(w: Watch, h: Happening): Watch
    requires !h.Other?
  {
    var q := CancelInLoop(w.q, Replaced(w, h));
    var id := TimerId(h.timer, |q.history|);
    Watch(RunAfter(q, h.timer, IDLE_SECONDS), w.first || h.Client?, w.initial, id,
          w.mine[id := AddTime(q.clock, IDLE_SECONDS)], q.clock)
  }

  ghost function Step(w: Watch, h: Happening): Watch {
    match h
    case Other(e) => if Foreign(w.mine.Keys, e) then w.(q := Timers.Step(w.q, e)) else w
    case _ => if Possible(w, h) then Message(w, h) else w
  }

  ghost function Run(w: Watch, hs: seq<Happening>): Watch
    decreases |hs|
  {
    if hs == [] then w else Run(Step(w, hs[0]), hs[1..])
  }

  /** onConnection has started the initial timer; idle_timer_id_ is a default TimerId. */
  function Start(q: Queue, initial: TimerId): Watch {
    Watch(q, false, initial, TimerId(0, 0), map[], q.clock)
  }

  // ---- A one-shot timer that nobody cancels ----

  /** In the index, to expire at `d`. */
  ghost predicate Standing(q: Queue, id: TimerId, d: int) {
    && id.timer in q.heap && q.heap[id.timer] == Timer(d, 0.0, false, id.sequence)
    && id.timer !in q.posted
  }

  lemma StandingIsActive(q: Queue, held: set<Address>, id: TimerId, d: int)
    requires Safe(q, held) && Standing(q, id, d) && id.timer !in held
    ensures id in q.active && InIndex(q, id.timer) && id.sequence !in q.freed
  {
    assert InIndex(q, id.timer);
    assert Alive(q, id.sequence);
  }

  lemma DoStands(q: Queue, held: set<Address>, op: Op, id: TimerId, d: int)
    requires Safe(q, held) && Standing(q, id, d) && op != Cancel(id)
    ensures Standing(Do(q, op), id, d)
  {
    match op
    case Cancel(other) => if other in q.active { assert other.timer != id.timer; }
    case _ =>
  }

  lemma {:induction false} DoAllStands(q: Queue, held: set<Address>, ops: seq<Op>, id: TimerId, d: int)
    requires Safe(q, held) && Standing(q, id, d) && Cancel(id) !in ops
    ensures Standing(DoAll(q, ops), id, d)
    decreases |ops|
  {
    if ops != [] {
      DoKeepsSafe(q, held, ops[0]);
      DoStands(q, held, ops[0], id, d);
      DoAllStands(Do(q, ops[0]), held, ops[1..], id, d);
    }
  }

  lemma RunBatchStands(q: Queue, batch: seq<Entry>, scripts: seq<seq<Op>>, now: int, id: TimerId, d: int)
    requires Safe(q, Addresses(batch)) && Standing(q, id, d)
    requires forall k: nat :: Cancel(id) !in Script(scripts, k)
    ensures Standing(RunBatch(q, batch, 0, scripts, now), id, d)
  {
    var p := (s: Queue, k: nat) => Safe(s, Addresses(batch)) && Standing(s, id, d);
    forall s: Queue, k: nat | 0 <= k < |batch| && p(s, k)
      ensures p(Turn(s, batch, k, scripts, now), k + 1)
    {
      TurnKeepsSafe(s, batch, k, scripts, now);
      DoAllStands(Ran(s, batch[k].timer, now), Addresses(batch), Script(scripts, k), id, d);
    }
    BatchInduction(p, q, batch, 0, scripts, now);
  }

  lemma {:induction false} RecycleStands(q: Queue, batch: seq<Entry>, now: int, id: TimerId, d: int)
    requires Safe(q, Addresses(batch)) && DistinctTimers(batch)
    requires Standing(q, id, d) && id.timer !in Addresses(batch)
    ensures Standing(Recycle(q, batch, now), id, d)
    decreases |batch|
  {
    if batch != [] {
      var a := batch[0].timer;
      HeadAndRest(batch);
      RecycleOneKeepsSafe(q, Addresses(batch[1..]), a, now);
      RecycleOneFrame(q, Addresses(batch[1..]), a, now);
      RecycleStands(RecycleOne(q, a, now), batch[1..], now, id, d);
    }
  }

  /** A firing before its time leaves it where it is. */
  lemma FireStands(q: Queue, now: int, scripts: seq<seq<Op>>, later: int, id: TimerId, d: int)
    requires Safe(q, {}) && Standing(q, id, d) && Max(q.clock, now) < d
    requires forall k: nat :: Cancel(id) !in Script(scripts, k)
    ensures Standing(HandleRead(q, now, scripts, later), id, d)
  {
    NotDue(q, now, id, d);
    DueIsExact(q, now);
    CalledStands(q, now, scripts, id, d);
    CalledIsSafe(q, now, scripts);
    RecycleStands(Called(q, now, scripts), Due(q, now), Max(q.clock, now), id, d);
    assert Standing(Recycled(q, now, scripts), id, d);
    RearmStands(Recycled(q, now, scripts), later, id, d);
    Stages(q, now, scripts, later);
  }

  lemma RearmStands(q: Queue, later: int, id: TimerId, d: int)
    requires Standing(q, id, d)
    ensures Standing(Rearm(Tick(q, later)), id, d)
  {}

  lemma CalledStands(q: Queue, now: int, scripts: seq<seq<Op>>, id: TimerId, d: int)
    requires Safe(q, {}) && Standing(q, id, d)
    requires forall k: nat :: Cancel(id) !in Script(scripts, k)
    ensures Standing(Called(q, now, scripts), id, d)
  {
    OpenedIsSafe(q, now);
    RunBatchStands(Opened(q, now), Due(q, now), scripts, Max(q.clock, now), id, d);
  }

  lemma NotDue(q: Queue, now: int, id: TimerId, d: int)
    requires Safe(q, {}) && Standing(q, id, d) && Max(q.clock, now) < d
    ensures id.timer !in Addresses(Due(q, now))
  {
    DueIsExact(q, now);
    forall e | e in Due(q, now)
      ensures e.timer != id.timer
    {
      assert e in q.timers;
    }
  }

  /** A firing at or after its time runs it, once, and deletes it. */
  lemma FireEnds(q: Queue, now: int, scripts: seq<seq<Op>>, later: int, id: TimerId, d: int)
    requires Safe(q, {}) && Standing(q, id, d) && d <= Max(q.clock, now)
    ensures var q' := HandleRead(q, now, scripts, later);
      && id.sequence < |q.history| && id.sequence < |q'.history| && id.sequence in q'.freed
      && q'.history[id.sequence].runs == q.history[id.sequence].runs + [Max(q.clock, now)]
  {
    StandingIsActive(q, {}, id, d);
    FiringIsExact(q, now, scripts, later, id.timer);
  }

  // ---- What holds of the handler's timers ----

  /** Started and not over. */
  predicate Live(w: Watch, id: TimerId) {
    id in w.mine && id.sequence !in w.q.freed
  }

  /** A live timer that the handler has forgotten. */
  ghost predicate Orphaned(w: Watch) {
    exists id :: Live(w, id) && id != w.idle
  }

  /** Every timer of the handler stands, not having run, or is over. */
  ghost predicate Tracked(q: Queue, mine: map<TimerId, int>) {
    forall id :: id in mine ==>
      && id.sequence < |q.history|
      && (id.sequence in q.freed || (Standing(q, id, mine[id]) && q.history[id.sequence].runs == []))
  }

  ghost predicate Inv(w: Watch) {
    && Safe(w.q, {}) && Tracked(w.q, w.mine) && w.initial !in w.mine
    && w.initial.sequence < |w.q.history|
    && (w.idle in w.mine ==> w.mine[w.idle] == w.last + IDLE_MICROS)
    && (w.idle !in w.mine ==> w.mine == map[] && w.idle == TimerId(0, 0))
  }

  lemma DoTracks(q: Queue, op: Op, mine: map<TimerId, int>)
    requires Safe(q, {}) && Tracked(q, mine) && Foreign(mine.Keys, Act(op))
    ensures Tracked(Do(q, op), mine)
    ensures forall id :: id in mine ==> (id.sequence in Do(q, op).freed <==> id.sequence in q.freed)
  {
    DoFrame(q, {}, op);
    DoKeepsSafe(q, {}, op);
    forall id | id in mine && id.sequence !in q.freed
      ensures Standing(Do(q, op), id, mine[id]) && id.sequence !in Do(q, op).freed
    {
      DoStands(q, {}, op, id, mine[id]);
      StandingIsActive(Do(q, op), {}, id, mine[id]);
    }
  }

  lemma CancelTracks(w: Watch, c: TimerId)
    requires Inv(w) && (c == w.idle || c == w.initial)
    ensures var q := CancelInLoop(w.q, c);
      && Safe(q, {}) && Tracked(q, w.mine) && |q.history| == |w.q.history| && q.clock == w.q.clock
      && forall id :: id in w.mine ==> (id.sequence in q.freed <==> id.sequence in w.q.freed || id == c)
  {
    var q := CancelInLoop(w.q, c);
    CancelKeepsSafe(w.q, {}, c);
    DoFrame(w.q, {}, Cancel(c));
    assert q == Do(w.q, Cancel(c));
    forall id | id in w.mine && id.sequence !in w.q.freed
      ensures if id == c then id.sequence in q.freed else Standing(q, id, w.mine[id]) && id.sequence !in q.freed
    {
      if id == c {
        CancelWorksOnceInserted(w.q, {}, id);
      } else {
        DoStands(w.q, {}, Cancel(c), id, w.mine[id]);
        StandingIsActive(q, {}, id, w.mine[id]);
      }
    }
  }

  lemma RunAfterTracks(q: Queue, mine: map<TimerId, int>, a: Address)
    requires Safe(q, {}) && Tracked(q, mine) && 0 < a < TOP && a !in q.heap
    ensures var q' := RunAfter(q, a, IDLE_SECONDS);
      var id := TimerId(a, |q.history|);
      && id !in mine && Safe(q', {}) && Tracked(q', mine[id := q.clock + IDLE_MICROS])
      && id.sequence !in q'.freed && |q'.history| == |q.history| + 1 && q'.clock == q.clock
      && forall i :: i in mine ==> (i.sequence in q'.freed <==> i.sequence in q.freed)
  {
    var when := AddTime(q.clock, IDLE_SECONDS);
    var id := TimerId(a, |q.history|);
    var q1 := Do(q, Create(a, when, 0.0));
    var q2 := Do(q1, Add(a));
    DoKeepsSafe(q, {}, Create(a, when, 0.0));
    DoKeepsSafe(q1, {}, Add(a));
    DoTracks(q, Create(a, when, 0.0), mine);
    DoTracks(q1, Add(a), mine);
    DoFrame(q1, {}, Add(a));
    assert q2 == RunAfter(q, a, IDLE_SECONDS) && when == q.clock + IDLE_MICROS;
    StandingIsActive(q2, {}, id, when);
    TracksOneMore(q2, mine, id, when);
  }

  lemma TracksOneMore(q: Queue, mine: map<TimerId, int>, id: TimerId, d: int)
    requires Tracked(q, mine) && id !in mine && id.sequence < |q.history|
    requires Standing(q, id, d) && q.history[id.sequence].runs == []
    ensures Tracked(q, mine[id := d])
  {}

  /** A message starts one timer and ends the one it replaces. */
  lemma {:induction false} MessageEffect(w: Watch, h: Happening)
    requires Inv(w) && !h.Other? && Possible(w, h)
    ensures var w' := Message(w, h);
      && Inv(w') && Live(w', w'.idle) && w'.idle !in w.mine && w'.last == w.q.clock
      && w'.mine == w.mine[w'.idle := w.q.clock + IDLE_MICROS]
      && w'.initial == w.initial && (w'.first <==> w.first || h.Client?)
      && forall id :: id in w.mine ==> (Live(w', id) <==> Live(w, id) && id != Replaced(w, h))
  {
    var q := CancelInLoop(w.q, Replaced(w, h));
    CancelTracks(w, Replaced(w, h));
    RunAfterTracks(q, w.mine, h.timer);
    var w' := Message(w, h);
    assert AddTime(q.clock, IDLE_SECONDS) == q.clock + IDLE_MICROS;
    assert w'.idle == TimerId(h.timer, |q.history|) && w'.q == RunAfter(q, h.timer, IDLE_SECONDS);
  }

  /** Exactly when a message leaves an orphan: it is the client's first, and the backend has already
      started an idle timer that has not run. onMessage then cancels the other timer. */
  lemma OrphanedExactlyBy(w: Watch, h: Happening)
    requires Inv(w) && !Orphaned(w) && !h.Other? && Possible(w, h)
    ensures Orphaned(Message(w, h)) <==> h.Client? && !w.first && Live(w, w.idle)
  {
    var w' := Message(w, h);
    MessageEffect(w, h);
    if h.Client? && !w.first && Live(w, w.idle) {
      assert Live(w', w.idle) && w.idle != w'.idle;
    }
  }

  // ---- Whole runs ----

  /** What became of one timer of the handler. */
  ghost predicate Spared(w: Watch, w': Watch, id: TimerId, e: Event) {
    && id.sequence < |w'.q.history|
    && (id.sequence in w.q.freed ==> id.sequence in w'.q.freed)
    && (Live(w, id) && !Live(w', id) ==> e.Fire? && FiredAt(w, w', id, Max(w.q.clock, e.now)))
    && (Live(w', id) && e.Fire? ==> id in w.mine && Max(w.q.clock, e.now) < w.mine[id])
  }

  ghost predicate FiredAt(w: Watch, w': Watch, id: TimerId, t: int)
    requires id.sequence < |w'.q.history|
  {
    id in w.mine && w.mine[id] <= t && w'.q.history[id.sequence].runs == [t]
  }

  /** What others do ends a timer of the handler only by firing it, at or after its deadline. */
  lemma OtherEffect(w: Watch, e: Event)
    requires Inv(w) && Foreign(w.mine.Keys, e)
    ensures Inv(Step(w, Other(e)))
    ensures forall id :: id in w.mine ==> Spared(w, Step(w, Other(e)), id, e)
  {
    StepKeepsSafe(w.q, e);
    match e
    case Act(op) =>
      DoTracks(w.q, op, w.mine);
      DoFrame(w.q, {}, op);
    case Fire(now, scripts, later) => FireEffect(w, now, scripts, later);
  }

  lemma FireEffect(w: Watch, now: int, scripts: seq<seq<Op>>, later: int)
    requires Inv(w) && Foreign(w.mine.Keys, Fire(now, scripts, later))
    requires Safe(HandleRead(w.q, now, scripts, later), {})
    ensures var w' := w.(q := HandleRead(w.q, now, scripts, later));
      Inv(w') && forall id :: id in w.mine ==> Spared(w, w', id, Fire(now, scripts, later))
  {
    var e := Fire(now, scripts, later);
    var q' := HandleRead(w.q, now, scripts, later);
    forall id | id in w.mine
      ensures Spared(w, w.(q := q'), id, e)
      ensures id.sequence in q'.freed || (Standing(q', id, w.mine[id]) && q'.history[id.sequence].runs == [])
    {
      OneAfterFire(w.q, now, scripts, later, id, w.mine[id]);
    }
    CalledHistory(w.q, now, scripts, w.initial.sequence);
    RecycledHistory(w.q, now, scripts, later);
  }

  ghost predicate TrackedAfterFire(q: Queue, now: int, scripts: seq<seq<Op>>, later: int, id: TimerId, d: int) {
    var q' := HandleRead(q, now, scripts, later);
    && id.sequence < |q'.history|
    && if id.sequence in q.freed then id.sequence in q'.freed
       else if d <= Max(q.clock, now) then
         id.sequence in q'.freed && q'.history[id.sequence].runs == [Max(q.clock, now)]
       else Standing(q', id, d) && id.sequence !in q'.freed && q'.history[id.sequence].runs == []
  }

  lemma OneAfterFire(q: Queue, now: int, scripts: seq<seq<Op>>, later: int, id: TimerId, d: int)
    requires Safe(q, {}) && id.sequence < |q.history| && forall k: nat :: Cancel(id) !in Script(scripts, k)
    requires id.sequence in q.freed || (Standing(q, id, d) && q.history[id.sequence].runs == [])
    ensures TrackedAfterFire(q, now, scripts, later, id, d)
  {
    if id.sequence in q.freed {
      FreedStays(q, Fire(now, scripts, later), id.sequence);
    } else if d <= Max(q.clock, now) {
      FireEnds(q, now, scripts, later, id, d);
    } else {
      FireStands(q, now, scripts, later, id, d);
      FireKeepsSafe(q, now, scripts, later);
      StandingIsActive(HandleRead(q, now, scripts, later), {}, id, d);
      StandingIsActive(q, {}, id, d);
      FiringIsExact(q, now, scripts, later, id.timer);
    }
  }

  lemma StepKeepsInv(w: Watch, h: Happening)
    requires Inv(w)
    ensures Inv(Step(w, h))
  {
    match h
    case Other(e) =>
      if Foreign(w.mine.Keys, e) {
        OtherEffect(w, e);
      }
    case _ =>
      if Possible(w, h) {
        MessageEffect(w, h);
      }
  }

  /** The client's first message comes while an idle timer is running. */
  predicate Forgets(w: Watch, h: Happening) {
    h.Client? && !w.first && Live(w, w.idle)
  }

  /** So it does whenever the backend speaks first and the client answers before that timer runs. */
  lemma BackendFirst(w: Watch, a: Address, b: Address)
    requires Inv(w) && !w.first && Possible(w, Backend(a))
    ensures Forgets(Message(w, Backend(a)), Client(b))
  {
    MessageEffect(w, Backend(a));
  }

  ghost predicate NeverForgets(w: Watch, hs: seq<Happening>)
    decreases |hs|
  {
    hs == [] || (!Forgets(w, hs[0]) && NeverForgets(Step(w, hs[0]), hs[1..]))
  }

  lemma StaysUnorphaned(w: Watch, h: Happening)
    requires Inv(w) && !Orphaned(w) && !Forgets(w, h)
    ensures !Orphaned(Step(w, h))
  {
    if h.Other? {
      if Foreign(w.mine.Keys, h.e) {
        OtherEffect(w, h.e);
        forall id | Live(Step(w, h), id)
          ensures id == w.idle
        {
          assert Spared(w, Step(w, h), id, h.e);
          assert Live(w, id);
        }
      }
    } else if Possible(w, h) {
      OrphanedExactlyBy(w, h);
    }
  }

  lemma {:induction false} NeverForgetsNeverOrphaned(w: Watch, hs: seq<Happening>)
    requires Inv(w) && !Orphaned(w) && NeverForgets(w, hs)
    ensures Inv(Run(w, hs)) && !Orphaned(Run(w, hs))
    decreases |hs|
  {
    if hs != [] {
      var h := hs[0];
      StepKeepsInv(w, h);
      StaysUnorphaned(w, h);
      NeverForgetsNeverOrphaned(Step(w, h), hs[1..]);
    }
  }

  /** Unless the client's first message finds an idle timer running, the only idle timer that can run
      is the current one, and it runs only when both sides have been silent for 60 seconds. */
  lemma OnlyTheIdleTimeOut(q: Queue, initial: TimerId, hs: seq<Happening>, now: int, id: TimerId)
    requires Safe(q, {}) && initial.sequence < |q.history| && NeverForgets(Start(q, initial), hs)
    ensures var w := Run(Start(q, initial), hs);
      Live(w, id) && Entry(w.mine[id], id.timer) in Due(w.q, now)
      ==> id == w.idle && w.last + IDLE_MICROS <= Max(w.q.clock, now)
  {
    var w := Run(Start(q, initial), hs);
    NeverForgetsNeverOrphaned(Start(q, initial), hs);
    if Live(w, id) && Entry(w.mine[id], id.timer) in Due(w.q, now) {
      DueIsExact(w.q, now);
      StandingIsActive(w.q, {}, id, w.mine[id]);
    }
  }

  /** A forgotten timer is never cancelled, whatever either side sends. */
  lemma {:induction false} OrphanStays(w: Watch, hs: seq<Happening>, id: TimerId)
    requires Inv(w) && id in w.mine && (id.sequence in w.q.freed ==> w.q.history[id.sequence].runs != [])
    requires w.first && id != w.idle
    ensures var w' := Run(w, hs);
      && Inv(w') && id in w'.mine && w'.mine[id] == w.mine[id] && id != w'.idle
      && (id.sequence in w'.q.freed ==> w'.q.history[id.sequence].runs != [])
    decreases |hs|
  {
    if hs != [] {
      OrphanStaysOnce(w, hs[0], id);
      OrphanStays(Step(w, hs[0]), hs[1..], id);
    }
  }

  lemma OrphanStaysOnce(w: Watch, h: Happening, id: TimerId)
    requires Inv(w) && id in w.mine && (id.sequence in w.q.freed ==> w.q.history[id.sequence].runs != [])
    requires w.first && id != w.idle
    ensures var w' := Step(w, h);
      && Inv(w') && id in w'.mine && w'.mine[id] == w.mine[id] && id != w'.idle && w'.first
      && (id.sequence in w'.q.freed ==> w'.q.history[id.sequence].runs != [])
  {
    StepKeepsInv(w, h);
    if h.Other? {
      if Foreign(w.mine.Keys, h.e) {
        OtherEffect(w, h.e);
        if id.sequence in w.q.freed {
          FreedStays(w.q, h.e, id.sequence);
        }
      }
    } else if Possible(w, h) {
      MessageEffect(w, h);
      MessageKeepsRuns(w, h, id.sequence);
    }
  }

  lemma MessageKeepsRuns(w: Watch, h: Happening, n: nat)
    requires Inv(w) && !h.Other? && Possible(w, h) && n < |w.q.history|
    ensures n < |Message(w, h).q.history| && Message(w, h).q.history[n] == w.q.history[n]
  {
    var c := Replaced(w, h);
    var q1 := Do(w.q, Cancel(c));
    var create := Create(h.timer, AddTime(q1.clock, IDLE_SECONDS), 0.0);
    CancelKeepsSafe(w.q, {}, c);
    DoFrame(w.q, {}, Cancel(c));
    DoKeepsSafe(q1, {}, create);
    DoFrame(q1, {}, create);
    DoFrame(Do(q1, create), {}, Add(h.timer));
  }

  /** When the client's first message finds an idle timer running, that timer runs at the first firing
      60 seconds after the backend's last message before it, and the client connection is shut down,
      however many messages came in between. */
  lemma {:induction false} ForgottenTimerFires(w: Watch, h: Happening, hs: seq<Happening>,
                                               now: int, scripts: seq<seq<Op>>, later: int)
    requires Inv(w) && Forgets(w, h) && Possible(w, h)
    requires var w1 := Run(Message(w, h), hs);
      Foreign(w1.mine.Keys, Fire(now, scripts, later)) && w.last + IDLE_MICROS <= Max(w1.q.clock, now)
    ensures var w2 := Step(Run(Message(w, h), hs), Other(Fire(now, scripts, later)));
      w.idle.sequence < |w2.q.history| && w2.q.history[w.idle.sequence].runs != []
  {
    var w0 := Message(w, h);
    var w1 := Run(w0, hs);
    MessageEffect(w, h);
    OrphanStays(w0, hs, w.idle);
    assert w0.mine[w.idle] == w.last + IDLE_MICROS;
    HasRunByItsTime(w1, w.idle, now, scripts, later);
  }

  lemma HasRunByItsTime(w: Watch, id: TimerId, now: int, scripts: seq<seq<Op>>, later: int)
    requires Inv(w) && id in w.mine && (id.sequence in w.q.freed ==> w.q.history[id.sequence].runs != [])
    requires Foreign(w.mine.Keys, Fire(now, scripts, later)) && w.mine[id] <= Max(w.q.clock, now)
    ensures var w' := Step(w, Other(Fire(now, scripts, later)));
      id.sequence < |w'.q.history| && w'.q.history[id.sequence].runs != []
  {
    OtherEffect(w, Fire(now, scripts, later));
    if id.sequence in w.q.freed {
      FreedStays(w.q, Fire(now, scripts, later), id.sequence);
    }
  }

  // ---- The end of the handler ----

  /** onClose: one timer is cancelled, and the handler goes. */
  function Closed(w: Watch): Watch {
    w.(q := CancelInLoop(w.q, if w.first then w.idle else w.initial))
  }

  /** The initial timer, if it is still running, ends with the client's first message: it does not run,
      whatever comes after. */
  lemma InitialTimerEnds(w: Watch, h: Happening, es: seq<Event>)
    requires Inv(w) && !w.first && w.initial in w.q.active && h.Client? && Possible(w, h)
    ensures var n, q := w.initial.sequence, Timers.Run(Message(w, h).q, es);
      n < |q.history| && q.history[n] == w.q.history[n]
  {
    var n := w.initial.sequence;
    var q := Do(w.q, Cancel(w.initial));
    CancelWorksOnceInserted(w.q, {}, w.initial);
    CancelKeepsSafe(w.q, {}, w.initial);
    MessageEffect(w, h);
    MessageKeepsRuns(w, h, n);
    RunAfterKeepsFreed(q, h.timer, n);
    NeverAgain(Message(w, h).q, es, n);
  }

  /** And with the close of a client that never sent one. */
  lemma InitialTimerEndsWithClose(w: Watch, es: seq<Event>)
    requires Inv(w) && !w.first && w.initial in w.q.active
    ensures var n, q := w.initial.sequence, Timers.Run(Closed(w).q, es);
      n < |q.history| && q.history[n] == w.q.history[n]
  {
    CancelIsFinal(w.q, w.initial, es);
  }

  lemma RunAfterKeepsFreed(q: Queue, a: Address, n: nat)
    requires Safe(q, {}) && n in q.freed && 0 < a < TOP && a !in q.heap
    ensures n in RunAfter(q, a, IDLE_SECONDS).freed
  {
    var create := Create(a, AddTime(q.clock, IDLE_SECONDS), 0.0);
    DoKeepsSafe(q, {}, create);
    DoFrame(q, {}, create);
    DoFrame(Do(q, create), {}, Add(a));
  }

  /** Exactly when an idle timer outlives its client connection: one had been forgotten, or the client never
      sent anything and the backend did. onClose then cancels the other timer. */
  lemma CloseForgetsExactly(w: Watch)
    requires Inv(w)
    ensures (exists id :: Live(Closed(w), id)) <==> Orphaned(w) || (!w.first && Live(w, w.idle))
  {
    var c := if w.first then w.idle else w.initial;
    CancelTracks(w, c);
    forall id | id in w.mine
      ensures Live(Closed(w), id) <==> Live(w, id) && id != c
    {
    }
    if Orphaned(w) {
      var id :| Live(w, id) && id != w.idle;
      assert Live(Closed(w), id);
    } else if !w.first && Live(w, w.idle) {
      assert Live(Closed(w), w.idle);
    }
  }

  lemma {:induction false} OutlivesQuietly(w: Watch, es: seq<Event>, id: TimerId)
    requires Safe(w.q, {}) && Tracked(w.q, w.mine) && w.initial.sequence < |w.q.history|
    requires id in w.mine && (id.sequence in w.q.freed ==> w.q.history[id.sequence].runs != [])
    requires forall e :: e in es ==> Foreign(w.mine.Keys, e)
    ensures var q' := Timers.Run(w.q, es);
      && Safe(q', {}) && Tracked(q', w.mine) && w.initial.sequence < |q'.history|
      && (id.sequence in q'.freed ==> q'.history[id.sequence].runs != [])
    decreases |es|
  {
    if es != [] {
      assert es[0] in es && forall e :: e in es[1..] ==> e in es;
      OthersTrack(w, es[0]);
      if id.sequence in w.q.freed {
        FreedStays(w.q, es[0], id.sequence);
      }
      OutlivesQuietly(w.(q := Timers.Step(w.q, es[0])), es[1..], id);
    }
  }

  /** And a timer that outlives it runs at the first firing after its deadline, whatever else uses the
      queue. */
  lemma OutlivingTimerFires(w: Watch, id: TimerId, es: seq<Event>, now: int, scripts: seq<seq<Op>>, later: int)
    requires Inv(w) && Live(Closed(w), id)
    requires forall e :: e in es ==> Foreign(w.mine.Keys, e)
    requires Foreign(w.mine.Keys, Fire(now, scripts, later))
    requires w.mine[id] <= Max(Timers.Run(Closed(w).q, es).clock, now)
    ensures var q' := HandleRead(Timers.Run(Closed(w).q, es), now, scripts, later);
      id.sequence < |q'.history| && q'.history[id.sequence].runs != []
  {
    CancelTracks(w, if w.first then w.idle else w.initial);
    OutlivesQuietly(Closed(w), es, id);
    var q := Timers.Run(Closed(w).q, es);
    OneAfterFire(q, now, scripts, later, id, w.mine[id]);
    if id.sequence in q.freed {
      FreedStays(q, Fire(now, scripts, later), id.sequence);
    }
  }

  /** What others do, as OtherEffect, for a handler that is gone. */
  lemma OthersTrack(w: Watch, e: Event)
    requires Safe(w.q, {}) && Tracked(w.q, w.mine) && w.initial.sequence < |w.q.history|
    requires Foreign(w.mine.Keys, e)
    ensures var q' := Timers.Step(w.q, e);
      && Safe(q', {}) && Tracked(q', w.mine) && w.initial.sequence < |q'.history|
      && forall id :: id in w.mine && id.sequence !in w.q.freed && id.sequence in q'.freed ==>
           q'.history[id.sequence].runs != []
  {
    StepKeepsSafe(w.q, e);
    match e
    case Act(op) =>
      DoTracks(w.q, op, w.mine);
      DoFrame(w.q, {}, op);
    case Fire(now, scripts, later) => FireTracks(w, now, scripts, later);
  }

  lemma FireTracks(w: Watch, now: int, scripts: seq<seq<Op>>, later: int)
    requires Safe(w.q, {}) && Tracked(w.q, w.mine) && w.initial.sequence < |w.q.history|
    requires Foreign(w.mine.Keys, Fire(now, scripts, later))
    ensures var q' := HandleRead(w.q, now, scripts, later);
      && Tracked(q', w.mine) && w.initial.sequence < |q'.history|
      && forall id :: id in w.mine && id.sequence !in w.q.freed && id.sequence in q'.freed ==>
           q'.history[id.sequence].runs != []
  {
    var q' := HandleRead(w.q, now, scripts, later);
    forall id | id in w.mine
      ensures id.sequence < |q'.history|
      ensures id.sequence in q'.freed || (Standing(q', id, w.mine[id]) && q'.history[id.sequence].runs == [])
      ensures id.sequence !in w.q.freed && id.sequence in q'.freed ==> q'.history[id.sequence].runs != []
    {
      OneAfterFire(w.q, now, scripts, later, id, w.mine[id]);
    }
    CalledHistory(w.q, now, scripts, w.initial.sequence);
    RecycledHistory(w.q, now, scripts, later);
  }
}
