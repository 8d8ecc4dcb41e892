/** The task queue and the wakeup of an event loop (src/net/event_loop.cpp) as a protocol: any number
    of threads post tasks and ask the loop to quit, and the loop thread checks, drains, polls and
    dispatches. Each step is one that other threads can interleave with: what is done under the
    mutex, one write or read of the eventfd, one store to a flag. */
module EventLoops {
  type Thread = nat
  const LOOP: Thread := 0

  /** A posted std::function; posts are told apart. */
  type Task = nat

  /** Where the loop thread is. */
  datatype Phase =
    | Created       // loop() not yet called
    | Checking      // at the head of the while loop
    | Swapping      // doPendingFunctors, before it takes the lock
    | Draining      // between two functors of the batch
    | InFunctor     // inside a functor of the batch
    | Polling       // inside epoll_wait
    | Dispatching   // between two event callbacks
    | InHandler     // inside an event callback
    | Stopped

  datatype Loop = Loop(
    phase: Phase,
    pending: seq<Task>,      // pending_functors_
    batch: seq<Task>,        // the rest of the local functors
    calling: bool,           // calling_pending_functors_
    quit: bool,              // quit_
    counter: nat,            // the eventfd's counter
    woken: bool,             // this round of events includes the wakeup channel
    pushing: set<Thread>,    // in runInLoop, between push_back and wakeup
    quitting: set<Thread>,   // in quit, between the store and wakeup
    pushed: seq<Task>,       // every task queued, in lock order
    executed: seq<Task>,     // every queued task started, in order
    direct: seq<Task>,       // every task run directly by runInLoop
    quitInside: bool)        // a functor of this round called quit()

  datatype Step =
    | RunInLoop(t: Thread, x: Task)   // up to the end of the lock, or the direct call
    | Wakeup(t: Thread)               // the write that ends a queueing runInLoop
    | Quit(t: Thread)                 // the store
    | QuitWakeup(t: Thread)           // the write that ends a quit from another thread
    | Begin                           // loop(): lines 79 and 80
    | Check
    | Swap
    | NextFunctor
    | EndFunctor
    | EndDrain
    | PollReturns(woken: bool)        // events, a timeout or a signal
    | HandleWakeup
    | EnterHandler
    | LeaveHandler
    | EndDispatch

  /** The loop thread runs user code only inside a functor or an event callback, or before loop(). */
  predicate Running(s: Loop, t: Thread) {
    && t !in s.pushing && t !in s.quitting
    && (t == LOOP ==> s.phase == InFunctor || s.phase == InHandler || s.phase == Created)
  }

  predicate Enabled(s: Loop, e: Step) {
    match e
    case RunInLoop(t, _) => Running(s, t)
    case Wakeup(t) => t in s.pushing
    case Quit(t) => Running(s, t)
    case QuitWakeup(t) => t in s.quitting
    case Begin => s.phase == Created && LOOP !in s.pushing
    case Check => s.phase == Checking
    case Swap => s.phase == Swapping
    case NextFunctor => s.phase == Draining && s.batch != []
    case EndFunctor => s.phase == InFunctor && LOOP !in s.pushing
    case EndDrain => s.phase == Draining && s.batch == []
    case PollReturns(woken) => s.phase == Polling && (woken ==> s.counter > 0)
    case HandleWakeup => s.phase == Dispatching && s.woken
    case EnterHandler => s.phase == Dispatching
    case LeaveHandler => s.phase == InHandler && LOOP !in s.pushing
    case EndDispatch => s.phase == Dispatching && !s.woken
  }

  function Apply(s: Loop, e: Step): Loop
    requires Enabled(s, e)
  {
    match e
    case RunInLoop(t, x) =>
      if t == LOOP && !s.calling then s.(direct := s.direct + [x])
      else s.(pending := s.pending + [x], pushed := s.pushed + [x], pushing := s.pushing + {t})
    case Wakeup(t) => s.(counter := s.counter + 1, pushing := s.pushing - {t})
    case Quit(t) =>
      if t == LOOP then s.(quit := true, quitInside := s.quitInside || s.phase == InFunctor)
      else s.(quit := true, quitting := s.quitting + {t})
    case QuitWakeup(t) => s.(counter := s.counter + 1, quitting := s.quitting - {t})
    case Begin => s.(phase := Checking, quit := false)
    case Check => if s.quit then s.(phase := Stopped) else s.(phase := Swapping, calling := true, quitInside := false)
    case Swap => s.(phase := Draining, batch := s.pending, pending := [])
    case NextFunctor => s.(phase := InFunctor, executed := s.executed + [s.batch[0]], batch := s.batch[1..])
    case EndFunctor => s.(phase := Draining)
    case EndDrain => s.(phase := Polling, calling := false)
    case PollReturns(woken) => s.(phase := Dispatching, woken := woken)
    case HandleWakeup => s.(counter := 0, woken := false)
    case EnterHandler => s.(phase := InHandler)
    case LeaveHandler => s.(phase := Dispatching)
    case EndDispatch => s.(phase := Checking)
  }

  /** A schedule; steps that cannot be taken are skipped, so every interleaving is one of these. */
  function Run(s: Loop, es: seq<Step>): Loop
    decreases |es|
  {
    if es == [] then s else Run(if Enabled(s, es[0]) then Apply(s, es[0]) else s, es[1..])
  }

  const INITIAL: Loop := Loop(Created, [], [], false, false, 0, false, {}, {}, [], [], [], false)

  // ---- What holds in every interleaving ----

  predicate InDrain(p: Phase) {
    p == Swapping || p == Draining || p == InFunctor
  }

  /** Something will make epoll_wait return: the eventfd is readable, or a thread is about to write it. */
  ghost predicate WakeComing(s: Loop) {
    s.counter > 0 || s.pushing != {} || s.quitting != {}
  }

  /** Nothing is lost, repeated or reordered. */
  ghost predicate Conserved(s: Loop) {
    && s.executed + s.batch + s.pending == s.pushed
    && (s.batch != [] ==> s.phase == Draining || s.phase == InFunctor)
  }

  ghost predicate Awake(s: Loop) {
    // The flag says exactly whether doPendingFunctors is running.
    && (s.calling <==> InDrain(s.phase))
    && (LOOP in s.pushing ==> s.phase == InFunctor) && LOOP !in s.quitting
    // Since the swap, whatever was queued comes with a wakeup; since the check, so does a quit.
    && (s.phase == Draining || s.phase == InFunctor || s.phase == Polling ==>
          s.pending != [] ==> s.counter > 0 || s.pushing != {})
    && (InDrain(s.phase) || s.phase == Polling ==>
          s.quit ==> s.quitInside || s.counter > 0 || s.quitting != {})
    && (s.phase == Stopped ==> s.quit)
    && (s.woken ==> s.counter > 0 && (s.phase == Dispatching || s.phase == InHandler))
  }

  ghost predicate Inv(s: Loop) {
    Conserved(s) && Awake(s)
  }

  lemma ApplyConserves(s: Loop, e: Step)
    requires Conserved(s) && Enabled(s, e)
    ensures Conserved(Apply(s, e))
  {
    match e
    case NextFunctor => assert s.executed + s.batch == s.executed + [s.batch[0]] + s.batch[1..];
    case _ =>
  }

  lemma ApplyKeepsAwake(s: Loop, e: Step)
    requires Awake(s) && Enabled(s, e)
    ensures Awake(Apply(s, e))
  {
    var s' := Apply(s, e);
    match e
    case RunInLoop(t, _) => assert t in s'.pushing || s'.pushing == s.pushing;
    case Quit(t) => assert t in s'.quitting || s'.quitting == s.quitting;
    case _ =>
  }

  lemma ApplyKeepsInv(s: Loop, e: Step)
    requires Inv(s) && Enabled(s, e)
    ensures Inv(Apply(s, e))
  {
    ApplyConserves(s, e);
    ApplyKeepsAwake(s, e);
  }

  lemma {:induction false} RunKeepsInv(s: Loop, es: seq<Step>)
    requires Inv(s)
    ensures Inv(Run(s, es))
    decreases |es|
  {
    if es != [] {
      if Enabled(s, es[0]) {
        ApplyKeepsInv(s, es[0]);
      }
      RunKeepsInv(if Enabled(s, es[0]) then Apply(s, es[0]) else s, es[1..]);
    }
  }

  /** However many threads post and however they interleave: a polling loop with a queued task has a
      readable eventfd, or some poster has pushed and is about to write to it. */
  lemma NoLostWakeup(es: seq<Step>)
    ensures var s := Run(INITIAL, es);
      s.phase == Polling && s.pending != [] ==> s.counter > 0 || s.pushing != {}
  {
    RunKeepsInv(INITIAL, es);
  }

  /** So the poll can return at once, or will be able to as soon as that poster goes on. */
  lemma PollCanReturn(es: seq<Step>)
    ensures var s := Run(INITIAL, es);
      s.phase == Polling && s.pending != [] ==>
        || Enabled(s, PollReturns(true))
        || exists t :: Enabled(s, Wakeup(t)) && Enabled(Apply(s, Wakeup(t)), PollReturns(true))
  {
    RunKeepsInv(INITIAL, es);
    var s := Run(INITIAL, es);
    if s.phase == Polling && s.pending != [] && s.counter == 0 {
      var t :| t in s.pushing;
      assert Enabled(s, Wakeup(t)) && Enabled(Apply(s, Wakeup(t)), PollReturns(true));
    }
  }

  /** Tasks started, then the rest of the batch, then the queue: exactly what was queued, in lock
      order. So each queued task runs at most once, and never before an earlier one. */
  lemma QueueIsFifo(es: seq<Step>)
    ensures var s := Run(INITIAL, es);
      && s.executed + s.batch + s.pending == s.pushed
      && s.executed <= s.pushed
  {
    RunKeepsInv(INITIAL, es);
    var s := Run(INITIAL, es);
    assert s.executed + s.batch + s.pending == s.executed + (s.batch + s.pending);
  }

  /** While a queued task runs, runInLoop on the loop thread queues: tasks do not nest. Anywhere
      else the loop thread runs it at once. */
  lemma DirectExactlyOutsideTheDrain(es: seq<Step>, x: Task)
    requires Running(Run(INITIAL, es), LOOP)
    ensures var s := Run(INITIAL, es);
      var s' := Apply(s, RunInLoop(LOOP, x));
      && (s.phase == InFunctor ==> s'.direct == s.direct && s'.pending == s.pending + [x])
      && (s.phase != InFunctor ==> s'.direct == s.direct + [x] && s'.pending == s.pending)
  {
    RunKeepsInv(INITIAL, es);
  }

  lemma {:induction false} WakeupStaysDue(s: Loop, t: Thread, es: seq<Step>)
    ensures t in s.pushing && Wakeup(t) !in es ==> t in Run(s, es).pushing
    ensures t in s.quitting && QuitWakeup(t) !in es ==> t in Run(s, es).quitting
    decreases |es|
  {
    if es != [] {
      assert es[0] in es && forall e :: e in es[1..] ==> e in es;
      WakeupStaysDue(if Enabled(s, es[0]) then Apply(s, es[0]) else s, t, es[1..]);
    }
  }

  /** Every task that is not run at once is queued last, and its poster owes the loop a wakeup until it
      writes one, also when the queue was not empty; so does a thread that asks the loop to quit. */
  lemma EveryPostWakes(es: seq<Step>, t: Thread, x: Task, more: seq<Step>)
    requires Running(Run(INITIAL, es), t) && (t != LOOP || Run(INITIAL, es).phase == InFunctor)
    ensures var s := Run(INITIAL, es);
      var s' := Apply(s, RunInLoop(t, x));
      && s'.pending == s.pending + [x] && s'.direct == s.direct
      && (Wakeup(t) !in more ==>
            Enabled(Run(s', more), Wakeup(t)) && Apply(Run(s', more), Wakeup(t)).counter > 0)
    ensures var s' := Apply(Run(INITIAL, es), Quit(t));
      s'.quit && (t != LOOP && QuitWakeup(t) !in more ==>
            Enabled(Run(s', more), QuitWakeup(t)) && Apply(Run(s', more), QuitWakeup(t)).counter > 0)
  {
    var s := Run(INITIAL, es);
    RunKeepsInv(INITIAL, es);
    WakeupStaysDue(Apply(s, RunInLoop(t, x)), t, more);
    WakeupStaysDue(Apply(s, Quit(t)), t, more);
  }

  /** A drain runs what was queued when it swapped: until the next swap, tasks started and tasks left
      in the batch add up to the same, whatever is posted meanwhile. */
  lemma {:induction false} DrainIsASnapshot(s: Loop, es: seq<Step>)
    requires Swap !in es
    ensures Run(s, es).executed + Run(s, es).batch == s.executed + s.batch
    decreases |es|
  {
    if es != [] {
      var s' := if Enabled(s, es[0]) then Apply(s, es[0]) else s;
      if es[0].NextFunctor? && Enabled(s, es[0]) {
        assert s.executed + s.batch == s.executed + [s.batch[0]] + s.batch[1..];
      }
      assert es == [es[0]] + es[1..];
      DrainIsASnapshot(s', es[1..]);
    }
  }

  /** Wakeups coalesce: one read answers all of them, and until somebody writes the eventfd again no poll
      reports it, whatever else is posted, run or polled for. */
  lemma {:induction false} WakeupsCoalesce(s: Loop, es: seq<Step>)
    requires s.counter == 0 && !s.woken && forall e :: e in es ==> !e.Wakeup? && !e.QuitWakeup?
    ensures Run(s, es).counter == 0 && !Run(s, es).woken && !Enabled(Run(s, es), PollReturns(true))
    decreases |es|
  {
    if es != [] {
      assert es[0] in es && forall e :: e in es[1..] ==> e in es;
      WakeupsCoalesce(if Enabled(s, es[0]) then Apply(s, es[0]) else s, es[1..]);
    }
  }

  /** That is the state its handler leaves, however often the eventfd was written before. */
  lemma OneReadAnswersAll(s: Loop, es: seq<Step>)
    requires Enabled(s, HandleWakeup) && forall e :: e in es ==> !e.Wakeup? && !e.QuitWakeup?
    ensures !Enabled(Run(Apply(s, HandleWakeup), es), PollReturns(true))
    ensures !Enabled(Run(Apply(s, HandleWakeup), es), HandleWakeup)
  {
    WakeupsCoalesce(Apply(s, HandleWakeup), es);
  }

  /** A round that saw the eventfd reads it before the loop goes on: at the head of the loop, in the drain
      and in the poll no reported wakeup is left. */
  lemma WakeupIsRead(es: seq<Step>)
    ensures var s := Run(INITIAL, es); s.woken ==> s.phase == Dispatching || s.phase == InHandler
  {
    RunKeepsInv(INITIAL, es);
  }

  // ---- Quitting ----

  /** A quit issued after line 80 wakes a polling loop, unless it came from a queued task. */
  lemma QuitWakesThePoll(es: seq<Step>)
    ensures var s := Run(INITIAL, es);
      s.phase == Polling && s.quit ==> s.quitInside || s.counter > 0 || s.quitting != {}
  {
    RunKeepsInv(INITIAL, es);
  }

  /** The loop is in epoll_wait with a quit request, and no wakeup is there or about to come: it looks at
      the request at the next event, or when epoll_wait gives up after 10 seconds. */
  ghost predicate Asleep(s: Loop) {
    s.phase == Polling && s.quit && !WakeComing(s)
  }

  /** Exactly when a quit() can be left waiting in the poll: it is called by a queued task, on the loop thread,
      with no wakeup outstanding. It does not write the eventfd there, and the flag is not looked at
      between the drain and the poll. */
  lemma QuitCanBeSleptThrough(s: Loop, t: Thread)
    requires Running(s, t) && s.phase != Created
    ensures (exists es :: Asleep(Run(Apply(s, Quit(t)), es)))
       <==> t == LOOP && s.phase == InFunctor && !WakeComing(s)
  {
    var s' := Apply(s, Quit(t));
    if t == LOOP && s.phase == InFunctor && !WakeComing(s) {
      var es := FinishDrain(s');
      assert Asleep(Run(s', es));
    } else {
      forall es ensures !Asleep(Run(s', es)) {
        SeenOrWoken(s', es);
      }
    }
  }

  /** The functors that are left do nothing, and the loop reaches the poll. */
  lemma {:induction false} FinishDrain(s: Loop) returns (es: seq<Step>)
    requires s.phase == InFunctor && LOOP !in s.pushing
    ensures var s' := Run(s, es);
      && s'.phase == Polling && s'.quit == s.quit && s'.counter == s.counter
      && s'.pushing == s.pushing && s'.quitting == s.quitting
    decreases |s.batch|
  {
    var a := Apply(s, EndFunctor);
    if s.batch == [] {
      es := [EndFunctor] + ([EndDrain] + []);
      RunCons(s, EndFunctor, [EndDrain] + []);
      RunCons(a, EndDrain, []);
    } else {
      var b := Apply(a, NextFunctor);
      var rest := FinishDrain(b);
      es := [EndFunctor] + ([NextFunctor] + rest);
      RunCons(s, EndFunctor, [NextFunctor] + rest);
      RunCons(a, NextFunctor, rest);
    }
  }

  lemma {:induction false} SeenOrWoken(s: Loop, es: seq<Step>)
    requires s.quit && s.phase != Created && (InDrain(s.phase) || s.phase == Polling ==> WakeComing(s))
    ensures !Asleep(Run(s, es))
    decreases |es|
  {
    if es != [] {
      if Enabled(s, es[0]) {
        StillSeenOrWoken(s, es[0]);
      }
      SeenOrWoken(if Enabled(s, es[0]) then Apply(s, es[0]) else s, es[1..]);
    }
  }

  lemma StillSeenOrWoken(s: Loop, e: Step)
    requires s.quit && s.phase != Created && (InDrain(s.phase) || s.phase == Polling ==> WakeComing(s))
    requires Enabled(s, e)
    ensures var s' := Apply(s, e);
      s'.quit && s'.phase != Created && (InDrain(s'.phase) || s'.phase == Polling ==> WakeComing(s'))
  {
    var s' := Apply(s, e);
    match e
    case RunInLoop(t, _) => assert t in s'.pushing || s'.pushing == s.pushing;
    case Quit(t) => assert t in s'.quitting || s'.quitting == s.quitting;
    case _ =>
  }

  /** And it does happen: one idle round, a task that another thread posts, and the task quits. */
  lemma QuitFromATaskSleeps(x: Task)
    ensures exists es :: Asleep(Run(INITIAL, es)) && Run(INITIAL, es).executed == [x]
  {
    var last := QuittingRound(x);
    var wake := WakeRound(x, last);
    var es := IdleRound(x, wake);
    assert Asleep(Run(INITIAL, es));
  }

  lemma IdleRound(x: Task, es: seq<Step>) returns (all: seq<Step>)
    ensures Run(INITIAL, all)
         == Run(INITIAL.(phase := Polling, pending := [x], pushed := [x], pushing := {1}), es)
  {
    var a := Apply(INITIAL, Begin);
    var b := Apply(a, Check);
    var c := Apply(b, Swap);
    var d := Apply(c, EndDrain);
    all := [Begin] + ([Check] + ([Swap] + ([EndDrain] + ([RunInLoop(1, x)] + es))));
    RunCons(INITIAL, Begin, [Check] + ([Swap] + ([EndDrain] + ([RunInLoop(1, x)] + es))));
    RunCons(a, Check, [Swap] + ([EndDrain] + ([RunInLoop(1, x)] + es)));
    RunCons(b, Swap, [EndDrain] + ([RunInLoop(1, x)] + es));
    RunCons(c, EndDrain, [RunInLoop(1, x)] + es);
    RunCons(d, RunInLoop(1, x), es);
    assert Apply(d, RunInLoop(1, x)) == INITIAL.(phase := Polling, pending := [x], pushed := [x], pushing := {1}) by {
      assert d == INITIAL.(phase := Polling);
      assert [] + [x] == [x] && {} + {1} == {1};
    }
  }

  lemma WakeRound(x: Task, es: seq<Step>) returns (all: seq<Step>)
    ensures Run(INITIAL.(phase := Polling, pending := [x], pushed := [x], pushing := {1}), all)
         == Run(INITIAL.(phase := Checking, pending := [x], pushed := [x]), es)
  {
    var a := INITIAL.(phase := Polling, pending := [x], pushed := [x], pushing := {1});
    var b := Apply(a, Wakeup(1));
    var c := Apply(b, PollReturns(true));
    var d := Apply(c, HandleWakeup);
    all := [Wakeup(1)] + ([PollReturns(true)] + ([HandleWakeup] + ([EndDispatch] + es)));
    RunCons(a, Wakeup(1), [PollReturns(true)] + ([HandleWakeup] + ([EndDispatch] + es)));
    RunCons(b, PollReturns(true), [HandleWakeup] + ([EndDispatch] + es));
    RunCons(c, HandleWakeup, [EndDispatch] + es);
    RunCons(d, EndDispatch, es);
    assert {1} - {1} == {};
  }

  lemma QuittingRound(x: Task) returns (all: seq<Step>)
    ensures var s := Run(INITIAL.(phase := Checking, pending := [x], pushed := [x]), all);
      Asleep(s) && s.executed == [x]
  {
    var a := INITIAL.(phase := Checking, pending := [x], pushed := [x]);
    var b := Apply(a, Check);
    var c := Apply(b, Swap);
    var d := Apply(c, NextFunctor);
    var e := Apply(d, Quit(LOOP));
    var f := Apply(e, EndFunctor);
    all := [Check] + ([Swap] + ([NextFunctor] + ([Quit(LOOP)] + ([EndFunctor] + ([EndDrain] + [])))));
    RunCons(a, Check, [Swap] + ([NextFunctor] + ([Quit(LOOP)] + ([EndFunctor] + ([EndDrain] + [])))));
    RunCons(b, Swap, [NextFunctor] + ([Quit(LOOP)] + ([EndFunctor] + ([EndDrain] + []))));
    RunCons(c, NextFunctor, [Quit(LOOP)] + ([EndFunctor] + ([EndDrain] + [])));
    RunCons(d, Quit(LOOP), [EndFunctor] + ([EndDrain] + []));
    RunCons(e, EndFunctor, [EndDrain] + []);
    RunCons(f, EndDrain, []);
  }

  lemma RunCons(s: Loop, e: Step, es: seq<Step>)
    requires Enabled(s, e)
    ensures Run(s, [e] + es) == Run(Apply(s, e), es)
  {
    assert ([e] + es)[1..] == es;
  }

  ghost predicate NoQuit(es: seq<Step>) {
    forall e :: e in es ==> !e.Quit?
  }

  /** A request made before loop() is cleared by line 80; after it, nobody asks again. */
  lemma {:induction false} ForgottenNotStopped(s: Loop, es: seq<Step>)
    requires (s.phase == Created || !s.quit) && s.phase != Stopped && NoQuit(es)
    ensures Run(s, es).phase != Stopped
    decreases |es|
  {
    if es != [] {
      assert es[0] in es && forall e :: e in es[1..] ==> e in es;
      ForgottenNotStopped(if Enabled(s, es[0]) then Apply(s, es[0]) else s, es[1..]);
    }
  }

  function Rank(p: Phase): nat {
    match p
    case Created => 8
    case Swapping => 7
    case Draining => 6
    case InFunctor => 6
    case Polling => 5
    case InHandler => 4
    case Dispatching => 3
    case Checking => 2
    case Stopped => 0
  }

  /** What the loop thread does next when it has seen enough: nobody posts, no handler is entered, and
      the poll returns by its timeout. */
  function Onward(s: Loop): (e: Step)
    requires s.phase != Created && s.phase != Stopped
    ensures Enabled(s, e) && !e.Quit?
  {
    if LOOP in s.pushing then Wakeup(LOOP)
    else
      match s.phase
      case Checking => Check
      case Swapping => Swap
      case Draining => if s.batch == [] then EndDrain else NextFunctor
      case InFunctor => EndFunctor
      case Polling => PollReturns(false)
      case Dispatching => if s.woken then HandleWakeup else EndDispatch
      case InHandler => LeaveHandler
  }

  /** A request that is still there when the loop gets to its head stops it. */
  lemma {:induction false} AskedStops(s: Loop) returns (es: seq<Step>)
    requires s.quit && s.phase != Created
    ensures NoQuit(es) && Run(s, es).phase == Stopped
    decreases if LOOP in s.pushing then 1 else 0, Rank(s.phase),
              2 * |s.batch| + (if s.phase == InFunctor then 1 else 0), s.woken
  {
    if s.phase == Stopped {
      es := [];
    } else {
      var e := Onward(s);
      var rest := AskedStops(Apply(s, e));
      es := [e] + rest;
      RunCons(s, e, rest);
    }
  }

  /** Exactly which quits are forgotten, for every thread and every state: those before loop(). Any
      other can still stop the loop with nobody asking again. */
  lemma QuitIsLostExactlyBeforeLoop(s: Loop, t: Thread)
    requires Running(s, t) && s.phase != Stopped
    ensures (forall es :: NoQuit(es) ==> Run(Apply(s, Quit(t)), es).phase != Stopped) <==> s.phase == Created
  {
    var s' := Apply(s, Quit(t));
    if s.phase == Created {
      forall es | NoQuit(es)
        ensures Run(s', es).phase != Stopped
      {
        ForgottenNotStopped(s', es);
      }
    } else {
      var es := AskedStops(s');
    }
  }

  // ---- The class ----

  /** What other threads, or user code on the loop thread, do between two steps of the loop. */
  predicate UserStep(e: Step) {
    e.RunInLoop? || e.Wakeup? || e.Quit? || e.QuitWakeup?
  }

  predicate UserSteps(es: seq<Step>) {
    forall e :: e in es ==> UserStep(e)
  }

  /** Every step of the schedule can be taken. */
  predicate Fits(s: Loop, es: seq<Step>)
    decreases |es|
  {
    es == [] || (Enabled(s, es[0]) && Fits(Apply(s, es[0]), es[1..]))
  }

  /** A schedule of doPendingFunctors from the swap on: scripts[k] is what happens, on this thread and
      on others, while the k-th functor of the batch runs. */
  function Drain(scripts: seq<seq<Step>>): seq<Step> {
    if scripts == [] then [EndDrain]
    else [NextFunctor] + (scripts[0] + ([EndFunctor] + Drain(scripts[1..])))
  }

  lemma {:induction false} DrainSwapsOnce(scripts: seq<seq<Step>>)
    requires forall es :: es in scripts ==> UserSteps(es)
    ensures Swap !in Drain(scripts)
  {
    if scripts != [] {
      assert scripts[0] in scripts && forall es :: es in scripts[1..] ==> es in scripts;
      DrainSwapsOnce(scripts[1..]);
    }
  }

  lemma {:induction false} FitsAppend(s: Loop, a: seq<Step>, b: seq<Step>)
    ensures Fits(s, a + b) <==> Fits(s, a) && Fits(Run(s, a), b)
    decreases |a|
  {
    if a == [] {
      assert a + b == b;
    } else {
      assert (a + b)[1..] == a[1..] + b;
      if Enabled(s, a[0]) {
        FitsAppend(Apply(s, a[0]), a[1..], b);
      }
    }
  }

  lemma {:induction false} UserStepsKeepThePhase(s: Loop, es: seq<Step>)
    requires UserSteps(es)
    ensures var s' := Run(s, es); s'.phase == s.phase && s'.batch == s.batch && s'.executed == s.executed
    decreases |es|
  {
    if es != [] {
      assert es[0] in es && UserSteps(es[1..]);
      UserStepsKeepThePhase(if Enabled(s, es[0]) then Apply(s, es[0]) else s, es[1..]);
    }
  }

  lemma {:induction false} RunAppend(s: Loop, a: seq<Step>, b: seq<Step>)
    ensures Run(s, a + b) == Run(Run(s, a), b)
    decreases |a|
  {
    if a == [] {
      assert a + b == b;
    } else {
      assert (a + b)[1..] == a[1..] + b;
      RunAppend(if Enabled(s, a[0]) then Apply(s, a[0]) else s, a[1..], b);
    }
  }

  /** The members of the C++ class that the protocol is about. `model` follows the protocol step by
      step; every method is a run of it. */
  class EventLoop {
    var pendingFunctors: seq<Task>
    var callingPendingFunctors: bool
    var quitFlag: bool
    var wakeupCounter: nat
    ghost var model: Loop

    ghost predicate Valid()
      reads this
    {
      && Inv(model)
      && pendingFunctors == model.pending && callingPendingFunctors == model.calling
      && quitFlag == model.quit && wakeupCounter == model.counter
    }

    constructor ()
      ensures Valid() && model == INITIAL
    {
      pendingFunctors, callingPendingFunctors, quitFlag, wakeupCounter := [], false, false, 0;
      model := INITIAL;
    }

    // ---- One step at a time ----

    /** The direct call of runInLoop. */
    method RunDirectly(x: Task)
      requires Valid() && Running(model, LOOP) && !callingPendingFunctors
      modifies `model
      ensures Valid() && model == Apply(old(model), Step.RunInLoop(LOOP, x))
    {
      ApplyKeepsInv(model, Step.RunInLoop(LOOP, x));
      model := Apply(model, Step.RunInLoop(LOOP, x));
    }

    /** push_back under the lock. */
    method Push(t: Thread, x: Task)
      requires Valid() && Running(model, t) && (t != LOOP || callingPendingFunctors)
      modifies `pendingFunctors, `model
      ensures Valid() && model == Apply(old(model), Step.RunInLoop(t, x))
      ensures pendingFunctors == old(pendingFunctors) + [x]
    {
      ApplyKeepsInv(model, Step.RunInLoop(t, x));
      model := Apply(model, Step.RunInLoop(t, x));
      pendingFunctors := pendingFunctors + [x];
    }

    /** The write that ends a runInLoop or a quit. */
    method Wakeup(e: Step)
      requires Valid() && Enabled(model, e) && (e.Wakeup? || e.QuitWakeup?)
      modifies `wakeupCounter, `model
      ensures Valid() && model == Apply(old(model), e)
      ensures wakeupCounter == old(wakeupCounter) + 1
    {
      ApplyKeepsInv(model, e);
      model := Apply(model, e);
      wakeupCounter := wakeupCounter + 1;
    }

    /** The store of quit(). */
    method StoreQuit(t: Thread)
      requires Valid() && Running(model, t)
      modifies `quitFlag, `model
      ensures Valid() && model == Apply(old(model), Step.Quit(t)) && quitFlag
    {
      ApplyKeepsInv(model, Step.Quit(t));
      model := Apply(model, Step.Quit(t));
      quitFlag := true;
    }

    /** Some code runs: of other threads, and of the current functor if there is one. */
    method Interleave(es: seq<Step>)
      requires Valid() && UserSteps(es) && Fits(model, es)
      modifies this
      ensures Valid() && model == Run(old(model), es)
    {
      var i := 0;
      while i < |es|
        invariant i <= |es| && Valid()
        invariant Fits(model, es[i..]) && Run(model, es[i..]) == Run(old(model), es)
      {
        assert es[i] in es && es[i..][1..] == es[i + 1..];
        if es[i].RunInLoop? {
          if es[i].t == LOOP && !callingPendingFunctors {
            RunDirectly(es[i].x);
          } else {
            Push(es[i].t, es[i].x);
          }
        } else if es[i].Quit? {
          StoreQuit(es[i].t);
        } else {
          Wakeup(es[i]);
        }
        i := i + 1;
      }
    }

    // ---- The members of the class ----

    /** Runs the task at once, or queues it and wakes the loop; `between` is what other threads do
        after the lock is released and before the eventfd is written. */
    method RunInLoop(t: Thread, x: Task, between: seq<Step>)
      requires Valid() && Running(model, t) && UserSteps(between)
      requires Fits(model, Posting(model, t, x, between))
      modifies this
      ensures Valid() && model == Run(old(model), Posting(old(model), t, x, between))
      ensures t == LOOP && old(model).phase != InFunctor ==> model.direct == old(model).direct + [x]
    {
      PostingSchedule(model, t, x, between);
      if t == LOOP && !callingPendingFunctors {
        RunDirectly(x);
      } else {
        Push(t, x);
        Interleave(between);
        Wakeup(Step.Wakeup(t));
      }
    }

    /** Stores the flag, and wakes the loop unless called on its own thread. */
    method Quit(t: Thread, between: seq<Step>)
      requires Valid() && Running(model, t) && UserSteps(between)
      requires Fits(model, Quitting(t, between))
      modifies this
      ensures Valid() && model == Run(old(model), Quitting(t, between))
      ensures t != LOOP ==> wakeupCounter > 0
    {
      QuittingSchedule(model, t, between);
      StoreQuit(t);
      if t != LOOP {
        Interleave(between);
        Wakeup(QuitWakeup(t));
      }
    }

    method HandleWakeup()
      requires Valid() && Enabled(model, Step.HandleWakeup)
      modifies this
      ensures Valid() && model == Apply(old(model), Step.HandleWakeup) && wakeupCounter == 0
    {
      ApplyKeepsInv(model, Step.HandleWakeup);
      model := Apply(model, Step.HandleWakeup);
      wakeupCounter := 0;
    }

    /** doPendingFunctors: the queue is swapped out under the lock and its functors run in order, while
        other threads and the functors themselves post, wake and quit. `before` is what other threads do
        between the check of quit_ and the swap. */
    method DoPendingFunctors(before: seq<Step>, scripts: seq<seq<Step>>)
      requires Valid() && model.phase == Checking && !model.quit
      requires UserSteps(before) && forall es :: es in scripts ==> UserSteps(es)
      requires Fits(model, [Check] + (before + ([Swap] + Drain(scripts))))
      requires |scripts| == |Run(Apply(model, Check), before).pending|
      modifies this
      ensures Valid() && model == Run(old(model), [Check] + (before + ([Swap] + Drain(scripts))))
      ensures model.phase == Polling
      ensures model.executed == old(model).executed + Run(Apply(old(model), Check), before).pending
    {
      DrainSchedule(model, before, scripts);
      ApplyKeepsInv(model, Check);
      callingPendingFunctors := true;
      model := Apply(model, Check);
      Interleave(before);
      ApplyKeepsInv(model, Swap);
      var functors := pendingFunctors;
      pendingFunctors := [];
      model := Apply(model, Swap);
      RunFunctors(functors, scripts);
    }

    method RunFunctor(functor: Task, script: seq<Step>)
      requires Valid() && model.phase == Draining && model.batch != [] && model.batch[0] == functor
      requires UserSteps(script) && Fits(Apply(model, NextFunctor), script)
      requires Enabled(Run(Apply(model, NextFunctor), script), EndFunctor)
      modifies this
      ensures Valid() && model == Apply(Run(Apply(old(model), NextFunctor), script), EndFunctor)
    {
      ApplyKeepsInv(model, NextFunctor);
      model := Apply(model, NextFunctor);
      Interleave(script);
      ApplyKeepsInv(model, EndFunctor);
      model := Apply(model, EndFunctor);
    }

    method RunFunctors(functors: seq<Task>, scripts: seq<seq<Step>>)
      requires Valid() && model.phase == Draining && model.batch == functors && |scripts| == |functors|
      requires Fits(model, Drain(scripts)) && forall es :: es in scripts ==> UserSteps(es)
      modifies this
      ensures Valid() && model == Run(old(model), Drain(scripts))
      ensures model.phase == Polling && model.executed == old(model).executed + functors
    {
      var i := 0;
      while i < |functors|
        invariant i <= |functors| && Valid() && Left(old(model), model, functors, scripts, i)
      {
        LeftNext(old(model), model, functors, scripts, i);
        RunFunctor(functors[i], scripts[i]);
        i := i + 1;
      }
      LeftNothing(old(model), model, functors, scripts);
      ApplyKeepsInv(model, EndDrain);
      model := Apply(model, EndDrain);
      callingPendingFunctors := false;
    }
  }

  /** The steps of one runInLoop. */
  function Posting(s: Loop, t: Thread, x: Task, between: seq<Step>): seq<Step> {
    if t == LOOP && !s.calling then [RunInLoop(t, x)] + []
    else [RunInLoop(t, x)] + (between + ([Wakeup(t)] + []))
  }

  /** The steps of one quit. */
  function Quitting(t: Thread, between: seq<Step>): seq<Step> {
    if t == LOOP then [Quit(t)] + [] else [Quit(t)] + (between + ([QuitWakeup(t)] + []))
  }

  /** A step, what others do, and a step. */
  lemma AroundSchedule(s: Loop, e: Step, between: seq<Step>, e': Step)
    requires Fits(s, [e] + (between + ([e'] + [])))
    ensures Enabled(s, e) && Fits(Apply(s, e), between)
    ensures var b := Run(Apply(s, e), between);
      Enabled(b, e') && Run(s, [e] + (between + ([e'] + []))) == Apply(b, e')
  {
    var a := Apply(s, e);
    FitsCons(s, e, between + ([e'] + []));
    RunCons(s, e, between + ([e'] + []));
    FitsAppend(a, between, [e'] + []);
    RunAppend(a, between, [e'] + []);
    FitsCons(Run(a, between), e', []);
    RunCons(Run(a, between), e', []);
  }

  lemma PostingSchedule(s: Loop, t: Thread, x: Task, between: seq<Step>)
    requires Running(s, t) && Fits(s, Posting(s, t, x, between))
    ensures var a := Apply(s, RunInLoop(t, x));
      if t == LOOP && !s.calling then Run(s, Posting(s, t, x, between)) == a
      else
        var b := Run(a, between);
        Fits(a, between) && Enabled(b, Wakeup(t)) && Run(s, Posting(s, t, x, between)) == Apply(b, Wakeup(t))
  {
    if t == LOOP && !s.calling {
      RunCons(s, RunInLoop(t, x), []);
    } else {
      AroundSchedule(s, RunInLoop(t, x), between, Wakeup(t));
    }
  }

  lemma QuittingSchedule(s: Loop, t: Thread, between: seq<Step>)
    requires Running(s, t) && Fits(s, Quitting(t, between))
    ensures var a := Apply(s, Quit(t));
      if t == LOOP then Run(s, Quitting(t, between)) == a
      else
        var b := Run(a, between);
        Fits(a, between) && Enabled(b, QuitWakeup(t)) && Run(s, Quitting(t, between)) == Apply(b, QuitWakeup(t))
  {
    if t == LOOP {
      RunCons(s, Quit(t), []);
    } else {
      AroundSchedule(s, Quit(t), between, QuitWakeup(t));
    }
  }

  lemma FitsCons(s: Loop, e: Step, es: seq<Step>)
    ensures Fits(s, [e] + es) <==> Enabled(s, e) && Fits(Apply(s, e), es)
  {
    assert ([e] + es)[1..] == es;
  }

  lemma DrainSchedule(s: Loop, before: seq<Step>, scripts: seq<seq<Step>>)
    requires s.phase == Checking && !s.quit && UserSteps(before)
    requires Fits(s, [Check] + (before + ([Swap] + Drain(scripts))))
    ensures var a := Apply(s, Check);
      var b := Run(a, before);
      && Fits(a, before) && b.phase == Swapping && b.executed == s.executed
      && Fits(Apply(b, Swap), Drain(scripts))
      && Run(s, [Check] + (before + ([Swap] + Drain(scripts)))) == Run(Apply(b, Swap), Drain(scripts))
  {
    var a := Apply(s, Check);
    var rest := [Swap] + Drain(scripts);
    RunCons(s, Check, before + rest);
    FitsCons(s, Check, before + rest);
    RunAppend(a, before, rest);
    FitsAppend(a, before, rest);
    UserStepsKeepThePhase(a, before);
    RunCons(Run(a, before), Swap, Drain(scripts));
    FitsCons(Run(a, before), Swap, Drain(scripts));
  }

  /** The drain that began at `was` has `functors[i..]` left, and `scripts[i..]` to follow. */
  ghost predicate Left(was: Loop, s: Loop, functors: seq<Task>, scripts: seq<seq<Step>>, i: nat)
    requires i <= |functors| == |scripts|
  {
    && s.phase == Draining && s.batch == functors[i..]
    && Fits(s, Drain(scripts[i..])) && Run(s, Drain(scripts[i..])) == Run(was, Drain(scripts))
  }

  lemma LeftNext(was: Loop, s: Loop, functors: seq<Task>, scripts: seq<seq<Step>>, i: nat)
    requires i < |functors| == |scripts| && Left(was, s, functors, scripts, i) && UserSteps(scripts[i])
    ensures s.batch != [] && s.batch[0] == functors[i]
    ensures var a := Apply(s, NextFunctor);
      var b := Run(a, scripts[i]);
      Fits(a, scripts[i]) && Enabled(b, EndFunctor) && Left(was, Apply(b, EndFunctor), functors, scripts, i + 1)
  {
    assert scripts[i..][1..] == scripts[i + 1..] && functors[i..][1..] == functors[i + 1..];
    FunctorSchedule(s, scripts[i..]);
  }

  lemma LeftNothing(was: Loop, s: Loop, functors: seq<Task>, scripts: seq<seq<Step>>)
    requires |functors| == |scripts| && Left(was, s, functors, scripts, |functors|)
    requires was.batch == functors && forall es :: es in scripts ==> UserSteps(es)
    ensures Enabled(s, EndDrain) && Apply(s, EndDrain) == Run(was, Drain(scripts))
    ensures s.executed == was.executed + functors
  {
    assert scripts[|functors|..] == [] && [EndDrain] == [EndDrain] + [];
    RunCons(s, EndDrain, []);
    DrainSwapsOnce(scripts);
    DrainIsASnapshot(was, Drain(scripts));
  }

  lemma FunctorSchedule(s: Loop, scripts: seq<seq<Step>>)
    requires s.phase == Draining && s.batch != [] && scripts != [] && UserSteps(scripts[0])
    requires Fits(s, Drain(scripts))
    ensures var a := Apply(s, NextFunctor);
      var b := Run(a, scripts[0]);
      && Fits(a, scripts[0]) && Enabled(b, EndFunctor) && b.batch == a.batch && b.executed == a.executed
      && Fits(Apply(b, EndFunctor), Drain(scripts[1..]))
      && Run(s, Drain(scripts)) == Run(Apply(b, EndFunctor), Drain(scripts[1..]))
  {
    var a := Apply(s, NextFunctor);
    var rest := [EndFunctor] + Drain(scripts[1..]);
    RunCons(s, NextFunctor, scripts[0] + rest);
    FitsCons(s, NextFunctor, scripts[0] + rest);
    RunAppend(a, scripts[0], rest);
    FitsAppend(a, scripts[0], rest);
    UserStepsKeepThePhase(a, scripts[0]);
    FitsCons(Run(a, scripts[0]), EndFunctor, Drain(scripts[1..]));
    RunCons(Run(a, scripts[0]), EndFunctor, Drain(scripts[1..]));
  }
}
