/** What becomes of one side of a relay when the other ends or is shut down: how far a close is passed on,
    what ends a client connection, and what still flows in between. */
module RelayEndings {
  import opened Wrappers
  import opened Connections
  import opened HttpText
  import opened Relays

  type Event = Relays.Event

  // ---- How far a close is passed on ----

  /** A close has been passed on as far as the balancer does; `inTime` says that no backend was
      dialled for a client that was already dead. */
  ghost predicate Travelled(r: Relay, inTime: bool) {
    && (r.back.state == Disconnected ==> r.front.state != Connected)
    && (!r.attached ==> r.back.state != Connected)
    && (inTime && r.front.state == Disconnected ==> r.back.state != Connected && !r.attached)
  }

  lemma BackCallTravels(r: Relay, o: Outcome, msg: Bytes, inTime: bool)
    requires Travelled(r, inTime) && Fair(r.back, o, msg)
    ensures Travelled(Then(L4, r, Back, o), inTime)
  {
    ThenCases(L4, r, Back, o);
  }

  lemma FrontCallTravels(r: Relay, o: Outcome, msg: Bytes, inTime: bool)
    requires Travelled(r, inTime) && Fair(r.front, o, msg)
    requires r.front.state != Disconnected && r.back.state == Connected ==> r.attached
    ensures Travelled(Then(L4, r, Front, o), inTime)
  {
    ThenCases(L4, r, Front, o);
  }

  lemma StepTravels(r: Relay, e: Event, inTime: bool)
    requires Inv(L4, r) && Travelled(r, inTime) && (inTime ==> !DialsLate(r, e))
    ensures Travelled(Relays.Step(L4, r, e), inTime)
  {
    match e
    case Dial(_) =>
    case Timeout =>
    case FrontReadable(fr, _, w) =>
      if fr.Got? {
        ForwardTravels(r.(front := Receive(r.front, fr.data)), w, inTime);
      } else {
        CloseIsFair(r.front);
        FrontCallTravels(r, Close(r.front), [], inTime);
      }
    case FrontWritable(ws) =>
      FlushIsFair(r.front, ws);
      FrontCallTravels(r, Flush(r.front, ws), [], inTime);
    case FrontError =>
      CloseIsFair(r.front);
      FrontCallTravels(r, Close(r.front), [], inTime);
    case _ => BackEventTravels(r, e, inTime);
  }

  lemma ForwardTravels(r: Relay, w: WriteResult, inTime: bool)
    requires Sound(r.back) && Travelled(r, inTime)
    ensures Travelled(Forward(L4, r, r.front.input, w), inTime)
  {
    SendIsFair(r.back, r.front.input, w);
    BackCallTravels(r.(front := Consume(r.front)), Send(r.back, r.front.input, w), r.front.input, inTime);
  }

  lemma BackEventTravels(r: Relay, e: Event, inTime: bool)
    requires Inv(L4, r) && Travelled(r, inTime) && (e.BackReadable? || e.BackWritable? || e.BackError?)
    ensures Travelled(Relays.Step(L4, r, e), inTime)
  {
    if BackOpen(r) {
      CloseIsFair(r.back);
      BackCallTravels(r, Close(r.back), [], inTime);
      if e.BackReadable? && e.br.Got? {
        var r1 := r.(back := Consume(Receive(r.back, e.br.data)));
        SendIsFair(r1.front, e.br.data, e.bw);
        assert Receive(r.back, e.br.data).input == e.br.data;
        FrontCallTravels(r1, Send(r1.front, e.br.data, e.bw), e.br.data, inTime);
      } else if e.BackWritable? {
        FlushIsFair(r.back, e.bws);
        BackCallTravels(r, Flush(r.back, e.bws), [], inTime);
      }
    } else if r.attached && e.BackWritable? {
      var r1 := r.(back := ConnectCompleted(r.back), backendConnected := true);
      ForwardTravels(r1, if e.bws == [] then WouldBlock else e.bws[0], inTime);
    }
  }

  /** The posted createBackendConnection runs when its client is already dead. */
  predicate DialsLate(r: Relay, e: Event) {
    e == Dial(true) && r.dialing && r.front.state == Disconnected
  }

  predicate EverDialsLate(r: Relay, es: seq<Event>)
    decreases |es|
  {
    es != [] && (DialsLate(r, es[0]) || EverDialsLate(Relays.Step(L4, r, es[0]), es[1..]))
  }

  lemma {:induction false} RunTravels(r: Relay, es: seq<Event>, inTime: bool)
    requires Inv(L4, r) && Travelled(r, inTime) && (inTime ==> !EverDialsLate(r, es))
    ensures Travelled(Relays.Run(L4, r, es), inTime)
    decreases |es|
  {
    if es != [] {
      StepKeepsInv(L4, r, es[0]);
      StepTravels(r, es[0], inTime);
      RunTravels(Relays.Step(L4, r, es[0]), es[1..], inTime);
    }
  }

  /** In the balancer, when either connection is dead the other takes no more bytes to send, except for
      a backend that was dialled when its client was already dead. */
  lemma L4RefusalTravels(chosen: bool, es: seq<Event>)
    ensures var r := After(L4, chosen, es);
      && (r.back.state == Disconnected ==> r.front.state != Connected)
      && (r.front.state == Disconnected && r.back.state == Connected ==> EverDialsLate(Start(L4, chosen), es))
  {
    L4Travelled(chosen, es, !EverDialsLate(Start(L4, chosen), es));
  }

  lemma L4Travelled(chosen: bool, es: seq<Event>, inTime: bool)
    requires inTime ==> !EverDialsLate(Start(L4, chosen), es)
    ensures Travelled(After(L4, chosen, es), inTime)
  {
    Reached(L4, chosen, []);
    RunTravels(Start(L4, chosen), es, inTime);
  }

  /** A dead client whose backend is not open and will not be. */
  ghost predicate Severed(r: Relay) {
    && r.front.state == Disconnected && !r.dialing && r.back.state != Connected
    && (!r.attached || r.back.state == Disconnected)
  }

  lemma StaysSevered(r: Relay, e: Event)
    requires Inv(L4, r) && Severed(r)
    ensures Severed(Relays.Step(L4, r, e))
  {
    match e
    case Dial(_) =>
    case Timeout =>
    case FrontReadable(fr, _, w) =>
      if fr.Got? {
        var r1 := r.(front := Receive(r.front, fr.data));
        if BackOpen(r) {
          SendBack(L4, r1.(front := Consume(r1.front)), r1.front.input, w);
        }
      } else {
        CloseFront(L4, r);
      }
    case FrontWritable(ws) => FlushFront(L4, r, ws);
    case FrontError => CloseFront(L4, r);
    case BackReadable(_, _) => if BackOpen(r) { CloseBack(L4, r); }
    case BackWritable(ws) => if BackOpen(r) { FlushBack(L4, r, ws); }
    case BackError => if BackOpen(r) { CloseBack(L4, r); }
  }

  lemma {:induction false} SeveredForGood(r: Relay, es: seq<Event>)
    requires Inv(L4, r) && Severed(r)
    ensures Relays.Run(L4, r, es).back.state != Connected
    decreases |es|
  {
    if es != [] {
      StaysSevered(r, es[0]);
      StepKeepsInv(L4, r, es[0]);
      SeveredForGood(Relays.Step(L4, r, es[0]), es[1..]);
    }
  }

  /** Exactly when a dead client of the balancer may still get an open backend: the dial is still posted,
      or it ran after the client's death and the backend has not died. */
  lemma DeadClientDialsExactly(chosen: bool, before: seq<Event>)
    requires After(L4, chosen, before).front.state == Disconnected
    ensures var r := After(L4, chosen, before);
      (exists es :: Relays.Run(L4, r, es).back.state == Connected)
      <==> r.dialing || (r.attached && r.back.state != Disconnected)
  {
    var r := After(L4, chosen, before);
    Reached(L4, chosen, before);
    L4Travelled(chosen, before, false);
    if r.dialing {
      var r1 := Relays.Step(L4, r, Dial(true));
      StepKeepsInv(L4, r, Dial(true));
      LateDialConnects(r1);
      RunCons(L4, r, Dial(true), [BackWritable([])]);
      RunCons(L4, r1, BackWritable([]), []);
      assert Relays.Run(L4, r, [Dial(true)] + [BackWritable([])]).back.state == Connected;
    } else if r.attached && r.back.state == Connecting {
      LateDialConnects(r);
      RunCons(L4, r, BackWritable([]), []);
      assert Relays.Run(L4, r, [BackWritable([])] + []).back.state == Connected;
    } else if r.attached && r.back.state == Connected {
      RunCons(L4, r, Dial(false), []);
      assert Relays.Run(L4, r, [Dial(false)] + []).back.state == Connected;
    } else {
      forall es
        ensures Relays.Run(L4, r, es).back.state != Connected
      {
        SeveredForGood(r, es);
      }
    }
  }

  lemma LateDialConnects(r: Relay)
    requires Inv(L4, r) && r.attached && r.back.state == Connecting
    ensures Relays.Step(L4, r, BackWritable([])).back.state == Connected
  {
    var r1 := r.(back := ConnectCompleted(r.back), backendConnected := true, front := Consume(r.front));
    ThenCases(L4, r1, Back, Send(r1.back, r.front.input, WouldBlock));
  }

  /** A client that dies at once leaves a dial posted. */
  lemma LateDialIsReached()
    ensures DialsLate(After(L4, true, [FrontError]), Dial(true))
  {
    var r := Start(L4, true);
    assert [FrontError] == [FrontError] + [];
    RunCons(L4, r, FrontError, []);
    ThenCases(L4, r, Front, Close(r.front));
  }

  // ---- What ends a client connection ----

  /** The client connection's own error, the end of its stream, a failed read, or a failed write to it. */
  predicate FrontFaults(e: Event) {
    match e
    case FrontReadable(fr, _, _) => fr == Eof || fr == ReadFault
    case FrontWritable(fws) => WriteFault in fws
    case FrontError => true
    case BackReadable(br, bw) => br.Got? && bw == WriteFault
    case _ => false
  }

  /** The same, counting the write of a 404, which only a client without a backend is sent. */
  predicate Faults(r: Relay, e: Event) {
    FrontFaults(e) || (r.waiting && e.FrontReadable? && e.fr.Got? && e.fw == WriteFault)
  }

  predicate EverFaults(kind: Kind, r: Relay, es: seq<Event>)
    decreases |es|
  {
    es != [] && (Faults(r, es[0]) || EverFaults(kind, Relays.Step(kind, r, es[0]), es[1..]))
  }

  /** Whatever happened did not kill the client connection; in the HTTP proxy, once there is a backend, it
      did not change its state at all. */
  ghost predicate Spared(kind: Kind, r: Relay, r': Relay) {
    && (r'.front.state == Disconnected <==> r.front.state == Disconnected)
    && (r.created ==> r'.created && (kind.Http? ==> r'.front.state == r.front.state))
  }

  lemma {:induction false} BackReportsSpare(kind: Kind, r: Relay, cbs: seq<Callback>)
    ensures Spared(kind, r, Reports(kind, r, Back, cbs))
    decreases |cbs|
  {
    if cbs != [] {
      BackReportsSpare(kind, Report(kind, r, Back, cbs[0]), cbs[1..]);
    }
  }

  lemma {:induction false} FrontReportsSpare(kind: Kind, r: Relay, cbs: seq<Callback>)
    ensures var r' := Reports(kind, r, Front, cbs);
      && r'.front == r.front && r'.created == r.created
      && (r'.back.state == Disconnected <==> r.back.state == Disconnected)
    decreases |cbs|
  {
    if cbs != [] {
      FrontReportsSpare(kind, Report(kind, r, Front, cbs[0]), cbs[1..]);
    }
  }

  lemma ForwardSpares(kind: Kind, r: Relay, data: Bytes, w: WriteResult)
    ensures Spared(kind, r, Forward(kind, r, data, w))
  {
    var o := Send(r.back, data, w);
    BackReportsSpare(kind, r.(front := Consume(r.front), back := o.0), o.1);
  }

  lemma SendFrontSpares(kind: Kind, r: Relay, data: Bytes, w: WriteResult)
    requires w != WriteFault
    ensures var r' := Then(kind, r, Front, Send(r.front, data, w));
      r'.front.state == r.front.state && r'.created == r.created
  {
    var o := Send(r.front, data, w);
    FrontReportsSpare(kind, r.(front := o.0), o.1);
  }

  lemma StepSpares(kind: Kind, r: Relay, e: Event)
    requires Inv(kind, r) && !Faults(r, e)
    ensures Spared(kind, r, Relays.Step(kind, r, e))
  {
    match e
    case Dial(_) =>
    case Timeout =>
    case FrontReadable(fr, _, w) =>
      if fr.Got? {
        var r1 := r.(front := Receive(r.front, fr.data));
        ForwardSpares(kind, r1, r1.front.input, w);
        if r.waiting {
          SendFrontSpares(kind, r1, NOT_FOUND, w);
        }
      }
    case FrontWritable(ws) =>
      var o := Flush(r.front, ws);
      NoFaultNoClose(r.front, ws);
      FrontReportsSpare(kind, r.(front := o.0), o.1);
    case FrontError =>
    case _ => BackStepSpares(kind, r, e);
  }

  lemma BackStepSpares(kind: Kind, r: Relay, e: Event)
    requires Inv(kind, r) && !FrontFaults(e) && (e.BackReadable? || e.BackWritable? || e.BackError?)
    ensures Spared(kind, r, Relays.Step(kind, r, e))
  {
    if BackOpen(r) {
      BackReportsSpare(kind, r.(back := Close(r.back).0), Close(r.back).1);
      if e.BackReadable? && e.br.Got? {
        SendFrontSpares(kind, r.(back := Consume(Receive(r.back, e.br.data))), Receive(r.back, e.br.data).input, e.bw);
      } else if e.BackWritable? {
        var o := Flush(r.back, e.bws);
        BackReportsSpare(kind, r.(back := o.0), o.1);
      }
    } else if r.attached && e.BackWritable? {
      var r0 := r.(back := ConnectCompleted(r.back));
      var r1 := if kind == L4 then r0.(backendConnected := true) else r0;
      var data := if kind == L4 then r1.front.input else ModifyRequest(r1.front.input, r1.addr);
      ForwardSpares(kind, r1, data, if e.bws == [] then WouldBlock else e.bws[0]);
    }
  }

  lemma {:induction false} RunSpares(kind: Kind, r: Relay, es: seq<Event>)
    requires Inv(kind, r) && !EverFaults(kind, r, es)
    ensures Spared(kind, r, Relays.Run(kind, r, es))
    decreases |es|
  {
    if es != [] {
      StepSpares(kind, r, es[0]);
      StepKeepsInv(kind, r, es[0]);
      RunSpares(kind, Relays.Step(kind, r, es[0]), es[1..]);
    }
  }

  /** What ends a client connection at once, whatever else is going on. */
  predicate Kills(e: Event) {
    e == FrontError || (e.FrontReadable? && (e.fr == Eof || e.fr == ReadFault))
  }

  lemma KillEnds(kind: Kind, r: Relay, e: Event)
    requires Inv(kind, r) && Kills(e)
    ensures Relays.Step(kind, r, e).front.state == Disconnected
  {
    FrontReportsSpare(kind, r.(front := Close(r.front).0), Close(r.front).1);
  }

  lemma {:induction false} KillsEnd(kind: Kind, r: Relay, es: seq<Event>)
    requires Inv(kind, r) && (r.front.state == Disconnected || exists e :: e in es && Kills(e))
    ensures Relays.Run(kind, r, es).front.state == Disconnected
    decreases |es|
  {
    if es != [] {
      var r1 := Relays.Step(kind, r, es[0]);
      StepKeepsInv(kind, r, es[0]);
      if r.front.state == Disconnected {
        StaysClosed(kind, r, es[0]);
      } else if Kills(es[0]) {
        KillEnds(kind, r, es[0]);
      } else {
        var e :| e in es && Kills(e);
        assert e in es[1..];
      }
      KillsEnd(kind, r1, es[1..]);
    }
  }

  /** In both proxies nothing but its own faults ends a client connection: no timeout, no 404, no close of
      the backend. Until one comes it is open or half shut, for ever; an error, the end of the stream or a
      failed read ends it. */
  lemma OnlyFaultsEndTheClient(kind: Kind, chosen: bool, before: seq<Event>, es: seq<Event>)
    ensures var r := After(kind, chosen, before);
      var r' := Relays.Run(kind, r, es);
      && (!EverFaults(kind, r, es) ==> (r'.front.state == Disconnected <==> r.front.state == Disconnected))
      && ((exists e :: e in es && Kills(e)) ==> r'.front.state == Disconnected)
  {
    var r := After(kind, chosen, before);
    Reached(kind, chosen, before);
    if !EverFaults(kind, r, es) {
      RunSpares(kind, r, es);
    }
    if exists e :: e in es && Kills(e) {
      KillsEnd(kind, r, es);
    }
  }

  lemma {:induction false} OwnFaults(kind: Kind, r: Relay, es: seq<Event>)
    requires Inv(kind, r) && r.created && forall e :: e in es ==> !FrontFaults(e)
    ensures !EverFaults(kind, r, es)
    decreases |es|
  {
    if es != [] {
      StepSpares(kind, r, es[0]);
      StepKeepsInv(kind, r, es[0]);
      OwnFaults(kind, Relays.Step(kind, r, es[0]), es[1..]);
    }
  }

  /** In the HTTP proxy nothing that happens to the backend, and so no death of it, changes the state of
      its client connection: only the client connection's own faults do. */
  lemma HttpClientNeverHears(kind: Kind, r: Relay, es: seq<Event>)
    requires kind.Http? && Inv(kind, r) && r.created
    requires forall e :: e in es ==> !FrontFaults(e)
    ensures Relays.Run(kind, r, es).front.state == r.front.state
  {
    OwnFaults(kind, r, es);
    RunSpares(kind, r, es);
  }

  // ---- What ends a backend connection ----

  /** The backend connection's own error, the end of its stream, a failed read, or a failed write to it. */
  predicate BackFaults(e: Event) {
    match e
    case BackReadable(br, _) => br == Eof || br == ReadFault
    case BackWritable(bws) => WriteFault in bws
    case BackError => true
    case FrontReadable(fr, _, fw) => fr.Got? && fw == WriteFault
    case _ => false
  }

  /** What ends a backend connection at once. */
  predicate BackKills(e: Event) {
    e == BackError || (e.BackReadable? && (e.br == Eof || e.br == ReadFault))
  }

  lemma ForwardSparesBack(kind: Kind, r: Relay, data: Bytes, w: WriteResult)
    requires w != WriteFault
    ensures var r' := Forward(kind, r, data, w);
      r'.back.state == r.back.state
  {
    var o := Send(r.back, data, w);
    BackReportsKeep(kind, r.(front := Consume(r.front), back := o.0), o.1);
  }

  lemma StepSparesBack(kind: Kind, r: Relay, e: Event)
    requires Inv(kind, r) && !BackFaults(e)
    ensures Relays.Step(kind, r, e).back.state == Disconnected <==> r.back.state == Disconnected
  {
    match e
    case Dial(_) =>
    case Timeout =>
    case FrontReadable(_, _, _) => FrontStepSparesBack(kind, r, e);
    case FrontWritable(_) => FrontStepSparesBack(kind, r, e);
    case FrontError => FrontStepSparesBack(kind, r, e);
    case BackReadable(br, w) =>
      if br.Got? && BackOpen(r) {
        var r1 := r.(back := Consume(Receive(r.back, br.data)));
        var o := Send(r1.front, Receive(r.back, br.data).input, w);
        FrontReportsSpare(kind, r1.(front := o.0), o.1);
      }
    case BackWritable(ws) => BackWriteSparesBack(kind, r, ws);
    case BackError =>
  }

  lemma FrontStepSparesBack(kind: Kind, r: Relay, e: Event)
    requires Inv(kind, r) && !BackFaults(e) && (e.FrontReadable? || e.FrontWritable? || e.FrontError?)
    ensures Relays.Step(kind, r, e).back.state == Disconnected <==> r.back.state == Disconnected
  {
    match e
    case FrontReadable(fr, _, w) =>
      if fr.Got? {
        var r1 := r.(front := Receive(r.front, fr.data));
        ForwardSparesBack(kind, r1, r1.front.input, w);
        FrontReportsSpare(kind, r1.(front := Send(r1.front, NOT_FOUND, w).0), Send(r1.front, NOT_FOUND, w).1);
      } else {
        FrontReportsSpare(kind, r.(front := Close(r.front).0), Close(r.front).1);
      }
    case FrontWritable(ws) => FrontReportsSpare(kind, r.(front := Flush(r.front, ws).0), Flush(r.front, ws).1);
    case FrontError => FrontReportsSpare(kind, r.(front := Close(r.front).0), Close(r.front).1);
  }

  lemma BackWriteSparesBack(kind: Kind, r: Relay, ws: seq<WriteResult>)
    requires Inv(kind, r) && WriteFault !in ws
    ensures Relays.Step(kind, r, BackWritable(ws)).back.state == Disconnected <==> r.back.state == Disconnected
  {
    if BackOpen(r) {
      var o := Flush(r.back, ws);
      NoFaultNoClose(r.back, ws);
      BackReportsKeep(kind, r.(back := o.0), o.1);
    } else if r.attached {
      var r0 := r.(back := ConnectCompleted(r.back));
      var r1 := if kind == L4 then r0.(backendConnected := true) else r0;
      var data := if kind == L4 then r1.front.input else ModifyRequest(r1.front.input, r1.addr);
      ForwardSparesBack(kind, r1, data, if ws == [] then WouldBlock else ws[0]);
    }
  }

  lemma {:induction false} RunSparesBack(kind: Kind, r: Relay, es: seq<Event>)
    requires Inv(kind, r) && forall e :: e in es ==> !BackFaults(e)
    ensures Relays.Run(kind, r, es).back.state == Disconnected <==> r.back.state == Disconnected
    decreases |es|
  {
    if es != [] {
      assert es[0] in es && forall e :: e in es[1..] ==> e in es;
      StepSparesBack(kind, r, es[0]);
      StepKeepsInv(kind, r, es[0]);
      RunSparesBack(kind, Relays.Step(kind, r, es[0]), es[1..]);
    }
  }

  /** Dead, or let go by a client connection that is dead. */
  predicate BackGone(r: Relay) {
    r.back.state == Disconnected || (r.front.state == Disconnected && !r.attached)
  }

  lemma BackKillEnds(kind: Kind, r: Relay, e: Event)
    requires BackOpen(r) && BackKills(e)
    ensures Relays.Step(kind, r, e).back.state == Disconnected
  {
    BackReportsKeep(kind, r.(back := Close(r.back).0), Close(r.back).1);
  }

  /** A backend that has connected stays so, or gone. */
  ghost predicate KeepsMade(r: Relay, r': Relay) {
    r'.created && r'.back.state != Connecting && (BackGone(r) ==> BackGone(r'))
  }

  lemma StaysMade(kind: Kind, r: Relay, e: Event)
    requires Inv(kind, r) && r.created && r.back.state != Connecting
    ensures KeepsMade(r, Relays.Step(kind, r, e))
  {
    match e
    case Dial(_) =>
    case Timeout =>
    case FrontReadable(_, _, _) => FrontStaysMade(kind, r, e);
    case FrontWritable(_) => FrontStaysMade(kind, r, e);
    case FrontError => FrontStaysMade(kind, r, e);
    case BackReadable(br, w) =>
      if BackOpen(r) {
        CloseBack(kind, r);
        if br.Got? {
          RespondStaysMade(kind, r, br.data, w);
        }
      }
    case BackWritable(ws) => if BackOpen(r) { FlushBack(kind, r, ws); }
    case BackError => if BackOpen(r) { CloseBack(kind, r); }
  }

  lemma FrontStaysMade(kind: Kind, r: Relay, e: Event)
    requires Inv(kind, r) && r.created && r.back.state != Connecting
    requires e.FrontReadable? || e.FrontWritable? || e.FrontError?
    ensures KeepsMade(r, Relays.Step(kind, r, e))
  {
    match e
    case FrontReadable(fr, _, w) =>
      if fr.Got? {
        var r1 := r.(front := Consume(Receive(r.front, fr.data)));
        SendBack(kind, r1, Receive(r.front, fr.data).input, w);
      } else {
        CloseFront(kind, r);
      }
    case FrontWritable(ws) => FlushFront(kind, r, ws);
    case FrontError => CloseFront(kind, r);
  }

  lemma RespondStaysMade(kind: Kind, r: Relay, data: Bytes, w: WriteResult)
    requires Inv(kind, r) && r.created && BackOpen(r)
    ensures KeepsMade(r, Respond(kind, r.(back := Receive(r.back, data)), w))
  {
    var r1 := r.(back := Consume(Receive(r.back, data)));
    SendFront(kind, r1, Receive(r.back, data).input, w);
  }

  lemma {:induction false} BackKillsEnd(kind: Kind, r: Relay, es: seq<Event>)
    requires Inv(kind, r) && r.created && r.back.state != Connecting
    requires BackGone(r) || exists e :: e in es && BackKills(e)
    ensures BackGone(Relays.Run(kind, r, es))
    decreases |es|
  {
    if es != [] {
      var r1 := Relays.Step(kind, r, es[0]);
      StepKeepsInv(kind, r, es[0]);
      StaysMade(kind, r, es[0]);
      if !BackGone(r) && BackKills(es[0]) {
        BackKillEnds(kind, r, es[0]);
      } else if !BackGone(r) {
        var e :| e in es && BackKills(e);
        assert e in es[1..];
      }
      BackKillsEnd(kind, r1, es[1..]);
    }
  }

  /** In both proxies a backend that has connected ends by its own faults and by nothing else: an error, the
      end of its stream or a failed read ends it, unless its client connection has died first and let it go;
      and in the balancer its client then refuses to send. */
  lemma OnlyFaultsEndTheBackend(kind: Kind, chosen: bool, before: seq<Event>, es: seq<Event>)
    requires BackOpen(After(kind, chosen, before))
    ensures var r := After(kind, chosen, before);
      var r' := After(kind, chosen, before + es);
      && ((forall e :: e in es ==> !BackFaults(e)) ==>
            (r'.back.state == Disconnected <==> r.back.state == Disconnected))
      && ((exists e :: e in es && BackKills(e)) ==> BackGone(r') && (kind == L4 ==> r'.front.state != Connected))
  {
    var r := After(kind, chosen, before);
    Reached(kind, chosen, before);
    RunAppend(kind, Start(kind, chosen), before, es);
    if forall e :: e in es ==> !BackFaults(e) {
      RunSparesBack(kind, r, es);
    }
    if exists e :: e in es && BackKills(e) {
      BackKillsEnd(kind, r, es);
      if kind == L4 {
        L4RefusalTravels(chosen, before + es);
      }
    }
  }

  /** At once: whatever kills an open backend leaves it dead; the balancer then shuts its client down, and
      the HTTP proxy leaves it alone. */
  lemma BackendDies(kind: Kind, chosen: bool, before: seq<Event>, e: Event)
    requires BackOpen(After(kind, chosen, before)) && BackKills(e)
    ensures var r := After(kind, chosen, before);
      var r' := Relays.Step(kind, r, e);
      && r'.back.state == Disconnected && r'.attached
      && r'.front == if kind == L4 && r.front.state == Connected then r.front.(state := Disconnecting) else r.front
  {
    var r := After(kind, chosen, before);
    BackKillEnds(kind, r, e);
    ThenCases(kind, r, Back, Close(r.back));
  }

  lemma {:induction false} RunAppend(kind: Kind, r: Relay, a: seq<Event>, b: seq<Event>)
    ensures Relays.Run(kind, r, a + b) == Relays.Run(kind, Relays.Run(kind, r, a), b)
    decreases |a|
  {
    if a == [] {
      assert a + b == b;
    } else {
      assert (a + b)[1..] == a[1..] + b;
      RunAppend(kind, Relays.Step(kind, r, a[0]), a[1..], b);
    }
  }

  /** The other way: when a client connection dies, its backend is let go, and the balancer shuts it down
      first. */
  lemma ClientDies(kind: Kind, chosen: bool, before: seq<Event>, e: Event)
    requires After(kind, chosen, before).front.state != Disconnected && Kills(e)
    ensures var r := After(kind, chosen, before);
      var r' := Relays.Step(kind, r, e);
      && r'.front.state == Disconnected && !r'.attached
      && r'.back == if kind == L4 && r.back.state == Connected then r.back.(state := Disconnecting) else r.back
  {
    var r := After(kind, chosen, before);
    Reached(kind, chosen, before);
    ThenCases(kind, r, Front, Close(r.front));
  }

  // ---- A client that was shut down ----

  predicate Shut(c: Conn) {
    c.state == Disconnecting || c.state == Disconnected
  }

  /** It is given nothing more, and if it was paused it stays so. */
  ghost predicate StillShut(r: Relay, r': Relay) {
    && Shut(r'.front) && Handed(r'.front) == Handed(r.front)
    && (r.front.state == Disconnected ==> r'.front.state == Disconnected)
    && (!r.front.reading ==> !r'.front.reading)
  }

  lemma StaysClosed(kind: Kind, r: Relay, e: Event)
    requires Inv(kind, r) && Shut(r.front)
    ensures StillShut(r, Relays.Step(kind, r, e))
  {
    match e
    case Dial(_) =>
    case Timeout =>
    case FrontReadable(fr, dials, w) =>
      if fr.Got? {
        ShutWithBytes(kind, r, fr.data, dials, w);
      } else {
        CloseFront(kind, r);
      }
    case FrontWritable(ws) => FlushFront(kind, r, ws);
    case FrontError => CloseFront(kind, r);
    case _ => StaysClosedByBackend(kind, r, e);
  }

  lemma StaysClosedByBackend(kind: Kind, r: Relay, e: Event)
    requires Inv(kind, r) && Shut(r.front) && (e.BackReadable? || e.BackWritable? || e.BackError?)
    ensures StillShut(r, Relays.Step(kind, r, e))
  {
    if BackOpen(r) {
      match e
      case BackReadable(_, _) => CloseBack(kind, r);
      case BackWritable(ws) => FlushBack(kind, r, ws);
      case BackError => CloseBack(kind, r);
    } else if r.attached && e.BackWritable? {
      ShutBeforeBackend(kind, r, if e.bws == [] then WouldBlock else e.bws[0]);
    }
  }

  lemma ShutWithBytes(kind: Kind, r: Relay, data: Bytes, dials: bool, w: WriteResult)
    requires Inv(kind, r) && Shut(r.front)
    ensures StillShut(r, OnMessage(kind, r.(front := Receive(r.front, data)), dials, w))
  {
    var r1 := r.(front := Receive(r.front, data));
    if BackOpen(r) {
      SendBack(kind, r1.(front := Consume(r1.front)), r1.front.input, w);
    }
    assert Send(r1.front, NOT_FOUND, w) == (r1.front, []);
    ThenCases(kind, r1, Front, Send(r1.front, NOT_FOUND, w));
  }

  lemma ShutBeforeBackend(kind: Kind, r: Relay, w: WriteResult)
    requires Inv(kind, r) && r.attached && r.back.state == Connecting && Shut(r.front)
    ensures StillShut(r, BackendUp(kind, r.(back := ConnectCompleted(r.back)), w))
  {
    var r1 := r.(back := ConnectCompleted(r.back));
    var r2 := if kind == L4 then r1.(backendConnected := true) else r1;
    var data := if kind == L4 then r2.front.input else ModifyRequest(r2.front.input, r2.addr);
    SendBack(kind, r2.(front := Consume(r2.front)), data, w);
  }

  /** A client connection that was shut down, for whatever reason, is given nothing more, is not opened
      again, and is not read again if it was paused. */
  lemma {:induction false} ShutForGood(kind: Kind, r: Relay, es: seq<Event>)
    requires Inv(kind, r) && Shut(r.front)
    ensures StillShut(r, Relays.Run(kind, r, es))
    decreases |es|
  {
    if es != [] {
      StepKeepsInv(kind, r, es[0]);
      StaysClosed(kind, r, es[0]);
      ShutForGood(kind, Relays.Step(kind, r, es[0]), es[1..]);
    }
  }

  function Concat(chunks: seq<Bytes>): Bytes {
    if chunks == [] then [] else chunks[0] + Concat(chunks[1..])
  }

  /** The client sends the chunks, and the kernel takes of each what `w` says. */
  function Reads(chunks: seq<Bytes>, w: WriteResult): seq<Event> {
    if chunks == [] then [] else [FrontReadable(Got(chunks[0]), true, w)] + Reads(chunks[1..], w)
  }

  /** An open backend is given all of it, whatever has become of the client connection. */
  ghost predicate Taken(r: Relay, r': Relay, data: Bytes, w: WriteResult) {
    && r'.attached && r'.back.state == Connected && r'.front.state == r.front.state
    && r'.front.received == r.front.received + data && Handed(r'.back) == Handed(r.back) + data
    && (w == WouldBlock ==> r'.back.accepted == r.back.accepted)
  }

  /** The backend's callbacks leave the backend as it is. */
  lemma {:induction false} BackReportsKeep(kind: Kind, r: Relay, cbs: seq<Callback>)
    ensures Reports(kind, r, Back, cbs).back == r.back
    decreases |cbs|
  {
    if cbs != [] {
      BackReportsKeep(kind, Report(kind, r, Back, cbs[0]), cbs[1..]);
    }
  }

  /** What a send that does not fail may report. */
  predicate Mild(cbs: seq<Callback>) {
    cbs == [] || cbs == [WriteComplete] || cbs == [HighWater]
  }

  lemma MildSend(c: Conn, data: Bytes, w: WriteResult)
    requires Sound(c) && c.state == Connected && w != WriteFault
    ensures var (c', cbs) := Send(c, data, w);
      && c'.state == Connected && Handed(c') == Handed(c) + data && Mild(cbs)
      && (w == WouldBlock ==> c'.accepted == c.accepted)
  {
    SendIsFair(c, data, w);
  }

  lemma MildReports(kind: Kind, r: Relay, cbs: seq<Callback>)
    requires Mild(cbs)
    ensures var r' := Reports(kind, r, Back, cbs);
      && r'.back == r.back && r'.attached == r.attached
      && r'.front.state == r.front.state && r'.front.received == r.front.received
  {
    if cbs != [] {
      assert cbs == [cbs[0]];
      ReportsOne(kind, r, Back, cbs[0]);
    }
  }

  lemma OneReadTaken(kind: Kind, r: Relay, data: Bytes, w: WriteResult)
    requires Inv(kind, r) && r.attached && r.back.state == Connected && w != WriteFault
    ensures Taken(r, Relays.Step(kind, r, FrontReadable(Got(data), true, w)), data, w)
  {
    var r1 := r.(front := Consume(Receive(r.front, data)));
    assert Receive(r.front, data).input == data;
    var o := Send(r1.back, data, w);
    MildSend(r1.back, data, w);
    MildReports(kind, r1.(back := o.0), o.1);
  }

  lemma {:induction false} ReadsTaken(kind: Kind, r: Relay, chunks: seq<Bytes>, w: WriteResult)
    requires Inv(kind, r) && r.attached && r.back.state == Connected && w != WriteFault
    ensures Taken(r, Relays.Run(kind, r, Reads(chunks, w)), Concat(chunks), w)
    decreases |chunks|
  {
    if chunks == [] {
      assert r.front.received + [] == r.front.received && Handed(r.back) + [] == Handed(r.back);
    } else {
      var e := FrontReadable(Got(chunks[0]), true, w);
      var r1 := Relays.Step(kind, r, e);
      OneReadTaken(kind, r, chunks[0], w);
      StepKeepsInv(kind, r, e);
      RunCons(kind, r, e, Reads(chunks[1..], w));
      ReadsTaken(kind, r1, chunks[1..], w);
      TakenJoins(r, r1, Relays.Run(kind, r1, Reads(chunks[1..], w)), chunks[0], Concat(chunks[1..]), w);
    }
  }

  lemma TakenJoins(r: Relay, r1: Relay, r2: Relay, a: Bytes, b: Bytes, w: WriteResult)
    requires Taken(r, r1, a, w) && Taken(r1, r2, b, w)
    ensures Taken(r, r2, a + b, w)
  {
    assert r.front.received + a + b == r.front.received + (a + b);
    assert Handed(r.back) + a + b == Handed(r.back) + (a + b);
  }

  /** A timeout of the balancer only stops what is sent to the client: what the client sends is still read
      and still forwarded, all of it, and the connection stays. */
  lemma TimedOutIsStillForwarded(before: seq<Event>, chunks: seq<Bytes>, w: WriteResult)
    requires w != WriteFault
    requires var r := After(L4, true, before);
      r.front.state == Connected && r.back.state == Connected
    ensures var r := Relays.Step(L4, After(L4, true, before), Timeout);
      var r' := Relays.Run(L4, r, Reads(chunks, w));
      && r.front.state == Disconnecting && r'.front.state == Disconnecting && r'.back.state == Connected
      && Handed(r'.back) == Handed(r.back) + Concat(chunks)
      && Handed(r'.front) == Handed(r.front)
  {
    var r0 := After(L4, true, before);
    var r := Relays.Step(L4, r0, Timeout);
    Reached(L4, true, before);
    StepKeepsInv(L4, r0, Timeout);
    ReadsTaken(L4, r, chunks, w);
    ShutForGood(L4, r, Reads(chunks, w));
  }

  // ---- A dead backend of the HTTP proxy ----

  /** The backend is dead, and what the client has sent since it died is kept. */
  ghost predicate DeadWith(r: Relay, r': Relay) {
    && r'.back.state == Disconnected && r'.back.accepted == r.back.accepted
    && r.front.received <= r'.front.received
    && r'.front.input == r.front.input + r'.front.received[|r.front.received|..]
    && (!r.front.reading && r.front.state != Connecting ==> !r'.front.reading)
  }

  lemma HttpDeadStep(kind: Kind, r: Relay, e: Event)
    requires kind.Http? && Inv(kind, r) && r.back.state == Disconnected
    ensures DeadWith(r, Relays.Step(kind, r, e))
  {
    match e
    case Dial(_) =>
    case Timeout =>
    case FrontReadable(fr, dials, w) =>
      if fr.Got? {
        var r1 := r.(front := Receive(r.front, fr.data));
        assert OnMessage(kind, r1, dials, w) == r1;
      } else {
        CloseFront(kind, r);
      }
    case FrontWritable(ws) => FlushFront(kind, r, ws);
    case FrontError => CloseFront(kind, r);
    case BackReadable(br, w) =>
      if br.Got? && BackOpen(r) {
        HttpDeadRespond(kind, r, br.data, w);
      } else {
        HttpDeadQuiet(kind, r, e);
      }
    case BackWritable(_) => HttpDeadQuiet(kind, r, e);
    case BackError => HttpDeadQuiet(kind, r, e);
  }

  lemma HttpDeadQuiet(kind: Kind, r: Relay, e: Event)
    requires kind.Http? && Inv(kind, r) && r.back.state == Disconnected
    requires (e.BackReadable? && !(e.br.Got? && BackOpen(r))) || e.BackWritable? || e.BackError?
    ensures Relays.Step(kind, r, e) == r
  {
    assert Close(r.back) == (r.back, [Closed]);
    ReportsOne(kind, r, Back, Closed);
    assert r.(back := r.back) == r;
  }

  lemma HttpDeadRespond(kind: Kind, r: Relay, data: Bytes, w: WriteResult)
    requires kind.Http? && Inv(kind, r) && r.back.state == Disconnected
    ensures DeadWith(r, Respond(kind, r.(back := Receive(r.back, data)), w))
  {
    var r1 := r.(back := Consume(Receive(r.back, data)));
    assert Receive(r.back, data).input == data;
    SendFront(kind, r1, data, w);
  }

  lemma {:induction false} HttpDeadRun(kind: Kind, r: Relay, es: seq<Event>)
    requires kind.Http? && Inv(kind, r) && r.back.state == Disconnected
    ensures DeadWith(r, Relays.Run(kind, r, es))
    decreases |es|
  {
    if es == [] {
      assert r.front.received[|r.front.received|..] == [];
    } else {
      var r1 := Relays.Step(kind, r, es[0]);
      HttpDeadStep(kind, r, es[0]);
      StepKeepsInv(kind, r, es[0]);
      HttpDeadRun(kind, r1, es[1..]);
      DeadWithJoins(r, r1, Relays.Run(kind, r1, es[1..]));
    }
  }

  lemma DeadWithJoins(r: Relay, r1: Relay, r2: Relay)
    requires DeadWith(r, r1) && DeadWith(r1, r2) && r1.front.state != Connecting
    ensures DeadWith(r, r2)
  {
    var n, n1 := |r.front.received|, |r1.front.received|;
    assert r2.front.received[n..] == r1.front.received[n..] + r2.front.received[n1..];
  }

  /** However the backend died: from then on, in every continuation, it is given nothing more, every
      byte of the client is kept and none is forwarded, and the client connection stays in the state
      it is in until it faults itself. */
  lemma HttpBackendDeathIsUnheard(routes: map<string, string>, es: seq<Event>, more: seq<Event>)
    requires After(Http(routes), true, es).back.state == Disconnected
    ensures var r := After(Http(routes), true, es);
      var r' := Relays.Run(Http(routes), r, more);
      && r'.back.state == Disconnected && r'.back.accepted == r.back.accepted
      && r.front.received <= r'.front.received
      && r'.front.input == r.front.input + r'.front.received[|r.front.received|..]
      && ((forall e :: e in more ==> !FrontFaults(e)) ==> r'.front.state == r.front.state)
  {
    var kind := Http(routes);
    var r := After(kind, true, es);
    Reached(kind, true, es);
    HttpDeadRun(kind, r, more);
    if forall e :: e in more ==> !FrontFaults(e) {
      HttpClientNeverHears(kind, r, more);
    }
  }

  // ---- Runs that open a relay ----

  /** A request that the proxy can route. */
  predicate Routes(routes: map<string, string>, head: Bytes) {
    && ParseHeader(head, "Host") != "" && ParsePath(head) != ""
    && Lookup(routes, ParsePath(head)).Backend?
  }

  const L4_OPENING: seq<Event> := [Dial(true)] + ([BackWritable([])] + [])

  function HttpOpening(head: Bytes): seq<Event> {
    [FrontReadable(Got(head), true, WouldBlock)] + ([BackWritable([])] + [])
  }

  predicate Open(r: Relay) {
    r.attached && r.front.state == Connected && r.back.state == Connected
  }

  lemma L4Opens()
    ensures Open(After(L4, true, L4_OPENING))
  {
    var r := Start(L4, true);
    var r1 := Relays.Step(L4, r, Dial(true));
    RunCons(L4, r, Dial(true), [BackWritable([])] + []);
    RunCons(L4, r1, BackWritable([]), []);
  }

  lemma HttpDials(routes: map<string, string>, head: Bytes)
    requires Routes(routes, head)
    ensures var r := Start(Http(routes), true);
      Relays.Step(Http(routes), r, FrontReadable(Got(head), true, WouldBlock))
      == CreateBackend(r.(front := Receive(r.front, head)), Lookup(routes, ParsePath(head)).addr)
  {
    assert Receive(Start(Http(routes), true).front, head).input == head;
  }

  lemma HttpOpens(routes: map<string, string>, head: Bytes)
    requires Routes(routes, head)
    ensures Open(After(Http(routes), true, HttpOpening(head)))
  {
    var kind := Http(routes);
    var r := Start(kind, true);
    var e := FrontReadable(Got(head), true, WouldBlock);
    var r1 := Relays.Step(kind, r, e);
    HttpDials(routes, head);
    HttpConnects(kind, r1);
    RunCons(kind, r, e, [BackWritable([])] + []);
    RunCons(kind, r1, BackWritable([]), []);
  }

  lemma HttpConnects(kind: Kind, r: Relay)
    requires kind.Http? && r.attached && r.front.state == Connected && r.back == ConnectEstablishedAsClient(New(MARK))
    ensures Open(Relays.Step(kind, r, BackWritable([])))
  {
    var r1 := r.(back := ConnectCompleted(r.back), front := Consume(r.front));
    ThenCases(kind, r1, Back, Send(r1.back, ModifyRequest(r.front.input, r.addr), WouldBlock));
  }

  /** A request with a routed path whose backend connects and fails: the shortest such run. */
  lemma HttpDeathIsReached(routes: map<string, string>, head: Bytes)
    requires Routes(routes, head)
    ensures After(Http(routes), true, HttpOpening(head) + [BackError]).back.state == Disconnected
  {
    var kind := Http(routes);
    HttpOpens(routes, head);
    var r := After(kind, true, HttpOpening(head));
    RunSnoc(kind, Start(kind, true), HttpOpening(head), BackError);
    ErrorKills(kind, r);
  }

  lemma ErrorKills(kind: Kind, r: Relay)
    requires Open(r)
    ensures Relays.Step(kind, r, BackError).back.state == Disconnected
  {
    BackReportsKeep(kind, r.(back := Close(r.back).0), Close(r.back).1);
  }
}
