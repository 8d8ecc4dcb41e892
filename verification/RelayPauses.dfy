/** What the flow control of the two proxies comes to: which paused sides are resumed, and by what. */
module RelayPauses {
  import opened Wrappers
  import opened Connections
  import opened HttpText
  import opened Relays
  import opened RelayEndings

  type Event = Relays.Event

  // ---- Resuming ----

  /** The kernel takes something, and does not fail. */
  predicate Progress(ws: seq<WriteResult>) {
    ws != [] && ws[0].Wrote? && ws[0].n > 0 && WriteFault !in ws
  }

  /** Either all went out, which is reported, or less is left. */
  lemma FlushProgress(c: Conn, ws: seq<WriteResult>)
    requires Sound(c) && (c.state == Connected || c.state == Disconnecting) && c.output != [] && Progress(ws)
    ensures var (c', cbs) := Flush(c, ws);
      && c'.state == c.state && |c'.output| < |c.output|
      && cbs == (if c'.output == [] then [WriteComplete] else [])
  {
    NoFaultNoClose(c, ws);
    FlushIsFair(c, ws);
    FlushEffect(c, ws);
    var k := Min(ws[0].n, |c.output|);
    var c1 := c.(accepted := c.accepted + c.output[..k], output := c.output[k..]);
    if c1.output != [] {
      FlushEffect(c1, ws[1..]);
    }
  }

  function BackWrites(wss: seq<seq<WriteResult>>): seq<Event> {
    if wss == [] then [] else [BackWritable(wss[0])] + BackWrites(wss[1..])
  }

  function FrontWrites(wss: seq<seq<WriteResult>>): seq<Event> {
    if wss == [] then [] else [FrontWritable(wss[0])] + FrontWrites(wss[1..])
  }

  lemma BackWriteProgress(kind: Kind, r: Relay, ws: seq<WriteResult>)
    requires Inv(kind, r) && r.attached && r.front.state == Connected && r.back.state == Connected && Progress(ws)
    ensures var r' := Relays.Step(kind, r, BackWritable(ws));
      && r'.attached && r'.front.state == Connected && r'.back.state == Connected
      && (r.front.reading ==> r'.front.reading)
      && (r'.back.output == [] || |r'.back.output| < |r.back.output|)
  {
    if r.back.output != [] {
      FlushProgress(r.back, ws);
    }
    ThenCases(kind, r, Back, Flush(r.back, ws));
  }

  lemma {:induction false} BackWritesResume(kind: Kind, r: Relay, wss: seq<seq<WriteResult>>)
    requires Inv(kind, r) && r.attached && r.front.state == Connected && r.back.state == Connected
    requires |wss| >= |r.back.output| && forall ws :: ws in wss ==> Progress(ws)
    ensures Relays.Run(kind, r, BackWrites(wss)).front.reading
    decreases |wss|
  {
    if wss != [] {
      var r' := Relays.Step(kind, r, BackWritable(wss[0]));
      BackWriteProgress(kind, r, wss[0]);
      StepKeepsInv(kind, r, BackWritable(wss[0]));
      RunCons(kind, r, BackWritable(wss[0]), BackWrites(wss[1..]));
      BackWritesResume(kind, r', wss[1..]);
    }
  }

  lemma FrontWriteProgress(kind: Kind, r: Relay, ws: seq<WriteResult>)
    requires Inv(kind, r) && r.attached && r.front.state != Disconnected && r.back.state == Connected && Progress(ws)
    ensures var r' := Relays.Step(kind, r, FrontWritable(ws));
      && r'.attached && r'.front.state == r.front.state && r'.back.state == Connected
      && (r.back.reading ==> r'.back.reading)
      && (r'.front.output == [] || |r'.front.output| < |r.front.output|)
  {
    if r.front.output != [] {
      FlushProgress(r.front, ws);
    }
    ThenCases(kind, r, Front, Flush(r.front, ws));
  }

  lemma {:induction false} FrontWritesResume(kind: Kind, r: Relay, wss: seq<seq<WriteResult>>)
    requires Inv(kind, r) && r.attached && r.front.state != Disconnected && r.back.state == Connected
    requires |wss| >= |r.front.output| && forall ws :: ws in wss ==> Progress(ws)
    ensures Relays.Run(kind, r, FrontWrites(wss)).back.reading
    decreases |wss|
  {
    if wss != [] {
      var r' := Relays.Step(kind, r, FrontWritable(wss[0]));
      FrontWriteProgress(kind, r, wss[0]);
      StepKeepsInv(kind, r, FrontWritable(wss[0]));
      RunCons(kind, r, FrontWritable(wss[0]), FrontWrites(wss[1..]));
      FrontWritesResume(kind, r', wss[1..]);
    }
  }

  /** A paused side is resumed by any series of writable events of the other that is long enough: in each
      the kernel takes a byte or more, and none fails. For the client both connections must be open; the
      backend is resumed also by a client that is shutting down. */
  lemma DrainingResumes(kind: Kind, chosen: bool, es: seq<Event>, wss: seq<seq<WriteResult>>)
    requires forall ws :: ws in wss ==> Progress(ws)
    requires var r := After(kind, chosen, es);
      r.front.state != Disconnected && r.back.state == Connected
    ensures var r := After(kind, chosen, es);
      && (r.front.state == Connected && |wss| >= |r.back.output| ==>
            Relays.Run(kind, r, BackWrites(wss)).front.reading)
      && (|wss| >= |r.front.output| ==> Relays.Run(kind, r, FrontWrites(wss)).back.reading)
  {
    var r := After(kind, chosen, es);
    Reached(kind, chosen, es);
    if r.front.state == Connected && |wss| >= |r.back.output| {
      BackWritesResume(kind, r, wss);
    }
    if |wss| >= |r.front.output| {
      FrontWritesResume(kind, r, wss);
    }
  }

  /** Exactly when a paused client's reading is turned on again in some continuation: while both connections
      are open. So when a backend dies while its client is paused, in either proxy, EPOLLIN is never
      requested for the client again. */
  lemma PauseEndsExactly(kind: Kind, chosen: bool, before: seq<Event>)
    requires !After(kind, chosen, before).front.reading
    ensures var r := After(kind, chosen, before);
      (exists es :: Relays.Run(kind, r, es).front.reading) <==> r.front.state == Connected && r.back.state == Connected
  {
    var r := After(kind, chosen, before);
    Reached(kind, chosen, before);
    if r.front.state == Connected && r.back.state == Connected {
      var wss := OneEach(|r.back.output|);
      DrainingResumes(kind, chosen, before, wss);
      assert Relays.Run(kind, r, BackWrites(wss)).front.reading;
    } else {
      forall es
        ensures !Relays.Run(kind, r, es).front.reading
      {
        NeverResumed(kind, chosen, before, es);
      }
    }
  }

  lemma NeverResumed(kind: Kind, chosen: bool, before: seq<Event>, es: seq<Event>)
    requires var r := After(kind, chosen, before);
      !r.front.reading && !(r.front.state == Connected && r.back.state == Connected)
    ensures !Relays.Run(kind, After(kind, chosen, before), es).front.reading
  {
    var r := After(kind, chosen, before);
    Reached(kind, chosen, before);
    if r.front.state != Connected {
      ShutForGood(kind, r, es);
    } else if kind == L4 {
      L4RefusalTravels(chosen, before);
    } else {
      HttpDeadRun(kind, r, es);
    }
  }

  function OneEach(n: nat): (wss: seq<seq<WriteResult>>)
    ensures |wss| == n && forall ws :: ws in wss ==> Progress(ws)
  {
    if n == 0 then [] else [[Wrote(1)]] + OneEach(n - 1)
  }

  // ---- A paused backend ----

  /** A paused backend that will stay so: its client is dead, or it is not open any more itself. */
  ghost predicate Stranded(r: Relay) {
    && r.created && r.back.state != Connecting && !r.back.reading
    && (r.front.state == Disconnected || r.back.state != Connected)
  }

  /** The client's callbacks can resume the backend only when the client's queue has emptied. */
  lemma {:induction false} FrontReportsStrand(kind: Kind, r: Relay, cbs: seq<Callback>)
    requires Stranded(r) && (r.back.state == Connected ==> WriteComplete !in cbs)
    ensures Stranded(Reports(kind, r, Front, cbs))
    decreases |cbs|
  {
    if cbs != [] {
      assert cbs[0] in cbs && forall cb :: cb in cbs[1..] ==> cb in cbs;
      FrontReportsStrand(kind, Report(kind, r, Front, cbs[0]), cbs[1..]);
    }
  }

  lemma StrandedFront(kind: Kind, r: Relay, c: Conn, cbs: seq<Callback>)
    requires Stranded(r) && (r.front.state == Disconnected ==> c == r.front && WriteComplete !in cbs)
    ensures Stranded(Then(kind, r, Front, (c, cbs)))
  {
    FrontReportsStrand(kind, r.(front := c), cbs);
  }

  lemma StrandedBack(kind: Kind, r: Relay, r': Relay, msg: Bytes)
    requires Stranded(r) && BackCall(kind, r, r', msg)
    ensures Stranded(r')
  {}

  lemma StaysStranded(kind: Kind, r: Relay, e: Event)
    requires Inv(kind, r) && Stranded(r)
    ensures Stranded(Relays.Step(kind, r, e))
  {
    match e
    case Dial(_) =>
    case Timeout =>
    case FrontReadable(fr, dials, w) =>
      if fr.Got? {
        StrandedForward(kind, r.(front := Receive(r.front, fr.data)), w);
      } else {
        StrandedFront(kind, r, Close(r.front).0, Close(r.front).1);
      }
    case FrontWritable(ws) => StrandedFront(kind, r, Flush(r.front, ws).0, Flush(r.front, ws).1);
    case FrontError => StrandedFront(kind, r, Close(r.front).0, Close(r.front).1);
    case _ => if BackOpen(r) { StaysStrandedByBackend(kind, r, e); }
  }

  lemma StrandedForward(kind: Kind, r: Relay, w: WriteResult)
    requires Marked(r) && r.front.state != Connecting && Stranded(r)
    ensures Stranded(Forward(kind, r, r.front.input, w))
  {
    var r1 := r.(front := Consume(r.front));
    SendBack(kind, r1, r.front.input, w);
    StrandedBack(kind, r1, Forward(kind, r, r.front.input, w), r.front.input);
  }

  lemma StaysStrandedByBackend(kind: Kind, r: Relay, e: Event)
    requires Inv(kind, r) && Stranded(r) && BackOpen(r) && (e.BackReadable? || e.BackWritable? || e.BackError?)
    ensures Stranded(Relays.Step(kind, r, e))
  {
    match e
    case BackReadable(br, w) =>
      if br.Got? {
        var r1 := r.(back := Consume(Receive(r.back, br.data)));
        var o := Send(r1.front, Receive(r.back, br.data).input, w);
        StrandedFront(kind, r1, o.0, o.1);
      } else {
        CloseBack(kind, r);
        StrandedBack(kind, r, Then(kind, r, Back, Close(r.back)), []);
      }
    case BackWritable(ws) =>
      FlushBack(kind, r, ws);
      StrandedBack(kind, r, Then(kind, r, Back, Flush(r.back, ws)), []);
    case BackError =>
      CloseBack(kind, r);
      StrandedBack(kind, r, Then(kind, r, Back, Close(r.back)), []);
  }

  lemma {:induction false} StrandedForGood(kind: Kind, r: Relay, es: seq<Event>)
    requires Inv(kind, r) && Stranded(r)
    ensures !Relays.Run(kind, r, es).back.reading
    decreases |es|
  {
    if es != [] {
      StaysStranded(kind, r, es[0]);
      StepKeepsInv(kind, r, es[0]);
      StrandedForGood(kind, Relays.Step(kind, r, es[0]), es[1..]);
    }
  }

  /** Exactly when the reading of a paused backend is turned on again in some continuation: while it is open
      and its client is not dead. A client that is only shut down still resumes it. */
  lemma BackendPauseEndsExactly(kind: Kind, chosen: bool, before: seq<Event>)
    requires var r := After(kind, chosen, before);
      r.back.state != Connecting && !r.back.reading
    ensures var r := After(kind, chosen, before);
      (exists es :: Relays.Run(kind, r, es).back.reading)
      <==> r.front.state != Disconnected && r.back.state == Connected
  {
    var r := After(kind, chosen, before);
    Reached(kind, chosen, before);
    if r.front.state != Disconnected && r.back.state == Connected {
      var wss := OneEach(|r.front.output|);
      DrainingResumes(kind, chosen, before, wss);
      assert Relays.Run(kind, r, FrontWrites(wss)).back.reading;
    } else {
      forall es
        ensures !Relays.Run(kind, r, es).back.reading
      {
        StrandedForGood(kind, r, es);
      }
    }
  }

  // ---- Runs that get there ----

  /** A client that sends the mark in reads of at most 64 KiB, while the backend's kernel takes nothing, is
      paused; and when the backend dies then, the client is paused for good. */
  lemma PauseIsReached(kind: Kind, opening: seq<Event>, chunks: seq<Bytes>)
    requires Open(After(kind, true, opening)) && |Concat(chunks)| >= MARK
    ensures var r := After(kind, true, opening + Reads(chunks, WouldBlock));
      Open(r) && !r.front.reading
    ensures var r := After(kind, true, opening + Reads(chunks, WouldBlock) + [BackError]);
      !r.front.reading && r.back.state == Disconnected && forall es :: !Relays.Run(kind, r, es).front.reading
  {
    var start := Start(kind, true);
    var r0 := After(kind, true, opening);
    var before := opening + Reads(chunks, WouldBlock);
    var r := After(kind, true, before);
    Reached(kind, true, opening);
    Reached(kind, true, before);
    RunAppend(kind, start, opening, Reads(chunks, WouldBlock));
    ReadsTaken(kind, r0, chunks, WouldBlock);
    FullMeansPaused(kind, r0, r, Concat(chunks));
    RunSnoc(kind, start, before, BackError);
    DeathKeepsPaused(kind, r);
    PauseEndsExactly(kind, true, before + [BackError]);
  }

  lemma FullMeansPaused(kind: Kind, r0: Relay, r: Relay, data: Bytes)
    requires Inv(kind, r) && Open(r0) && Taken(r0, r, data, WouldBlock) && |data| >= MARK
    ensures Open(r) && !r.front.reading
  {
    assert |Handed(r.back)| == |Handed(r0.back)| + |data|;
  }

  lemma DeathKeepsPaused(kind: Kind, r: Relay)
    requires Inv(kind, r) && Open(r) && !r.front.reading
    ensures var r' := Relays.Step(kind, r, BackError);
      !r'.front.reading && r'.back.state == Disconnected
  {
    ThenCases(kind, r, Back, Close(r.back));
  }

  function Repeated(chunk: Bytes, n: nat): (chunks: seq<Bytes>)
    ensures |chunks| == n && forall c :: c in chunks ==> c == chunk
    ensures |Concat(chunks)| == n * |chunk|
  {
    if n == 0 then [] else
      var rest := Repeated(chunk, n - 1);
      assert ([chunk] + rest)[1..] == rest;
      [chunk] + rest
  }

  /** In both proxies there are such runs, from accept on, in which every read fits one readFd. */
  lemma L4PauseIsReached(chunk: Bytes, es: seq<Event>)
    requires |chunk| == 65536
    ensures var before := L4_OPENING + Reads(Repeated(chunk, 1024), WouldBlock) + [BackError];
      !Relays.Run(L4, After(L4, true, before), es).front.reading
  {
    L4Opens();
    assert |Concat(Repeated(chunk, 1024))| == MARK;
    PauseIsReached(L4, L4_OPENING, Repeated(chunk, 1024));
  }

  lemma HttpPauseIsReached(routes: map<string, string>, head: Bytes, chunk: Bytes, es: seq<Event>)
    requires Routes(routes, head) && |head| <= 65536 && |chunk| == 65536
    ensures var before := HttpOpening(head) + Reads(Repeated(chunk, 1024), WouldBlock) + [BackError];
      !Relays.Run(Http(routes), After(Http(routes), true, before), es).front.reading
  {
    HttpOpens(routes, head);
    assert |Concat(Repeated(chunk, 1024))| == MARK;
    PauseIsReached(Http(routes), HttpOpening(head), Repeated(chunk, 1024));
  }
}
