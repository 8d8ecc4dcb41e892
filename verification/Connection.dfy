/** One TCP connection (src/net/tcp_connection.cpp) as values: its state, its two byte queues, its
    two epoll interest bits, and what has passed between it and the kernel. The kernel answers every
    write and read as it likes; callbacks are reported, in the order they are called, to whoever
    wired them. */
module Connections {
  import opened Wrappers

  datatype State = Connecting | Connected | Disconnecting | Disconnected

  /** One ::write: how many bytes went, EWOULDBLOCK, or any other errno. */
  datatype WriteResult = Wrote(n: nat) | WouldBlock | WriteFault

  /** One readFd: bytes, end of stream, EAGAIN, or any other errno. */
  datatype ReadResult = Got(data: Bytes) | Eof | Drained | ReadFault

  datatype Callback = WriteComplete | HighWater | OnClose | Closed

  datatype Conn = Conn(
    state: State,
    input: Bytes,      // input_buffer_, the bytes read and not yet consumed
    output: Bytes,     // output_buffer_, the bytes to write
    reading: bool,     // EPOLLIN requested
    writing: bool,     // EPOLLOUT requested
    mark: nat,         // high_water_mark_
    received: Bytes,   // everything the kernel has delivered
    accepted: Bytes)   // everything the kernel has taken

  type Outcome = (Conn, seq<Callback>)

  /** Everything given to this connection to write: what the kernel took, then what still waits. */
  function Handed(c: Conn): Bytes {
    c.accepted + c.output
  }

  /** The constructor, before any event is requested. */
  function New(mark: nat): Conn {
    Conn(Connecting, [], [], false, false, mark, [], [])
  }

  function ConnectEstablished(c: Conn): Conn {
    c.(state := Connected, reading := true)
  }

  function ConnectEstablishedAsClient(c: Conn): Conn {
    c.(state := Connecting, writing := true)
  }

  /** The EPOLLOUT that completes a connect, before the connection callback runs. */
  function ConnectCompleted(c: Conn): Conn {
    c.(state := Connected, writing := false, reading := true)
  }

  function StartRead(c: Conn): Conn {
    if c.state == Connected || c.state == Connecting then c.(reading := true) else c
  }

  function StopRead(c: Conn): Conn {
    if c.state == Connected || c.state == Connecting then c.(reading := false) else c
  }

  function Shutdown(c: Conn): Conn {
    if c.state == Connected then c.(state := Disconnecting) else c
  }

  /** connectDestroyed: the handler hears of it only on the way out of a live state. */
  function Close(c: Conn): Outcome {
    if c.state == Connected || c.state == Disconnecting then
      (c.(state := Disconnected, reading := false, writing := false), [OnClose, Closed])
    else (c, [Closed])
  }

  /** Queue what the kernel did not take; crossing the mark upwards is reported. */
  function Enqueue(c: Conn, rest: Bytes): Outcome {
    if rest == [] then (c, [])
    else
      (c.(output := c.output + rest, writing := true),
       if |c.output| < c.mark <= |c.output| + |rest| then [HighWater] else [])
  }

  function Send(c: Conn, msg: Bytes, w: WriteResult): Outcome {
    if c.state != Connected then (c, [])
    else if c.output != [] then Enqueue(c, msg)
    else
      match w
      case Wrote(n) =>
        var k := Min(n, |msg|);
        var c' := c.(accepted := c.accepted + msg[..k]);
        if k == |msg| then (c', [WriteComplete]) else Enqueue(c', msg[k..])
      case WouldBlock => Enqueue(c, msg)
      case WriteFault => Close(c)
  }

  /** handleWrite outside a connect: write until the queue is empty or the kernel stops. A write of
      0 bytes leaves errno as it was, so it acts as WouldBlock or as WriteFault; it is listed here
      with the first, and the second is one of the results. */
  function Flush(c: Conn, ws: seq<WriteResult>): Outcome
    decreases |ws|
  {
    if !c.writing || c.output == [] || ws == [] then (c, [])
    else
      match ws[0]
      case WriteFault => Close(c)
      case WouldBlock => (c, [])
      case Wrote(n) =>
        var k := Min(n, |c.output|);
        var c' := c.(accepted := c.accepted + c.output[..k], output := c.output[k..]);
        if k == 0 then (c, [])
        else if c'.output == [] then (c'.(writing := false), [WriteComplete])
        else Flush(c', ws[1..])
  }

  function Receive(c: Conn, data: Bytes): Conn {
    c.(input := c.input + data, received := c.received + data)
  }

  function Consume(c: Conn): Conn {
    c.(input := [])
  }

  // ---- What holds of every connection between events ----

  ghost predicate Sound(c: Conn) {
    && c.mark > 0
    && match c.state
       case Connecting => c.output == [] && c.accepted == [] && c.received == [] && c.input == []
       case Connected => c.writing == (c.output != [])
       case Disconnecting => c.writing == (c.output != [])
       case Disconnected => !c.reading && !c.writing
  }

  /** send appends to what was handed over, unless the connection is not, or no longer, open; the
      mark is reported exactly on an upward crossing, completion exactly when nothing is left. */
  lemma SendEffect(c: Conn, msg: Bytes, w: WriteResult)
    requires Sound(c)
    ensures var (c', cbs) := Send(c, msg, w);
      && Sound(c')
      && c'.input == c.input && c'.received == c.received && c'.mark == c.mark
      && (c'.state == c.state || (c.state == Connected && c'.state == Disconnected && c'.output == c.output))
      && (c'.state == c.state ==> c'.reading == c.reading)
      && Handed(c') == (if c.state == Connected && c'.state == Connected then Handed(c) + msg else Handed(c))
  {
    if c.state == Connected && c.output == [] && w.Wrote? {
      var k := Min(w.n, |msg|);
      assert msg[..k] + msg[k..] == msg;
      assert c.accepted + msg[..k] + msg[k..] == c.accepted + msg;
    } else if c.state == Connected {
      assert c.accepted + c.output + msg == c.accepted + (c.output + msg);
    }
  }

  /** Each callback says exactly what its name says. */
  lemma SendReports(c: Conn, msg: Bytes, w: WriteResult)
    requires Sound(c)
    ensures var (c', cbs) := Send(c, msg, w);
      && (HighWater in cbs <==> |c.output| < c.mark <= |c'.output|)
      && (WriteComplete in cbs <==> c'.state == Connected && c'.output == [] && w.Wrote?)
      && (Closed in cbs <==> c'.state != c.state)
      && (OnClose in cbs <==> c'.state != c.state)
  {}

  lemma {:induction false} FlushEffect(c: Conn, ws: seq<WriteResult>)
    requires Sound(c) && c.state != Connecting
    ensures var (c', cbs) := Flush(c, ws);
      && Sound(c')
      && c'.input == c.input && c'.received == c.received && c'.mark == c.mark
      && (c'.state == c.state || c'.state == Disconnected)
      && (c'.state == c.state ==> c'.reading == c.reading)
      && Handed(c') == Handed(c)
      && c.accepted <= c'.accepted
      && |c'.output| <= |c.output|
      && HighWater !in cbs
      && (WriteComplete in cbs <==> c.output != [] && c'.output == [])
      && (Closed in cbs <==> c'.state != c.state)
      && (OnClose in cbs <==> c'.state != c.state)
    decreases |ws|
  {
    if c.writing && c.output != [] && ws != [] && ws[0].Wrote? {
      var k := Min(ws[0].n, |c.output|);
      var c' := c.(accepted := c.accepted + c.output[..k], output := c.output[k..]);
      assert Handed(c') == Handed(c);
      if 0 < k < |c.output| {
        FlushEffect(c', ws[1..]);
      }
    }
  }

  /** Exactly when a send ends the connection: it was open, nothing waited, and the kernel failed the direct
      write. Then nothing is queued, and both close callbacks are called. Otherwise the kernel has taken as
      many bytes as it said, if it was asked. */
  lemma SendExactly(c: Conn, msg: Bytes, w: WriteResult)
    requires Sound(c)
    ensures var (c', cbs) := Send(c, msg, w);
      && (c'.state != c.state <==> c.state == Connected && c.output == [] && w == WriteFault)
      && (c'.state != c.state ==>
            && c'.state == Disconnected && c'.accepted == c.accepted && c'.output == c.output
            && cbs == [OnClose, Closed])
      && (c.state != Connected ==> c' == c && cbs == [])
      && |c'.accepted|
         == |c.accepted| + (if c.state == Connected && c.output == [] && w.Wrote? then Min(w.n, |msg|) else 0)
  {
    SendEffect(c, msg, w);
  }

  /** What the kernel takes before it first takes nothing, if there is enough. */
  function Appetite(ws: seq<WriteResult>): nat {
    if ws == [] || !ws[0].Wrote? then 0 else if ws[0].n == 0 then 0 else ws[0].n + Appetite(ws[1..])
  }

  /** That it stops because it fails. */
  predicate EndsInFault(ws: seq<WriteResult>) {
    && ws != []
    && (ws[0] == WriteFault || (ws[0].Wrote? && ws[0].n > 0 && EndsInFault(ws[1..])))
  }

  /** Exactly what a flush of an open connection writes, and exactly when it ends the connection: the kernel
      fails while there is still something to write. */
  lemma {:induction false} FlushExactly(c: Conn, ws: seq<WriteResult>)
    requires Sound(c) && (c.state == Connected || c.state == Disconnecting)
    ensures var (c', cbs) := Flush(c, ws);
      && |c'.accepted| == |c.accepted| + Min(|c.output|, Appetite(ws))
      && |c'.output| == |c.output| - Min(|c.output|, Appetite(ws))
      && (c'.state != c.state <==> Appetite(ws) < |c.output| && EndsInFault(ws))
      && (c'.state != c.state ==> c'.state == Disconnected && cbs == [OnClose, Closed])
    decreases |ws|
  {
    if c.output != [] && ws != [] && ws[0].Wrote? && ws[0].n > 0 {
      var k := Min(ws[0].n, |c.output|);
      if k < |c.output| {
        FlushExactly(c.(accepted := c.accepted + c.output[..k], output := c.output[k..]), ws[1..]);
      }
    }
  }

  /** What a call that offers `msg` may do to a connection, case by case of the callbacks it makes. */
  ghost predicate Fair(c: Conn, o: Outcome, msg: Bytes) {
    && Sound(o.0)
    && o.0.input == c.input && o.0.received == c.received && o.0.mark == c.mark
    && Handed(o.0) == (if c.state == Connected && o.0.state == Connected then Handed(c) + msg else Handed(c))
    && (|| (o.1 == [] && o.0.state == c.state && o.0.reading == c.reading
            && (c.output != [] ==> o.0.output != []) && (|o.0.output| >= c.mark ==> |c.output| >= c.mark))
        || (o.1 == [WriteComplete] && o.0.state == c.state && o.0.reading == c.reading && o.0.output == [])
        || (o.1 == [HighWater] && o.0.state == c.state && o.0.reading == c.reading && |o.0.output| >= c.mark)
        || (o.1 == [OnClose, Closed] && (c.state == Connected || c.state == Disconnecting) && o.0.state == Disconnected)
        || (o.1 == [Closed] && c.state == Disconnected && o.0 == c))
  }

  lemma SendIsFair(c: Conn, msg: Bytes, w: WriteResult)
    requires Sound(c)
    ensures Fair(c, Send(c, msg, w), msg)
  {
    SendEffect(c, msg, w);
  }

  lemma CloseIsFair(c: Conn)
    requires Sound(c) && c.state != Connecting
    ensures Fair(c, Close(c), [])
  {}

  lemma {:induction false} FlushIsFair(c: Conn, ws: seq<WriteResult>)
    requires Sound(c) && c.state != Connecting
    ensures Fair(c, Flush(c, ws), [])
    decreases |ws|
  {
    FlushEffect(c, ws);
    if c.writing && c.output != [] && ws != [] && ws[0].Wrote? {
      var k := Min(ws[0].n, |c.output|);
      if 0 < k < |c.output| {
        FlushIsFair(c.(accepted := c.accepted + c.output[..k], output := c.output[k..]), ws[1..]);
      }
    }
  }

  // ---- Whole lives ----

  /** What can happen to a connection: the calls of its users and the events of its descriptor.
      handleRead is one event per readFd. */
  datatype Event =
    | Established
    | EstablishedAsClient
    | Sending(msg: Bytes, w: WriteResult)
    | ShuttingDown
    | Starting
    | Stopping
    | Readable(r: ReadResult)
    | Writable(ws: seq<WriteResult>)
    | Failing

  /** A connection that fails or is read before its connect completes ends the run in the source
      (Channel::remove asserts); here such events change nothing. */
  function Step(c: Conn, e: Event): Outcome {
    match e
    case Established => if c == New(c.mark) then (ConnectEstablished(c), []) else (c, [])
    case EstablishedAsClient => if c == New(c.mark) then (ConnectEstablishedAsClient(c), []) else (c, [])
    case Sending(msg, w) => Send(c, msg, w)
    case ShuttingDown => (Shutdown(c), [])
    case Starting => (StartRead(c), [])
    case Stopping => (StopRead(c), [])
    case Readable(r) =>
      if c.state == Connecting then (c, [])
      else if r.Got? then (Receive(c, r.data), [])
      else if r == Drained then (c, [])
      else Close(c)
    case Writable(ws) =>
      if c.state == Connecting then (if c.writing then ConnectCompleted(c) else c, []) else Flush(c, ws)
    case Failing => if c.state == Connecting then (c, []) else Close(c)
  }

  function Rank(s: State): nat {
    match s
    case Connecting => 0
    case Connected => 1
    case Disconnecting => 2
    case Disconnected => 3
  }

  function Count(cbs: seq<Callback>, cb: Callback): nat {
    if cbs == [] then 0 else (if cbs[0] == cb then 1 else 0) + Count(cbs[1..], cb)
  }

  lemma {:induction false} CountJoin(a: seq<Callback>, b: seq<Callback>, cb: Callback)
    ensures Count(a + b, cb) == Count(a, cb) + Count(b, cb)
  {
    if a == [] {
      assert a + b == b;
    } else {
      assert (a + b)[1..] == a[1..] + b;
      CountJoin(a[1..], b, cb);
    }
  }

  function Crossing(c: Conn, c': Conn): nat {
    if |c.output| < c.mark <= |c'.output| then 1 else 0
  }

  /** What the user gave to an open connection in this step. */
  function Offered(c: Conn, e: Event): Bytes {
    if e.Sending? && c.state == Connected then e.msg else []
  }

  lemma {:induction false} FlushCounts(c: Conn, ws: seq<WriteResult>)
    requires Sound(c) && c.state != Connecting
    ensures var (c', cbs) := Flush(c, ws);
      && Count(cbs, HighWater) == 0
      && Count(cbs, OnClose) == (if c'.state != c.state then 1 else 0)
    decreases |ws|
  {
    if c.writing && c.output != [] && ws != [] && ws[0].Wrote? {
      var k := Min(ws[0].n, |c.output|);
      if 0 < k < |c.output| {
        FlushCounts(c.(accepted := c.accepted + c.output[..k], output := c.output[k..]), ws[1..]);
      }
    }
  }

  lemma StepMoves(c: Conn, e: Event)
    requires Sound(c)
    ensures var c' := Step(c, e).0;
      && Sound(c') && c'.mark == c.mark
      && Rank(c.state) <= Rank(c'.state)
      && (c.state == Disconnected ==> c'.accepted == c.accepted)
  {
    match e
    case Sending(msg, w) => SendEffect(c, msg, w);
    case Writable(ws) => if c.state != Connecting { FlushEffect(c, ws); }
    case _ =>
  }

  lemma StepStream(c: Conn, e: Event)
    requires Sound(c)
    ensures var c' := Step(c, e).0;
      && (c'.state == Connected ==> Handed(c') == Handed(c) + Offered(c, e))
      && Handed(c) <= Handed(c') <= Handed(c) + Offered(c, e)
  {
    match e
    case Sending(msg, w) => SendEffect(c, msg, w);
    case Writable(ws) => if c.state != Connecting { FlushEffect(c, ws); }
    case _ =>
  }

  lemma StepReports(c: Conn, e: Event)
    requires Sound(c)
    ensures var (c', cbs) := Step(c, e);
      && Count(cbs, HighWater) == Crossing(c, c')
      && Count(cbs, OnClose) == (if c.state != Disconnected && c'.state == Disconnected then 1 else 0)
  {
    match e
    case Writable(ws) =>
      if c.state != Connecting {
        FlushEffect(c, ws);
        FlushCounts(c, ws);
      }
    case Sending(msg, w) => SendCounts(c, msg, w);
    case _ => CountClose();
  }

  lemma SendCounts(c: Conn, msg: Bytes, w: WriteResult)
    requires Sound(c)
    ensures var (c', cbs) := Send(c, msg, w);
      && Count(cbs, HighWater) == Crossing(c, c')
      && Count(cbs, OnClose) == (if c'.state != c.state then 1 else 0)
  {
    SendIsFair(c, msg, w);
    CountClose();
  }

  lemma CountClose()
    ensures Count([OnClose, Closed], OnClose) == 1 && Count([OnClose, Closed], HighWater) == 0
    ensures Count([Closed], OnClose) == 0 && Count([Closed], HighWater) == 0
  {
    assert [OnClose, Closed][1..] == [Closed] && [Closed][1..] == [];
  }

  function Run(c: Conn, es: seq<Event>): Conn
    decreases |es|
  {
    if es == [] then c else Run(Step(c, es[0]).0, es[1..])
  }

  /** Every callback called during the run, in order. */
  function Log(c: Conn, es: seq<Event>): seq<Callback>
    decreases |es|
  {
    if es == [] then [] else Step(c, es[0]).1 + Log(Step(c, es[0]).0, es[1..])
  }

  /** Everything given to the connection while it was open. */
  function Sent(c: Conn, es: seq<Event>): Bytes
    decreases |es|
  {
    if es == [] then [] else Offered(c, es[0]) + Sent(Step(c, es[0]).0, es[1..])
  }

  /** How often the output queue rose to the mark. */
  function Crossings(c: Conn, es: seq<Event>): nat
    decreases |es|
  {
    if es == [] then 0
    else Crossing(c, Step(c, es[0]).0) + Crossings(Step(c, es[0]).0, es[1..])
  }

  /** Over any life the state only moves forward and write interest follows the queue; once the
      connection is dead, no byte reaches the kernel. */
  lemma {:induction false} LifeMovesForward(c: Conn, es: seq<Event>)
    requires Sound(c)
    ensures Sound(Run(c, es)) && Rank(c.state) <= Rank(Run(c, es).state)
    ensures c.state == Disconnected ==> Run(c, es).accepted == c.accepted
    decreases |es|
  {
    if es != [] {
      StepMoves(c, es[0]);
      LifeMovesForward(Step(c, es[0]).0, es[1..]);
    }
  }

  /** The handler hears of the close exactly when the connection dies, so at most once; the mark is
      reported once for each upward crossing. */
  lemma {:induction false} LifeIsReported(c: Conn, es: seq<Event>)
    requires Sound(c)
    ensures Count(Log(c, es), OnClose)
         == (if c.state != Disconnected && Run(c, es).state == Disconnected then 1 else 0)
    ensures Count(Log(c, es), HighWater) == Crossings(c, es)
    decreases |es|
  {
    if es != [] {
      var (c', cbs) := Step(c, es[0]);
      StepMoves(c, es[0]);
      StepReports(c, es[0]);
      LifeIsReported(c', es[1..]);
      LifeMovesForward(c', es[1..]);
      CountJoin(cbs, Log(c', es[1..]), OnClose);
      CountJoin(cbs, Log(c', es[1..]), HighWater);
    }
  }

  /** After shutdown() or a close, send() takes nothing more. */
  lemma {:induction false} NothingAfterShutdown(c: Conn, es: seq<Event>)
    requires Sound(c) && (c.state == Disconnecting || c.state == Disconnected)
    ensures Sent(c, es) == []
    decreases |es|
  {
    if es != [] {
      StepMoves(c, es[0]);
      NothingAfterShutdown(Step(c, es[0]).0, es[1..]);
    }
  }

  lemma {:induction false} NoFaultNoClose(c: Conn, ws: seq<WriteResult>)
    requires WriteFault !in ws
    ensures Flush(c, ws).0.state == c.state
    decreases |ws|
  {
    if c.writing && c.output != [] && ws != [] && ws[0].Wrote? {
      var k := Min(ws[0].n, |c.output|);
      NoFaultNoClose(c.(accepted := c.accepted + c.output[..k], output := c.output[k..]), ws[1..]);
    }
  }

  /** The connection's own faults. */
  predicate Fails(e: Event) {
    match e
    case Readable(r) => r == Eof || r == ReadFault
    case Writable(ws) => WriteFault in ws
    case Failing => true
    case _ => false
  }

  /** shutdown() closes nothing: from then on only a fault ends the connection, and without one it stays
      half shut for ever. */
  lemma {:induction false} ShutdownClosesNothing(c: Conn, es: seq<Event>)
    requires Sound(c) && c.state == Disconnecting && forall e :: e in es ==> !Fails(e)
    ensures Run(c, es).state == Disconnecting
    decreases |es|
  {
    if es != [] {
      assert es[0] in es && forall e :: e in es[1..] ==> e in es;
      StepMoves(c, es[0]);
      if es[0].Writable? {
        NoFaultNoClose(c, es[0].ws);
      }
      ShutdownClosesNothing(Step(c, es[0]).0, es[1..]);
    }
  }

  lemma Ended(a: Bytes, b: Bytes, c: Bytes, x: Bytes)
    requires a <= b <= a + x && b <= c <= b + []
    ensures a <= c <= a + (x + [])
  {
    assert b + [] == b && x + [] == x;
  }

  lemma Extended(a: Bytes, b: Bytes, c: Bytes, x: Bytes, y: Bytes)
    requires a <= b <= a + x && (|x| == 0 || b == a + x) && b <= c <= b + y
    ensures a <= c <= a + (x + y)
    ensures c == b + y ==> c == a + (x + y)
  {
    assert b == a + x;
    assert a + x + y == a + (x + y);
  }

  /** The kernel and the queue hold a prefix of what was sent, and all of it while the connection
      is open. */
  lemma {:induction false} LifeKeepsTheStream(c: Conn, es: seq<Event>)
    requires Sound(c)
    ensures Handed(c) <= Handed(Run(c, es)) <= Handed(c) + Sent(c, es)
    ensures Run(c, es).state == Connected ==> Handed(Run(c, es)) == Handed(c) + Sent(c, es)
    decreases |es|
  {
    if es != [] {
      var c' := Step(c, es[0]).0;
      var more := Sent(c', es[1..]);
      StepMoves(c, es[0]);
      StepStream(c, es[0]);
      LifeKeepsTheStream(c', es[1..]);
      if c'.state == Disconnecting || c'.state == Disconnected {
        NothingAfterShutdown(c', es[1..]);
        LifeMovesForward(c', es[1..]);
        Ended(Handed(c), Handed(c'), Handed(Run(c', es[1..])), Offered(c, es[0]));
      } else {
        Extended(Handed(c), Handed(c'), Handed(Run(c', es[1..])), Offered(c, es[0]), more);
      }
    }
  }
}
