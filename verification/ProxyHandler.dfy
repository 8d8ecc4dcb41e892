/** The two handlers, LoadBalancerHandler of src/app/load_balancer_handler.cpp and HttpProxyHandler of
    src/app/http_proxy_handler.cpp, over two TcpConnection objects that call back into each other. Every
    method is proved to do what the functions of module Relays say. */
module ProxyHandlers {
  import opened Wrappers
  import opened Connections
  import opened HttpText
  import opened Relays
  import RelayEndings
  import RelayPauses
  import opened TcpConnections
  import Buffers

  class ProxyHandler {
    const kind: Kind
    const front: TcpConnection
    var backendConn: TcpConnection?   // backend_conn_
    var backendConnected: bool        // backend_connected_, L4 only
    var dialing: bool                 // createBackendConnection is posted, L4 only
    var waiting: bool                 // waiting_for_initial_data_, HTTP only
    var addr: string                  // captured by the backend's callbacks, HTTP only

    ghost var backend: TcpConnection? // the backend connection made, also after backend_conn_ is reset
    ghost var Repr: set<object>

    ghost predicate Valid()
      reads this, Repr
    {
      && this in Repr && front in Repr && front.Repr <= Repr && this !in front.Repr && front.Valid()
      && (backend != null ==>
            && backend in Repr && backend.Repr <= Repr && this !in backend.Repr
            && backend.Repr !! front.Repr && backend.Valid())
      && (backendConn != null ==> backendConn == backend)
    }

    ghost function Value(): Relay
      requires Valid()
      reads this, Repr
    {
      Relay(front.Value(), if backend == null then New(MARK) else backend.Value(), backend != null,
            backendConn != null, backendConnected, dialing, waiting, addr)
    }

    /** A client connection was accepted; `chosen` says whether the balancer had a backend. */
    constructor (kind: Kind, conn: TcpConnection, chosen: bool)
      requires conn.Valid() && conn.Value() == New(MARK)
      modifies conn.Repr
      ensures Valid() && fresh(Repr - old(conn.Repr)) && front == conn && this.kind == kind
      ensures Value() == Start(kind, chosen)
    {
      this.kind, front := kind, conn;
      backendConn, backend := null, null;
      backendConnected, dialing, waiting, addr := false, kind == L4 && chosen, kind != L4, "";
      Repr := {this} + conn.Repr;
      new;
      front.ConnectEstablished();
      if kind == L4 && !chosen {
        front.ShutdownInLoop();
      }
    }

    // ---- The callbacks ----

    method OnFrontClosed()
      requires Valid()
      modifies Repr
      ensures Valid() && Repr == old(Repr) && Value() == FrontClosed(kind, old(Value()))
    {
      if backendConn != null {
        if kind == L4 {
          backendConn.ShutdownInLoop();
        }
        backendConn := null;
      }
    }

    method ReportBack(callback: Callback)
      requires Valid()
      modifies Repr
      ensures Valid() && Repr == old(Repr) && Value() == Report(kind, old(Value()), Back, callback)
    {
      match callback
      case WriteComplete => front.StartRead();
      case HighWater => front.StopRead();
      case OnClose =>
      case Closed =>
        if kind == L4 {
          front.ShutdownInLoop();
        }
    }

    method ReportFront(callback: Callback)
      requires Valid()
      modifies Repr
      ensures Valid() && Repr == old(Repr) && Value() == Report(kind, old(Value()), Front, callback)
    {
      match callback
      case WriteComplete =>
        if backendConn != null {
          backendConn.StartRead();
        }
      case HighWater =>
        if backendConn != null {
          backendConn.StopRead();
        }
      case OnClose => OnFrontClosed();
      case Closed =>
    }

    method CallBack(side: Side, callbacks: seq<Callback>)
      requires Valid()
      modifies Repr
      ensures Valid() && Repr == old(Repr) && Value() == Reports(kind, old(Value()), side, callbacks)
    {
      var i := 0;
      while i < |callbacks|
        invariant i <= |callbacks| && Valid() && Repr == old(Repr)
        invariant Reports(kind, Value(), side, callbacks[i..]) == Reports(kind, old(Value()), side, callbacks)
      {
        assert callbacks[i..][1..] == callbacks[i + 1..];
        if side == Front {
          ReportFront(callbacks[i]);
        } else {
          ReportBack(callbacks[i]);
        }
        i := i + 1;
      }
    }

    // ---- Calls on one connection, with the callbacks they make ----

    method SendFront(message: Bytes, w: WriteResult)
      requires Valid()
      modifies Repr
      ensures Valid() && fresh(Repr - old(Repr))
      ensures Value() == Then(kind, old(Value()), Front, Send(old(Value()).front, message, w))
    {
      var callbacks := front.SendInLoop(message, w);
      Repr := Repr + front.Repr;
      assert Value() == SetSide(old(Value()), Front, Send(old(Value()).front, message, w).0);
      CallBack(Front, callbacks);
    }

    method SendBack(message: Bytes, w: WriteResult)
      requires Valid() && backendConn != null
      modifies Repr
      ensures Valid() && fresh(Repr - old(Repr))
      ensures Value() == Then(kind, old(Value()), Back, Send(old(Value()).back, message, w))
    {
      var callbacks := backendConn.SendInLoop(message, w);
      Repr := Repr + backend.Repr;
      assert Value() == SetSide(old(Value()), Back, Send(old(Value()).back, message, w).0);
      CallBack(Back, callbacks);
    }

    method FlushFront(ws: seq<WriteResult>)
      requires Valid() && front.state != Connecting
      modifies Repr
      ensures Valid() && Repr == old(Repr)
      ensures Value() == Then(kind, old(Value()), Front, Flush(old(Value()).front, ws))
    {
      var callbacks := front.HandleWrite(ws);
      CallBack(Front, callbacks);
    }

    method FlushBack(ws: seq<WriteResult>)
      requires Valid() && backendConn != null && backendConn.state != Connecting
      modifies Repr
      ensures Valid() && Repr == old(Repr)
      ensures Value() == Then(kind, old(Value()), Back, Flush(old(Value()).back, ws))
    {
      var callbacks := backendConn.HandleWrite(ws);
      CallBack(Back, callbacks);
    }

    method CloseFront()
      requires Valid()
      modifies Repr
      ensures Valid() && Repr == old(Repr)
      ensures Value() == Then(kind, old(Value()), Front, Close(old(Value()).front))
    {
      var callbacks := front.ConnectDestroyed();
      CallBack(Front, callbacks);
    }

    method CloseBack()
      requires Valid() && backendConn != null
      modifies Repr
      ensures Valid() && Repr == old(Repr)
      ensures Value() == Then(kind, old(Value()), Back, Close(old(Value()).back))
    {
      var callbacks := backendConn.ConnectDestroyed();
      CallBack(Back, callbacks);
    }

    // ---- The handlers ----

    method Adopt(conn: TcpConnection, address: string)
      requires Valid() && conn.Valid() && conn.Repr !! Repr
      modifies `backendConn, `backend, `Repr, `addr, `waiting
      ensures Valid() && Repr == old(Repr) + conn.Repr
      ensures Value() == old(Value()).(back := old(conn.Value()), created := true, attached := true,
                                       waiting := false, addr := address)
    {
      backendConn, backend := conn, conn;
      Repr := Repr + conn.Repr;
      addr, waiting := address, false;
    }

    method CreateBackendConnection(address: string)
      requires Valid()
      modifies Repr
      ensures Valid() && fresh(Repr - old(Repr)) && Value() == CreateBackend(old(Value()), address)
    {
      var conn := new TcpConnection(MARK);
      conn.ConnectEstablishedAsClient();
      assert front.Valid() && front.Value() == old(front.Value());
      Adopt(conn, address);
    }

    method StartForwarding(path: string, dials: bool, w: WriteResult)
      requires Valid() && kind.Http?
      modifies Repr
      ensures Valid() && fresh(Repr - old(Repr))
      ensures Value() == Relays.StartForwarding(kind, old(Value()), path, dials, w)
    {
      match Lookup(kind.routes, path)
      case NoRoute =>
        SendFront(NOT_FOUND, w);
        front.ShutdownInLoop();
      case BadAddress =>
      case Backend(address) =>
        if dials {
          CreateBackendConnection(address);
        }
    }

    method Forward(w: WriteResult)
      requires Valid() && backendConn != null
      modifies Repr
      ensures Valid() && fresh(Repr - old(Repr))
      ensures Value() == Relays.Forward(kind, old(Value()), old(Value()).front.input, w)
    {
      var data := front.RetrieveInput();
      SendBack(data, w);
    }

    /** onMessage of the client connection. */
    method OnMessage(dials: bool, w: WriteResult)
      requires Valid()
      modifies Repr
      ensures Valid() && fresh(Repr - old(Repr)) && Value() == Relays.OnMessage(kind, old(Value()), dials, w)
    {
      match kind
      case L4 =>
        if backendConn != null && backendConnected {
          Forward(w);
        }
      case Http(_) =>
        if waiting {
          var preview := front.PeekInput();
          var host := ParseHeader(preview, "Host");
          var path := ParsePath(preview);
          if host != "" && path != "" {
            StartForwarding(path, dials, w);
          }
        } else if backendConn != null && backendConn.state == Connected {
          Forward(w);
        }
    }

    /** The backend's connection callback. */
    method OnBackendUp(w: WriteResult)
      requires Valid() && backendConn != null
      modifies Repr
      ensures Valid() && fresh(Repr - old(Repr)) && Value() == BackendUp(kind, old(Value()), w)
    {
      if kind == L4 {
        SetBackendConnected();
      }
      SendBacklog(w);
    }

    method SetBackendConnected()
      requires Valid()
      modifies `backendConnected
      ensures Valid() && Value() == old(Value()).(backendConnected := true)
    {
      backendConnected := true;
    }

    method SendBacklog(w: WriteResult)
      requires Valid() && backendConn != null
      modifies Repr
      ensures Valid() && fresh(Repr - old(Repr))
      ensures var r := old(Value());
        var data := if kind == L4 then r.front.input else ModifyRequest(r.front.input, r.addr);
        Value() == if r.front.input == [] then r else Relays.Forward(kind, r, data, w)
    {
      if front.inputBuffer.ReadableBytes() > 0 {
        var request := front.RetrieveInput();
        SendBack(if kind == L4 then request else ModifyRequest(request, addr), w);
      }
    }

    /** The backend's message callback. */
    method OnBackendMessage(w: WriteResult)
      requires Valid() && backendConn != null
      modifies Repr
      ensures Valid() && fresh(Repr - old(Repr)) && Value() == Respond(kind, old(Value()), w)
    {
      var data := backendConn.RetrieveInput();
      if front.state == Connected {
        SendFront(data, w);
      }
    }

    // ---- Events ----

    /** Every readFd has room for this much. */
    static predicate FitsOneRead(e: Relays.Event) {
      && (e.FrontReadable? && e.fr.Got? ==> |e.fr.data| <= Buffers.SPILL_SIZE)
      && (e.BackReadable? && e.br.Got? ==> |e.br.data| <= Buffers.SPILL_SIZE)
    }

    /** What a readFd of at most `capacity` bytes delivers when the kernel offers `data`. */
    static function Taken(data: Bytes, capacity: nat): Bytes {
      data[..Min(|data|, capacity)]
    }

    method ReceiveFront(data: Bytes)
      requires Valid() && |data| <= front.Capacity()
      modifies Repr
      ensures Valid() && fresh(Repr - old(Repr)) && backendConn == old(backendConn)
      ensures Value() == old(Value()).(front := Receive(old(Value()).front, data))
    {
      front.ReadSome(data);
      Repr := Repr + front.Repr;
    }

    method ReceiveBack(data: Bytes)
      requires Valid() && backendConn != null && |data| <= backendConn.Capacity()
      modifies Repr
      ensures Valid() && fresh(Repr - old(Repr)) && backendConn == old(backendConn)
      ensures Value() == old(Value()).(back := Receive(old(Value()).back, data))
    {
      backendConn.ReadSome(data);
      Repr := Repr + backend.Repr;
    }

    /** One turn of the loop of handleRead on the client connection. */
    method ReadFront(result: ReadResult, dials: bool, w: WriteResult) returns (ghost e: Relays.Event)
      requires Valid()
      modifies Repr
      ensures Valid() && fresh(Repr - old(Repr))
      ensures var r := if result.Got? then Got(Taken(result.data, old(front.Capacity()))) else result;
        e == FrontReadable(r, dials, w)
      ensures Value() == Relays.Step(kind, old(Value()), e)
    {
      match result
      case Got(data) =>
        var taken := Taken(data, front.Capacity());
        e := FrontReadable(Got(taken), dials, w);
        ReceiveFront(taken);
        OnMessage(dials, w);
      case Drained =>
        e := FrontReadable(result, dials, w);
      case _ =>
        e := FrontReadable(result, dials, w);
        CloseFront();
    }

    /** handleRead on the client connection: reads until something other than bytes comes. */
    method HandleReadFront(results: seq<(ReadResult, bool, WriteResult)>) returns (ghost es: seq<Relays.Event>)
      requires Valid()
      modifies Repr
      ensures Valid() && fresh(Repr - old(Repr))
      ensures |es| <= |results| && forall k :: 0 <= k < |es| ==> es[k].FrontReadable?
      ensures forall k :: 0 <= k < |es| - 1 ==> es[k].fr.Got?
      ensures |es| < |results| ==> es != [] && !es[|es| - 1].fr.Got?
      ensures Value() == Relays.Run(kind, old(Value()), es)
    {
      es := [];
      var i := 0;
      while i < |results|
        invariant i <= |results| && Valid() && fresh(Repr - old(Repr)) && |es| == i
        invariant forall k :: 0 <= k < |es| ==> es[k].FrontReadable? && es[k].fr.Got?
        invariant Value() == Relays.Run(kind, old(Value()), es)
      {
        ghost var e := ReadFront(results[i].0, results[i].1, results[i].2);
        RunSnoc(kind, old(Value()), es, e);
        es := es + [e];
        i := i + 1;
        if !results[i - 1].0.Got? {
          break;
        }
      }
    }

    method TakeBack(data: Bytes, w: WriteResult)
      requires Valid() && backendConn != null && |data| <= backendConn.Capacity()
      modifies Repr
      ensures Valid() && fresh(Repr - old(Repr))
      ensures Value() == Respond(kind, old(Value()).(back := Receive(old(Value()).back, data)), w)
    {
      ReceiveBack(data);
      OnBackendMessage(w);
    }

    /** One turn of the loop of handleRead on the backend connection. */
    method ReadBack(result: ReadResult, w: WriteResult) returns (ghost e: Relays.Event)
      requires Valid() && backendConn != null && backendConn.state != Connecting
      modifies Repr
      ensures Valid() && fresh(Repr - old(Repr))
      ensures e == BackReadable(if result.Got? then Got(Taken(result.data, old(backend.Capacity()))) else result, w)
      ensures Value() == Relays.Step(kind, old(Value()), e)
    {
      if result.Got? {
        e := TakeOffered(result.data, w);
      } else {
        e := BackReadable(result, w);
        if result != Drained {
          CloseBack();
        }
      }
    }

    method TakeOffered(data: Bytes, w: WriteResult) returns (ghost e: Relays.Event)
      requires Valid() && backendConn != null && backendConn.state != Connecting
      modifies Repr
      ensures Valid() && fresh(Repr - old(Repr))
      ensures e == BackReadable(Got(Taken(data, old(backend.Capacity()))), w)
      ensures Value() == Relays.Step(kind, old(Value()), e)
    {
      var taken := Taken(data, backendConn.Capacity());
      e := BackReadable(Got(taken), w);
      TakeBack(taken, w);
    }

    /** handleRead on the backend connection. The loop is left as well when the client connection dies
        under it and lets the backend go. */
    method HandleReadBack(results: seq<(ReadResult, WriteResult)>) returns (ghost es: seq<Relays.Event>)
      requires Valid()
      modifies Repr
      ensures Valid() && fresh(Repr - old(Repr))
      ensures |es| <= |results| && forall k :: 0 <= k < |es| ==> es[k].BackReadable?
      ensures Value() == Relays.Run(kind, old(Value()), es)
    {
      es := [];
      var i := 0;
      while i < |results| && backendConn != null && backendConn.state != Connecting
        invariant i <= |results| && Valid() && fresh(Repr - old(Repr)) && |es| == i
        invariant forall k :: 0 <= k < |es| ==> es[k].BackReadable?
        invariant Value() == Relays.Run(kind, old(Value()), es)
      {
        ghost var e := ReadBack(results[i].0, results[i].1);
        RunSnoc(kind, old(Value()), es, e);
        es := es + [e];
        i := i + 1;
        if !results[i - 1].0.Got? {
          break;
        }
      }
    }

    method CompleteBack()
      requires Valid() && backendConn != null && backendConn.state == Connecting
      modifies Repr
      ensures Valid() && Repr == old(Repr) && backendConn == old(backendConn)
      ensures Value() == old(Value()).(back := ConnectCompleted(old(Value()).back))
    {
      backendConn.CompleteConnect();
    }

    method CompleteConnect(w: WriteResult)
      requires Valid() && backendConn != null && backendConn.state == Connecting
      modifies Repr
      ensures Valid() && fresh(Repr - old(Repr))
      ensures Value() == BackendUp(kind, old(Value()).(back := ConnectCompleted(old(Value()).back)), w)
    {
      CompleteBack();
      OnBackendUp(w);
    }

    /** handleWrite on the backend connection. */
    method HandleWriteBack(ws: seq<WriteResult>)
      requires Valid() && backendConn != null
      modifies Repr
      ensures Valid() && fresh(Repr - old(Repr)) && Value() == Relays.Step(kind, old(Value()), BackWritable(ws))
    {
      if backendConn.state == Connecting {
        CompleteConnect(if ws == [] then WouldBlock else ws[0]);
      } else {
        FlushBack(ws);
      }
    }

    /** The posted createBackendConnection of the balancer. */
    method DialBackend(succeeds: bool)
      requires Valid() && dialing
      modifies Repr
      ensures Valid() && fresh(Repr - old(Repr)) && Value() == Relays.Step(kind, old(Value()), Dial(succeeds))
    {
      dialing := false;
      if succeeds {
        CreateBackendConnection("");
      } else {
        front.ShutdownInLoop();
      }
    }

    /** Any one event. A read takes as much of what is offered as one readFd can. */
    method Handle(offered: Relays.Event) returns (ghost e: Relays.Event)
      requires Valid() && front.state != Connecting
      modifies Repr
      ensures Valid() && fresh(Repr - old(Repr)) && Value() == Relays.Step(kind, old(Value()), e)
      ensures FitsOneRead(offered) ==> e == offered
    {
      e := offered;
      match offered
      case Dial(succeeds) =>
        if dialing {
          DialBackend(succeeds);
        }
      case Timeout =>
        if kind == L4 {
          front.ShutdownInLoop();
        }
      case FrontReadable(fr, dials, w) => e := ReadFront(fr, dials, w);
      case FrontWritable(ws) => FlushFront(ws);
      case FrontError => CloseFront();
      case _ => e := HandleBack(offered);
    }

    method HandleBack(offered: Relays.Event) returns (ghost e: Relays.Event)
      requires Valid() && (offered.BackReadable? || offered.BackWritable? || offered.BackError?)
      modifies Repr
      ensures Valid() && fresh(Repr - old(Repr)) && Value() == Relays.Step(kind, old(Value()), e)
      ensures FitsOneRead(offered) ==> e == offered
    {
      e := offered;
      if backendConn != null {
        match offered
        case BackReadable(br, w) =>
          if backendConn.state != Connecting {
            e := ReadBack(br, w);
          }
        case BackWritable(ws) => HandleWriteBack(ws);
        case BackError =>
          if backendConn.state != Connecting {
            CloseBack();
          }
      }
    }

    /** Any events, one after the other. */
    method HandleAll(offered: seq<Relays.Event>) returns (ghost es: seq<Relays.Event>)
      requires Valid() && Inv(kind, Value())
      modifies Repr
      ensures Valid() && fresh(Repr - old(Repr)) && |es| == |offered|
      ensures Value() == Relays.Run(kind, old(Value()), es) && Inv(kind, Value())
      ensures AllFit(offered) ==> es == offered
    {
      es := [];
      var i := 0;
      while i < |offered|
        invariant i <= |offered| && Valid() && fresh(Repr - old(Repr)) && |es| == i
        invariant Value() == Relays.Run(kind, old(Value()), es)
        invariant AllFit(offered[..i]) ==> es == offered[..i]
      {
        OpenClient(kind, old(Value()), es);
        ghost var e := Handle(offered[i]);
        RunSnoc(kind, old(Value()), es, e);
        OneMoreFits(offered, i);
        es := es + [e];
        i := i + 1;
      }
      assert offered[..i] == offered;
      RunKeepsInv(kind, old(Value()), es);
    }
  }

  ghost predicate AllFit(es: seq<Relays.Event>) {
    forall e :: e in es ==> ProxyHandler.FitsOneRead(e)
  }

  lemma OneMoreFits(es: seq<Relays.Event>, i: nat)
    requires i < |es|
    ensures es[..i + 1] == es[..i] + [es[i]]
    ensures AllFit(es[..i + 1]) <==> AllFit(es[..i]) && ProxyHandler.FitsOneRead(es[i])
  {
    assert es[..i + 1] == es[..i] + [es[i]];
  }

  lemma OpenClient(kind: Kind, r: Relay, es: seq<Relays.Event>)
    requires Inv(kind, r)
    ensures Relays.Run(kind, r, es).front.state != Connecting
  {
    RunKeepsInv(kind, r, es);
  }

  /** A client served from accept on, through any events: what the objects hold at the end is what
      the relay's theorems speak of. */
  method Serve(kind: Kind, chosen: bool, offered: seq<Relays.Event>)
    returns (h: ProxyHandler, ghost es: seq<Relays.Event>)
    ensures h.Valid() && h.kind == kind && |es| == |offered|
    ensures h.Value() == After(kind, chosen, es) && Inv(kind, h.Value())
    ensures AllFit(offered) ==> es == offered
  {
    var conn := new TcpConnection(MARK);
    h := new ProxyHandler(kind, conn, chosen);
    Reached(kind, chosen, []);
    es := h.HandleAll(offered);
  }

  lemma {:induction false} ReadsFit(chunks: seq<Bytes>, w: WriteResult)
    requires forall c :: c in chunks ==> |c| <= Buffers.SPILL_SIZE
    ensures AllFit(RelayEndings.Reads(chunks, w))
  {
    if chunks != [] {
      assert chunks[0] in chunks && forall c :: c in chunks[1..] ==> c in chunks;
      ReadsFit(chunks[1..], w);
    }
  }

  /** The runs that pause a client for good are runs of the objects: each of their reads fits one readFd. */
  lemma PausingRunsFit(head: Bytes, chunk: Bytes)
    requires |head| <= Buffers.SPILL_SIZE && |chunk| == Buffers.SPILL_SIZE
    ensures var filling := RelayEndings.Reads(RelayPauses.Repeated(chunk, 1024), WouldBlock);
      && AllFit(RelayEndings.L4_OPENING + filling + [BackError])
      && AllFit(RelayEndings.HttpOpening(head) + filling + [BackError])
  {
    ReadsFit(RelayPauses.Repeated(chunk, 1024), WouldBlock);
  }
}
