/** The class TcpConnection of src/net/tcp_connection.cpp, over two Buffer objects. Every method is
    proved to do what the functions of module Connections say, and returns the callbacks it makes. */
module TcpConnections {
  import opened Wrappers
  import opened Connections
  import Buffers

  class TcpConnection {
    var state: State
    var inputBuffer: Buffers.Buffer
    var outputBuffer: Buffers.Buffer
    var reading: bool            // the channel's EPOLLIN
    var writing: bool            // the channel's EPOLLOUT
    var highWaterMark: nat

    ghost var received: Bytes
    ghost var accepted: Bytes
    ghost var Repr: set<object>

    ghost predicate Valid()
      reads this, Repr
    {
      && this in Repr
      && inputBuffer in Repr && inputBuffer.storage in Repr
      && outputBuffer in Repr && outputBuffer.storage in Repr
      && inputBuffer != outputBuffer && inputBuffer.storage != outputBuffer.storage
      && inputBuffer.Valid() && outputBuffer.Valid()
    }

    /** What the connection stands for. */
    ghost function Value(): Conn
      reads this, Repr
      requires Valid()
    {
      Conn(state, inputBuffer.contents, outputBuffer.contents, reading, writing, highWaterMark, received, accepted)
    }

    constructor (mark: nat)
      ensures Valid() && fresh(Repr)
      ensures Value() == New(mark)
    {
      state, reading, writing, highWaterMark := Connecting, false, false, mark;
      inputBuffer := new Buffers.Buffer(Buffers.INITIAL_SIZE);
      outputBuffer := new Buffers.Buffer(Buffers.INITIAL_SIZE);
      received, accepted := [], [];
      new;
      Repr := {this, inputBuffer, inputBuffer.storage, outputBuffer, outputBuffer.storage};
    }

    method StartRead()
      requires Valid()
      modifies this`reading
      ensures Valid() && Value() == Connections.StartRead(old(Value()))
      ensures reading <==> old(reading) || state == Connected || state == Connecting
    {
      if state == Connected || state == Connecting {
        if !reading {
          reading := true;
        }
      }
    }

    method StopRead()
      requires Valid()
      modifies this`reading
      ensures Valid() && Value() == Connections.StopRead(old(Value()))
      ensures reading <==> old(reading) && state != Connected && state != Connecting
    {
      if state == Connected || state == Connecting {
        if reading {
          reading := false;
        }
      }
    }

    method ConnectEstablished()
      requires Valid()
      modifies this`state, this`reading
      ensures Valid() && Value() == Connections.ConnectEstablished(old(Value()))
      ensures state == Connected && reading
    {
      state := Connected;
      reading := true;
    }

    method ConnectEstablishedAsClient()
      requires Valid()
      modifies this`state, this`writing
      ensures Valid() && Value() == Connections.ConnectEstablishedAsClient(old(Value()))
      ensures state == Connecting && writing
    {
      state := Connecting;
      writing := true;
    }

    method ShutdownInLoop()
      requires Valid()
      modifies this`state
      ensures Valid() && Value() == Shutdown(old(Value()))
      ensures state == if old(state) == Connected then Disconnecting else old(state)
    {
      if state == Connected {
        state := Disconnecting;
      }
    }

    method ConnectDestroyed() returns (callbacks: seq<Callback>)
      requires Valid()
      modifies this`state, this`reading, this`writing
      ensures Valid() && (Value(), callbacks) == Close(old(Value()))
      ensures if old(state) == Connected || old(state) == Disconnecting
              then state == Disconnected && !reading && !writing && callbacks == [OnClose, Closed]
              else state == old(state) && callbacks == [Closed]
    {
      callbacks := [];
      if state == Connected || state == Disconnecting {
        state := Disconnected;
        reading, writing := false, false;
        callbacks := [OnClose];
      }
      callbacks := callbacks + [Closed];
      assert [OnClose] + [Closed] == [OnClose, Closed] && [] + [Closed] == [Closed];
    }

    /** The second half of sendInLoop: what the kernel left goes to the output buffer. */
    method QueueRest(rest: Bytes) returns (callbacks: seq<Callback>)
      requires Valid()
      modifies this`writing, this`Repr, outputBuffer, outputBuffer.storage
      ensures Valid() && fresh(Repr - old(Repr)) && (Value(), callbacks) == Enqueue(old(Value()), rest)
    {
      callbacks := [];
      if |rest| > 0 {
        var oldLen := outputBuffer.ReadableBytes();
        outputBuffer.Append(rest);
        Repr := Repr + {outputBuffer.storage};
        if oldLen + |rest| >= highWaterMark && oldLen < highWaterMark {
          callbacks := [HighWater];
        }
        if !writing {
          writing := true;
        }
      }
    }

    /** `w` is the kernel's answer to the direct write, if there is one. */
    method SendInLoop(message: Bytes, w: WriteResult) returns (callbacks: seq<Callback>)
      requires Valid()
      modifies Repr
      ensures Valid() && fresh(Repr - old(Repr)) && (Value(), callbacks) == Send(old(Value()), message, w)
      ensures state == if old(state) == Connected && old(outputBuffer.contents) == [] && w == WriteFault
                       then Disconnected else old(state)
    {
      callbacks := [];
      if state == Connected {
        var remaining := |message|;
        var faultError := false;
        if outputBuffer.ReadableBytes() == 0 {
          match w
          case Wrote(n) =>
            remaining := |message| - Min(n, |message|);
            accepted := accepted + message[..|message| - remaining];
            if remaining == 0 {
              callbacks := [WriteComplete];
            }
          case WouldBlock =>
          case WriteFault => faultError := true;
        }
        if faultError {
          callbacks := ConnectDestroyed();
        } else if remaining > 0 {
          assert message[|message| - remaining..] == message || remaining < |message|;
          callbacks := QueueRest(message[|message| - remaining..]);
        }
      }
    }

    /** One turn of the loop of handleWrite. */
    method WriteOnce(n: nat) returns (drained: bool)
      requires Valid() && outputBuffer.contents != []
      modifies this`accepted, this`writing, outputBuffer
      ensures Valid()
      ensures var c := old(Value());
        var k := Min(n, |c.output|);
        && Value() == c.(accepted := c.accepted + c.output[..k], output := c.output[k..],
                         writing := c.writing && !drained)
        && (drained <==> c.output[k..] == [])
    {
      var k := Min(n, outputBuffer.ReadableBytes());
      ghost var taken := outputBuffer.contents[..k];
      outputBuffer.Retrieve(k);
      accepted := accepted + taken;
      drained := outputBuffer.ReadableBytes() == 0;
      if drained {
        writing := false;
      }
    }

    /** handleWrite on a connection that is not connecting; `ws` are the kernel's answers. */
    method HandleWrite(ws: seq<WriteResult>) returns (callbacks: seq<Callback>)
      requires Valid() && state != Connecting
      modifies Repr
      ensures Valid() && Repr == old(Repr) && (Value(), callbacks) == Flush(old(Value()), ws)
    {
      callbacks := [];
      if writing {
        var i := 0;
        while i < |ws| && outputBuffer.ReadableBytes() > 0
          invariant i <= |ws| && Valid() && Repr == old(Repr) && writing
          invariant outputBuffer == old(outputBuffer)
          invariant Flush(Value(), ws[i..]) == Flush(old(Value()), ws)
        {
          assert ws[i..][0] == ws[i] && ws[i..][1..] == ws[i + 1..];
          match ws[i] {
            case WriteFault =>
              callbacks := ConnectDestroyed();
              return;
            case WouldBlock =>
              return;
            case Wrote(n) =>
              if n == 0 {
                return;
              }
              var drained := WriteOnce(n);
              if drained {
                callbacks := [WriteComplete];
                return;
              }
          }
          i := i + 1;
        }
      }
    }

    /** The EPOLLOUT of a connect that succeeded, up to the connection callback. */
    method CompleteConnect()
      requires Valid() && state == Connecting
      modifies this`state, this`reading, this`writing
      ensures Valid() && Value() == ConnectCompleted(old(Value()))
      ensures state == Connected && reading && !writing
    {
      state := Connected;
      writing := false;
      reading := true;
    }

    /** What one readFd can deliver at most. */
    function Capacity(): (n: nat)
      requires Valid()
      reads this, Repr
      ensures n >= Buffers.SPILL_SIZE
    {
      inputBuffer.WritableBytes()
      + if inputBuffer.WritableBytes() < Buffers.SPILL_SIZE then Buffers.SPILL_SIZE else 0
    }

    /** A readFd that delivers `data`. */
    method ReadSome(data: Bytes)
      requires Valid() && |data| <= Capacity()
      modifies Repr
      ensures Valid() && fresh(Repr - old(Repr)) && Value() == Receive(old(Value()), data)
    {
      var n, savedErrno := inputBuffer.ReadFd(data, Buffers.Read(|data|));
      assert data[..|data|] == data;
      Repr := Repr + {inputBuffer.storage};
      received := received + data;
    }

    method PeekInput() returns (data: Bytes)
      requires Valid()
      ensures data == Value().input
    {
      data := inputBuffer.PeekAsString(inputBuffer.ReadableBytes());
    }

    method RetrieveInput() returns (data: Bytes)
      requires Valid()
      modifies inputBuffer
      ensures Valid() && data == old(Value()).input && Value() == Consume(old(Value()))
    {
      data := inputBuffer.RetrieveAllAsString();
    }
  }
}
