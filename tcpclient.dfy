/**
 * The TCP client connection: reconnects after the socket closes unless it
 * was shut down, delays outgoing messages while the socket is not drained
 * (at most 1024 of them), and cuts incoming data into frames at the frame
 * delimiter. The socket itself is a log of the calls made on it; the value
 * each `socket.write` returns is a parameter.
 */
module TcpClient {
  import opened Strings
  import opened Framing

  /** A call made on the socket. */
  datatype SocketCall = ConnectCall | WriteCall(msg: string) | EndCall

  /** An event the connection emits. */
  datatype ClientEvent = Connected | Closed | Frame(msg: string) | InputOverflow | OutputStalled | SocketError

  /** The `write` calls for a list of messages, in order. */
  function Writes(msgs: seq<string>): (r: seq<SocketCall>)
    ensures |r| == |msgs|
    ensures forall i :: 0 <= i < |msgs| ==> r[i] == WriteCall(msgs[i])
  {
    seq(|msgs|, i requires 0 <= i < |msgs| => WriteCall(msgs[i]))
  }

  lemma WritesSnoc(msgs: seq<string>, n: nat)
    requires n < |msgs|
    ensures Writes(msgs[..n + 1]) == Writes(msgs[..n]) + [WriteCall(msgs[n])]
  {
    assert |Writes(msgs[..n + 1])| == |Writes(msgs[..n]) + [WriteCall(msgs[n])]|;
  }

  class TcpClientConnection {
    var connected: bool
    var connecting: bool
    var shutdown: bool
    var drained: bool
    var inputbuffer: string
    var outputbuffer: seq<string>
    var frameLimiter: string
    /** The calls made on the socket so far. */
    var socket: seq<SocketCall>
    /** The events emitted so far. */
    var events: seq<ClientEvent>
    /** Reconnection attempts scheduled on a timer and not yet run. */
    var pendingStarts: nat

    /** The delayed queue stays within its cap, and there is a delimiter to cut at. */
    predicate Valid()
      reads this
    {
      |outputbuffer| <= MaxQueued && |frameLimiter| > 0
    }

    /** A new connection starts connecting at once. */
    constructor ()
      ensures Valid()
      ensures !connected && connecting && !shutdown && !drained
      ensures inputbuffer == "" && outputbuffer == [] && frameLimiter == "\n"
      ensures socket == [ConnectCall] && events == [] && pendingStarts == 0
    {
      connected, connecting, shutdown, drained := false, true, false, false;
      inputbuffer, outputbuffer, frameLimiter := "", [], "\n";
      socket, events, pendingStarts := [ConnectCall], [], 0;
    }

    /** A socket error is passed on only while connected. */
    method OnSocketError()
      modifies this`events
      ensures events == old(events) + if connected then [SocketError] else []
    {
      if connected {
        events := events + [SocketError];
      }
    }

    /** The socket closed: both buffers are dropped and, unless shut down, a reconnect is scheduled. */
    method OnSocketClosed()
      requires Valid()
      modifies this`connected, this`outputbuffer, this`inputbuffer, this`pendingStarts, this`events
      ensures Valid()
      ensures !connected && outputbuffer == [] && inputbuffer == ""
      ensures pendingStarts == old(pendingStarts) + if shutdown then 0 else 1
      ensures events == old(events) + [Closed]
    {
      connected := false;
      outputbuffer := [];
      inputbuffer := "";
      if !shutdown {
        pendingStarts := pendingStarts + 1;
      }
      events := events + [Closed];
    }

    /** The socket connected: it is writable and nothing is delayed. */
    method OnSocketConnected()
      requires Valid()
      modifies this`connecting, this`connected, this`drained, this`outputbuffer, this`events
      ensures Valid()
      ensures connected && !connecting && drained && outputbuffer == []
      ensures events == old(events) + [Connected]
    {
      connecting := false;
      connected := true;
      drained := true;
      outputbuffer := [];
      events := events + [Connected];
    }

    /**
     * The socket drained: delayed messages are written first in, first out;
     * the flush stops right after a write the socket reports as full, with
     * `drained` false and the unsent messages still queued in order.
     * `accepts(i)` is what the `i`-th write of this flush returns.
     */
    method OnSocketDrained(accepts: nat -> bool)
      requires Valid()
      modifies this`drained, this`outputbuffer, this`socket
      ensures Valid()
      ensures var n := Flushed(accepts, |old(outputbuffer)|);
        socket == old(socket) + Writes(old(outputbuffer)[..n]) && outputbuffer == old(outputbuffer)[n..]
      ensures drained <==> FirstFull(accepts, 0, |old(outputbuffer)|) == |old(outputbuffer)|
    {
      ghost var queue := outputbuffer;
      drained := true;
      var n := 0;
      while |outputbuffer| > 0
        invariant n <= |queue| && outputbuffer == queue[n..]
        invariant socket == old(socket) + Writes(queue[..n])
        invariant forall i :: 0 <= i < n ==> accepts(i)
        invariant drained
        decreases |outputbuffer|
      {
        var msg := outputbuffer[0];
        outputbuffer := outputbuffer[1..];
        WritesSnoc(queue, n);
        socket := socket + [WriteCall(msg)];
        if !accepts(n) {
          drained := false;
          return;
        }
        n := n + 1;
      }
    }

    /**
     * Data arrived: every complete frame is emitted in order and the
     * remainder, which holds no delimiter, is kept; a remainder over 1 MB is
     * dropped with an error.
     */
    method OnSocketData(data: string)
      requires Valid()
      modifies this`inputbuffer, this`events
      ensures Valid()
      ensures var r := Receive(old(inputbuffer), data, frameLimiter);
        inputbuffer == r.1
        && events == old(events) + FrameEvents(r.0, s => Frame(s)) + if r.2 then [InputOverflow] else []
    {
      inputbuffer := inputbuffer + data;
      var messages := Split(inputbuffer, frameLimiter);
      ghost var frames := messages[..|messages| - 1];
      var i := 0;
      while i < |messages| - 1
        invariant 0 <= i <= |messages| - 1
        invariant events == old(events) + FrameEvents(frames[..i], s => Frame(s))
      {
        FrameEventsSnoc(frames, i, s => Frame(s));
        events := events + [Frame(messages[i])];
        i := i + 1;
      }
      assert frames[..i] == frames;
      inputbuffer := messages[|messages| - 1];
      if |inputbuffer| > MaxInput {
        inputbuffer := "";
        events := events + [InputOverflow];
      }
    }

    /** Connects unless already connected or shut down. */
    method StartConnect()
      modifies this`connecting, this`socket
      ensures if connected || shutdown then connecting == old(connecting) && socket == old(socket)
        else connecting && socket == old(socket) + [ConnectCall]
    {
      if connected {
        return;
      }
      if !shutdown {
        connecting := true;
        socket := socket + [ConnectCall];
      }
    }

    /** A scheduled reconnection attempt runs. */
    method OnRetryTimer()
      requires pendingStarts > 0
      modifies this`pendingStarts, this`connecting, this`socket
      ensures pendingStarts == old(pendingStarts) - 1
      ensures if connected || shutdown then connecting == old(connecting) && socket == old(socket)
        else connecting && socket == old(socket) + [ConnectCall]
    {
      pendingStarts := pendingStarts - 1;
      StartConnect();
    }

    /**
     * Sends a message: dropped while disconnected; written at once while
     * drained, `drained` becoming what the write returns (`accepted`);
     * otherwise delayed while fewer than 1024 wait, else dropped with an error.
     */
    method Write(msg: string, accepted: bool)
      requires Valid()
      modifies this`socket, this`drained, this`outputbuffer, this`events
      ensures Valid()
      ensures !old(connected) ==> (socket == old(socket) && drained == old(drained)
        && outputbuffer == old(outputbuffer) && events == old(events))
      ensures old(connected) && old(drained) ==> (socket == old(socket) + [WriteCall(msg)] && drained == accepted
        && outputbuffer == old(outputbuffer) && events == old(events))
      ensures old(connected) && !old(drained) ==> (socket == old(socket) && !drained
        && if |old(outputbuffer)| < MaxQueued then outputbuffer == old(outputbuffer) + [msg] && events == old(events)
          else outputbuffer == old(outputbuffer) && events == old(events) + [OutputStalled])
    {
      if !connected {
        return;
      }
      if drained {
        socket := socket + [WriteCall(msg)];
        if !accepted {
          drained := false;
        }
      } else if |outputbuffer| < MaxQueued {
        outputbuffer := outputbuffer + [msg];
      } else {
        events := events + [OutputStalled];
      }
    }

    method SetFrameDelimiter(delimiter: string)
      requires Valid() && |delimiter| > 0
      modifies this`frameLimiter
      ensures Valid() && frameLimiter == delimiter
    {
      frameLimiter := delimiter;
    }

    /** Shuts down: no more reconnects; a live socket is ended. */
    method Close()
      modifies this`shutdown, this`socket
      ensures shutdown
      ensures socket == old(socket) + if connected then [EndCall] else []
    {
      shutdown := true;
      if connected {
        socket := socket + [EndCall];
      }
    }

    /** Undoes a shutdown and schedules a connection attempt; otherwise does nothing. */
    method Reopen()
      modifies this`shutdown, this`pendingStarts
      ensures !shutdown
      ensures pendingStarts == old(pendingStarts) + if old(shutdown) then 1 else 0
    {
      if shutdown {
        shutdown := false;
        pendingStarts := pendingStarts + 1;
      }
    }
  }
}
