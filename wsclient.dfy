/**
 * The WebSocket client connection: text messages accumulate in an input
 * buffer that is cut into frames one delimiter at a time; outgoing messages
 * are sent only while connected, with no queue. Every connection attempt
 * opens a new WebSocket. The WebSocket is a log of the calls made on it.
 */
module WsClient {
  import opened Strings
  import opened Framing

  /** A call made on the WebSocket: opening a new one, sending, closing. */
  datatype WsCall = OpenCall | SendCall(msg: string) | CloseCall

  /** An event the connection emits. */
  datatype ClientEvent = Connected | Closed | Frame(msg: string)

  function FrameEvent(msg: string): ClientEvent {
    Frame(msg)
  }

  class WsClientConnection {
    var connected: bool
    var connecting: bool
    var shutdown: bool
    var inputbuffer: string
    var frameLimiter: string
    /** The calls made on the WebSocket so far. */
    var socket: seq<WsCall>
    /** The events emitted so far. */
    var events: seq<ClientEvent>
    /** Reconnection attempts scheduled on a timer and not yet run. */
    var pendingStarts: nat

    /** There is a delimiter to cut at. */
    predicate Valid()
      reads this
    {
      |frameLimiter| > 0
    }

    /** A new connection opens a WebSocket at once. */
    constructor ()
      ensures Valid()
      ensures !connected && connecting && !shutdown
      ensures inputbuffer == "" && frameLimiter == "\n"
      ensures socket == [OpenCall] && events == [] && pendingStarts == 0
    {
      connected, connecting, shutdown := false, true, false;
      inputbuffer, frameLimiter := "", "\n";
      socket, events, pendingStarts := [OpenCall], [], 0;
    }

    /** Opens a new WebSocket, whatever the current state. */
    method StartConnect()
      modifies this`connecting, this`socket
      ensures connecting && socket == old(socket) + [OpenCall]
    {
      socket := socket + [OpenCall];
      connecting := true;
    }

    /** The WebSocket opened: connected, with an empty input buffer. */
    method OnOpen()
      modifies this`connected, this`connecting, this`inputbuffer, this`events
      ensures connected && !connecting && inputbuffer == ""
      ensures events == old(events) + [Connected]
    {
      connected := true;
      connecting := false;
      inputbuffer := "";
      events := events + [Connected];
    }

    /**
     * A message arrived. Binary data is discarded. Text is appended to the
     * buffer; then, while the buffer holds a delimiter, the text before the
     * first one is emitted and removed together with the delimiter. The
     * frames emitted and the buffer left are what `split` gives on the
     * whole buffer.
     */
    method OnMessage(data: string, isBinary: bool)
      requires Valid()
      modifies this`inputbuffer, this`events
      ensures isBinary ==> inputbuffer == old(inputbuffer) && events == old(events)
      ensures !isBinary ==> var r := Cut(old(inputbuffer) + data, frameLimiter);
        inputbuffer == r.1 && events == old(events) + FrameEvents(r.0, FrameEvent)
    {
      if isBinary {
        return;
      }
      inputbuffer := inputbuffer + data;
      CutFrames();
    }

    /**
     * The frame loop: emits and removes the text before the first delimiter
     * while there is one.
     */
    method CutFrames()
      requires Valid()
      modifies this`inputbuffer, this`events
      ensures var r := Cut(old(inputbuffer), frameLimiter);
        inputbuffer == r.1 && events == old(events) + FrameEvents(r.0, FrameEvent)
    {
      ghost var total := inputbuffer;
      ghost var emitted: seq<string> := [];
      var pos := IndexOf(inputbuffer, frameLimiter);
      while pos >= 0
        invariant pos == IndexOf(inputbuffer, frameLimiter)
        invariant emitted + Split(inputbuffer, frameLimiter) == Split(total, frameLimiter)
        invariant events == old(events) + FrameEvents(emitted, FrameEvent)
        decreases |inputbuffer|
      {
        var msg := inputbuffer[..pos];
        SplitFirstStep(inputbuffer, frameLimiter, total, emitted);
        FrameEventsAppend(emitted, msg, FrameEvent);
        inputbuffer := inputbuffer[pos + |frameLimiter|..];
        emitted := emitted + [msg];
        events := events + [Frame(msg)];
        pos := IndexOf(inputbuffer, frameLimiter);
      }
      SplitDone(inputbuffer, frameLimiter, total, emitted);
    }

    /** The WebSocket closed: not connected; unless shut down, a reconnect is scheduled. */
    method OnClose()
      modifies this`connected, this`connecting, this`pendingStarts, this`events
      ensures !connected && !connecting
      ensures pendingStarts == old(pendingStarts) + if shutdown then 0 else 1
      ensures events == old(events) + [Closed]
    {
      connected := false;
      connecting := false;
      events := events + [Closed];
      if !shutdown {
        pendingStarts := pendingStarts + 1;
      }
    }

    /** A scheduled reconnection attempt runs. */
    method OnRetryTimer()
      requires pendingStarts > 0
      modifies this`pendingStarts, this`connecting, this`socket
      ensures pendingStarts == old(pendingStarts) - 1
      ensures connecting && socket == old(socket) + [OpenCall]
    {
      pendingStarts := pendingStarts - 1;
      StartConnect();
    }

    /** Sends a message while connected; otherwise it is dropped. */
    method Write(msg: string)
      modifies this`socket
      ensures socket == old(socket) + if connected then [SendCall(msg)] else []
    {
      if connected {
        socket := socket + [SendCall(msg)];
      }
    }

    /** Shuts down: no more reconnects; a live WebSocket is closed. */
    method Close()
      modifies this`shutdown, this`socket
      ensures shutdown
      ensures socket == old(socket) + if connected then [CloseCall] else []
    {
      shutdown := true;
      if connected {
        socket := socket + [CloseCall];
      }
    }

    method SetFrameDelimiter(delimiter: string)
      requires Valid() && |delimiter| > 0
      modifies this`frameLimiter
      ensures Valid() && frameLimiter == delimiter
    {
      frameLimiter := delimiter;
    }

    /** Undoes a shutdown and opens a new WebSocket at once; otherwise does nothing. */
    method Reopen()
      modifies this`shutdown, this`connecting, this`socket
      ensures !shutdown
      ensures if old(shutdown) then connecting && socket == old(socket) + [OpenCall]
        else connecting == old(connecting) && socket == old(socket)
    {
      if shutdown {
        shutdown := false;
        StartConnect();
      }
    }
  }
}
