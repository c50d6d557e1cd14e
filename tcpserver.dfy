/**
 * The TCP server connection: each accepted socket gets the next id (1, 2,
 * 3, ..., never reused) and its own input buffer, delayed output queue and
 * drained flag; data is cut into frames per socket, and writes go only to
 * a socket that is still open. The sockets' `write` calls are a log of
 * (socket id, message) pairs; what each `write` returns is a parameter.
 */
module TcpServer {
  import opened Strings
  import opened Framing

  /** The per-socket state. */
  datatype ServerSocket = ServerSocket(drained: bool, inputbuffer: string, outputbuffer: seq<string>)

  /**
   * An event the server emits. The 1 MB overflow error carries no socket
   * id: it is emitted as a plain `error`, unlike the stalled-output error.
   */
  datatype ServerEvent =
    | Connected(id: int)
    | Closed(id: int)
    | Frame(id: int, msg: string)
    | SocketError(id: int)
    | OutputStalled(id: int)
    | InputOverflow

  /** The `write` calls on socket `id` for a list of messages, in order. */
  function Writes(id: int, msgs: seq<string>): (r: seq<(int, string)>)
    ensures |r| == |msgs|
    ensures forall i :: 0 <= i < |msgs| ==> r[i] == (id, msgs[i])
  {
    seq(|msgs|, i requires 0 <= i < |msgs| => (id, msgs[i]))
  }

  lemma WritesSnoc(id: int, msgs: seq<string>, n: nat)
    requires n < |msgs|
    ensures Writes(id, msgs[..n + 1]) == Writes(id, msgs[..n]) + [(id, msgs[n])]
  {
    assert |Writes(id, msgs[..n + 1])| == |Writes(id, msgs[..n]) + [(id, msgs[n])]|;
  }

  class TcpServerConnection {
    var sockets: map<int, ServerSocket>
    var socketcount: int
    var frameLimiter: string
    /** The `write` calls made on the sockets so far. */
    var written: seq<(int, string)>
    /** The events emitted so far. */
    var events: seq<ServerEvent>

    /**
     * Every open socket has an id handed out already, and its delayed queue
     * stays within the cap.
     */
    predicate Valid()
      reads this
    {
      |frameLimiter| > 0 && socketcount >= 0
      && forall id :: id in sockets ==> 1 <= id <= socketcount && |sockets[id].outputbuffer| <= MaxQueued
    }

    constructor ()
      ensures Valid()
      ensures sockets == map[] && socketcount == 0 && frameLimiter == "\n" && written == [] && events == []
    {
      sockets, socketcount, frameLimiter := map[], 0, "\n";
      written, events := [], [];
    }

    /** A socket was accepted: it gets the next id, which no open socket has. */
    method OnConnection() returns (id: int)
      requires Valid()
      modifies this`socketcount, this`sockets, this`events
      ensures Valid()
      ensures id == old(socketcount) + 1 == socketcount && id !in old(sockets)
      ensures sockets == old(sockets)[id := ServerSocket(true, "", [])]
      ensures |sockets| == |old(sockets)| + 1
      ensures events == old(events) + [Connected(id)]
    {
      socketcount := socketcount + 1;
      id := socketcount;
      sockets := sockets[id := ServerSocket(true, "", [])];
      events := events + [Connected(id)];
    }

    /** Socket `id` closed: exactly its entry goes. */
    method OnClose(id: int)
      requires Valid()
      modifies this`sockets, this`events
      ensures Valid()
      ensures sockets == old(sockets) - {id}
      ensures |sockets| == if id in old(sockets) then |old(sockets)| - 1 else |old(sockets)|
      ensures events == old(events) + [Closed(id)]
    {
      sockets := sockets - {id};
      events := events + [Closed(id)];
    }

    method OnSocketError(id: int)
      modifies this`events
      ensures events == old(events) + [SocketError(id)]
    {
      events := events + [SocketError(id)];
    }

    /**
     * Socket `id` drained: its delayed messages are written first in, first
     * out, stopping right after a write the socket reports as full, with
     * the unsent ones still queued in order. `accepts(i)` is what the
     * `i`-th write of this flush returns.
     */
    method OnDrain(id: int, accepts: nat -> bool)
      requires Valid() && id in sockets
      modifies this`sockets, this`written
      ensures Valid()
      ensures var q := old(sockets)[id].outputbuffer;
        var n := Flushed(accepts, |q|);
        written == old(written) + Writes(id, q[..n])
        && sockets == old(sockets)[id := ServerSocket(FirstFull(accepts, 0, |q|) == |q|, old(sockets)[id].inputbuffer, q[n..])]
    {
      ghost var queue := sockets[id].outputbuffer;
      sockets := sockets[id := sockets[id].(drained := true)];
      var n := 0;
      while |sockets[id].outputbuffer| > 0
        invariant n <= |queue|
        invariant id in sockets && sockets == old(sockets)[id := ServerSocket(true, old(sockets)[id].inputbuffer, queue[n..])]
        invariant written == old(written) + Writes(id, queue[..n])
        invariant forall i :: 0 <= i < n ==> accepts(i)
        decreases |sockets[id].outputbuffer|
      {
        var msg := sockets[id].outputbuffer[0];
        sockets := sockets[id := sockets[id].(outputbuffer := sockets[id].outputbuffer[1..])];
        WritesSnoc(id, queue, n);
        written := written + [(id, msg)];
        if !accepts(n) {
          sockets := sockets[id := sockets[id].(drained := false)];
          return;
        }
        n := n + 1;
      }
    }

    /**
     * Data arrived on socket `id`: its complete frames are emitted in order
     * and the remainder is kept; a remainder over 1 MB is dropped with an
     * error.
     */
    method OnData(id: int, data: string)
      requires Valid() && id in sockets
      modifies this`sockets, this`events
      ensures Valid()
      ensures var r := Receive(old(sockets)[id].inputbuffer, data, frameLimiter);
        sockets == old(sockets)[id := old(sockets)[id].(inputbuffer := r.1)]
        && events == old(events) + FrameEvents(r.0, s => Frame(id, s)) + if r.2 then [InputOverflow] else []
    {
      var buffer := sockets[id].inputbuffer + data;
      sockets := sockets[id := sockets[id].(inputbuffer := buffer)];
      var messages := Split(buffer, frameLimiter);
      ghost var frames, sockets1 := messages[..|messages| - 1], sockets;
      var i := 0;
      while i < |messages| - 1
        invariant 0 <= i <= |messages| - 1 && sockets == sockets1
        invariant events == old(events) + FrameEvents(frames[..i], s => Frame(id, s))
      {
        FrameEventsSnoc(frames, i, s => Frame(id, s));
        events := events + [Frame(id, messages[i])];
        i := i + 1;
      }
      assert frames[..i] == frames;
      var rest := messages[|messages| - 1];
      if |rest| > MaxInput {
        rest := "";
        events := events + [InputOverflow];
      }
      sockets := sockets[id := sockets[id].(inputbuffer := rest)];
    }

    /**
     * Sends on socket `id`: nothing happens for an id that is not open;
     * otherwise written at once while drained (`drained` becoming what the
     * write returns), else delayed while fewer than 1024 wait, else dropped
     * with an error.
     */
    method Write(id: int, msg: string, accepted: bool)
      requires Valid()
      modifies this`sockets, this`written, this`events
      ensures Valid()
      ensures id !in old(sockets) ==> (sockets == old(sockets) && written == old(written) && events == old(events))
      ensures id in old(sockets) && old(sockets)[id].drained ==>
        (sockets == old(sockets)[id := old(sockets)[id].(drained := accepted)]
        && written == old(written) + [(id, msg)] && events == old(events))
      ensures id in old(sockets) && !old(sockets)[id].drained ==> (written == old(written)
        && if |old(sockets)[id].outputbuffer| < MaxQueued
          then sockets == old(sockets)[id := old(sockets)[id].(outputbuffer := old(sockets)[id].outputbuffer + [msg])]
            && events == old(events)
          else sockets == old(sockets) && events == old(events) + [OutputStalled(id)])
    {
      if id !in sockets {
        return;
      }
      if sockets[id].drained {
        written := written + [(id, msg)];
        if !accepted {
          sockets := sockets[id := sockets[id].(drained := false)];
        }
      } else if |sockets[id].outputbuffer| < MaxQueued {
        sockets := sockets[id := sockets[id].(outputbuffer := sockets[id].outputbuffer + [msg])];
      } else {
        events := events + [OutputStalled(id)];
      }
    }

    /** `Object.keys(sockets).length`: the number of open sockets. */
    method GetConnectionCount() returns (n: nat)
      ensures n == |sockets|
    {
      n := |sockets.Keys|;
    }
  }
}
