/**
 * The WebSocket server connection: each accepted WebSocket gets the next id
 * (1, 2, 3, ..., never reused) and an input buffer; text messages are cut
 * into frames at "\n" per socket, with no cap on the remainder, and writes
 * go only to a socket that is still open. The sockets' `send` calls are a
 * log of (socket id, message) pairs.
 */
module WsServer {
  import opened Strings
  import opened Framing

  /** An event the server emits; a server error carries its message. */
  datatype ServerEvent =
    | Connected(id: int)
    | Closed(id: int)
    | Frame(id: int, msg: string)
    | ServerError(msg: string)

  class WsServerConnection {
    /** The input buffer of each open socket. */
    var sockets: map<int, string>
    var socketcount: int
    /** The `send` calls made on the sockets so far. */
    var written: seq<(int, string)>
    /** The events emitted so far. */
    var events: seq<ServerEvent>

    /** Every open socket has an id handed out already. */
    predicate Valid()
      reads this
    {
      socketcount >= 0 && forall id :: id in sockets ==> 1 <= id <= socketcount
    }

    constructor ()
      ensures Valid()
      ensures sockets == map[] && socketcount == 0 && written == [] && events == []
    {
      sockets, socketcount := map[], 0;
      written, events := [], [];
    }

    /** A WebSocket was accepted: it gets the next id, which no open socket has. */
    method OnConnection() returns (id: int)
      requires Valid()
      modifies this`socketcount, this`sockets, this`events
      ensures Valid()
      ensures id == old(socketcount) + 1 == socketcount && id !in old(sockets)
      ensures sockets == old(sockets)[id := ""]
      ensures |sockets| == |old(sockets)| + 1
      ensures events == old(events) + [Connected(id)]
    {
      socketcount := socketcount + 1;
      id := socketcount;
      sockets := sockets[id := ""];
      events := events + [Connected(id)];
    }

    /** Socket `id` closed: exactly its entry goes. */
    method OnClose(id: int)
      requires Valid()
      modifies this`sockets, this`events
      ensures Valid()
      ensures sockets == old(sockets) - {id}
      ensures |sockets| == if id in old(sockets) then |old(sockets)| - 1 else |old(sockets)|
      ensures events == old(events) + [Closed(id)]
    {
      sockets := sockets - {id};
      events := events + [Closed(id)];
    }

    method OnError(msg: string)
      modifies this`events
      ensures events == old(events) + [ServerError(msg)]
    {
      events := events + [ServerError(msg)];
    }

    /**
     * A message arrived on socket `id`. For an open socket and text data,
     * the buffer becomes the last piece of `split("\n")` on buffer and data,
     * and the other pieces are emitted in order; otherwise nothing changes.
     */
    method OnMessage(id: int, data: string, isBinary: bool)
      requires Valid()
      modifies this`sockets, this`events
      ensures Valid()
      ensures id !in old(sockets) || isBinary ==> sockets == old(sockets) && events == old(events)
      ensures id in old(sockets) && !isBinary ==> var r := Cut(old(sockets)[id] + data, "\n");
        sockets == old(sockets)[id := r.1] && events == old(events) + FrameEvents(r.0, s => Frame(id, s))
    {
      if id !in sockets || isBinary {
        return;
      }
      var buffer := sockets[id] + data;
      sockets := sockets[id := buffer];
      var frames := Split(buffer, "\n");
      sockets := sockets[id := frames[|frames| - 1]];
      frames := frames[..|frames| - 1];
      ghost var sockets1 := sockets;
      var i := 0;
      while i < |frames|
        invariant 0 <= i <= |frames| && sockets == sockets1
        invariant events == old(events) + FrameEvents(frames[..i], s => Frame(id, s))
      {
        FrameEventsSnoc(frames, i, s => Frame(id, s));
        events := events + [Frame(id, frames[i])];
        i := i + 1;
      }
      assert frames[..i] == frames;
    }

    /** Sends on socket `id`; an id that is not open is ignored. */
    method Write(id: int, msg: string)
      modifies this`written
      ensures written == old(written) + if id in sockets then [(id, msg)] else []
    {
      if id in sockets {
        written := written + [(id, msg)];
      }
    }

    /** `Object.keys(sockets).length`: the number of open sockets. */
    method GetConnectionCount() returns (n: nat)
      ensures n == |sockets|
    {
      n := |sockets.Keys|;
    }
  }
}
