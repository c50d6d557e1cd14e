/**
 * The LW3 protocol server of src/lwserver.ts, changed in place: the root
 * node tree, the session table filled by the connect handler and emptied
 * by the close handler, and `lineRcv`, which builds each reply with
 * appends, walks paths segment by segment and pushes to or filters a
 * session's OPEN list. Each method is proved to carry out the effect
 * module `LwServerSpec` defines for it.
 */
module LwServer {
  import opened Wrappers
  import opened Strings
  import opened ServerSpec
  import opened ServerTree
  import opened LwServerSpec
  import Server
  import Escaping
  import Lw3Server

  /** `response += line + '\n'` for each line in order, from an empty response. */
  method JoinLines(lines: seq<string>) returns (r: string)
    ensures r == Concat(lines)
  {
    r := "";
    var i := 0;
    while i < |lines|
      invariant 0 <= i <= |lines| && r == Concat(lines[..i])
    {
      assert lines[..i + 1][..i] == lines[..i];
      r := r + lines[i] + "\n";
      i := i + 1;
    }
    assert lines[..|lines|] == lines;
  }

  class LwServer {
    /** `root`: the node tree behind the root proxy. */
    const root: Server.NoodleTree
    /** `sessions`, keyed by socket id. */
    var sessions: map<int, Session>
    /** Every `server.write(socketId, text)` so far, in order. */
    var written: seq<Out>

    function Snapshot(): World
      reads this, root
    {
      World(root.State(), sessions, written)
    }

    /** The tree is linked, and every OPEN entry's node exists. */
    predicate Valid()
      reads this, root
    {
      Good(Snapshot())
    }

    constructor ()
      ensures Valid() && fresh(root) && Snapshot() == World(Initial(), map[], [])
    {
      root := new Server.NoodleTree();
      sessions := map[];
      written := [];
    }

    /** The `connect` handler. */
    method Connect(socketId: int)
      requires Valid()
      modifies this`sessions
      ensures Valid() && Snapshot() == ConnectEffect(old(Snapshot()), socketId)
    {
      sessions := sessions[socketId := Session([], false)];
    }

    /** The `close` handler: `closeListener` read and called on each entry's node, then the session deleted. */
    method Disconnect(socketId: int)
      requires Valid() && socketId in sessions
      modifies this`sessions, root
      ensures Valid() && Snapshot() == DisconnectEffect(old(Snapshot()), socketId)
    {
      var ok := CallCloseListeners(sessions[socketId].opens);
      if ok {
        sessions := sessions - {socketId};
      }
    }

    /** The `forEach` over the entries; false once a call threw, which ends it. */
    method CallCloseListeners(entries: seq<Opened>) returns (ok: bool)
      requires root.Valid() && NodesIn(entries, root.State())
      modifies root
      ensures root.Valid() && (root.State(), ok) == CloseListeners(old(root.State()), entries)
    {
      ghost var f := root.State();
      ok := true;
      var i := 0;
      while i < |entries| && ok
        invariant 0 <= i <= |entries|
        invariant root.Valid() && (root.State(), ok) == CloseListeners(f, entries[..i])
      {
        ghost var prefix := entries[..i + 1];
        assert prefix[..|prefix| - 1] == entries[..i] && prefix[|prefix| - 1] == entries[i];
        CloseListenersLastCall(f, prefix);
        var a := root.Get(entries[i].node, CloseListenerKey);
        ok := a.Callable?;
        i := i + 1;
      }
      CloseListenersStop(f, entries, i);
    }

    /** `getNode(s)`: the segments after the leading `/` read as `$` keys, one by one. */
    method ResolveNode(s: string) returns (r: Resolved)
      requires root.Valid()
      modifies root
      ensures root.Valid() && root.State() == old(root.State()) && r == GetNode(root.State(), s)
    {
      ghost var f := root.State();
      var path := SplitOn(s, '/');
      if path[0] != "" {
        return Missing;
      }
      var node := NodeAt(RootId);
      var i := 1;
      while i < |path|
        invariant 1 <= i <= |path|
        invariant root.Valid() && root.State() == f
        invariant (node.NodeAt? ==> node.id in f.heap) && !node.Missing? && !node.Throws?
        invariant Walk(f, NodeAt(RootId), path[1..]) == Walk(f, node, path[i..])
      {
        assert path[i..][0] == path[i] && path[i..][1..] == path[i + 1..];
        if path[i] == "" {
          return Missing;
        }
        if node.NodeAt? {
          DollarReadKeeps(f, node.id, path[i]);
          var a := root.Get(node.id, "$" + path[i]);
          node := ToResolved(a);
        } else {
          node := Missing;
        }
        if node.Missing? || node.Throws? {
          return node;
        }
        i := i + 1;
      }
      assert path[i..] == [];
      r := node;
    }

    /** GET. */
    method GetCommand(msg: string, args: string) returns (body: Option<string>)
      requires root.Valid()
      modifies root
      ensures root.Valid() && root.State() == old(root.State()) && body == GetReply(root.State(), msg, args)
    {
      if |args| == 0 || args[0] != '/' {
        return Some(ErrorLine(msg, CodeSyntax));
      }
      ghost var f := root.State();
      var dot := IndexOfChar(args, '.');
      if dot == -1 {
        var node := ResolveNode(args);
        match node {
          case NodeAt(id) =>
            var response := JoinLines(ChildLines(args, SortedKeys(root.heap[id].nodes.Keys)));
            body := Some(response);
          case Missing =>
            body := Some(ErrorLine(msg, CodeNotFound));
          case NonNode(_) =>
            body := None;
          case Throws =>
            body := None;
        }
        assert body == GetReply(f, msg, args);
      } else {
        var node := ResolveNode(args[..dot]);
        match node {
          case NodeAt(id) =>
            body := PropertyCommand(id, msg, args, args[..dot], args[dot + 1..]);
          case Missing =>
            body := Some(ErrorLine(msg, CodeNotFound));
          case NonNode(truthy) =>
            body := if truthy then None else Some(ErrorLine(msg, CodeNotFound));
          case Throws =>
            body := None;
        }
        assert body == GetReply(f, msg, args);
      }
    }

    /** `GET path.*` and `GET path.prop` on node `id`. */
    method PropertyCommand(id: NodeId, msg: string, args: string, nodename: string, propName: string) returns (body: Option<string>)
      requires root.Valid() && id in root.heap
      ensures body == GetProperty(root.heap[id], msg, args, nodename, propName)
    {
      var n := root.heap[id];
      if propName == "*" {
        var response := JoinLines(PropertyLines(nodename, n.properties, SortedKeys(n.properties.Keys)));
        var more := JoinLines(MethodLines(nodename, SortedKeys(n.methods.Keys)));
        response := response + more;
        return Some(response);
      }
      match PropertyOf(n, propName) {
        case NoProperty =>
          body := Some(ErrorLine(msg, CodeNotFound));
        case Prop(p) =>
          body := Some("p" + RwLetter(p.rw) + " " + args + "=" + Escaping.Escape(p.value) + "\n");
        case AllProperties =>
          body := None;
      }
    }

    /** SET. */
    method SetCommand(msg: string, args: string, setter: SetterOracle) returns (body: Option<string>)
      requires root.Valid()
      modifies root
      ensures root.Valid() && (root.State(), body) == SetReply(old(root.State()), msg, args, setter)
    {
      var dot := IndexOfChar(args, '.');
      var eq := IndexOfChar(args, '=');
      if dot == -1 || eq == -1 {
        return Some(ErrorLine(msg, CodeSyntax));
      }
      var node := ResolveNode(args[..dot]);
      var propName := Substring(args, dot + 1, eq);
      match node {
        case NodeAt(id) =>
          body := AssignCommand(id, msg, args, propName, eq, setter);
        case Missing =>
          body := Some(ErrorLine(msg, CodeNotFound));
        case NonNode(truthy) =>
          body := if truthy then None else Some(ErrorLine(msg, CodeNotFound));
        case Throws =>
          body := None;
      }
    }

    /** SET on node `id`: the checks, the assignment through the proxy, and the property read back. */
    method AssignCommand(id: NodeId, msg: string, args: string, propName: string, eq: nat, setter: SetterOracle) returns (body: Option<string>)
      requires root.Valid() && id in root.heap && eq < |args|
      modifies root
      ensures root.Valid() && (root.State(), body) == Assign(old(root.State()), id, msg, args, propName, eq, setter)
    {
      var lookup := PropertyOf(root.heap[id], propName);
      if lookup.NoProperty? {
        return Some(ErrorLine(msg, CodeNotFound));
      }
      if (lookup.Prop? && !lookup.p.rw) || (lookup.AllProperties? && "rw" !in root.heap[id].properties) {
        return Some(ErrorLine(msg, CodeAccessDenied));
      }
      var outcome := root.Set(id, propName + "__prop__", Str(Escaping.Unescape(args[eq + 1..])), setter);
      if outcome != Assigned(true) {
        return None;
      }
      var after := PropertyOf(root.heap[id], propName);
      if after.Prop? {
        body := Some("p" + RwLetter(after.p.rw) + " " + args[..eq] + "=" + Escaping.Escape(after.p.value) + "\n");
      } else {
        body := None;
      }
    }

    /** CALL. */
    method CallCommand(msg: string, args: string, invoke: Invoker) returns (body: Option<string>)
      requires root.Valid()
      modifies root
      ensures root.Valid() && (root.State(), body) == CallReply(old(root.State()), msg, args, invoke)
    {
      var colon := IndexOfChar(args, ':');
      var bracket := IndexOfChar(args, '(');
      if colon == -1 || bracket <= colon || args[|args| - 1] != ')' {
        return Some(ErrorLine(msg, CodeSyntax));
      }
      body := CallPath(msg, args, colon, bracket, invoke);
    }

    /** CALL `path:method(arguments)` once the syntax is known to be right. */
    method CallPath(msg: string, args: string, colon: nat, bracket: nat, invoke: Invoker) returns (body: Option<string>)
      requires root.Valid() && colon == IndexOfChar(args, ':') && bracket == IndexOfChar(args, '(')
      requires colon < bracket && args[|args| - 1] == ')'
      modifies root
      ensures root.Valid() && (root.State(), body) == CallReply(old(root.State()), msg, args, invoke)
    {
      ghost var f := root.State();
      assert args[bracket] == '(' && bracket < |args| - 1;
      var node := ResolveNode(args[..colon]);
      assert node == GetNode(f, args[..colon]);
      match node {
        case NodeAt(id) =>
          body := InvokeCommand(id, msg, args, colon, bracket, invoke);
        case Missing =>
          body := Some(ErrorLine(msg, CodeNotFound));
        case NonNode(truthy) =>
          body := if truthy then None else Some(ErrorLine(msg, CodeNotFound));
        case Throws =>
          body := None;
      }
    }

    /** The method read from node `id` through the proxy and called with the converted arguments. */
    method InvokeCommand(id: NodeId, msg: string, args: string, colon: nat, bracket: nat, invoke: Invoker) returns (body: Option<string>)
      requires root.Valid() && id in root.heap && colon < bracket < |args| - 1
      modifies root
      ensures root.Valid() && (root.State(), body) == Invoke(old(root.State()), id, msg, args, colon, bracket, invoke)
    {
      var name := args[colon + 1..bracket];
      var arguments := Arguments(args[bracket + 1..|args| - 1]);
      if name !in root.heap[id].methods {
        return Some(ErrorLine(msg, CodeNotFound));
      }
      SuffixNotSpecial(name, "__method__");
      var a := root.Get(id, name + "__method__");
      var main := ParseKey(name + "__method__").main;
      var outcome: CallOutcome;
      if !a.Callable? {
        outcome := Threw(0, NotCallable);
      } else if main in root.heap[id].methods && root.heap[id].methods[main].fun {
        outcome := invoke(id, main, arguments);
      } else {
        outcome := Returned(false, "");
      }
      body := Some(CallLine(args[..bracket], outcome));
    }

    /** MAN. */
    method ManCommand(msg: string, args: string) returns (body: Option<string>)
      requires root.Valid()
      modifies root
      ensures root.Valid() && (root.State(), body) == ManReply(old(root.State()), msg, args)
    {
      if |args| == 0 || args[0] != '/' {
        return Some(ErrorLine(msg, CodeSyntax));
      }
      ghost var f := root.State();
      var dot := IndexOfChar(args, '.');
      if dot == -1 {
        body := MethodManCommand(msg, args);
      } else {
        var node := ResolveNode(args[..dot]);
        assert node == GetNode(f, args[..dot]);
        match node {
          case NodeAt(id) =>
            body := ManualsCommand(id, msg, args, args[..dot], args[dot + 1..]);
          case Missing =>
            body := Some(ErrorLine(msg, CodeNotFound));
          case NonNode(truthy) =>
            body := if truthy then None else Some(ErrorLine(msg, CodeNotFound));
          case Throws =>
            body := None;
        }
      }
    }

    /** MAN `path:method`, for `args` without a `.`. */
    method MethodManCommand(msg: string, args: string) returns (body: Option<string>)
      requires root.Valid() && |args| > 0 && args[0] == '/' && '.' !in args
      modifies root
      ensures root.Valid() && (root.State(), body) == ManReply(old(root.State()), msg, args)
    {
      ghost var f := root.State();
      var colon := IndexOfChar(args, ':');
      if colon == -1 {
        return Some(ErrorLine(msg, CodeSyntax));
      }
      var node := ResolveNode(args[..colon]);
      assert node == GetNode(f, args[..colon]);
      match node {
        case NodeAt(id) =>
          body := MethodManualCommand(id, args, args[colon + 1..]);
        case Missing =>
          body := Some(ErrorLine(msg, CodeNotFound));
        case NonNode(truthy) =>
          body := Some(if truthy then "mm " + args + "=undefined\n" else ErrorLine(msg, CodeNotFound));
        case Throws =>
          body := None;
      }
    }

    /** `'mm ' + args + '=' + node[name + '__method__man__']`. */
    method MethodManualCommand(id: NodeId, args: string, name: string) returns (line: Option<string>)
      requires root.Valid() && id in root.heap
      modifies root
      ensures root.Valid() && (root.State(), line) == MethodManual(old(root.State()), id, args, name)
    {
      SuffixNotSpecial(name, "__method__man__");
      var a := root.Get(id, name + "__method__man__");
      var text := AccessText(a);
      line := if text.Some? then Some("mm " + args + "=" + text.value + "\n") else None;
    }

    /** `MAN path.*` and `MAN path.prop` on node `id`. */
    method ManualsCommand(id: NodeId, msg: string, args: string, nodename: string, propName: string) returns (body: Option<string>)
      requires root.Valid() && id in root.heap
      modifies root
      ensures root.Valid() && (root.State(), body) == Manuals(old(root.State()), id, msg, args, nodename, propName)
    {
      var n := root.heap[id];
      if propName != "*" {
        match PropertyOf(n, propName) {
          case NoProperty =>
            body := Some(ErrorLine(msg, CodeNotFound));
          case Prop(p) =>
            body := Some("pm " + args + "=" + Escaping.Escape(p.manual) + "\n");
          case AllProperties =>
            body := None;
        }
        return;
      }
      var head := JoinLines(ManualLines(nodename, n.properties, SortedKeys(n.properties.Keys)));
      var tail := MethodManualsCommand(id, nodename, SortedKeys(n.methods.Keys));
      body := if tail.Some? then Some(head + tail.value) else None;
    }

    /** The `mm` lines for the methods `names` of node `id`, read one after the other; `None` once a read throws. */
    method MethodManualsCommand(id: NodeId, nodename: string, names: seq<string>) returns (acc: Option<string>)
      requires root.Valid() && id in root.heap
      modifies root
      ensures root.Valid() && (root.State(), acc) == MethodManuals(old(root.State()), id, nodename, names)
    {
      ghost var f := root.State();
      acc := Some("");
      var i := 0;
      while i < |names| && acc.Some?
        invariant 0 <= i <= |names|
        invariant root.Valid() && (root.State(), acc) == MethodManuals(f, id, nodename, names[..i])
      {
        assert names[..i + 1][..i] == names[..i];
        ghost var g := root.State();
        var line := MethodManualCommand(id, nodename + ":" + names[i], names[i]);
        acc := if line.Some? then Some(acc.value + line.value) else None;
        assert (root.State(), acc) == MethodManuals(f, id, nodename, names[..i + 1]);
        i := i + 1;
      }
      MethodManualsStop(f, id, nodename, names, i);
    }

    /** OPEN with the session's entries `opens`: its list, or a change writer subscribed to the node and recorded. */
    method OpenCommand(opens: seq<Opened>, socketId: int, msg: string, args: string) returns (opens': seq<Opened>, body: Option<string>)
      requires root.Valid() && NodesIn(opens, root.State())
      modifies root
      ensures root.Valid() && Result(root.State(), opens', body) == OpenReply(old(root.State()), opens, socketId, msg, args)
    {
      opens' := opens;
      if args == "" {
        var response := JoinLines(OpenedLines(opens));
        return opens, Some(response);
      }
      if args[0] != '/' {
        return opens, Some(ErrorLine(msg, CodeSyntax));
      }
      var node := ResolveNode(args);
      if node.Missing? {
        return opens, Some("oE " + args + " " + Lw3Server.ErrorHeader(CodeNotFound) + "\n");
      }
      if node.Throws? {
        return opens, None;
      }
      if IsOpen(opens, args) {
        return opens, Some("oE " + args + " " + Lw3Server.ErrorHeader(CodeAlreadyExists) + "\n");
      }
      if node.NonNode? {
        return opens, None;
      }
      var sid := root.On(node.id, "", ChgWriter(socketId), false);
      opens' := opens + [Opened(node.id, args, sid)];
      body := Some("o- " + args + "\n");
    }

    /** CLOSE with the session's entries `opens`: the entries opened by the path filtered out, each one's listener removed. */
    method CloseCommand(opens: seq<Opened>, args: string) returns (opens': seq<Opened>, body: Option<string>)
      requires root.Valid() && NodesIn(opens, root.State())
      modifies root
      ensures root.Valid() && Result(root.State(), opens', body) == CloseReply(old(root.State()), opens, args)
    {
      if !IsOpen(opens, args) {
        return opens, Some("cE " + args + " " + Lw3Server.ErrorHeader(CodeNotFound) + "\n");
      }
      ghost var f := root.State();
      opens' := [];
      var i := 0;
      while i < |opens|
        invariant 0 <= i <= |opens|
        invariant root.Valid() && root.State() == Unsubscribe(f, opens[..i], args)
        invariant opens' == Without(opens[..i], args)
      {
        assert opens[..i + 1][..i] == opens[..i];
        if opens[i].path == args {
          root.Off(opens[i].node, ById(opens[i].subscriptionId));
        } else {
          opens' := opens' + [opens[i]];
        }
        i := i + 1;
      }
      assert opens[..i] == opens;
      body := Some("c- " + args + "\n");
    }

    /** The `do … while (false)` block of `lineRcv` with the session's entries `opens`. */
    method Execute(opens: seq<Opened>, socketId: int, msg: string, setter: SetterOracle, invoke: Invoker) returns (opens': seq<Opened>, body: Option<string>)
      requires root.Valid() && NodesIn(opens, root.State())
      modifies root
      ensures root.Valid() && Result(root.State(), opens', body) == Dispatch(old(root.State()), opens, socketId, msg, setter, invoke)
    {
      var firstSpace := IndexOfChar(msg, ' ');
      var command, args := msg, "";
      if firstSpace != -1 {
        command, args := msg[..firstSpace], msg[firstSpace + 1..];
      }
      assert (command, args) == Command(msg);
      opens' := opens;
      if command == "GET" {
        body := GetCommand(msg, args);
      } else if command == "SET" {
        body := SetCommand(msg, args, setter);
      } else if command == "CALL" {
        body := CallCommand(msg, args, invoke);
      } else if command == "MAN" {
        body := ManCommand(msg, args);
      } else if command == "OPEN" {
        opens', body := OpenCommand(opens, socketId, msg, args);
      } else if command == "CLOSE" {
        opens', body := CloseCommand(opens, args);
      } else {
        body := Some(ErrorLine(msg, CodeSyntax));
      }
    }

    /**
     * `lineRcv(socketId, msg)`: the signature taken off, the command
     * carried out, the `CHG` lines of this socket's and other sockets'
     * change writers written as they fired, then the reply.
     */
    method LineRcv(socketId: int, msg: string, setter: SetterOracle, invoke: Invoker)
      requires Valid() && socketId in sessions
      modifies this`sessions, this`written, root
      ensures Valid() && Snapshot() == LineEffect(old(Snapshot()), socketId, msg, setter, invoke)
    {
      ghost var w := Snapshot();
      var text := if Lw3Server.Signed(msg) then msg[5..] else msg;
      var logged := |root.fired|;
      var opens, body := Execute(sessions[socketId].opens, socketId, text, setter, invoke);
      ghost var res := Dispatch(w.f, w.sessions[socketId].opens, socketId, text, setter, invoke);
      assert root.State() == res.f && opens == res.opens && body == res.body;
      sessions := sessions[socketId := sessions[socketId].(opens := opens)];
      written := written + ChgOuts(root.fired[logged..]);
      if body.Some? {
        var response := body.value;
        if Lw3Server.Signed(msg) {
          response := "{" + msg[..4] + "\n" + response + "}\n";
        }
        assert response == Framed(msg, body.value);
        written := written + [Reply(socketId, response)];
      }
      assert Snapshot() == LineEffect(w, socketId, msg, setter, invoke);
    }
  }
}
