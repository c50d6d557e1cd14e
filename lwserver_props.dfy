/**
 * What the LW3 server of src/lwserver.ts promises, stated over the effects
 * of module `LwServerSpec`: how `getNode` resolves paths, the syntax
 * errors, what SET and CALL do to an existing node, OPEN and CLOSE as
 * inverses, what a line writes, and what the close handler leaves behind.
 */
module LwServerProps {
  import opened Wrappers
  import opened Strings
  import opened ServerSpec
  import opened ServerTree
  import opened LwServerSpec
  import Lw3Server
  import Escaping

  // ---------------------------------------------------------------------
  // getNode
  // ---------------------------------------------------------------------

  /** `getNode('')` is the root itself. */
  lemma GetNodeEmpty(f: Forest)
    requires Linked(f) && RootId in f.heap
    ensures GetNode(f, "") == NodeAt(RootId)
  {
    SplitOnAbsent("", '/');
  }

  /** `getNode('/')` is `undefined`: the piece after the slash is empty. */
  lemma GetNodeSlash(f: Forest)
    requires Linked(f) && RootId in f.heap
    ensures GetNode(f, "/") == Missing
  {
    SplitOnTrailing("", '/');
    assert "" + ['/'] == "/";
  }

  /** A path that does not start with `/` names nothing. */
  lemma GetNodeRelative(f: Forest, s: string)
    requires Linked(f) && RootId in f.heap && |s| > 0 && s[0] != '/'
    ensures GetNode(f, s) == Missing
  {
    SplitOnFirstPiece(s, '/');
  }

  /** An empty segment anywhere on the way means no node is reached. */
  lemma {:induction false} WalkEmptySegment(f: Forest, at: Resolved, segs: seq<string>, j: nat)
    requires Linked(f) && (at.NodeAt? ==> at.id in f.heap) && j < |segs| && segs[j] == ""
    ensures !Walk(f, at, segs).NodeAt?
    decreases |segs|
  {
    if segs[0] != "" {
      var next := Step(f, at, segs[0]);
      if !(next.Missing? || next.Throws?) {
        WalkEmptySegment(f, next, segs[1..], j - 1);
      }
    }
  }

  /** A path with a trailing `/` never names a node. */
  lemma GetNodeTrailingSlash(f: Forest, s: string)
    requires Linked(f) && RootId in f.heap
    ensures !GetNode(f, s + "/").NodeAt?
  {
    var path := SplitOn(s, '/');
    SplitOnAppend(s, "", '/');
    assert s + ['/'] + "" == s + "/";
    var path' := path + [""];
    if path'[0] == "" {
      assert path'[1..] == path[1..] + [""];
      WalkEmptySegment(f, NodeAt(RootId), path'[1..], |path| - 1);
    }
  }

  /** One more segment after a node is the `$` lookup of that segment on it. */
  lemma {:induction false} WalkSnoc(f: Forest, at: Resolved, segs: seq<string>, x: string)
    requires Linked(f) && (at.NodeAt? ==> at.id in f.heap) && x != ""
    requires Walk(f, at, segs).NodeAt?
    ensures Walk(f, at, segs + [x]) == Lookup(f, Walk(f, at, segs).id, x)
    decreases |segs|
  {
    if |segs| == 0 {
      assert segs + [x] == [x] && [x][1..] == [];
    } else {
      assert (segs + [x])[0] == segs[0] && (segs + [x])[1..] == segs[1..] + [x];
      var next := Step(f, at, segs[0]);
      WalkSnoc(f, next, segs[1..], x);
    }
  }

  /** `$name` on a node with a child called `name` (without `__`) reaches that child. */
  lemma LookupChild(f: Forest, id: NodeId, name: string)
    requires Linked(f) && id in f.heap && name in f.heap[id].nodes && IndexOf(name, "__") == -1
    ensures Lookup(f, id, name) == NodeAt(f.heap[id].nodes[name])
  {
    var raw := "$" + name;
    assert raw[0] == '$' && raw[1..] == name;
    assert Split(name, "__") == [name];
  }

  /** `getNode(s + '/' + name)` is the child `name` of the node `getNode(s)`. */
  lemma GetNodeChild(f: Forest, s: string, name: string)
    requires Linked(f) && RootId in f.heap && GetNode(f, s).NodeAt?
    requires name in f.heap[GetNode(f, s).id].nodes && name != "" && '/' !in name && IndexOf(name, "__") == -1
    ensures GetNode(f, s + "/" + name) == NodeAt(f.heap[GetNode(f, s).id].nodes[name])
  {
    var path := SplitOn(s, '/');
    SplitOnAppend(s, name, '/');
    assert s + ['/'] + name == s + "/" + name;
    assert (path + [name])[1..] == path[1..] + [name];
    WalkSnoc(f, NodeAt(RootId), path[1..], name);
    LookupChild(f, GetNode(f, s).id, name);
  }

  // ---------------------------------------------------------------------
  // Trees of the same shape resolve paths alike
  // ---------------------------------------------------------------------

  /** Two trees agree on every node's children, properties and methods; subscribers may differ. */
  predicate SameShape(f: Forest, g: Forest) {
    f.heap.Keys == g.heap.Keys
    && forall id :: id in f.heap ==>
      g.heap[id].nodes == f.heap[id].nodes && g.heap[id].properties == f.heap[id].properties
      && g.heap[id].methods == f.heap[id].methods
  }

  lemma LookupShape(f: Forest, g: Forest, id: NodeId, seg: string)
    requires Linked(f) && Linked(g) && SameShape(f, g) && id in f.heap
    ensures Lookup(f, id, seg) == Lookup(g, id, seg)
  {
    DollarNotSpecial(seg);
    assert GetPlanOf(f.heap[id], "$" + seg) == GetPlanOf(g.heap[id], "$" + seg);
  }

  lemma {:induction false} WalkShape(f: Forest, g: Forest, at: Resolved, segs: seq<string>)
    requires Linked(f) && Linked(g) && SameShape(f, g) && (at.NodeAt? ==> at.id in f.heap)
    ensures Walk(f, at, segs) == Walk(g, at, segs)
    decreases |segs|
  {
    if |segs| > 0 && segs[0] != "" {
      if at.NodeAt? {
        LookupShape(f, g, at.id, segs[0]);
      }
      var next := Step(f, at, segs[0]);
      if !(next.Missing? || next.Throws?) {
        WalkShape(f, g, next, segs[1..]);
      }
    }
  }

  /** `getNode` reads only children, properties and methods. */
  lemma GetNodeShape(f: Forest, g: Forest, s: string)
    requires Linked(f) && Linked(g) && RootId in f.heap && SameShape(f, g)
    ensures GetNode(f, s) == GetNode(g, s)
  {
    WalkShape(f, g, NodeAt(RootId), SplitOn(s, '/')[1..]);
  }

  /** `on` changes only the subscribers and counter of one node. */
  lemma OnShape(f: Forest, id: NodeId, condition: string, callback: Callback, once: bool)
    requires Linked(f) && id in f.heap
    ensures SameShape(f, OnEffect(f, id, condition, callback, once).0)
  {
  }

  /** Removing listeners changes only subscribers. */
  lemma {:induction false} UnsubscribeShape(f: Forest, opens: seq<Opened>, path: string)
    requires Linked(f) && NodesIn(opens, f)
    ensures SameShape(f, Unsubscribe(f, opens, path))
    decreases |opens|
  {
    if |opens| > 0 {
      var prefix := opens[..|opens| - 1];
      assert NodesIn(prefix, f);
      UnsubscribeShape(f, prefix, path);
    }
  }

  // ---------------------------------------------------------------------
  // OPEN and CLOSE
  // ---------------------------------------------------------------------

  lemma {:induction false} UnsubscribeNone(f: Forest, opens: seq<Opened>, path: string)
    requires Linked(f) && NodesIn(opens, f) && !IsOpen(opens, path)
    ensures Unsubscribe(f, opens, path) == f
    decreases |opens|
  {
    if |opens| > 0 {
      var prefix := opens[..|opens| - 1];
      assert NodesIn(prefix, f) && !IsOpen(prefix, path);
      UnsubscribeNone(f, prefix, path);
    }
  }

  lemma {:induction false} WithoutNone(opens: seq<Opened>, path: string)
    requires !IsOpen(opens, path)
    ensures Without(opens, path) == opens
    decreases |opens|
  {
    if |opens| > 0 {
      var prefix := opens[..|opens| - 1];
      assert !IsOpen(prefix, path);
      WithoutNone(prefix, path);
    }
  }

  /** Every entry not opened by `path` stays. */
  lemma {:induction false} WithoutKeeps(opens: seq<Opened>, path: string)
    ensures forall e :: e in opens && e.path != path ==> e in Without(opens, path)
    decreases |opens|
  {
    if |opens| > 0 {
      var prefix := opens[..|opens| - 1];
      WithoutKeeps(prefix, path);
      assert opens == prefix + [opens[|opens| - 1]];
    }
  }

  /**
   * OPEN of a path that names a node and is not yet open in this session:
   * a change writer for the socket is appended to the node's subscribers
   * with the node's next subscription id, and recorded as an entry.
   */
  lemma OpenSubscribes(f: Forest, opens: seq<Opened>, socketId: int, msg: string, path: string)
    requires Linked(f) && RootId in f.heap && NodesIn(opens, f)
    requires path != "" && path[0] == '/' && GetNode(f, path).NodeAt? && !IsOpen(opens, path)
    ensures var id := GetNode(f, path).id;
      var sid := f.heap[id].subscriptionIdCounter + 1;
      var r := OpenReply(f, opens, socketId, msg, path);
      r.body == Some("o- " + path + "\n") && r.opens == opens + [Opened(id, path, sid)] && IsOpen(r.opens, path)
      && r.f.heap[id].subscribers == f.heap[id].subscribers + [Sub("", "", sid, -1, ChgWriter(socketId))]
      && SameShape(f, r.f)
  {
    var id := GetNode(f, path).id;
    OnShape(f, id, "", ChgWriter(socketId), false);
    var r := OpenReply(f, opens, socketId, msg, path);
    assert r.opens[|opens|].path == path;
  }

  /** A second OPEN of the same path is refused with %E003 and changes nothing. */
  lemma OpenTwice(f: Forest, opens: seq<Opened>, socketId: int, msg: string, msg': string, path: string)
    requires Linked(f) && RootId in f.heap && NodesIn(opens, f)
    requires path != "" && path[0] == '/' && GetNode(f, path).NodeAt? && !IsOpen(opens, path)
    ensures var r := OpenReply(f, opens, socketId, msg, path);
      OpenReply(r.f, r.opens, socketId, msg', path)
        == Result(r.f, r.opens, Some("oE " + path + " " + Lw3Server.ErrorHeader(CodeAlreadyExists) + "\n"))
  {
    OpenSubscribes(f, opens, socketId, msg, path);
    var r := OpenReply(f, opens, socketId, msg, path);
    GetNodeShape(f, r.f, path);
  }

  /**
   * OPEN then CLOSE of the same path gives back the session's entries and
   * the node's subscribers as they were, and replies `o-` then `c-`.
   */
  lemma OpenThenClose(f: Forest, opens: seq<Opened>, socketId: int, msg: string, path: string)
    requires Linked(f) && RootId in f.heap && NodesIn(opens, f)
    requires path != "" && path[0] == '/' && GetNode(f, path).NodeAt? && !IsOpen(opens, path)
    requires IdsIssued(f.heap[GetNode(f, path).id])
    ensures var id := GetNode(f, path).id;
      var r := OpenReply(f, opens, socketId, msg, path);
      var q := CloseReply(r.f, r.opens, path);
      r.body == Some("o- " + path + "\n") && q.body == Some("c- " + path + "\n")
      && q.opens == opens && q.f.heap[id].subscribers == f.heap[id].subscribers && SameShape(f, q.f)
  {
    var id := GetNode(f, path).id;
    OpenSubscribes(f, opens, socketId, msg, path);
    var (g, sid) := OnEffect(f, id, "", ChgWriter(socketId), false);
    var r := OpenReply(f, opens, socketId, msg, path);
    var e := Opened(id, path, sid);
    assert r.opens == opens + [e] && r.f == g;
    assert NodesIn(opens, g);
    assert r.opens[..|opens|] == opens;
    UnsubscribeNone(g, opens, path);
    WithoutNone(opens, path);
    assert Unsubscribe(g, r.opens, path) == OffEffect(g, id, ById(sid));
    OnThenOff(f, id, "", ChgWriter(socketId), false);
    UnsubscribeShape(g, r.opens, path);
  }

  /**
   * CLOSE of an open path drops every entry of that path, keeps every other
   * entry, and changes only subscribers; CLOSE of any other path replies
   * %E002 and changes nothing.
   */
  lemma CloseForgets(f: Forest, opens: seq<Opened>, path: string)
    requires Linked(f) && RootId in f.heap && NodesIn(opens, f)
    ensures var r := CloseReply(f, opens, path);
      !IsOpen(r.opens, path) && (forall e :: e in opens && e.path != path ==> e in r.opens) && SameShape(f, r.f)
    ensures var r := CloseReply(f, opens, path);
      IsOpen(opens, path) ==> r.body == Some("c- " + path + "\n")
    ensures !IsOpen(opens, path) ==>
      CloseReply(f, opens, path) == Result(f, opens, Some("cE " + path + " " + Lw3Server.ErrorHeader(CodeNotFound) + "\n"))
  {
    if IsOpen(opens, path) {
      UnsubscribeShape(f, opens, path);
      WithoutKeeps(opens, path);
    }
  }

  // ---------------------------------------------------------------------
  // Syntax errors
  // ---------------------------------------------------------------------

  /**
   * An unknown command word, a GET or MAN path without a leading `/`, an
   * OPEN argument not starting with `/`, a SET without `.` or `=`, a CALL
   * without `:`, without a `(` after it or without a final `)`, and a MAN
   * with neither `.` nor `:`, are answered `-E <line> %E001:Syntax error`
   * and change nothing.
   */
  lemma SyntaxErrors(f: Forest, opens: seq<Opened>, socketId: int, msg: string, setter: SetterOracle, invoke: Invoker)
    requires Linked(f) && RootId in f.heap && NodesIn(opens, f)
    requires var (command, args) := Command(msg);
      command !in {"GET", "SET", "CALL", "MAN", "OPEN", "CLOSE"}
      || ((command == "GET" || command == "MAN") && (args == "" || args[0] != '/'))
      || (command == "OPEN" && args != "" && args[0] != '/')
      || (command == "SET" && ('.' !in args || '=' !in args))
      || (command == "CALL" && (':' !in args || '(' !in args || IndexOfChar(args, '(') < IndexOfChar(args, ':') || args[|args| - 1] != ')'))
      || (command == "MAN" && args != "" && args[0] == '/' && '.' !in args && ':' !in args)
    ensures Dispatch(f, opens, socketId, msg, setter, invoke) == Result(f, opens, Some("-E " + msg + " %E001:Syntax error\n"))
  {
    var (command, args) := Command(msg);
    SyntaxLine(msg);
    if command == "GET" {
      assert GetReply(f, msg, args) == Some(ErrorLine(msg, CodeSyntax));
    } else if command == "SET" {
      assert SetReply(f, msg, args, setter) == (f, Some(ErrorLine(msg, CodeSyntax)));
    } else if command == "CALL" {
      assert CallReply(f, msg, args, invoke) == (f, Some(ErrorLine(msg, CodeSyntax)));
    } else if command == "MAN" {
      assert ManReply(f, msg, args) == (f, Some(ErrorLine(msg, CodeSyntax)));
    } else if command == "OPEN" {
      assert OpenReply(f, opens, socketId, msg, args) == Result(f, opens, Some(ErrorLine(msg, CodeSyntax)));
    }
  }

  /** The syntax error line for a received line. */
  lemma SyntaxLine(msg: string)
    ensures ErrorLine(msg, CodeSyntax) == "-E " + msg + " %E001:Syntax error\n"
  {
    Lw3Server.SyntaxHeader();
  }

  // ---------------------------------------------------------------------
  // GET
  // ---------------------------------------------------------------------

  /** GET of a node lists its children, sorted, as `n- path/child` lines (nothing for a leaf). */
  lemma GetListsChildren(f: Forest, msg: string, path: string)
    requires Linked(f) && RootId in f.heap
    requires path != "" && path[0] == '/' && '.' !in path && GetNode(f, path).NodeAt?
    ensures var names := SortedKeys(f.heap[GetNode(f, path).id].nodes.Keys);
      GetReply(f, msg, path) == Some(Concat(ChildLines(path, names)))
      && forall i :: 0 <= i < |names| ==> ChildLines(path, names)[i] == "n- " + path + "/" + names[i]
  {
  }

  /** Where the `.` of `path.rest` is, and the pieces around it. */
  lemma DotArgs(args: string, path: string, rest: string)
    requires args == path + "." + rest && '.' !in path
    ensures IndexOfChar(args, '.') == |path| && args[..|path|] == path && args[|path| + 1..] == rest
  {
    assert args[..|path|] == path;
    IndexOfCharAt(args, '.', |path|);
  }

  /** GET `path.rest` on a path that names a node goes on to the node's properties. */
  lemma GetPropertyAt(f: Forest, msg: string, args: string, path: string, rest: string, id: NodeId)
    requires Linked(f) && RootId in f.heap
    requires args == path + "." + rest && path != "" && path[0] == '/' && '.' !in path && GetNode(f, path) == NodeAt(id)
    ensures GetReply(f, msg, args) == GetProperty(f.heap[id], msg, args, path, rest)
  {
    DotArgs(args, path, rest);
    assert args[0] == '/';
  }

  /**
   * GET of one property replies `pw` or `pr` after its rw flag, the
   * property and its value escaped: the same line GET `path.*` lists
   * for it.
   */
  lemma GetReadsProperty(f: Forest, msg: string, path: string, prop: string)
    requires Linked(f) && RootId in f.heap
    requires path != "" && path[0] == '/' && '.' !in path && GetNode(f, path).NodeAt?
    requires prop != "" && prop != "*" && prop in f.heap[GetNode(f, path).id].properties
    ensures var p := f.heap[GetNode(f, path).id].properties[prop];
      GetReply(f, msg, path + "." + prop) == Some(PropertyLine(path, prop, p) + "\n")
      && PropertyLine(path, prop, p)[..2] == (if p.rw then "pw" else "pr")
  {
    var id := GetNode(f, path).id;
    var args := path + "." + prop;
    GetPropertyAt(f, msg, args, path, prop, id);
    ReadProperty(f.heap[id], msg, args, path, prop);
  }

  /** The reply line for a property that exists, with `args` written `path.prop`. */
  lemma ReadProperty(n: Node, msg: string, args: string, path: string, prop: string)
    requires args == path + "." + prop && prop != "" && prop != "*" && prop in n.properties
    ensures GetProperty(n, msg, args, path, prop) == Some(PropertyLine(path, prop, n.properties[prop]) + "\n")
    ensures PropertyLine(path, prop, n.properties[prop])[..2] == (if n.properties[prop].rw then "pw" else "pr")
  {
    var p := n.properties[prop];
    Regroup("p" + RwLetter(p.rw) + " ", path, ".", prop);
  }

  /** GET of a name that is not a property of the node is %E002. */
  lemma GetMissingProperty(f: Forest, msg: string, path: string, prop: string)
    requires Linked(f) && RootId in f.heap
    requires path != "" && path[0] == '/' && '.' !in path && GetNode(f, path).NodeAt?
    requires prop != "" && prop != "*" && prop !in f.heap[GetNode(f, path).id].properties
    ensures GetReply(f, msg, path + "." + prop) == Some(ErrorLine(msg, CodeNotFound))
  {
    GetPropertyAt(f, msg, path + "." + prop, path, prop, GetNode(f, path).id);
  }

  /**
   * GET `path.*` lists the node's properties sorted by name, then its
   * methods sorted by name.
   */
  lemma GetListsMembers(f: Forest, msg: string, path: string)
    requires Linked(f) && RootId in f.heap
    requires path != "" && path[0] == '/' && '.' !in path && GetNode(f, path).NodeAt?
    ensures var n := f.heap[GetNode(f, path).id];
      GetReply(f, msg, path + ".*")
        == Some(Concat(PropertyLines(path, n.properties, SortedKeys(n.properties.Keys)))
          + Concat(MethodLines(path, SortedKeys(n.methods.Keys))))
  {
    GetPropertyAt(f, msg, path + ".*", path, "*", GetNode(f, path).id);
  }

  // ---------------------------------------------------------------------
  // SET
  // ---------------------------------------------------------------------

  /** Where the `.` and the `=` of `path.prop=value` are, and the pieces SET cuts out. */
  lemma SetArgs(args: string, path: string, prop: string, value: string)
    requires args == path + "." + prop + "=" + value
    requires '.' !in path && '=' !in path && '=' !in prop
    ensures IndexOfChar(args, '.') == |path| && IndexOfChar(args, '=') == |path| + 1 + |prop|
    ensures args[..|path|] == path && Substring(args, |path| + 1, |path| + 1 + |prop|) == prop
    ensures args[..|path| + 1 + |prop|] == path + "." + prop && args[|path| + 2 + |prop|..] == value
  {
    assert args[..|path|] == path;
    IndexOfCharAt(args, '.', |path|);
    assert args[..|path| + 1 + |prop|] == path + "." + prop;
    IndexOfCharAt(args, '=', |path| + 1 + |prop|);
  }

  /** SET of a property the node does not have is %E002; of a read-only one %E007; neither changes anything. */
  lemma SetRefused(f: Forest, msg: string, path: string, prop: string, value: string, setter: SetterOracle)
    requires Linked(f) && RootId in f.heap
    requires '.' !in path && '=' !in path && '=' !in prop && prop != "" && GetNode(f, path).NodeAt?
    ensures var n := f.heap[GetNode(f, path).id];
      var r := SetReply(f, msg, path + "." + prop + "=" + value, setter);
      (prop !in n.properties ==> r == (f, Some(ErrorLine(msg, CodeNotFound))))
      && (prop in n.properties && !n.properties[prop].rw ==> r == (f, Some(ErrorLine(msg, CodeAccessDenied))))
  {
    SetReplyAt(f, msg, path + "." + prop + "=" + value, path, prop, value, setter, GetNode(f, path).id, |path| + 1 + |prop|);
  }

  /** SET on a path that names a node goes on to the node's property. */
  lemma SetReplyNode(f: Forest, msg: string, args: string, setter: SetterOracle, id: NodeId, path: string, prop: string, eq: nat)
    requires Linked(f) && RootId in f.heap
    requires IndexOfChar(args, '.') == |path| && IndexOfChar(args, '=') == eq && |path| < eq
    requires Substring(args, |path| + 1, eq) == prop && args[..|path|] == path && GetNode(f, path) == NodeAt(id)
    ensures SetReply(f, msg, args, setter) == Assign(f, id, msg, args, prop, eq, setter)
  {
  }

  /** SET `path.prop=value` on a path that names a node goes on to the node's property. */
  lemma SetReplyAt(f: Forest, msg: string, args: string, path: string, prop: string, value: string, setter: SetterOracle,
                   id: NodeId, eq: nat)
    requires Linked(f) && RootId in f.heap
    requires args == path + "." + prop + "=" + value && eq == |path| + 1 + |prop|
    requires '.' !in path && '=' !in path && '=' !in prop && GetNode(f, path) == NodeAt(id)
    ensures SetReply(f, msg, args, setter) == Assign(f, id, msg, args, prop, eq, setter)
  {
    SetArgs(args, path, prop, value);
    SetReplyNode(f, msg, args, setter, id, path, prop, eq);
  }

  /**
   * SET of a writable property stores the unescaped value (or what the
   * property's setter makes of it) and replies with the stored value,
   * escaped; storing the value already there changes nothing.
   */
  lemma SetStores(f: Forest, msg: string, path: string, prop: string, value: string, setter: SetterOracle)
    requires Linked(f) && RootId in f.heap
    requires '.' !in path && '=' !in path && '=' !in prop && '_' !in prop && prop != "" && prop[0] != '$'
    requires GetNode(f, path).NodeAt? && prop in f.heap[GetNode(f, path).id].properties
    requires f.heap[GetNode(f, path).id].properties[prop].rw
    ensures var id := GetNode(f, path).id;
      var p := f.heap[id].properties[prop];
      var u := Escaping.Unescape(value);
      var stored := if p.setter then setter(f.heap[id].path, prop, Str(u)) else u;
      var r := SetReply(f, msg, path + "." + prop + "=" + value, setter);
      r.1 == Some("pw " + path + "." + prop + "=" + Escaping.Escape(stored) + "\n")
      && r.0.heap[id].properties == f.heap[id].properties[prop := p.(value := stored)]
      && (stored == p.value ==> r.0 == f)
  {
    var args := path + "." + prop + "=" + value;
    SetArgs(args, path, prop, value);
    var id := GetNode(f, path).id;
    var eq := |path| + 1 + |prop|;
    SetReplyAt(f, msg, args, path, prop, value, setter, id, eq);
    StoreStores(f, id, args, prop, eq, setter, path + "." + prop, value);
    Regroup("pw ", path, ".", prop);
  }

  lemma Regroup(a: string, b: string, c: string, d: string)
    ensures a + (b + c + d) == a + b + c + d
  {
  }

  /** The value of a writable property stored, then read back for the reply. */
  lemma StoreStores(f: Forest, id: NodeId, args: string, prop: string, eq: nat, setter: SetterOracle, target: string, value: string)
    requires Linked(f) && id in f.heap && RootId in f.heap && eq < |args| && args[..eq] == target && args[eq + 1..] == value
    requires '_' !in prop && prop != "" && prop[0] != '$' && prop in f.heap[id].properties && f.heap[id].properties[prop].rw
    ensures var p := f.heap[id].properties[prop];
      var u := Escaping.Unescape(value);
      var stored := if p.setter then setter(f.heap[id].path, prop, Str(u)) else u;
      var r := StoreValue(f, id, args, prop, eq, setter);
      r.1 == Some("pw " + target + "=" + Escaping.Escape(stored) + "\n")
      && r.0.heap[id].properties == f.heap[id].properties[prop := p.(value := stored)]
      && (stored == p.value ==> r.0 == f)
  {
    var u := Escaping.Unescape(value);
    StoreEffect(f, id, prop, u, setter);
    var g := SetEffect(f, id, prop + "__prop__", Str(u), setter).0;
    var q := g.heap[id].properties[prop];
    assert PropertyOf(g.heap[id], prop) == Prop(q);
    assert "p" + RwLetter(q.rw) + " " == "pw ";
  }

  /** The `set` trap on `prop__prop__` of a writable property: the new value kept, the rest of the node as it was. */
  lemma StoreEffect(f: Forest, id: NodeId, prop: string, u: string, setter: SetterOracle)
    requires Linked(f) && id in f.heap
    requires '_' !in prop && prop != "" && prop[0] != '$' && prop in f.heap[id].properties
    ensures var p := f.heap[id].properties[prop];
      var stored := if p.setter then setter(f.heap[id].path, prop, Str(u)) else u;
      var r := SetEffect(f, id, prop + "__prop__", Str(u), setter);
      r.1 == Assigned(true)
      && r.0.heap[id].properties == f.heap[id].properties[prop := p.(value := stored)]
      && (stored == p.value ==> r.0 == f)
  {
    var n := f.heap[id];
    var p := n.properties[prop];
    var raw := prop + "__prop__";
    assert raw == Marked(prop, "prop");
    assert Text(Str(u)) == u;
    AssignNotifiesOnChange(n, prop, Str(u), setter);
    var plan := SetPlanOf(n, raw, Str(u), setter);
    SameLinksFit(f, id, plan.node);
    var g := NotifyIf(Put(f, id, plan.node), id, plan.notify);
    assert SetEffect(f, id, raw, Str(u), setter) == (g, Assigned(true));
    assert g.heap[id].properties == plan.node.properties;
    if plan.notify.None? {
      assert plan.node == n;
      assert f.heap[id := n] == f.heap;
    }
  }

  // ---------------------------------------------------------------------
  // CALL
  // ---------------------------------------------------------------------

  /** Where the `:` and the `(` of `path:name(params)` are, and the pieces CALL cuts out. */
  lemma CallArgs(args: string, path: string, name: string, params: string, bracket: nat)
    requires args == path + ":" + name + "(" + params + ")" && bracket == |path| + 1 + |name|
    requires ':' !in path && '(' !in path && '(' !in name
    ensures IndexOfChar(args, ':') == |path| && IndexOfChar(args, '(') == bracket && args[|args| - 1] == ')'
    ensures args[..|path|] == path && args[|path| + 1..bracket] == name
    ensures args[..bracket] == path + ":" + name && args[bracket + 1..|args| - 1] == params
  {
    assert args[..|path|] == path;
    IndexOfCharAt(args, ':', |path|);
    assert args[..bracket] == path + ":" + name;
    IndexOfCharAt(args, '(', bracket);
  }

  /**
   * CALL of a method of a node invokes its body with the unescaped,
   * converted arguments (a method without a body gives `undefined`) and
   * replies with the outcome, changing nothing in the tree.
   */
  lemma CallMethod(f: Forest, msg: string, path: string, name: string, params: string, invoke: Invoker)
    requires Linked(f) && RootId in f.heap
    requires ':' !in path && '(' !in path && '(' !in name && '_' !in name && name != "" && name[0] != '$'
    requires GetNode(f, path).NodeAt?
    requires var n := f.heap[GetNode(f, path).id]; name !in n.nodes && name !in n.properties && name in n.methods
    ensures var id := GetNode(f, path).id;
      var m := f.heap[id].methods[name];
      CallReply(f, msg, path + ":" + name + "(" + params + ")", invoke)
        == (f, Some(CallLine(path + ":" + name, if m.fun then invoke(id, name, Arguments(params)) else Returned(false, ""))))
  {
    var args := path + ":" + name + "(" + params + ")";
    var id := GetNode(f, path).id;
    var bracket := |path| + 1 + |name|;
    CallAt(f, msg, path, name, params, invoke, id, bracket);
    InvokeMethod(f, id, msg, args, |path|, bracket, invoke, name, path + ":" + name, params);
  }

  /** CALL of a name that is not a method of the node is %E002 and changes nothing. */
  lemma CallNotMethod(f: Forest, msg: string, path: string, name: string, params: string, invoke: Invoker)
    requires Linked(f) && RootId in f.heap
    requires ':' !in path && '(' !in path && '(' !in name
    requires GetNode(f, path).NodeAt? && name !in f.heap[GetNode(f, path).id].methods
    ensures CallReply(f, msg, path + ":" + name + "(" + params + ")", invoke) == (f, Some(ErrorLine(msg, CodeNotFound)))
  {
    var args := path + ":" + name + "(" + params + ")";
    var id := GetNode(f, path).id;
    var bracket := |path| + 1 + |name|;
    CallAt(f, msg, path, name, params, invoke, id, bracket);
    InvokeMissing(f, id, msg, args, |path|, bracket, invoke, name);
  }

  /** CALL `path:name(params)` on a path that names a node goes on to the node's method. */
  lemma CallAt(f: Forest, msg: string, path: string, name: string, params: string, invoke: Invoker, id: NodeId, bracket: nat)
    requires Linked(f) && RootId in f.heap
    requires ':' !in path && '(' !in path && '(' !in name && GetNode(f, path) == NodeAt(id) && bracket == |path| + 1 + |name|
    ensures var args := path + ":" + name + "(" + params + ")";
      bracket < |args| - 1 && CallReply(f, msg, args, invoke) == Invoke(f, id, msg, args, |path|, bracket, invoke)
    ensures var args := path + ":" + name + "(" + params + ")";
      args[|path| + 1..bracket] == name && args[..bracket] == path + ":" + name && args[bracket + 1..|args| - 1] == params
  {
    var args := path + ":" + name + "(" + params + ")";
    CallArgs(args, path, name, params, bracket);
    CallReplyNode(f, msg, args, invoke, id, path, bracket);
  }

  /** CALL on a path that names a node goes on to the node's method. */
  lemma CallReplyNode(f: Forest, msg: string, args: string, invoke: Invoker, id: NodeId, path: string, bracket: nat)
    requires Linked(f) && RootId in f.heap
    requires IndexOfChar(args, ':') == |path| && IndexOfChar(args, '(') == bracket && |path| < bracket < |args| - 1
    requires args[|args| - 1] == ')' && args[..|path|] == path && GetNode(f, path) == NodeAt(id)
    ensures CallReply(f, msg, args, invoke) == Invoke(f, id, msg, args, |path|, bracket, invoke)
  {
  }

  /** A name that is not a method of the node is not found, and nothing changes. */
  lemma InvokeMissing(f: Forest, id: NodeId, msg: string, args: string, colon: nat, bracket: nat, invoke: Invoker, name: string)
    requires Linked(f) && id in f.heap && RootId in f.heap && colon < bracket < |args| - 1
    requires args[colon + 1..bracket] == name && name !in f.heap[id].methods
    ensures Invoke(f, id, msg, args, colon, bracket, invoke) == (f, Some(ErrorLine(msg, CodeNotFound)))
  {
  }

  /** A method of the node read back and called; the tree is unchanged. */
  lemma InvokeMethod(f: Forest, id: NodeId, msg: string, args: string, colon: nat, bracket: nat, invoke: Invoker,
                     name: string, prefix: string, params: string)
    requires Linked(f) && id in f.heap && RootId in f.heap && colon < bracket < |args| - 1
    requires args[colon + 1..bracket] == name && args[..bracket] == prefix && args[bracket + 1..|args| - 1] == params
    requires '_' !in name && name != "" && name[0] != '$' && name !in f.heap[id].nodes && name !in f.heap[id].properties
    requires name in f.heap[id].methods
    ensures var m := f.heap[id].methods[name];
      Invoke(f, id, msg, args, colon, bracket, invoke)
        == (f, Some(CallLine(prefix, if m.fun then invoke(id, name, Arguments(params)) else Returned(false, ""))))
  {
    ReadMethod(f, id, name);
    InvokeCallable(f, id, msg, args, colon, bracket, invoke, name);
  }

  /** Invoke once reading the method gave the callable and left the tree alone. */
  lemma InvokeCallable(f: Forest, id: NodeId, msg: string, args: string, colon: nat, bracket: nat, invoke: Invoker, name: string)
    requires Linked(f) && id in f.heap && RootId in f.heap && colon < bracket < |args| - 1
    requires args[colon + 1..bracket] == name && name in f.heap[id].methods
    requires !SpecialKey(name + "__method__") && ParseKey(name + "__method__").main == name
    requires GetEffect(f, id, name + "__method__") == (f, Callable)
    ensures var m := f.heap[id].methods[name];
      Invoke(f, id, msg, args, colon, bracket, invoke)
        == (f, Some(CallLine(args[..bracket],
                             if m.fun then invoke(id, name, Arguments(args[bracket + 1..|args| - 1])) else Returned(false, ""))))
  {
  }

  /** Reading `name__method__` of a node that has the method gives the callable and changes nothing. */
  lemma ReadMethod(f: Forest, id: NodeId, name: string)
    requires Linked(f) && id in f.heap
    requires '_' !in name && name != "" && name[0] != '$' && name !in f.heap[id].nodes && name !in f.heap[id].properties
    requires name in f.heap[id].methods
    ensures !SpecialKey(name + "__method__") && ParseKey(name + "__method__").main == name
    ensures GetEffect(f, id, name + "__method__") == (f, Callable)
  {
    var n := f.heap[id];
    var raw := Marked(name, "method");
    MethodKey(name);
    assert GetPlanOf(n, raw) == Found(Callable);
    assert f.heap[id := n] == f.heap;
  }

  /** How `name__method__` parses. */
  lemma MethodKey(name: string)
    requires '_' !in name && name != "" && name[0] != '$'
    ensures var raw := Marked(name, "method");
      raw == name + "__method__" && !SpecialKey(raw) && ParseKey(raw) == Key(false, raw, name, "method", false, false)
  {
    Regroup(name, "__", "method", "__");
    assert "__" + "method" + "__" == "__method__";
    SuffixNotSpecial(name, "__method__");
    ModifierKey(name, "method");
  }

  // ---------------------------------------------------------------------
  // What a line writes
  // ---------------------------------------------------------------------

  lemma {:induction false} ChgOutsAreChg(fs: seq<Fired>)
    ensures forall i :: 0 <= i < |ChgOuts(fs)| ==> ChgOuts(fs)[i].Chg?
    decreases |fs|
  {
    if |fs| > 0 {
      ChgOutsAreChg(fs[..|fs| - 1]);
    }
  }

  /**
   * A line only adds to what was written: change lines, then at most one
   * reply, which goes to the socket the line came from and, for a signed
   * line, opens with `{` and the signature and closes with `}`.
   */
  lemma LineWrites(w: World, socketId: int, msg: string, setter: SetterOracle, invoke: Invoker)
    requires Good(w) && socketId in w.sessions
    ensures var r := LineEffect(w, socketId, msg, setter, invoke);
      w.out <= r.out && (forall i :: |w.out| <= i < |r.out| - 1 ==> r.out[i].Chg?)
    ensures var r := LineEffect(w, socketId, msg, setter, invoke);
      |r.out| > |w.out| && r.out[|r.out| - 1].Reply? ==>
        var last := r.out[|r.out| - 1];
        last.socketId == socketId
        && (Lw3Server.Signed(msg) ==> |last.text| >= 8 && last.text[..6] == "{" + msg[..4] + "\n" && last.text[|last.text| - 2..] == "}\n")
  {
    var text := if Lw3Server.Signed(msg) then msg[5..] else msg;
    var res := Dispatch(w.f, w.sessions[socketId].opens, socketId, text, setter, invoke);
    var chg := ChgOuts(res.f.fired[|w.f.fired|..]);
    ChgOutsAreChg(res.f.fired[|w.f.fired|..]);
    var reply := if res.body.Some? then [Reply(socketId, Framed(msg, res.body.value))] else [];
    if res.body.Some? && Lw3Server.Signed(msg) {
      FramedSigned(msg, res.body.value);
    }
    assert LineEffect(w, socketId, msg, setter, invoke).out == w.out + chg + reply;
    AppendedShape(w.out, chg, reply, socketId, msg);
  }

  /** Change lines followed by at most one framed reply to `socketId`, appended to `out`. */
  lemma AppendedShape(out: seq<Out>, chg: seq<Out>, reply: seq<Out>, socketId: int, msg: string)
    requires forall i :: 0 <= i < |chg| ==> chg[i].Chg?
    requires |reply| <= 1
    requires forall i :: 0 <= i < |reply| ==>
      reply[i].Reply? && reply[i].socketId == socketId &&
      (Lw3Server.Signed(msg) ==>
        |reply[i].text| >= 8 && reply[i].text[..6] == "{" + msg[..4] + "\n" && reply[i].text[|reply[i].text| - 2..] == "}\n")
    ensures var r := out + chg + reply;
      out <= r && (forall i :: |out| <= i < |r| - 1 ==> r[i].Chg?)
    ensures var r := out + chg + reply;
      |r| > |out| && r[|r| - 1].Reply? ==>
        var last := r[|r| - 1];
        last.socketId == socketId
        && (Lw3Server.Signed(msg) ==> |last.text| >= 8 && last.text[..6] == "{" + msg[..4] + "\n" && last.text[|last.text| - 2..] == "}\n")
  {
    var r := out + chg + reply;
    assert r[..|out|] == out;
    forall i | |out| <= i < |r| - 1
      ensures r[i].Chg?
    {
      assert r[i] == chg[i - |out|];
    }
    if |r| > |out| && r[|r| - 1].Reply? {
      assert |reply| == 1 && r[|r| - 1] == reply[0];
    }
  }

  /** A signed line's reply opens with `{`, the signature and a newline, and closes with `}`. */
  lemma FramedSigned(msg: string, body: string)
    requires Lw3Server.Signed(msg)
    ensures var t := Framed(msg, body);
      |t| >= 8 && t[..6] == "{" + msg[..4] + "\n" && t[|t| - 2..] == "}\n"
  {
    var t := Framed(msg, body);
    assert t == "{" + msg[..4] + "\n" + (body + "}\n");
  }

  // ---------------------------------------------------------------------
  // connect and close
  // ---------------------------------------------------------------------

  /** A read through the `get` trap leaves every subscriber list as it was. */
  lemma GetKeepsSubscribers(f: Forest, id: NodeId, raw: string)
    requires Linked(f) && id in f.heap && !SpecialKey(raw)
    ensures var g := GetEffect(f, id, raw).0;
      forall j :: j in f.heap ==> j in g.heap && g.heap[j].subscribers == f.heap[j].subscribers
  {
  }

  /** The listener calls of a closing socket leave every subscriber list as it was. */
  lemma {:induction false} CloseListenersKeep(f: Forest, opens: seq<Opened>)
    requires Linked(f) && NodesIn(opens, f)
    ensures var g := CloseListeners(f, opens).0;
      forall j :: j in f.heap ==> j in g.heap && g.heap[j].subscribers == f.heap[j].subscribers
    decreases |opens|
  {
    if |opens| > 0 {
      var prefix := opens[..|opens| - 1];
      assert NodesIn(prefix, f);
      CloseListenersKeep(f, prefix);
      var (g, ok) := CloseListeners(f, prefix);
      if ok {
        CloseListenerNotSpecial();
        GetKeepsSubscribers(g, opens[|opens| - 1].node, CloseListenerKey);
      }
    }
  }

  /**
   * Closing a socket cancels none of its subscriptions: the change
   * writers it installed with OPEN stay on their nodes.
   */
  lemma DisconnectKeepsSubscribers(w: World, socketId: int)
    requires Good(w) && socketId in w.sessions
    ensures var r := DisconnectEffect(w, socketId);
      forall j :: j in w.f.heap ==> j in r.f.heap && r.f.heap[j].subscribers == w.f.heap[j].subscribers
  {
    CloseListenersKeep(w.f, w.sessions[socketId].opens);
  }

  /** A socket that connects and closes without opening anything leaves everything as it was. */
  lemma ConnectThenDisconnect(w: World, socketId: int)
    requires Good(w) && socketId !in w.sessions
    ensures DisconnectEffect(ConnectEffect(w, socketId), socketId) == w
  {
    assert w.sessions[socketId := Session([], false)] - {socketId} == w.sessions;
  }

  /** How the key `closeListener` parses: a plain key, no modifier, no marker. */
  lemma CloseListenerKeyParses()
    ensures ParseKey(CloseListenerKey) == Key(false, CloseListenerKey, CloseListenerKey, "", false, false)
  {
    var key := CloseListenerKey;
    assert key[0] == 'c';
    assert '_' !in key by {
      assert key == ['c', 'l', 'o', 's', 'e', 'L', 'i', 's', 't', 'e', 'n', 'e', 'r'];
    }
    AbsentHead(key, "__");
    assert Split(key, "__") == [key];
  }

  /**
   * On a node with no child and no property called `closeListener`, the
   * read gives something callable (the method, created empty if missing)
   * and changes no node's children, properties or subscribers.
   */
  lemma CloseListenerRead(f: Forest, id: NodeId)
    requires Linked(f) && id in f.heap
    requires CloseListenerKey !in f.heap[id].nodes && CloseListenerKey !in f.heap[id].properties
    ensures !SpecialKey(CloseListenerKey)
    ensures var r := GetEffect(f, id, CloseListenerKey);
      r.1.Callable? && r.0.heap.Keys == f.heap.Keys
      && forall j :: j in f.heap ==> (r.0.heap[j].nodes == f.heap[j].nodes
        && r.0.heap[j].properties == f.heap[j].properties && r.0.heap[j].subscribers == f.heap[j].subscribers)
  {
    CloseListenerNotSpecial();
    var n := f.heap[id];
    if CloseListenerKey in n.methods {
      CloseListenerKeyParses();
      assert GetPlanOf(n, CloseListenerKey) == Found(Callable);
    } else {
      CloseListenerCreatesMethod(n);
    }
  }

  /** No opened node has a child or a property called `closeListener`. */
  predicate ListenersCallable(opens: seq<Opened>, f: Forest) {
    forall i :: 0 <= i < |opens| ==> (opens[i].node in f.heap
      && CloseListenerKey !in f.heap[opens[i].node].nodes && CloseListenerKey !in f.heap[opens[i].node].properties)
  }

  lemma {:induction false} CloseListenersAllCalled(f: Forest, opens: seq<Opened>)
    requires Linked(f) && NodesIn(opens, f) && ListenersCallable(opens, f)
    ensures var r := CloseListeners(f, opens);
      r.1 && r.0.heap.Keys == f.heap.Keys
      && forall j :: j in f.heap ==> (r.0.heap[j].nodes == f.heap[j].nodes
        && r.0.heap[j].properties == f.heap[j].properties && r.0.heap[j].subscribers == f.heap[j].subscribers)
    decreases |opens|
  {
    if |opens| > 0 {
      var prefix := opens[..|opens| - 1];
      assert NodesIn(prefix, f) && ListenersCallable(prefix, f);
      CloseListenersAllCalled(f, prefix);
      var g := CloseListeners(f, prefix).0;
      CloseListenerRead(g, opens[|opens| - 1].node);
    }
  }

  /**
   * When every listener call succeeds the session is deleted, and the
   * tree keeps its shape and subscribers; only `closeListener` methods
   * may have been created.
   */
  lemma DisconnectDeletes(w: World, socketId: int)
    requires Good(w) && socketId in w.sessions && ListenersCallable(w.sessions[socketId].opens, w.f)
    ensures var r := DisconnectEffect(w, socketId);
      r.sessions == w.sessions - {socketId} && r.f.heap.Keys == w.f.heap.Keys
      && forall j :: j in w.f.heap ==> (r.f.heap[j].nodes == w.f.heap[j].nodes
        && r.f.heap[j].properties == w.f.heap[j].properties && r.f.heap[j].subscribers == w.f.heap[j].subscribers)
  {
    CloseListenersAllCalled(w.f, w.sessions[socketId].opens);
  }
}
