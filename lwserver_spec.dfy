/**
 * The LW3 protocol server of src/lwserver.ts as effects on the node tree
 * and the session table. `lineRcv` splits a line into an optional
 * signature, a command word and its arguments, resolves a path with
 * `getNode` (which reads `$`-marked keys and so never creates anything),
 * carries out GET, SET, CALL, MAN, OPEN or CLOSE, and writes the reply, or
 * nothing when the handler throws. The class in module `LwServer` carries
 * these effects out in place.
 *
 * The error codes are the numbers of the `Lw3ErrorCodes` enumeration, and
 * the error header is the one `Lw3Server.ErrorHeader` builds.
 */
module LwServerSpec {
  import opened Wrappers
  import opened Strings
  import opened ServerSpec
  import opened ServerTree
  import Common
  import Escaping
  import Noodle
  import Lw3Server

  const CodeSyntax: int := Noodle.Number(Noodle.Syntax)
  const CodeNotFound: int := Noodle.Number(Noodle.NotFound)
  const CodeAlreadyExists: int := Noodle.Number(Noodle.AlreadyExists)
  const CodeAccessDenied: int := Noodle.Number(Noodle.AccessDenied)
  const CodeInternal: int := Noodle.Number(Noodle.InternalError)

  /**
   * Stand-in for the message of a `TypeError` raised while CALL reads or calls
   * the method; the engine's own wording is not modelled.
   */
  const NotCallable: string := "is not a function"

  /** `'-E ' + msg + ' ' + getErrorHeader(code) + '\n'`. */
  function ErrorLine(msg: string, code: int): string {
    "-E " + msg + " " + Lw3Server.ErrorHeader(code) + "\n"
  }

  // ---------------------------------------------------------------------
  // Sessions and what is written
  // ---------------------------------------------------------------------

  /** One OPEN of a session: the node, the path it was opened by, and the subscription id `on` returned. */
  datatype Opened = Opened(node: NodeId, path: string, subscriptionId: int)

  /** `LwServerSession`; the socket id is the key it is filed under. */
  datatype Session = Session(opens: seq<Opened>, authenticated: bool)

  /**
   * One `server.write`: a reply, or a `CHG` line written by the change
   * writer of an OPEN, with the converted value (its text form is left
   * abstract).
   */
  datatype Out = Reply(socketId: int, text: string) | Chg(socketId: int, path: string, property: string, value: Common.Value)

  /** The nodes of every OPEN entry exist. */
  predicate NodesIn(opens: seq<Opened>, f: Forest) {
    forall i :: 0 <= i < |opens| ==> opens[i].node in f.heap
  }

  predicate SessionsIn(sessions: map<int, Session>, f: Forest) {
    forall s :: s in sessions ==> NodesIn(sessions[s].opens, f)
  }

  /** The tree, the sessions and everything written so far. */
  datatype World = World(f: Forest, sessions: map<int, Session>, out: seq<Out>)

  predicate Good(w: World) {
    Linked(w.f) && RootId in w.f.heap && SessionsIn(w.sessions, w.f)
  }

  /** Each line followed by a line feed, in order. */
  function Concat(lines: seq<string>): string {
    if |lines| == 0 then "" else Concat(lines[..|lines| - 1]) + lines[|lines| - 1] + "\n"
  }

  // ---------------------------------------------------------------------
  // getNode
  // ---------------------------------------------------------------------

  /**
   * What `getNode` gives: a node, `undefined`, some other value reached
   * through a property or method key (only its truthiness matters), or a
   * throw from the `get` trap.
   */
  datatype Resolved = NodeAt(id: NodeId) | Missing | NonNode(truthy: bool) | Throws

  function ToResolved(a: Access): Resolved {
    match a
    case ChildNode(id) => NodeAt(id)
    case Thrown => Throws
    case StrResult(s) => NonNode(s != "")
    case Flag(b) => NonNode(b)
    case Converted(v) => NonNode(Common.Truthy(v))
    case Callable => NonNode(true)
    case Undefined => Missing
  }

  /** No key the `get` trap answers itself starts with `$`. */
  lemma DollarNotSpecial(seg: string)
    ensures !SpecialKey("$" + seg)
  {
    assert ("$" + seg)[0] == '$';
  }

  /** `node['$' + seg]` on node `id`. */
  function Lookup(f: Forest, id: NodeId, seg: string): (r: Resolved)
    requires Linked(f) && id in f.heap
    ensures r.NodeAt? ==> r.id in f.heap
  {
    DollarNotSpecial(seg);
    DollarNeverCreates(f.heap[id], seg);
    ToResolved(GetPlanOf(f.heap[id], "$" + seg).a)
  }

  /** Reading a `$` key leaves the whole tree as it was, and answers what `Lookup` says. */
  lemma DollarReadKeeps(f: Forest, id: NodeId, seg: string)
    requires Linked(f) && id in f.heap
    ensures !SpecialKey("$" + seg)
    ensures GetEffect(f, id, "$" + seg).0 == f
    ensures ToResolved(GetEffect(f, id, "$" + seg).1) == Lookup(f, id, seg)
  {
    DollarNotSpecial(seg);
    DollarNeverCreates(f.heap[id], seg);
    assert f.heap[id := f.heap[id]] == f.heap;
  }

  /** One step of the walk: a `$` lookup on a node, `undefined` on anything else. */
  function Step(f: Forest, at: Resolved, seg: string): (r: Resolved)
    requires Linked(f) && (at.NodeAt? ==> at.id in f.heap)
    ensures r.NodeAt? ==> r.id in f.heap
  {
    if at.NodeAt? then Lookup(f, at.id, seg) else Missing
  }

  /**
   * The loop of `getNode` from the value `at` over the remaining segments:
   * an empty segment gives `undefined`, a non-node value has no `$` keys,
   * and `undefined` or a throw ends the walk.
   */
  function Walk(f: Forest, at: Resolved, segs: seq<string>): (r: Resolved)
    requires Linked(f) && (at.NodeAt? ==> at.id in f.heap)
    ensures r.NodeAt? ==> r.id in f.heap
    decreases |segs|
  {
    if |segs| == 0 then at
    else if segs[0] == "" then Missing
    else
      var next := Step(f, at, segs[0]);
      if next.Missing? || next.Throws? then next else Walk(f, next, segs[1..])
  }

  /** `getNode(s)`: the pieces of `s` split at `/`, the first of which must be empty. */
  function GetNode(f: Forest, s: string): (r: Resolved)
    requires Linked(f) && RootId in f.heap
    ensures r.NodeAt? ==> r.id in f.heap
  {
    var path := SplitOn(s, '/');
    if path[0] != "" then Missing else Walk(f, NodeAt(RootId), path[1..])
  }

  /** `node.__properties__(name)`: an empty name gives the whole container. */
  datatype PropLookup = NoProperty | Prop(p: Property) | AllProperties

  function PropertyOf(n: Node, name: string): PropLookup {
    if name == "" then AllProperties
    else if name in n.properties then Prop(n.properties[name])
    else NoProperty
  }

  // ---------------------------------------------------------------------
  // GET
  // ---------------------------------------------------------------------

  function RwLetter(rw: bool): string {
    if rw then "w" else "r"
  }

  function ChildLines(args: string, names: seq<string>): seq<string> {
    seq(|names|, i requires 0 <= i < |names| => "n- " + args + "/" + names[i])
  }

  function PropertyLine(nodename: string, name: string, p: Property): string {
    "p" + RwLetter(p.rw) + " " + nodename + "." + name + "=" + Escaping.Escape(p.value)
  }

  function PropertyLines(nodename: string, props: map<string, Property>, names: seq<string>): seq<string>
    requires forall i :: 0 <= i < |names| ==> names[i] in props
  {
    seq(|names|, i requires 0 <= i < |names| => PropertyLine(nodename, names[i], props[names[i]]))
  }

  function MethodLines(nodename: string, names: seq<string>): seq<string> {
    seq(|names|, i requires 0 <= i < |names| => "m- " + nodename + ":" + names[i])
  }

  /** `GET path.*` and `GET path.prop` on an existing node. */
  function GetProperty(n: Node, msg: string, args: string, nodename: string, propName: string): Option<string> {
    if propName == "*" then
      Some(Concat(PropertyLines(nodename, n.properties, SortedKeys(n.properties.Keys)))
        + Concat(MethodLines(nodename, SortedKeys(n.methods.Keys))))
    else
      match PropertyOf(n, propName)
      case NoProperty => Some(ErrorLine(msg, CodeNotFound))
      case Prop(p) => Some("p" + RwLetter(p.rw) + " " + args + "=" + Escaping.Escape(p.value) + "\n")
      case AllProperties => None
  }

  /**
   * GET: the children of a node, or its properties and methods, or one
   * property. `None` when the handler throws (`__nodes__` or
   * `__properties__` of a value that is not a node, `escape` of a value
   * that is not a string).
   */
  function GetReply(f: Forest, msg: string, args: string): Option<string>
    requires Linked(f) && RootId in f.heap
  {
    if |args| == 0 || args[0] != '/' then Some(ErrorLine(msg, CodeSyntax))
    else
      var dot := IndexOfChar(args, '.');
      if dot == -1 then
        match GetNode(f, args)
        case NodeAt(id) => Some(Concat(ChildLines(args, SortedKeys(f.heap[id].nodes.Keys))))
        case Missing => Some(ErrorLine(msg, CodeNotFound))
        case _ => None
      else
        match GetNode(f, args[..dot])
        case NodeAt(id) => GetProperty(f.heap[id], msg, args, args[..dot], args[dot + 1..])
        case Missing => Some(ErrorLine(msg, CodeNotFound))
        case NonNode(truthy) => if truthy then None else Some(ErrorLine(msg, CodeNotFound))
        case Throws => None
  }

  // ---------------------------------------------------------------------
  // SET
  // ---------------------------------------------------------------------

  /**
   * `node[propName + '__prop__'] = unescape(value)`, then the property
   * read back. An assignment the `set` trap refuses throws in strict code.
   */
  function StoreValue(f: Forest, id: NodeId, args: string, propName: string, eq: nat, setter: SetterOracle): (r: (Forest, Option<string>))
    requires Linked(f) && id in f.heap && RootId in f.heap && eq < |args|
    ensures Linked(r.0) && Grows(f, r.0) && RootId in r.0.heap
  {
    var (g, outcome) := SetEffect(f, id, propName + "__prop__", Str(Escaping.Unescape(args[eq + 1..])), setter);
    if outcome != Assigned(true) then (g, None)
    else
      match PropertyOf(g.heap[id], propName)
      case Prop(q) => (g, Some("p" + RwLetter(q.rw) + " " + args[..eq] + "=" + Escaping.Escape(q.value) + "\n"))
      case _ => (g, None)
  }

  /** SET on an existing node: not found, access denied, or the value stored. */
  function Assign(f: Forest, id: NodeId, msg: string, args: string, propName: string, eq: nat, setter: SetterOracle): (r: (Forest, Option<string>))
    requires Linked(f) && id in f.heap && RootId in f.heap && eq < |args|
    ensures Linked(r.0) && Grows(f, r.0) && RootId in r.0.heap
  {
    match PropertyOf(f.heap[id], propName)
    case NoProperty => (f, Some(ErrorLine(msg, CodeNotFound)))
    case Prop(p) =>
      if !p.rw then (f, Some(ErrorLine(msg, CodeAccessDenied)))
      else StoreValue(f, id, args, propName, eq, setter)
    case AllProperties =>
      // the container's `rw` is the property named `rw`, if there is one
      if "rw" !in f.heap[id].properties then (f, Some(ErrorLine(msg, CodeAccessDenied)))
      else StoreValue(f, id, args, propName, eq, setter)
  }

  /** SET `path.prop=value`. */
  function SetReply(f: Forest, msg: string, args: string, setter: SetterOracle): (r: (Forest, Option<string>))
    requires Linked(f) && RootId in f.heap
    ensures Linked(r.0) && Grows(f, r.0) && RootId in r.0.heap
  {
    var dot := IndexOfChar(args, '.');
    var eq := IndexOfChar(args, '=');
    if dot == -1 || eq == -1 then (f, Some(ErrorLine(msg, CodeSyntax)))
    else
      match GetNode(f, args[..dot])
      case NodeAt(id) => Assign(f, id, msg, args, Substring(args, dot + 1, eq), eq, setter)
      case Missing => (f, Some(ErrorLine(msg, CodeNotFound)))
      case NonNode(truthy) => (f, if truthy then None else Some(ErrorLine(msg, CodeNotFound)))
      case Throws => (f, None)
  }

  // ---------------------------------------------------------------------
  // CALL
  // ---------------------------------------------------------------------

  /**
   * How a called method settled: resolved with a value (its truthiness and
   * `toString()`), or rejected with an error (its `lwError` code, 0 when it
   * has none, and its message).
   */
  datatype CallOutcome = Returned(truthy: bool, text: string) | Threw(lwError: int, message: string)

  /** The installed method bodies: node, method name and arguments to an outcome. */
  type Invoker = (NodeId, string, seq<Common.Value>) -> CallOutcome

  /** The argument list: split at `,`, each piece unescaped and converted. */
  function Arguments(s: string): (r: seq<Common.Value>)
    ensures |r| == |SplitOn(s, ',')|
  {
    var pieces := SplitOn(s, ',');
    seq(|pieces|, i requires 0 <= i < |pieces| => Common.ConvertValue(Escaping.Unescape(pieces[i])))
  }

  /** The reply line for a settled call of `prefix` (`path:method`). */
  function CallLine(prefix: string, outcome: CallOutcome): string {
    match outcome
    case Returned(truthy, text) =>
      if truthy then "mO " + prefix + "=" + Escaping.Escape(text) + "\n" else "mO " + prefix + "\n"
    case Threw(code, message) =>
      if code != 0 then "mE " + prefix + " " + Lw3Server.ErrorHeader(code) + "\n"
      else "mE " + prefix + "=" + Escaping.Escape(message) + " " + Lw3Server.ErrorHeader(CodeInternal) + "\n"
  }

  /** No key the `get` trap answers itself ends in `o__` or `n__`. */
  lemma SuffixNotSpecial(x: string, suffix: string)
    requires suffix == "__method__" || suffix == "__method__man__"
    ensures !SpecialKey(x + suffix)
  {
    var raw := x + suffix;
    assert raw[|raw| - 3] == suffix[|suffix| - 3];
  }

  /** The method named by `methodname` on node `id` read and called. */
  function Invoke(f: Forest, id: NodeId, msg: string, args: string, colon: nat, bracket: nat, invoke: Invoker): (r: (Forest, Option<string>))
    requires Linked(f) && id in f.heap && RootId in f.heap && colon < bracket < |args| - 1
    ensures Linked(r.0) && Grows(f, r.0) && RootId in r.0.heap
  {
    var name := args[colon + 1..bracket];
    var arguments := Arguments(args[bracket + 1..|args| - 1]);
    if name !in f.heap[id].methods then (f, Some(ErrorLine(msg, CodeNotFound)))
    else
      SuffixNotSpecial(name, "__method__");
      var (g, a) := GetEffect(f, id, name + "__method__");
      var main := ParseKey(name + "__method__").main;
      var outcome :=
        if !a.Callable? then Threw(0, NotCallable)
        else if main in g.heap[id].methods && g.heap[id].methods[main].fun then invoke(id, main, arguments)
        else Returned(false, "");
      (g, Some(CallLine(args[..bracket], outcome)))
  }

  /** CALL `path:method(arguments)`. */
  function CallReply(f: Forest, msg: string, args: string, invoke: Invoker): (r: (Forest, Option<string>))
    requires Linked(f) && RootId in f.heap
    ensures Linked(r.0) && Grows(f, r.0) && RootId in r.0.heap
  {
    var colon := IndexOfChar(args, ':');
    var bracket := IndexOfChar(args, '(');
    if colon == -1 || bracket <= colon || args[|args| - 1] != ')' then (f, Some(ErrorLine(msg, CodeSyntax)))
    else
      match GetNode(f, args[..colon])
      case NodeAt(id) => Invoke(f, id, msg, args, colon, bracket, invoke)
      case Missing => (f, Some(ErrorLine(msg, CodeNotFound)))
      case NonNode(truthy) => (f, if truthy then None else Some(ErrorLine(msg, CodeNotFound)))
      case Throws => (f, None)
  }

  // ---------------------------------------------------------------------
  // MAN
  // ---------------------------------------------------------------------

  /**
   * A value read through the `get` trap put into a string. A converted
   * value, a callable or a node has no text here; reading a key that ends
   * in `__man__` gives none of the first two.
   */
  function AccessText(a: Access): Option<string> {
    match a
    case StrResult(s) => Some(s)
    case Flag(b) => Some(if b then "true" else "false")
    case Undefined => Some("undefined")
    case _ => None
  }

  /** `'mm ' + args + '=' + node[name + '__method__man__']`. */
  function MethodManual(f: Forest, id: NodeId, args: string, name: string): (r: (Forest, Option<string>))
    requires Linked(f) && id in f.heap && RootId in f.heap
    ensures Linked(r.0) && Grows(f, r.0) && RootId in r.0.heap
  {
    SuffixNotSpecial(name, "__method__man__");
    var (g, a) := GetEffect(f, id, name + "__method__man__");
    var text := AccessText(a);
    (g, if text.Some? then Some("mm " + args + "=" + text.value + "\n") else None)
  }

  function ManualLines(nodename: string, props: map<string, Property>, names: seq<string>): seq<string>
    requires forall i :: 0 <= i < |names| ==> names[i] in props
  {
    seq(|names|, i requires 0 <= i < |names| => "pm " + nodename + "." + names[i] + "=" + props[names[i]].manual)
  }

  /** The `mm` lines of `MAN path.*`, one method manual read after the other. */
  function MethodManuals(f: Forest, id: NodeId, nodename: string, names: seq<string>): (r: (Forest, Option<string>))
    requires Linked(f) && id in f.heap && RootId in f.heap
    ensures Linked(r.0) && Grows(f, r.0) && RootId in r.0.heap
    decreases |names|
  {
    if |names| == 0 then (f, Some(""))
    else
      var (g, acc) := MethodManuals(f, id, nodename, names[..|names| - 1]);
      if acc.None? then (g, None)
      else
        var (h, line) := MethodManual(g, id, nodename + ":" + names[|names| - 1], names[|names| - 1]);
        (h, if line.Some? then Some(acc.value + line.value) else None)
  }

  /** Once a manual read throws, the later methods are not reached. */
  lemma {:induction false} MethodManualsStop(f: Forest, id: NodeId, nodename: string, names: seq<string>, i: nat)
    requires Linked(f) && id in f.heap && RootId in f.heap && i <= |names|
    requires i == |names| || MethodManuals(f, id, nodename, names[..i]).1.None?
    ensures MethodManuals(f, id, nodename, names) == MethodManuals(f, id, nodename, names[..i])
    decreases |names|
  {
    if i == |names| {
      assert names[..i] == names;
    } else {
      var prefix := names[..|names| - 1];
      assert prefix[..i] == names[..i];
      MethodManualsStop(f, id, nodename, prefix, i);
      MethodManualsLast(f, id, nodename, names);
    }
  }

  lemma MethodManualsLast(f: Forest, id: NodeId, nodename: string, names: seq<string>)
    requires Linked(f) && id in f.heap && RootId in f.heap && |names| > 0
    requires MethodManuals(f, id, nodename, names[..|names| - 1]).1.None?
    ensures MethodManuals(f, id, nodename, names) == MethodManuals(f, id, nodename, names[..|names| - 1])
  {
  }

  /** `MAN path.*` and `MAN path.prop` on an existing node. */
  function Manuals(f: Forest, id: NodeId, msg: string, args: string, nodename: string, propName: string): (r: (Forest, Option<string>))
    requires Linked(f) && id in f.heap && RootId in f.heap
    ensures Linked(r.0) && Grows(f, r.0) && RootId in r.0.heap
  {
    var n := f.heap[id];
    if propName == "*" then
      var head := Concat(ManualLines(nodename, n.properties, SortedKeys(n.properties.Keys)));
      var (g, tail) := MethodManuals(f, id, nodename, SortedKeys(n.methods.Keys));
      (g, if tail.Some? then Some(head + tail.value) else None)
    else
      match PropertyOf(n, propName)
      case NoProperty => (f, Some(ErrorLine(msg, CodeNotFound)))
      case Prop(p) => (f, Some("pm " + args + "=" + Escaping.Escape(p.manual) + "\n"))
      case AllProperties => (f, None)
  }

  /** MAN `path:method`, `path.*` or `path.prop`. */
  function ManReply(f: Forest, msg: string, args: string): (r: (Forest, Option<string>))
    requires Linked(f) && RootId in f.heap
    ensures Linked(r.0) && Grows(f, r.0) && RootId in r.0.heap
  {
    if |args| == 0 || args[0] != '/' then (f, Some(ErrorLine(msg, CodeSyntax)))
    else
      var dot := IndexOfChar(args, '.');
      if dot == -1 then
        var colon := IndexOfChar(args, ':');
        if colon == -1 then (f, Some(ErrorLine(msg, CodeSyntax)))
        else
          match GetNode(f, args[..colon])
          case NodeAt(id) => MethodManual(f, id, args, args[colon + 1..])
          case Missing => (f, Some(ErrorLine(msg, CodeNotFound)))
          case NonNode(truthy) =>
            // a key read on a string, number, boolean, array or function is undefined
            (f, Some(if truthy then "mm " + args + "=undefined\n" else ErrorLine(msg, CodeNotFound)))
          case Throws => (f, None)
      else
        match GetNode(f, args[..dot])
        case NodeAt(id) => Manuals(f, id, msg, args, args[..dot], args[dot + 1..])
        case Missing => (f, Some(ErrorLine(msg, CodeNotFound)))
        case NonNode(truthy) => (f, if truthy then None else Some(ErrorLine(msg, CodeNotFound)))
        case Throws => (f, None)
  }

  // ---------------------------------------------------------------------
  // OPEN and CLOSE
  // ---------------------------------------------------------------------

  /** `_.find(opened, { path })` finds an entry. */
  predicate IsOpen(opens: seq<Opened>, path: string) {
    exists i :: 0 <= i < |opens| && opens[i].path == path
  }

  function OpenedLines(opens: seq<Opened>): seq<string> {
    seq(|opens|, i requires 0 <= i < |opens| => "o- " + opens[i].path)
  }

  /** The three parts of a command's effect: the tree, this session's OPEN list, and the reply body (`None` when the handler throws). */
  datatype Result = Result(f: Forest, opens: seq<Opened>, body: Option<string>)

  /**
   * OPEN: the list of this session's paths, or a subscription of this
   * socket's change writer to the node, recorded in the session.
   */
  function OpenReply(f: Forest, opens: seq<Opened>, socketId: int, msg: string, args: string): (r: Result)
    requires Linked(f) && RootId in f.heap && NodesIn(opens, f)
    ensures Linked(r.f) && Grows(f, r.f) && RootId in r.f.heap && NodesIn(r.opens, r.f)
  {
    if args == "" then Result(f, opens, Some(Concat(OpenedLines(opens))))
    else if args[0] != '/' then Result(f, opens, Some(ErrorLine(msg, CodeSyntax)))
    else
      var node := GetNode(f, args);
      if node.Missing? then Result(f, opens, Some("oE " + args + " " + Lw3Server.ErrorHeader(CodeNotFound) + "\n"))
      else if node.Throws? then Result(f, opens, None)
      else if IsOpen(opens, args) then Result(f, opens, Some("oE " + args + " " + Lw3Server.ErrorHeader(CodeAlreadyExists) + "\n"))
      else if node.NonNode? then Result(f, opens, None)
      else
        var (g, sid) := OnEffect(f, node.id, "", ChgWriter(socketId), false);
        Result(g, opens + [Opened(node.id, args, sid)], Some("o- " + args + "\n"))
  }

  /** `removeListener(subscriptionId)` on the node of every entry opened by `path`, in order. */
  function Unsubscribe(f: Forest, opens: seq<Opened>, path: string): (g: Forest)
    requires Linked(f) && NodesIn(opens, f)
    ensures Linked(g) && Grows(f, g) && g.heap.Keys == f.heap.Keys
    decreases |opens|
  {
    if |opens| == 0 then f
    else
      var g := Unsubscribe(f, opens[..|opens| - 1], path);
      var e := opens[|opens| - 1];
      if e.path == path then OffEffect(g, e.node, ById(e.subscriptionId)) else g
  }

  /** The entries not opened by `path`, in order. */
  function Without(opens: seq<Opened>, path: string): (r: seq<Opened>)
    ensures forall i :: 0 <= i < |r| ==> r[i].path != path && r[i] in opens
    decreases |opens|
  {
    if |opens| == 0 then []
    else
      var r := Without(opens[..|opens| - 1], path);
      var e := opens[|opens| - 1];
      if e.path == path then r else r + [e]
  }

  /** CLOSE: every entry opened by that path is unsubscribed and dropped. */
  function CloseReply(f: Forest, opens: seq<Opened>, args: string): (r: Result)
    requires Linked(f) && RootId in f.heap && NodesIn(opens, f)
    ensures Linked(r.f) && Grows(f, r.f) && RootId in r.f.heap && NodesIn(r.opens, r.f)
  {
    if IsOpen(opens, args) then Result(Unsubscribe(f, opens, args), Without(opens, args), Some("c- " + args + "\n"))
    else Result(f, opens, Some("cE " + args + " " + Lw3Server.ErrorHeader(CodeNotFound) + "\n"))
  }

  // ---------------------------------------------------------------------
  // lineRcv
  // ---------------------------------------------------------------------

  /** The command word and its arguments, split at the first space. */
  function Command(msg: string): (r: (string, string))
    ensures ' ' in msg ==> msg == r.0 + " " + r.1 && ' ' !in r.0
    ensures ' ' !in msg ==> r == (msg, "")
  {
    var sp := IndexOfChar(msg, ' ');
    if sp == -1 then (msg, "") else (msg[..sp], msg[sp + 1..])
  }

  /** The `do … while (false)` block of `lineRcv` for the text after any signature. */
  function Dispatch(f: Forest, opens: seq<Opened>, socketId: int, msg: string, setter: SetterOracle, invoke: Invoker): (r: Result)
    requires Linked(f) && RootId in f.heap && NodesIn(opens, f)
    ensures Linked(r.f) && Grows(f, r.f) && RootId in r.f.heap && NodesIn(r.opens, r.f)
  {
    var (command, args) := Command(msg);
    if command == "GET" then Result(f, opens, GetReply(f, msg, args))
    else if command == "SET" then var (g, b) := SetReply(f, msg, args, setter); Result(g, opens, b)
    else if command == "CALL" then var (g, b) := CallReply(f, msg, args, invoke); Result(g, opens, b)
    else if command == "MAN" then var (g, b) := ManReply(f, msg, args); Result(g, opens, b)
    else if command == "OPEN" then OpenReply(f, opens, socketId, msg, args)
    else if command == "CLOSE" then CloseReply(f, opens, args)
    else Result(f, opens, Some(ErrorLine(msg, CodeSyntax)))
  }

  /** The `CHG` lines the change writers wrote for a stretch of the callback log. */
  function ChgOuts(fs: seq<Fired>): seq<Out>
    decreases |fs|
  {
    if |fs| == 0 then []
    else
      var e := fs[|fs| - 1];
      ChgOuts(fs[..|fs| - 1])
        + (if e.callback.ChgWriter? then [Chg(e.callback.socketId, e.path, e.property, Common.ConvertValue(e.value))] else [])
  }

  /** The reply to a line: a signed line's body between `{` with the signature and `}`. */
  function Framed(msg: string, body: string): string {
    if Lw3Server.Signed(msg) then "{" + msg[..4] + "\n" + body + "}\n" else body
  }

  /**
   * `lineRcv(socketId, msg)`: the command carried out, the change writers'
   * lines written as the tree announced changes, then the reply, unless
   * the handler threw.
   */
  function LineEffect(w: World, socketId: int, msg: string, setter: SetterOracle, invoke: Invoker): (r: World)
    requires Good(w) && socketId in w.sessions
    ensures Good(r) && r.sessions.Keys == w.sessions.Keys && Grows(w.f, r.f)
  {
    var text := if Lw3Server.Signed(msg) then msg[5..] else msg;
    var res := Dispatch(w.f, w.sessions[socketId].opens, socketId, text, setter, invoke);
    var reply := if res.body.Some? then [Reply(socketId, Framed(msg, res.body.value))] else [];
    World(res.f, w.sessions[socketId := w.sessions[socketId].(opens := res.opens)],
      w.out + ChgOuts(res.f.fired[|w.f.fired|..]) + reply)
  }

  // ---------------------------------------------------------------------
  // connect and close
  // ---------------------------------------------------------------------

  /** The `connect` handler: a fresh session. */
  function ConnectEffect(w: World, socketId: int): (r: World)
    requires Good(w)
    ensures Good(r) && r.sessions.Keys == w.sessions.Keys + {socketId} && r.sessions[socketId].opens == []
    ensures r.f == w.f && r.out == w.out
  {
    w.(sessions := w.sessions[socketId := Session([], false)])
  }

  /**
   * `entry.node.closeListener(entry.subscriptionId)` for the entries in
   * order: a read of the key `closeListener`, then a call of what it gave.
   * The flag is false when that was not callable and the call threw.
   */
  function CloseListeners(f: Forest, opens: seq<Opened>): (r: (Forest, bool))
    requires Linked(f) && NodesIn(opens, f)
    ensures Linked(r.0) && Grows(f, r.0)
    decreases |opens|
  {
    if |opens| == 0 then (f, true)
    else
      var (g, ok) := CloseListeners(f, opens[..|opens| - 1]);
      if !ok then (g, false)
      else
        var id := opens[|opens| - 1].node;
        assert id in g.heap;
        CloseListenerNotSpecial();
        var (h, a) := GetEffect(g, id, CloseListenerKey);
        (h, a.Callable?)
  }

  /** While no call has thrown, the last entry's listener is read on the tree the earlier calls left. */
  lemma CloseListenersLastCall(f: Forest, opens: seq<Opened>)
    requires Linked(f) && NodesIn(opens, f) && |opens| > 0
    requires CloseListeners(f, opens[..|opens| - 1]).1
    ensures var g := CloseListeners(f, opens[..|opens| - 1]).0;
      var id := opens[|opens| - 1].node;
      id in g.heap && !SpecialKey(CloseListenerKey)
      && CloseListeners(f, opens) == (GetEffect(g, id, CloseListenerKey).0, GetEffect(g, id, CloseListenerKey).1.Callable?)
  {
    CloseListenerNotSpecial();
  }

  /** Once a listener call throws, the later entries are not reached. */
  lemma {:induction false} CloseListenersStop(f: Forest, opens: seq<Opened>, i: nat)
    requires Linked(f) && NodesIn(opens, f) && i <= |opens|
    requires i == |opens| || !CloseListeners(f, opens[..i]).1
    ensures CloseListeners(f, opens) == CloseListeners(f, opens[..i])
    decreases |opens|
  {
    if i == |opens| {
      assert opens[..i] == opens;
    } else {
      var prefix := opens[..|opens| - 1];
      assert prefix[..i] == opens[..i];
      CloseListenersStop(f, prefix, i);
      CloseListenersLast(f, opens);
    }
  }

  lemma CloseListenersLast(f: Forest, opens: seq<Opened>)
    requires Linked(f) && NodesIn(opens, f) && |opens| > 0
    requires !CloseListeners(f, opens[..|opens| - 1]).1
    ensures CloseListeners(f, opens) == CloseListeners(f, opens[..|opens| - 1])
  {
  }

  const CloseListenerKey: string := "closeListener"

  lemma CloseListenerNotSpecial()
    ensures !SpecialKey(CloseListenerKey)
  {
    assert |CloseListenerKey| == 13;
  }

  /** The `close` handler: the listeners "closed", then the session deleted, unless a call threw first. */
  function DisconnectEffect(w: World, socketId: int): (r: World)
    requires Good(w) && socketId in w.sessions
    ensures Good(r) && Grows(w.f, r.f) && r.out == w.out
  {
    var (g, ok) := CloseListeners(w.f, w.sessions[socketId].opens);
    World(g, if ok then w.sessions - {socketId} else w.sessions, w.out)
  }
}
