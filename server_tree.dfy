/**
 * The server's node tree as a whole (src/server.ts): the node objects
 * reachable from the root, each under its own identity, the identity the
 * next new node gets, and the log of callback invocations. Every proxy
 * trap is an effect on this state; the class in module `Server` carries
 * the effects out in place.
 */
module ServerTree {
  import opened Wrappers
  import opened Strings
  import opened ServerSpec

  /** The root node's identity. */
  const RootId: NodeId := 0

  /** The node objects, the identity for the next new node, and the callbacks called so far. */
  datatype Forest = Forest(heap: map<NodeId, Node>, next: NodeId, fired: seq<Fired>)

  /**
   * Every node's identity is below `next`, and every child link leads to
   * a node that exists and was made after its parent: the tree has no
   * cycles and no dangling links.
   */
  predicate Linked(f: Forest) {
    (forall id :: id in f.heap ==> id < f.next)
    && (forall id, k :: id in f.heap && k in f.heap[id].nodes ==> f.heap[id].nodes[k] in f.heap && f.heap[id].nodes[k] > id)
  }

  /** Nothing is forgotten: nodes stay, identities are not reused, and the callback log only grows. */
  predicate Grows(f: Forest, g: Forest) {
    f.heap.Keys <= g.heap.Keys && f.next <= g.next && f.fired <= g.fired
  }

  /** The tree a server starts with: an empty root. */
  function Initial(): (f: Forest)
    ensures Linked(f) && RootId in f.heap && f.fired == []
  {
    Forest(map[RootId := NewNode([])], 1, [])
  }

  /** Node `n` may stand at `id`: its child links lead to existing nodes made after it. */
  predicate Fits(f: Forest, id: NodeId, n: Node) {
    forall k :: k in n.nodes ==> n.nodes[k] in f.heap && n.nodes[k] > id
  }

  /** The tree with node `id` replaced. */
  function Put(f: Forest, id: NodeId, n: Node): (g: Forest)
    requires Linked(f) && id in f.heap && Fits(f, id, n)
    ensures Linked(g) && Grows(f, g) && g.heap.Keys == f.heap.Keys && g.next == f.next && g.fired == f.fired
    ensures g.heap[id] == n && forall j :: j in f.heap && j != id ==> g.heap[j] == f.heap[j]
  {
    f.(heap := f.heap[id := n])
  }

  /** A node keeping its child links fits where it stands. */
  lemma SameLinksFit(f: Forest, id: NodeId, n: Node)
    requires Linked(f) && id in f.heap && n.nodes == f.heap[id].nodes
    ensures Fits(f, id, n)
  {
  }

  /**
   * A new, empty node with the given path, at identity `next`, linked from
   * node `id` under `name` (replacing any earlier link of that name).
   */
  function Spawn(f: Forest, id: NodeId, name: string, path: seq<string>): (g: Forest)
    requires Linked(f) && id in f.heap
    ensures Linked(g) && Grows(f, g) && g.heap.Keys == f.heap.Keys + {f.next} && g.next == f.next + 1 && g.fired == f.fired
    ensures g.heap[f.next] == NewNode(path) && g.heap[id] == f.heap[id].(nodes := f.heap[id].nodes[name := f.next])
    ensures forall j :: j in f.heap && j != id ==> g.heap[j] == f.heap[j]
  {
    var n := f.heap[id];
    Forest(f.heap[id := n.(nodes := n.nodes[name := f.next])][f.next := NewNode(path)], f.next + 1, f.fired)
  }

  /**
   * `handleCallbacks` at node `id`: the sweep's callbacks are logged, in
   * order, with the node's path, and the node keeps the swept list.
   */
  function Notify(f: Forest, id: NodeId, property: string, value: string): (g: Forest)
    requires Linked(f) && id in f.heap
    ensures Linked(g) && Grows(f, g) && g.heap.Keys == f.heap.Keys && g.next == f.next
    ensures var r := Sweep(f.heap[id].subscribers, 0, property, value);
      g.heap == f.heap[id := f.heap[id].(subscribers := r.0)]
      && g.fired == f.fired + Calls(r.1, f.heap[id].path, property, value)
  {
    var n := f.heap[id];
    var r := Sweep(n.subscribers, 0, property, value);
    Forest(f.heap[id := n.(subscribers := r.0)], f.next, f.fired + Calls(r.1, n.path, property, value))
  }

  /** Announcing a change when there is one. */
  function NotifyIf(f: Forest, id: NodeId, note: Option<(string, string)>): (g: Forest)
    requires Linked(f) && id in f.heap
    ensures Linked(g) && Grows(f, g) && g.heap.Keys == f.heap.Keys && g.next == f.next
    ensures note.None? ==> g == f
  {
    if note.Some? then Notify(f, id, note.value.0, note.value.1) else f
  }

  // ---------------------------------------------------------------------
  // fromJSON
  // ---------------------------------------------------------------------

  /** `fromJSON` for one string, number or boolean under `name` of node `id`. */
  function MergeScalar(f: Forest, id: NodeId, name: string, v: JsValue, setter: SetterOracle): (g: Forest)
    requires Linked(f) && id in f.heap
    ensures Linked(g) && Grows(f, g) && g.heap.Keys == f.heap.Keys && g.next == f.next
  {
    var (m, note) := MergePrimitive(f.heap[id], name, v, setter);
    NotifyIf(Put(f, id, m), id, note)
  }

  /**
   * `fromJSON(v)` on node `id`: every key of `v` in order (a string's
   * characters under their indices; nothing for a number, boolean or
   * function) is merged into the node.
   */
  function MergeJson(f: Forest, id: NodeId, v: JsValue, setter: SetterOracle): (g: Forest)
    requires Linked(f) && id in f.heap
    ensures Linked(g) && Grows(f, g)
    decreases v, 1, 0
  {
    MergeFold(f, id, v, |Entries(v)|, setter)
  }

  /**
   * The first `k` keys of `v` merged into node `id`: a primitive becomes
   * a property, an object is merged into the child node of that name
   * (made first, with the path extended by the name, when missing), and a
   * function becomes a method's body.
   */
  function MergeFold(f: Forest, id: NodeId, v: JsValue, k: nat, setter: SetterOracle): (g: Forest)
    requires Linked(f) && id in f.heap && k <= |Entries(v)|
    ensures Linked(g) && Grows(f, g)
    decreases v, 0, k
  {
    if k == 0 then f
    else
      var g := MergeFold(f, id, v, k - 1, setter);
      var (name, x) := Entries(v)[k - 1];
      if IsPrimitive(x) then MergeScalar(g, id, name, x, setter)
      else if x.Obj? then
        assert v.Obj? && x == v.entries[k - 1].1;
        if name in g.heap[id].nodes then MergeJson(g, g.heap[id].nodes[name], x, setter)
        else MergeJson(Spawn(g, id, name, g.heap[id].path + [name]), g.next, x, setter)
      else Put(g, id, MergeFunction(g.heap[id], name))
  }

  /** `fromJSON` is the fold over all the keys. */
  lemma MergeJsonFolds(f: Forest, id: NodeId, v: JsValue, setter: SetterOracle)
    requires Linked(f) && id in f.heap
    ensures MergeJson(f, id, v, setter) == MergeFold(f, id, v, |Entries(v)|, setter)
  {
  }

  /** A number, boolean or function has no keys: merging it changes nothing. */
  lemma MergeKeyless(f: Forest, id: NodeId, v: JsValue, setter: SetterOracle)
    requires Linked(f) && id in f.heap && (v.Num? || v.Bool? || v.Fun?)
    ensures MergeJson(f, id, v, setter) == f
  {
  }

  /**
   * Merging `{name: text}` into a node without a property `name` creates
   * it read-only with that text, and announces it to the node's
   * subscribers.
   */
  lemma MergeCreatesReadOnly(f: Forest, id: NodeId, name: string, x: JsValue, setter: SetterOracle)
    requires Linked(f) && id in f.heap && IsPrimitive(x) && name !in f.heap[id].properties
    ensures var g := MergeJson(f, id, Obj([(name, x)]), setter);
      var n := f.heap[id].(properties := f.heap[id].properties[name := Property(Text(x), "", false, false)]);
      var r := Sweep(n.subscribers, 0, name, Text(x));
      g.heap == f.heap[id := n.(subscribers := r.0)]
      && g.fired == f.fired + Calls(r.1, n.path, name, Text(x))
  {
    var v := Obj([(name, x)]);
    assert Entries(v)[0] == (name, x);
    assert MergeFold(f, id, v, 0, setter) == f;
    assert MergeJson(f, id, v, setter) == MergeScalar(f, id, name, x, setter);
    MergePrimitiveCases(f.heap[id], name, x, setter);
  }

  /**
   * Merging `{name: text}` into a node whose property `name` has no
   * setter and already holds that text changes nothing and calls nothing.
   */
  lemma MergeUnchangedIsSilent(f: Forest, id: NodeId, name: string, x: JsValue, setter: SetterOracle)
    requires Linked(f) && id in f.heap && IsPrimitive(x) && name in f.heap[id].properties
    requires !f.heap[id].properties[name].setter && f.heap[id].properties[name].value == Text(x)
    ensures MergeJson(f, id, Obj([(name, x)]), setter) == f
  {
    var v := Obj([(name, x)]);
    assert Entries(v)[0] == (name, x);
    assert MergeFold(f, id, v, 0, setter) == f;
    var p := f.heap[id].properties[name];
    assert f.heap[id].properties[name := p] == f.heap[id].properties;
    assert f.heap[id := f.heap[id]] == f.heap;
  }

  // ---------------------------------------------------------------------
  // The proxy traps
  // ---------------------------------------------------------------------

  /**
   * The `get` trap for an ordinary key at node `id`: a new node is made
   * at `next` with the node's path extended by the key; a new method or
   * property changes the node only.
   */
  function GetEffect(f: Forest, id: NodeId, raw: string): (r: (Forest, Access))
    requires Linked(f) && id in f.heap && !SpecialKey(raw)
    ensures Linked(r.0) && Grows(f, r.0) && r.0.fired == f.fired
  {
    var n := f.heap[id];
    var plan := GetPlanOf(n, raw);
    if plan.MakeNode? then (Spawn(f, id, plan.name, n.path + [plan.segment]), ChildNode(f.next))
    else
      var (m, a) := AfterGet(n, plan);
      (Put(f, id, m), a)
  }

  /** Reading a key never creates a second node under a name that already has one, nor forgets a node. */
  lemma GetKeepsChildren(f: Forest, id: NodeId, raw: string)
    requires Linked(f) && id in f.heap && !SpecialKey(raw)
    ensures var g := GetEffect(f, id, raw).0;
      forall k :: k in f.heap[id].nodes ==> k in g.heap[id].nodes && g.heap[id].nodes[k] == f.heap[id].nodes[k]
  {
  }

  /** What an assignment returns: `true`/`false`, or a thrown `TypeError`. */
  datatype SetOutcome = Assigned(ok: bool) | SetThrew

  /**
   * The `set` trap at node `id`: a local change (then the announcement, if
   * any), a merge into an existing child node, a new child node named by
   * the main key that the value is merged into, or a throw that changes
   * nothing.
   */
  function SetEffect(f: Forest, id: NodeId, raw: string, v: JsValue, setter: SetterOracle): (r: (Forest, SetOutcome))
    requires Linked(f) && id in f.heap
    ensures Linked(r.0) && Grows(f, r.0)
    ensures r.1 == SetThrew ==> r.0 == f
  {
    var n := f.heap[id];
    match SetPlanOf(n, raw, v, setter)
    case Local(m, note, ok) =>
      SameLinksFit(f, id, m);
      (NotifyIf(Put(f, id, m), id, note), Assigned(ok))
    case MergeChild(c) => (MergeJson(f, c, v, setter), Assigned(true))
    case SpawnChild(name) => (MergeJson(Spawn(f, id, name, n.path + [name]), f.next, v, setter), Assigned(true))
    case ThrowsTypeError => (f, SetThrew)
  }

  /** `deleteProperty` at node `id`: dropping a child link keeps the tree linked. */
  function DeleteEffect(f: Forest, id: NodeId, key: string): (r: (Forest, bool))
    requires Linked(f) && id in f.heap
    ensures Linked(r.0) && Grows(f, r.0) && r.0.heap.Keys == f.heap.Keys
    ensures r.1 <==> key in OwnKeys(f.heap[id])
    ensures !r.1 ==> r.0 == f
  {
    var (m, ok) := Delete(f.heap[id], key);
    DeleteReportsListed(f.heap[id], key);
    (Put(f, id, m), ok)
  }

  /** `on`/`once` at node `id`: the new entry and the subscription id. */
  function OnEffect(f: Forest, id: NodeId, condition: string, callback: Callback, once: bool): (r: (Forest, int))
    requires Linked(f) && id in f.heap
    ensures Linked(r.0) && Grows(f, r.0) && r.0.heap.Keys == f.heap.Keys && r.0.fired == f.fired
    ensures r.1 == f.heap[id].subscriptionIdCounter + 1
  {
    var (m, sid) := Subscribe(f.heap[id], condition, callback, once);
    SameLinksFit(f, id, m);
    (Put(f, id, m), sid)
  }

  /** `off`/`removeListener` at node `id`. */
  function OffEffect(f: Forest, id: NodeId, key: OffKey): (g: Forest)
    requires Linked(f) && id in f.heap
    ensures Linked(g) && Grows(f, g) && g.heap.Keys == f.heap.Keys && g.fired == f.fired
    ensures g.heap[id].subscribers == Off(f.heap[id].subscribers, key)
  {
    var n := f.heap[id];
    SameLinksFit(f, id, n.(subscribers := Off(n.subscribers, key)));
    Put(f, id, n.(subscribers := Off(n.subscribers, key)))
  }

  /**
   * `on` followed by `off` with the id it returned leaves the subscriber
   * list of the node as it was.
   */
  lemma OnThenOff(f: Forest, id: NodeId, condition: string, callback: Callback, once: bool)
    requires Linked(f) && id in f.heap && IdsIssued(f.heap[id])
    ensures var (g, sid) := OnEffect(f, id, condition, callback, once);
      OffEffect(g, id, ById(sid)).heap[id].subscribers == f.heap[id].subscribers
  {
    SubscribeThenOff(f.heap[id], condition, callback, once);
  }

  // ---------------------------------------------------------------------
  // toJSON
  // ---------------------------------------------------------------------

  /** What `toJSON` gives: property values and, recursively, child nodes. */
  datatype Json = Json(values: map<string, string>, children: map<string, Json>)

  /**
   * `toJSON` of node `id`: every property's value and every child node's
   * JSON; a child node replaces a property of the same name, and methods
   * are left out.
   */
  function ToJson(f: Forest, id: NodeId): (r: Json)
    requires Linked(f) && id in f.heap
    ensures r.values.Keys == f.heap[id].properties.Keys - f.heap[id].nodes.Keys
    ensures r.children.Keys == f.heap[id].nodes.Keys
    ensures forall k :: k in r.values ==> r.values[k] == f.heap[id].properties[k].value
    decreases f.next - id
  {
    var n := f.heap[id];
    Json(map k | k in n.properties && k !in n.nodes :: n.properties[k].value,
      map k | k in n.nodes :: ToJson(f, n.nodes[k]))
  }

  /** A method's name appears in `toJSON` only if a property or node has the same name. */
  lemma ToJsonOmitsMethods(f: Forest, id: NodeId, name: string)
    requires Linked(f) && id in f.heap && name in f.heap[id].methods
    requires name !in f.heap[id].properties && name !in f.heap[id].nodes
    ensures name !in ToJson(f, id).values && name !in ToJson(f, id).children
  {
  }
}
