/**
 * The node objects of src/server.ts behind their proxy, changed in place:
 * `NoodleServerObject`'s containers and subscriber lists, and the proxy
 * traps `get`, `set`, `deleteProperty`, `on`/`once`, `off`, with
 * `fromJSON` and `handleCallbacks`. Each method is proved to carry out the
 * effect module `ServerTree` defines for it.
 */
module Server {
  import opened Wrappers
  import opened Strings
  import opened ServerSpec
  import opened ServerTree

  class NoodleTree {
    /** The node objects by identity; the root is `RootId`. */
    var heap: map<NodeId, Node>
    /** The identity the next new node gets. */
    var next: NodeId
    /** The callbacks called so far. */
    var fired: seq<Fired>

    function State(): Forest
      reads this
    {
      Forest(heap, next, fired)
    }

    /** The root exists and the tree is linked. */
    predicate Valid()
      reads this
    {
      RootId in heap && Linked(State())
    }

    constructor ()
      ensures Valid() && State() == Initial()
    {
      heap, next, fired := map[RootId := NewNode([])], 1, [];
    }

    /**
     * `handleCallbacks(property, value)` on node `id`: a `forEach` over the
     * subscriber list that calls every entry that fires and splices out a
     * `once` entry when its count reaches zero, without stepping back.
     */
    method HandleCallbacks(id: NodeId, property: string, value: string)
      requires Valid() && id in heap
      modifies this`heap, this`fired
      ensures Valid() && State() == Notify(old(State()), id, property, value)
    {
      var n := heap[id];
      ghost var total := Sweep(n.subscribers, 0, property, value);
      ghost var called: seq<Sub> := [];
      var subs := n.subscribers;
      var i := 0;
      while i < |subs|
        invariant Sweep(subs, i, property, value).0 == total.0
        invariant called + Sweep(subs, i, property, value).1 == total.1
        invariant fired == old(fired) + Calls(called, n.path, property, value)
        invariant heap == old(heap)
        decreases |subs| + 1 - i
      {
        var e := subs[i];
        if Fires(e, property, value) {
          ghost var before := subs;
          CallsAppend(called, e, n.path, property, value);
          assert Calls([e], n.path, property, value) == [Fired(e.callback, PathText(n.path), property, value)];
          fired := fired + [Fired(e.callback, PathText(n.path), property, value)];
          if e.count > 0 {
            if e.count == 1 {
              subs := subs[..i] + subs[i + 1..];
            } else {
              subs := subs[i := e.(count := e.count - 1)];
            }
          }
          ghost var rest := Sweep(subs, i + 1, property, value);
          assert Sweep(before, i, property, value) == (rest.0, [e] + rest.1);
          assert (called + [e]) + rest.1 == called + ([e] + rest.1);
          called := called + [e];
        }
        i := i + 1;
      }
      heap := heap[id := n.(subscribers := subs)];
    }

    /**
     * The `get` trap for an ordinary key on node `id` (the special keys
     * are the other methods): it answers from the containers, or creates
     * what the key's casing calls for.
     */
    method Get(id: NodeId, raw: string) returns (a: Access)
      requires Valid() && id in heap && !SpecialKey(raw)
      modifies this`heap, this`next
      ensures Valid() && (State(), a) == GetEffect(old(State()), id, raw)
    {
      var n := heap[id];
      var plan := GetPlanOf(n, raw);
      if plan.MakeNode? {
        heap := heap[id := n.(nodes := n.nodes[plan.name := next])][next := NewNode(n.path + [plan.segment])];
        a := ChildNode(next);
        next := next + 1;
      } else {
        var (m, access) := AfterGet(n, plan);
        heap := heap[id := m];
        a := access;
      }
    }

    /** `fromJSON(v)` on node `id`: the keys of `v` merged in order, recursing into objects. */
    method FromJson(id: NodeId, v: JsValue, setter: SetterOracle)
      requires Valid() && id in heap
      modifies this`heap, this`next, this`fired
      ensures State() == MergeJson(old(State()), id, v, setter)
      decreases v, 1
    {
      ghost var f := State();
      var es := Entries(v);
      var i := 0;
      while i < |es|
        invariant i <= |es| && State() == MergeFold(f, id, v, i, setter)
      {
        MergeEntry(f, id, v, i, setter);
        i := i + 1;
      }
      MergeJsonFolds(f, id, v, setter);
    }

    /** One key of `v` merged into node `id`, after the keys before it. */
    method MergeEntry(ghost f: Forest, id: NodeId, v: JsValue, i: nat, setter: SetterOracle)
      requires Linked(f) && RootId in f.heap && id in f.heap && i < |Entries(v)|
      requires State() == MergeFold(f, id, v, i, setter)
      modifies this`heap, this`next, this`fired
      ensures State() == MergeFold(f, id, v, i + 1, setter)
      decreases v, 0
    {
      var (name, x) := Entries(v)[i];
      if IsPrimitive(x) {
        MergeScalar(id, name, x, setter);
      } else if x.Obj? {
        assert x == v.entries[i].1;
        if name in heap[id].nodes {
          FromJson(heap[id].nodes[name], x, setter);
        } else {
          var child := Spawn(id, name, heap[id].path + [name]);
          FromJson(child, x, setter);
        }
      } else {
        SameLinksFit(State(), id, MergeFunction(heap[id], name));
        heap := heap[id := MergeFunction(heap[id], name)];
      }
    }

    /** A string, number or boolean merged in under `name` of node `id`. */
    method MergeScalar(id: NodeId, name: string, x: JsValue, setter: SetterOracle)
      requires Valid() && id in heap
      modifies this`heap, this`fired
      ensures Valid() && State() == ServerTree.MergeScalar(old(State()), id, name, x, setter)
    {
      var (m, note) := MergePrimitive(heap[id], name, x, setter);
      SetNode(id, m, note);
    }

    /** Node `id` replaced by `m`, which keeps its child links, then the change announced if there is one. */
    method SetNode(id: NodeId, m: Node, note: Option<(string, string)>)
      requires Valid() && id in heap && m.nodes == heap[id].nodes
      modifies this`heap, this`fired
      ensures Valid()
      ensures State() == NotifyIf(Put(old(State()), id, m), id, note)
    {
      SameLinksFit(State(), id, m);
      heap := heap[id := m];
      if note.Some? {
        HandleCallbacks(id, note.value.0, note.value.1);
      }
    }

    /** A new empty node with the given path, linked under `name` of node `id`. */
    method Spawn(id: NodeId, name: string, path: seq<string>) returns (child: NodeId)
      requires Valid() && id in heap
      modifies this`heap, this`next
      ensures Valid() && child == old(next) && State() == ServerTree.Spawn(old(State()), id, name, path)
    {
      child := next;
      heap := heap[id := heap[id].(nodes := heap[id].nodes[name := child])][child := NewNode(path)];
      next := next + 1;
    }

    /**
     * The `set` trap on node `id`: the assignment's local change and
     * announcement, a merge into an existing or a new child node, or a
     * thrown `TypeError`.
     */
    method Set(id: NodeId, raw: string, v: JsValue, setter: SetterOracle) returns (r: SetOutcome)
      requires Valid() && id in heap
      modifies this`heap, this`next, this`fired
      ensures Valid() && (State(), r) == SetEffect(old(State()), id, raw, v, setter)
    {
      var n := heap[id];
      var plan := SetPlanOf(n, raw, v, setter);
      match plan {
        case Local(m, note, ok) =>
          SetNode(id, m, note);
          r := Assigned(ok);
        case MergeChild(c) =>
          FromJson(c, v, setter);
          r := Assigned(true);
        case SpawnChild(name) =>
          var child := Spawn(id, name, n.path + [name]);
          FromJson(child, v, setter);
          r := Assigned(true);
        case ThrowsTypeError =>
          r := SetThrew;
      }
    }

    /** The `deleteProperty` trap on node `id`. */
    method DeleteProperty(id: NodeId, key: string) returns (ok: bool)
      requires Valid() && id in heap
      modifies this`heap
      ensures Valid() && (State(), ok) == DeleteEffect(old(State()), id, key)
    {
      var (m, deleted) := Delete(heap[id], key);
      heap := heap[id := m];
      ok := deleted;
    }

    /** `on(condition, callback)` (`once` when `once`) on node `id`: returns the new subscription id. */
    method On(id: NodeId, condition: string, callback: Callback, once: bool) returns (sid: int)
      requires Valid() && id in heap
      modifies this`heap
      ensures Valid() && (State(), sid) == OnEffect(old(State()), id, condition, callback, once)
    {
      var (m, s) := Subscribe(heap[id], condition, callback, once);
      heap := heap[id := m];
      sid := s;
    }

    /** `off`/`removeListener` on node `id`. */
    method Off(id: NodeId, key: OffKey)
      requires Valid() && id in heap
      modifies this`heap
      ensures Valid() && State() == OffEffect(old(State()), id, key)
    {
      heap := heap[id := heap[id].(subscribers := ServerSpec.Off(heap[id].subscribers, key))];
    }
  }
}
