/** Components and their controller registry, as values. A component is a
    recipe built from the combinators; `Eval` gives its meaning: the element
    tree after rendering it and the app it resolves to, whose controller maps
    appear here by contents (`Tables`). The heap-level interpreter in module
    `Render` is proved to compute exactly this. */
module Component {
  import opened Js
  import opened Dom

  /** The context object a component is called with. The `mkElement` entry
      is the document the interpreter is given. */
  type Context = map<string, Value>

  /** A controller object `{name, ...members}` returned by a setup function. */
  datatype Controller = Controller(name: string, members: map<string, Value>)

  /** What a setup function handed to `run` settles to: a controller or
      nothing, or the reason it throws or rejects with. */
  datatype Setup = Resolved(controller: Option<Controller>) | Rejected(reason: Value)

  /** What a controller map holds for one node: `{self: c}`, possibly
      extended by exports. */
  type Entry = map<string, Controller>

  /** The contents of one controller map: `has(n)` is `n in s`; a stored
      `undefined` is `None`. */
  type Slots = map<NodeId, Option<Entry>>

  /** A controllers object: a controller map per name. */
  type Tables = map<string, Slots>

  /** `map.get(n)`: `undefined` when nothing is stored. */
  function Lookup(s: Slots, n: NodeId): Option<Entry> {
    if n in s then s[n] else None
  }

  /** An app by value: its node, its shadow root, and the contents of its
      `controllers` and `internalControllers` objects. */
  datatype View = View(node: NodeId, shadow: Option<NodeId>, controllers: Tables, internal: Tables)

  /** The outcome of rendering: the element tree afterwards (also when the
      promise rejects) and the app or the error. */
  datatype Built = Built(nodes: seq<Element>, app: Result<View>)

  /** The functions handed to `map` that the model covers. */
  datatype Transform =
    | Identity            // `map(id)`
    | WrapDiv             // `wrapDiv`: a new `div` around the node
    | WithShadow          // `map(a => ({...a, shadow: a.node.attachShadow(...)}))`
    | Retag(tag: string)  // `map(a => ({...a, node: document.createElement(tag)}))`

  /** A component recipe: what `pipe` over the combinators builds. `Run`'s
      setup sees the context and resolves to a controller or to nothing, or
      rejects; `Export` selects the internal controller map by name. */
  datatype Component =
    | OfElement(tag: string, modifier: (map<string, string>, Context) -> map<string, string>)
    | Tell(key: string, value: Value, inner: Component)
    | Map(transform: Transform, inner: Component)
    | Run(setup: Context -> Setup, inner: Component)
    | Export(nodeId: string, table: string, exportName: string, inner: Component)
    | AddChild(child: Component, id: string, inner: Component)

  /** `ofElement(tag)` with the default modifier `id`. */
  function Plain(tag: string): Component {
    OfElement(tag, (props, _) => props)
  }

  // `ask<T>()`, `tellController<T>()` and `askEventBus<T>()` only change the
  // static type: at run time each is `Util.Id` on its component.

  // -------------------------------------------------------- tree facts

  /** `v` is a detached element of `ns` created at or after position `lo`,
      and so is its shadow root, if any. */
  predicate RootIn(ns: seq<Element>, lo: nat, v: View) {
    && lo <= v.node < |ns|
    && ns[v.node].parent.None? && ns[v.node].host.None?
    && (v.shadow.Some? ==> lo <= v.shadow.value < |ns|)
  }

  /** `ns2` only adds nodes after those of `ns`, which it leaves as they are. */
  predicate Extends(ns: seq<Element>, ns2: seq<Element>) {
    |ns| <= |ns2| && forall n :: 0 <= n < |ns| ==> ns2[n] == ns[n]
  }

  /** `b.id = id` when `id` is truthy. */
  function WithId(ns: seq<Element>, n: NodeId, id: string): (r: seq<Element>)
    requires n < |ns|
    ensures |r| == |ns|
    ensures r[n] == (if id != "" then ns[n].(props := ns[n].props["id" := id]) else ns[n])
    ensures forall m :: 0 <= m < |ns| && m != n ==> r[m] == ns[m]
  {
    if id != "" then ns[n := ns[n].(props := ns[n].props["id" := id])] else ns
  }

  /** `getNode(app)(id)`: search the shadow root when there is one, else the
      node; the container itself is not a candidate. */
  function FindById(ns: seq<Element>, node: NodeId, shadow: Option<NodeId>, id: string): (r: Option<NodeId>)
    ensures r.Some? ==> r.value < |ns| && HasId(ns[r.value], id)
  {
    var container := if shadow.Some? then shadow.value else node;
    if container < |ns| then Search(ns, ns[container].children, id, |ns|) else None
  }

  /** `getController(app)(m, id)`: the entry `m` holds for the node that
      `getNode` finds, `undefined` when it finds none. */
  function ControllerAt(ns: seq<Element>, node: NodeId, shadow: Option<NodeId>, s: Slots, id: string): (r: Option<Entry>)
    ensures FindById(ns, node, shadow, id).None? ==> r.None?
    ensures r.Some? ==> exists n :: 0 <= n < |ns| && HasId(ns[n], id) && n in s && s[n] == r
  {
    var n := FindById(ns, node, shadow, id);
    if n.Some? then Lookup(s, n.value) else None
  }

  // -------------------------------------------------- controller updates

  /** `weakMap.set(to, weakMap.get(from))`, which `map` applies to each of
      the app's controller maps. */
  function Rekey(s: Slots, from: NodeId, to: NodeId): Slots {
    s[to := Lookup(s, from)]
  }

  function RekeyAll(t: Tables, from: NodeId, to: NodeId): (r: Tables)
    ensures r.Keys == t.Keys
    ensures forall k :: k in t ==> r[k] == Rekey(t[k], from, to)
  {
    map k | k in t :: Rekey(t[k], from, to)
  }

  /** Re-keying twice is re-keying once, so a map shared by two names of
      the controllers object ends up the same. */
  lemma RekeyIdempotent(s: Slots, from: NodeId, to: NodeId)
    ensures Rekey(Rekey(s, from, to), from, to) == Rekey(s, from, to)
  {
  }

  /** `mergeControllers(a, b, nodeB)`: for each name of `b`, the name's map in
      `a` (created if missing) gets `nodeB ↦ b[name].get(nodeB)`. */
  function Merge(a: Tables, b: Tables, nodeB: NodeId): (r: Tables)
    ensures r.Keys == a.Keys + b.Keys
  {
    map k | k in a.Keys + b.Keys :: if k in b then Merged(a, k, nodeB, Lookup(b[k], nodeB)) else a[k]
  }

  /** `(a[k] || new WeakMap()).set(nodeB, v)`, by contents. */
  function Merged(a: Tables, k: string, nodeB: NodeId, v: Option<Entry>): Slots {
    (if k in a then a[k] else map[])[nodeB := v]
  }

  /** The names of `b` among `keys`. */
  function Restrict(b: Tables, keys: set<string>): (r: Tables)
    ensures r.Keys == b.Keys * keys
    ensures forall k :: k in r ==> r[k] == b[k]
  {
    map k | k in b && k in keys :: b[k]
  }

  lemma MergeNothing(a: Tables, b: Tables, nodeB: NodeId)
    ensures Merge(a, Restrict(b, {}), nodeB) == a
  {
    assert Restrict(b, {}) == map[];
  }

  lemma RestrictAll(b: Tables)
    ensures Restrict(b, b.Keys) == b
  {
  }

  /** One key moves from the names still to do to those done. */
  lemma MoveKey(all: set<string>, done: set<string>, todo: set<string>, k: string)
    requires done + todo == all && done !! todo && k in todo
    ensures (done + {k}) + (todo - {k}) == all && (done + {k}) !! (todo - {k})
    ensures k !in done && |todo - {k}| < |todo|
  {
  }

  lemma RestrictInsert(b: Tables, done: set<string>, k: string)
    requires k in b
    ensures Restrict(b, done + {k}) == Restrict(b, done)[k := b[k]]
  {
  }

  /** Merging one more name `k` updates the merge at `k` alone. */
  lemma MergeInsert(a: Tables, r: Tables, k: string, s: Slots, nodeB: NodeId)
    requires k !in r
    ensures Merge(a, r[k := s], nodeB) == Merge(a, r, nodeB)[k := Merged(a, k, nodeB, Lookup(s, nodeB))]
  {
    var m := Merge(a, r, nodeB);
    var lhs := Merge(a, r[k := s], nodeB);
    var rhs := m[k := Merged(a, k, nodeB, Lookup(s, nodeB))];
    assert lhs.Keys == rhs.Keys;
    forall j | j in lhs
      ensures lhs[j] == rhs[j]
    {
      if j != k {
        assert lhs[j] == m[j];
      }
    }
  }

  /** `mergeControllers` handles the names of `b` one at a time. */
  lemma MergeRestrictStep(a: Tables, b: Tables, done: set<string>, k: string, nodeB: NodeId)
    requires k in b && k !in done
    ensures var m := Merge(a, Restrict(b, done), nodeB);
      Merge(a, Restrict(b, done + {k}), nodeB) == m[k := Merged(m, k, nodeB, Lookup(b[k], nodeB))]
  {
    RestrictInsert(b, done, k);
    MergeInsert(a, Restrict(b, done), k, b[k], nodeB);
    var m := Merge(a, Restrict(b, done), nodeB);
    assert k in m <==> k in a;
    assert k in m ==> m[k] == a[k];
  }

  /** `run`: a returned controller replaces the name's map by one holding
      only `node ↦ {self: c}`. */
  function Register(v: View, c: Option<Controller>): (r: View)
    ensures r.node == v.node && r.shadow == v.shadow && r.internal == v.internal
    ensures c.None? ==> r == v
    ensures c.Some? ==>
      && r.controllers.Keys == v.controllers.Keys + {c.value.name}
      && r.controllers[c.value.name] == map[v.node := Some(map["self" := c.value])]
      && (forall k :: k in v.controllers && k != c.value.name ==> r.controllers[k] == v.controllers[k])
  {
    if c.None? then v
    else
      var only: Slots := map[v.node := Some(map["self" := c.value])];
      v.(controllers := v.controllers[c.value.name := only])
  }

  /** `exportController`'s update of the base map: the node's entry becomes
      the previous entry object (`{}` when absent or `undefined`) extended
      with `exportName ↦ c`. */
  function Exported(s: Slots, node: NodeId, exportName: string, c: Controller): (r: Slots)
    ensures r.Keys == s.Keys + {node}
    ensures Lookup(r, node).Some? && exportName in Lookup(r, node).value && Lookup(r, node).value[exportName] == c
    ensures Lookup(s, node).Some? ==> forall k :: k in Lookup(s, node).value && k != exportName ==>
      k in Lookup(r, node).value && Lookup(r, node).value[k] == Lookup(s, node).value[k]
    ensures forall n :: n != node ==> Lookup(r, n) == Lookup(s, n)
  {
    var prev := Lookup(s, node);
    s[node := Some((if prev.Some? then prev.value else map[]) + map[exportName := c])]
  }

  /** The controller `exportController` exports: the `self` of the entry
      that the selected internal map holds for the node with id `nodeId`.
      Dereferencing what is not there is a `TypeError`. */
  function ExportedController(ns: seq<Element>, x: View, nodeId: string, table: string): (r: Result<Controller>)
    ensures r.Err? ==> r.error.TypeError?
    ensures r.Ok? ==> table in x.internal
    ensures r.Ok? ==>
      exists n :: && 0 <= n < |ns| && HasId(ns[n], nodeId) && n in x.internal[table]
                  && x.internal[table][n].Some? && "self" in x.internal[table][n].value
                  && x.internal[table][n].value["self"] == r.value
  {
    if table !in x.internal then Err(TypeError("controllers is undefined"))
    else
      var entry := ControllerAt(ns, x.node, x.shadow, x.internal[table], nodeId);
      if entry.None? then Err(TypeError("controller is undefined"))
      else if "self" !in entry.value then Err(TypeError("controller.self is undefined"))
      else Ok(entry.value["self"])
  }

  /** `exportController` on the app `x` rendered in `ns`: the controller's
      own name gets the base map (a new one when there is none) extended at
      `x.node`. */
  function ExportView(ns: seq<Element>, x: View, nodeId: string, table: string, exportName: string): (r: Result<View>)
    ensures r.Err? ==> r.error.TypeError?
    ensures r.Ok? ==> r.value.node == x.node && r.value.shadow == x.shadow && r.value.internal == x.internal
  {
    var c := ExportedController(ns, x, nodeId, table);
    if c.Err? then Err(c.error)
    else
      var base := if c.value.name in x.controllers then x.controllers[c.value.name] else map[];
      Ok(x.(controllers := x.controllers[c.value.name := Exported(base, x.node, exportName, c.value)]))
  }

  // ------------------------------------------------------------ rendering

  /** The node and shadow changes of the covered `map` functions. */
  function TransformView(ns: seq<Element>, t: Transform, x: View): (r: Built)
    requires RootIn(ns, 0, x)
    ensures |r.nodes| >= |ns|
    ensures forall n :: 0 <= n < |ns| && n != x.node ==> r.nodes[n] == ns[n]
    ensures r.app.Ok? ==>
      var m := r.app.value;
      && m.controllers == x.controllers && m.internal == x.internal
      && RootIn(r.nodes, 0, m)
      && (m.node == x.node || m.node >= |ns|)
      && (m.shadow.Some? ==> m.shadow == x.shadow || m.shadow.value >= |ns|)
  {
    match t
    case Identity => Built(ns, Ok(x))
    case WrapDiv =>
      var ns1 := ns + [NewElement("div")];
      if Above(ns1, x.node, |ns|, |ns1|) then Built(ns1, Err(HierarchyRequest))
      else Built(AppendChild(ns1, |ns|, x.node), Ok(x.(node := |ns|)))
    case WithShadow =>
      var s := AttachShadowRoot(ns, x.node);
      if s.Err? then Built(ns, Err(s.error)) else Built(s.value, Ok(x.(shadow := Some(|ns|))))
    case Retag(tag) => Built(ns + [NewElement(tag)], Ok(x.(node := |ns|)))
  }

  /** `addChild`'s continuation once parent `a` and child `b` are rendered:
      set the id, append the child under the shadow root or the node, merge
      the child's controllers into the parent's internal ones. */
  function Attach(ns: seq<Element>, a: View, b: View, id: string): (r: Built)
    requires a.node < |ns| && b.node < |ns| && (a.shadow.Some? ==> a.shadow.value < |ns|)
    ensures |r.nodes| == |ns|
    ensures r.app.Ok? ==> r.app.value == a.(internal := Merge(a.internal, b.controllers, b.node))
    ensures r.app.Err? ==> r.app.error == HierarchyRequest
  {
    var ns1 := WithId(ns, b.node, id);
    var target := if a.shadow.Some? then a.shadow.value else a.node;
    if Above(ns1, b.node, target, |ns1|) then Built(ns1, Err(HierarchyRequest))
    else Built(AppendChild(ns1, target, b.node), Ok(a.(internal := Merge(a.internal, b.controllers, b.node))))
  }

  /** Where `Attach` appends. */
  function Target(a: View): NodeId {
    if a.shadow.Some? then a.shadow.value else a.node
  }

  /** Rendering under a fresh parent leaves the older nodes alone. */
  lemma AttachFrame(ns: seq<Element>, lo: nat, a: View, b: View, id: string)
    requires RootIn(ns, lo, a) && RootIn(ns, lo, b) && a.node != b.node
    ensures var r := Attach(ns, a, b, id);
      && (forall n :: 0 <= n < lo ==> r.nodes[n] == ns[n])
      && r.nodes[a.node].parent.None? && r.nodes[a.node].host.None?
  {
    var ns1 := WithId(ns, b.node, id);
    if !Above(ns1, b.node, Target(a), |ns1|) {
      assert ns1[b.node].parent.None?;
    }
  }

  /** What rendering from the tree `ns` may do to it: add nodes after the
      existing ones, and resolve to a detached root among those. */
  predicate Grows(ns: seq<Element>, r: Built) {
    Extends(ns, r.nodes) && (r.app.Ok? ==> RootIn(r.nodes, |ns|, r.app.value))
  }

  /** What rendering component `c` with context `ctx` does, starting from the
      element tree `ns`. */
  function Eval(ns: seq<Element>, c: Component, ctx: Context): (r: Built)
    ensures Grows(ns, r)
    decreases c, 1
  {
    match c
    case OfElement(tag, modifier) =>
      Built(ns + [NewElement(tag).(props := modifier(map[], ctx))], Ok(View(|ns|, None, map[], map[])))
    case Tell(k, v, inner) =>
      Eval(ns, inner, ctx[k := v])
    case Map(t, inner) => EvalMap(ns, t, inner, ctx)
    case Run(setup, inner) => EvalRun(ns, setup, inner, ctx)
    case Export(nodeId, table, exportName, inner) => EvalExport(ns, nodeId, table, exportName, inner, ctx)
    case AddChild(child, id, inner) => EvalAddChild(ns, child, id, inner, ctx)
  }

  /** `map(f)(inner)`: the transform, then the re-keying of the controller
      maps from the old node to the new one. */
  function EvalMap(ns: seq<Element>, t: Transform, inner: Component, ctx: Context): (r: Built)
    ensures Grows(ns, r)
    decreases Map(t, inner), 0
  {
    var a := Eval(ns, inner, ctx);
    if a.app.Err? then a
    else
      var x := a.app.value;
      var m := TransformView(a.nodes, t, x);
      if m.app.Err? then m
      else Built(m.nodes, Ok(m.app.value.(controllers := RekeyAll(x.controllers, x.node, m.app.value.node))))
  }

  /** `run(setup)(inner)`. */
  function EvalRun(ns: seq<Element>, setup: Context -> Setup, inner: Component, ctx: Context): (r: Built)
    ensures Grows(ns, r)
    decreases Run(setup, inner), 0
  {
    var a := Eval(ns, inner, ctx);
    if a.app.Err? then a
    else match setup(ctx)
      case Rejected(why) => Built(a.nodes, Err(Raised(why)))
      case Resolved(ctl) => Built(a.nodes, Ok(Register(a.app.value, ctl)))
  }

  /** `exportController(...)(inner)`. */
  function EvalExport(ns: seq<Element>, nodeId: string, table: string, exportName: string, inner: Component, ctx: Context): (r: Built)
    ensures Grows(ns, r)
    decreases Export(nodeId, table, exportName, inner), 0
  {
    var a := Eval(ns, inner, ctx);
    if a.app.Err? then a else Built(a.nodes, ExportView(a.nodes, a.app.value, nodeId, table, exportName))
  }

  /** `addChild(child, id)(inner)`: the parent, then the child, then the
      attachment. */
  function EvalAddChild(ns: seq<Element>, child: Component, id: string, inner: Component, ctx: Context): (r: Built)
    ensures Grows(ns, r)
    decreases AddChild(child, id, inner), 0
  {
    var a := Eval(ns, inner, ctx);
    if a.app.Err? then a
    else
      var b := Eval(a.nodes, child, ctx);
      if b.app.Err? then b
      else
        AttachFrame(b.nodes, |ns|, a.app.value, b.app.value, id);
        Attach(b.nodes, a.app.value, b.app.value, id)
  }

  /** When parent and child render, `addChild` resolves to the attachment. */
  lemma EvalAddChildOk(ns: seq<Element>, child: Component, id: string, inner: Component, ctx: Context)
    requires Eval(ns, inner, ctx).app.Ok?
    requires Eval(Eval(ns, inner, ctx).nodes, child, ctx).app.Ok?
    ensures var a := Eval(ns, inner, ctx);
      var b := Eval(a.nodes, child, ctx);
      Eval(ns, AddChild(child, id, inner), ctx) == Attach(b.nodes, a.app.value, b.app.value, id)
  {
  }

  // ------------------------------------------------------------ setChildren

  datatype Mode = Replace | Append

  /** Each of `ks` removed from its parent, in order. */
  function RemoveAll(ns: seq<Element>, ks: seq<NodeId>): (r: seq<Element>)
    requires forall k :: k in ks ==> k < |ns|
    ensures |r| == |ns|
    decreases |ks|
  {
    if ks == [] then ns
    else
      var init := ks[..|ks| - 1];
      assert forall k :: k in init ==> k in ks;
      var last := ks[|ks| - 1];
      assert last in ks;
      Detach(RemoveAll(ns, init), last)
  }

  /** The outcome of `setChildren`: the tree, the parent's internal
      controllers, the roots of the children attached, and the error that
      rejected the promise, if any. */
  datatype Children = Children(nodes: seq<Element>, internal: Tables, kids: seq<NodeId>, err: Option<Error>)

  /** One step of the reduce after the previous ones succeeded: the next
      component rendered and attached to `a` with the internal tables merged
      so far. */
  function AttachStep(prev: Children, a: View, ctx: Context, c: Component, id: string): (r: Children)
    requires a.node < |prev.nodes| && (a.shadow.Some? ==> a.shadow.value < |prev.nodes|)
    ensures |r.nodes| >= |prev.nodes|
  {
    var b := Eval(prev.nodes, c, ctx);
    if b.app.Err? then Children(b.nodes, prev.internal, prev.kids, Some(b.app.error))
    else
      var s := Attach(b.nodes, a.(internal := prev.internal), b.app.value, id);
      if s.app.Err? then Children(s.nodes, prev.internal, prev.kids, Some(s.app.error))
      else Children(s.nodes, s.app.value.internal, prev.kids + [b.app.value.node], None)
  }

  /** `components.reduce((res, child) => addChild(child, id)(res), ofApp(app))`
      run to completion: each component rendered and attached in turn, until
      one fails. */
  function AttachAll(ns: seq<Element>, a: View, ctx: Context, comps: seq<Component>, id: string): (r: Children)
    requires a.node < |ns| && (a.shadow.Some? ==> a.shadow.value < |ns|)
    ensures |r.nodes| >= |ns|
    decreases |comps|
  {
    if comps == [] then Children(ns, a.internal, [], None)
    else
      var prev := AttachAll(ns, a, ctx, comps[..|comps| - 1], id);
      if prev.err.Some? then prev else AttachStep(prev, a, ctx, comps[|comps| - 1], id)
  }

  /** `setChildren(app, context, mode)(components, id)`. */
  function SetChildrenView(ns: seq<Element>, a: View, ctx: Context, mode: Mode, comps: seq<Component>, id: string): (r: Children)
    requires WellFormed(ns) && a.node < |ns| && (a.shadow.Some? ==> a.shadow.value < |ns|)
    ensures |ns| <= |r.nodes|
  {
    var kids := ns[a.node].children;
    assert Linked(ns, a.node);
    var ns1 := if mode == Replace then RemoveAll(ns, kids) else ns;
    AttachAll(ns1, a, ctx, comps, id)
  }

  /** Once a component fails, the rest are neither rendered nor attached. */
  lemma {:induction false} AttachAllStops(ns: seq<Element>, a: View, ctx: Context, comps: seq<Component>, id: string, j: nat)
    requires a.node < |ns| && (a.shadow.Some? ==> a.shadow.value < |ns|)
    requires j <= |comps| && AttachAll(ns, a, ctx, comps[..j], id).err.Some?
    ensures AttachAll(ns, a, ctx, comps, id) == AttachAll(ns, a, ctx, comps[..j], id)
    decreases |comps|
  {
    if j < |comps| {
      var init := comps[..|comps| - 1];
      assert init[..j] == comps[..j];
      AttachAllStops(ns, a, ctx, init, id, j);
    } else {
      assert comps[..j] == comps;
    }
  }

  /** After `j` successful steps the reduce takes step `j + 1`. */
  lemma AttachAllNext(ns: seq<Element>, a: View, ctx: Context, comps: seq<Component>, id: string, j: nat)
    requires a.node < |ns| && (a.shadow.Some? ==> a.shadow.value < |ns|)
    requires j < |comps| && AttachAll(ns, a, ctx, comps[..j], id).err.None?
    ensures var prev := AttachAll(ns, a, ctx, comps[..j], id);
      AttachAll(ns, a, ctx, comps[..j + 1], id) == AttachStep(prev, a, ctx, comps[j], id)
  {
    assert comps[..j + 1][..j] == comps[..j] && comps[..j + 1][j] == comps[j];
  }
}
