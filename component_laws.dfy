/** The laws of the combinators, stated on `Eval`: what each one does to the
    app it wraps, and what rendering guarantees for the document. */
module ComponentLaws {
  import opened Js
  import opened Dom
  import opened Component

  // ------------------------------------------------- document and rejection

  /** The covered `map` functions keep the tree well formed; only attaching a
      shadow root can be refused. */
  lemma TransformWellFormed(ns: seq<Element>, t: Transform, x: View)
    requires WellFormed(ns) && RootIn(ns, 0, x)
    ensures var m := TransformView(ns, t, x);
      && WellFormed(m.nodes)
      && (m.app.Err? ==> t == WithShadow && m.app.error.NotSupported?)
  {
    match t
    case Identity =>
    case WrapDiv =>
      var ns1 := ns + [NewElement("div")];
      AddDetachedWellFormed(ns, NewElement("div"));
      AboveRoot(ns1, x.node, |ns|, |ns1|);
      AppendWellFormed(ns1, |ns|, x.node);
    case WithShadow =>
      if AttachShadowRoot(ns, x.node).Ok? {
        AttachShadowWellFormed(ns, x.node);
      }
    case Retag(tag) =>
      AddDetachedWellFormed(ns, NewElement(tag));
  }

  /** Appending a child rendered after its parent is never refused and keeps
      the tree well formed: the child, with its id, becomes the last child of
      the target and nothing else changes. */
  lemma AttachWellFormed(ns: seq<Element>, ns2: seq<Element>, a: View, b: View, id: string)
    requires WellFormed(ns) && WellFormed(ns2) && Extends(ns, ns2)
    requires a.node < |ns| && (a.shadow.Some? ==> a.shadow.value < |ns|)
    requires RootIn(ns2, |ns|, b)
    ensures var r := Attach(ns2, a, b, id);
      var t := Target(a);
      && WellFormed(r.nodes) && r.app.Ok?
      && r.nodes[t].children == ns[t].children + [b.node]
      && r.nodes[b.node].parent == Some(t)
      && r.nodes[b.node].tag == ns2[b.node].tag
      && (id != "" ==> HasId(r.nodes[b.node], id))
      && (forall n :: 0 <= n < |r.nodes| && n != t && n != b.node ==> r.nodes[n] == ns2[n])
  {
    var ns1 := WithId(ns2, b.node, id);
    if id != "" {
      SetPropsWellFormed(ns2, b.node, ns2[b.node].props["id" := id]);
    }
    AboveOnlyOld(ns, ns1, b.node, Target(a), |ns1|);
    AppendWellFormed(ns1, Target(a), b.node);
    assert Linked(ns, Target(a));
    WithoutAbsent(ns[Target(a)].children, b.node);
  }

  /** Rendering keeps the document well formed, and only `attachShadow`,
      `exportController` and a rejecting setup of `run` can reject: the
      appends of `addChild` and `wrapDiv` never meet a hierarchy error. */
  lemma {:induction false} EvalWellFormed(ns: seq<Element>, c: Component, ctx: Context)
    requires WellFormed(ns)
    ensures var r := Eval(ns, c, ctx);
      && WellFormed(r.nodes)
      && (r.app.Err? ==> r.app.error.NotSupported? || r.app.error.TypeError? || r.app.error.Raised?)
    decreases c
  {
    match c
    case OfElement(tag, modifier) =>
      AddDetachedWellFormed(ns, NewElement(tag).(props := modifier(map[], ctx)));
    case Tell(k, v, inner) =>
      EvalWellFormed(ns, inner, ctx[k := v]);
    case Map(t, inner) =>
      EvalWellFormed(ns, inner, ctx);
      var a := Eval(ns, inner, ctx);
      if a.app.Ok? {
        TransformWellFormed(a.nodes, t, a.app.value);
      }
    case Run(setup, inner) =>
      EvalWellFormed(ns, inner, ctx);
    case Export(nodeId, table, exportName, inner) =>
      EvalWellFormed(ns, inner, ctx);
    case AddChild(child, id, inner) =>
      EvalWellFormed(ns, inner, ctx);
      var a := Eval(ns, inner, ctx);
      if a.app.Ok? {
        EvalWellFormed(a.nodes, child, ctx);
        var b := Eval(a.nodes, child, ctx);
        if b.app.Ok? {
          AttachWellFormed(a.nodes, b.nodes, a.app.value, b.app.value, id);
        }
      }
  }

  // -------------------------------------------------------------- tell, ask

  /** `tell` binds the key for everything it wraps, so the binding nearest to
      the component wins. */
  lemma TellInnermostWins(ns: seq<Element>, k: string, v1: Value, v2: Value, c: Component, ctx: Context)
    ensures Eval(ns, Tell(k, v2, Tell(k, v1, c)), ctx) == Eval(ns, Tell(k, v1, c), ctx)
  {
    assert ctx[k := v2][k := v1] == ctx[k := v1];
  }

  /** Bindings of different keys do not interfere. */
  lemma TellCommute(ns: seq<Element>, k1: string, v1: Value, k2: string, v2: Value, c: Component, ctx: Context)
    requires k1 != k2
    ensures Eval(ns, Tell(k1, v1, Tell(k2, v2, c)), ctx) == Eval(ns, Tell(k2, v2, Tell(k1, v1, c)), ctx)
  {
    assert ctx[k1 := v1][k2 := v2] == ctx[k2 := v2][k1 := v1];
  }

  /** A value told around `addChild` reaches the child as well as the parent. */
  lemma TellReachesChild(ns: seq<Element>, k: string, v: Value, child: Component, id: string, inner: Component, ctx: Context)
    ensures Eval(ns, Tell(k, v, AddChild(child, id, inner)), ctx)
         == Eval(ns, AddChild(Tell(k, v, child), id, Tell(k, v, inner)), ctx)
  {
    assert Eval(ns, Tell(k, v, AddChild(child, id, inner)), ctx) == EvalAddChild(ns, child, id, inner, ctx[k := v]);
    assert Eval(ns, AddChild(Tell(k, v, child), id, Tell(k, v, inner)), ctx)
        == EvalAddChild(ns, Tell(k, v, child), id, Tell(k, v, inner), ctx);
    var a := Eval(ns, inner, ctx[k := v]);
    assert Eval(ns, Tell(k, v, inner), ctx) == a;
    if a.app.Ok? {
      assert Eval(a.nodes, Tell(k, v, child), ctx) == Eval(a.nodes, child, ctx[k := v]);
    }
  }

  /** `run`'s setup sees the told binding along with the rest of the context. */
  lemma TellReachesSetup(ns: seq<Element>, k: string, v: Value, setup: Context -> Setup, c: Component, ctx: Context)
    ensures var a := Eval(ns, c, ctx[k := v]);
      a.app.Ok? && setup(ctx[k := v]).Resolved? ==>
        Eval(ns, Tell(k, v, Run(setup, c)), ctx).app == Ok(Register(a.app.value, setup(ctx[k := v]).controller))
  {
    assert Eval(ns, Tell(k, v, Run(setup, c)), ctx) == EvalRun(ns, setup, c, ctx[k := v]);
  }

  /** The modifier of `ofElement` is given the context the component is called with. */
  lemma TellReachesModifier(ns: seq<Element>, k: string, v: Value, tag: string, modifier: (map<string, string>, Context) -> map<string, string>, ctx: Context)
    ensures var r := Eval(ns, Tell(k, v, OfElement(tag, modifier)), ctx);
      && r.app.Ok? && r.app.value.node == |ns|
      && r.nodes[|ns|].props == modifier(map[], ctx[k := v])
  {
  }

  // -------------------------------------------------------------------- map

  /** After `map(f)` every controller map answers `get` for the new node with
      what it held for the old one, and is unchanged at every other node; the
      internal controllers and the names stay. */
  lemma MapMovesControllers(ns: seq<Element>, t: Transform, c: Component, ctx: Context)
    ensures var a := Eval(ns, c, ctx);
      var r := Eval(ns, Map(t, c), ctx);
      && (a.app.Err? ==> r == a)
      && (a.app.Ok? && r.app.Ok? ==>
           var x := a.app.value;
           var y := r.app.value;
           && y.internal == x.internal
           && y.controllers.Keys == x.controllers.Keys
           && (forall k :: k in x.controllers ==> Lookup(y.controllers[k], y.node) == Lookup(x.controllers[k], x.node))
           && (forall k, n :: k in x.controllers && n != y.node ==> Lookup(y.controllers[k], n) == Lookup(x.controllers[k], n)))
  {
  }

  /** `map(id)` changes nothing observable: the same tree, node, shadow root
      and internal controllers, and every controller map answers `get` as
      before. */
  lemma MapIdentity(ns: seq<Element>, c: Component, ctx: Context)
    ensures var a := Eval(ns, c, ctx);
      var r := Eval(ns, Map(Identity, c), ctx);
      && r.nodes == a.nodes
      && r.app.Ok? == a.app.Ok?
      && (a.app.Err? ==> r.app == a.app)
      && (a.app.Ok? ==>
           var x := a.app.value;
           var y := r.app.value;
           && y.node == x.node && y.shadow == x.shadow && y.internal == x.internal
           && y.controllers.Keys == x.controllers.Keys
           && forall k, n :: k in x.controllers ==> Lookup(y.controllers[k], n) == Lookup(x.controllers[k], n))
  {
    MapMovesControllers(ns, Identity, c, ctx);
  }

  /** Two `map`s in a row re-key each controller map from the first node to
      the last, as one `map` would; only the intermediate node, which the app
      no longer names, may keep an entry of its own. */
  lemma MapCompose(ns: seq<Element>, t1: Transform, t2: Transform, c: Component, ctx: Context)
    ensures var a := Eval(ns, c, ctx);
      var mid := Eval(ns, Map(t1, c), ctx);
      var r := Eval(ns, Map(t2, Map(t1, c)), ctx);
      a.app.Ok? && r.app.Ok? ==>
        var x := a.app.value;
        var y := r.app.value;
        && mid.app.Ok?
        && y.controllers.Keys == x.controllers.Keys
        && y.internal == x.internal
        && forall k, n :: k in x.controllers && n != mid.app.value.node ==>
             Lookup(y.controllers[k], n) == Lookup(Rekey(x.controllers[k], x.node, y.node), n)
  {
    MapMovesControllers(ns, t1, c, ctx);
    MapMovesControllers(ns, t2, Map(t1, c), ctx);
  }

  /** A `map` giving the app a new `tag` element: the new element is the
      app's node, the shadow root stays. */
  lemma MapRetag(ns: seq<Element>, tag: string, c: Component, ctx: Context)
    ensures var a := Eval(ns, c, ctx);
      var r := Eval(ns, Map(Retag(tag), c), ctx);
      a.app.Ok? ==>
        && r.app.Ok?
        && r.nodes == a.nodes + [NewElement(tag)]
        && r.app.value.node == |a.nodes| && r.nodes[r.app.value.node].tag == tag
        && r.app.value.shadow == a.app.value.shadow
  {
  }

  /** A `map` attaching a shadow root succeeds exactly on an element that
      accepts one and has none yet; the root is new, hosted by the node. */
  lemma MapWithShadow(ns: seq<Element>, c: Component, ctx: Context)
    ensures var a := Eval(ns, c, ctx);
      var r := Eval(ns, Map(WithShadow, c), ctx);
      a.app.Ok? ==>
        var x := a.app.value;
        && (r.app.Ok? <==> ShadowHostTag(a.nodes[x.node].tag) && a.nodes[x.node].shadow.None?)
        && (r.app.Err? ==> r.app.error.NotSupported? && r.nodes == a.nodes)
        && (r.app.Ok? ==>
             && r.app.value.node == x.node
             && r.app.value.shadow == Some(|a.nodes|)
             && r.nodes[x.node].shadow == Some(|a.nodes|)
             && r.nodes[|a.nodes|].host == Some(x.node))
  {
  }

  /** `wrapDiv`: the app's node becomes a new `div` whose only child is the
      old node. */
  lemma WrapDivWraps(ns: seq<Element>, c: Component, ctx: Context)
    ensures var a := Eval(ns, c, ctx);
      var r := Eval(ns, Map(WrapDiv, c), ctx);
      a.app.Ok? ==>
        var x := a.app.value;
        && r.app.Ok?
        && r.app.value.node == |a.nodes| && r.app.value.shadow == x.shadow
        && r.nodes[|a.nodes|].tag == "div"
        && r.nodes[|a.nodes|].children == [x.node]
        && r.nodes[x.node].parent == Some(|a.nodes|)
  {
    var a := Eval(ns, c, ctx);
    if a.app.Ok? {
      var ns1 := a.nodes + [NewElement("div")];
      var x := a.app.value;
      AboveRoot(ns1, x.node, |a.nodes|, |ns1|);
      assert Without([], x.node) == [];
    }
  }

  // -------------------------------------------------------------------- run

  /** A controller returned by `run`'s setup is registered under its name at
      the app's node and nowhere else, replacing the map that name had; the
      tree and the rest of the app stay. Without a controller nothing
      changes; a setup that rejects rejects `run` with its reason. */
  lemma RunRegisters(ns: seq<Element>, setup: Context -> Setup, c: Component, ctx: Context)
    ensures var a := Eval(ns, c, ctx);
      var r := Eval(ns, Run(setup, c), ctx);
      && r.nodes == a.nodes
      && (a.app.Err? ==> r.app == a.app)
      && (a.app.Ok? && setup(ctx).Rejected? ==> r.app == Err(Raised(setup(ctx).reason)))
      && (a.app.Ok? && setup(ctx).Resolved? ==>
           var x := a.app.value;
           && r.app.Ok?
           && (setup(ctx).controller.None? ==> r.app.value == x)
           && (setup(ctx).controller.Some? ==>
                var ctl := setup(ctx).controller.value;
                var y := r.app.value;
                && y.node == x.node && y.shadow == x.shadow && y.internal == x.internal
                && y.controllers.Keys == x.controllers.Keys + {ctl.name}
                && (forall n :: Lookup(y.controllers[ctl.name], n) == if n == x.node then Some(map["self" := ctl]) else None)
                && (forall k :: k in x.controllers && k != ctl.name ==> y.controllers[k] == x.controllers[k])))
  {
  }

  // --------------------------------------------------------- exportController

  /** `exportController` succeeds exactly when the selected internal map holds
      an entry with a `self` for the node `getNode` finds; it then adds that
      controller under the export name to the entry of the app's node in the
      map named after the controller, keeping the rest of that entry and of
      that map, and every other map. Failures are `TypeError`s. */
  lemma ExportAdds(ns: seq<Element>, x: View, nodeId: string, table: string, exportName: string)
    ensures var r := ExportView(ns, x, nodeId, table, exportName);
      && (r.Ok? <==>
           && table in x.internal
           && ControllerAt(ns, x.node, x.shadow, x.internal[table], nodeId).Some?
           && "self" in ControllerAt(ns, x.node, x.shadow, x.internal[table], nodeId).value)
      && (r.Err? ==> r.error.TypeError?)
      && (r.Ok? ==>
           var ctl := ControllerAt(ns, x.node, x.shadow, x.internal[table], nodeId).value["self"];
           var base: Slots := if ctl.name in x.controllers then x.controllers[ctl.name] else map[];
           var before := Lookup(base, x.node);
           var y := r.value;
           && y.node == x.node && y.shadow == x.shadow && y.internal == x.internal
           && y.controllers.Keys == x.controllers.Keys + {ctl.name}
           && (forall k :: k in x.controllers && k != ctl.name ==> y.controllers[k] == x.controllers[k])
           && Lookup(y.controllers[ctl.name], x.node) == Some((if before.Some? then before.value else map[]) + map[exportName := ctl])
           && (forall n :: n != x.node ==> Lookup(y.controllers[ctl.name], n) == Lookup(base, n)))
  {
  }

  // --------------------------------------------------------------- addChild

  /** The child's controllers become internal controllers of the parent at
      the child's node; other nodes of those maps and the names the child
      does not have stay as they were. */
  lemma MergeExposes(a: Tables, b: Tables, nodeB: NodeId)
    ensures var m := Merge(a, b, nodeB);
      && m.Keys == a.Keys + b.Keys
      && (forall k :: k in b ==> Lookup(m[k], nodeB) == Lookup(b[k], nodeB))
      && (forall k, n :: k in b && n != nodeB ==> Lookup(m[k], n) == (if k in a then Lookup(a[k], n) else None))
      && (forall k :: k in a && k !in b ==> m[k] == a[k])
  {
  }

  /** `addChild(child, id)` in a well-formed tree: once parent and child have
      rendered, the child's root gets the id, becomes the last child of the
      parent's shadow root (or its node), and lends its controllers to the
      parent's internal ones; the parent's node, shadow root and controllers
      stay and no other node changes. A parent or child that rejects rejects
      the whole with its error. */
  lemma AddChildAttaches(ns: seq<Element>, child: Component, id: string, inner: Component, ctx: Context)
    requires WellFormed(ns)
    ensures var a := Eval(ns, inner, ctx);
      var r := Eval(ns, AddChild(child, id, inner), ctx);
      && (a.app.Err? ==> r == a)
      && (a.app.Ok? ==>
           var b := Eval(a.nodes, child, ctx);
           && (b.app.Err? ==> r == b)
           && (b.app.Ok? ==>
                var x := a.app.value;
                var z := b.app.value;
                var t := Target(x);
                && r.app == Ok(x.(internal := Merge(x.internal, z.controllers, z.node)))
                && |r.nodes| == |b.nodes|
                && r.nodes[t].children == a.nodes[t].children + [z.node]
                && r.nodes[z.node].parent == Some(t)
                && r.nodes[z.node].tag == b.nodes[z.node].tag
                && (id != "" ==> HasId(r.nodes[z.node], id))
                && (forall n :: 0 <= n < |r.nodes| && n != t && n != z.node ==> r.nodes[n] == b.nodes[n])))
  {
    EvalWellFormed(ns, inner, ctx);
    var a := Eval(ns, inner, ctx);
    if a.app.Ok? {
      EvalWellFormed(a.nodes, child, ctx);
      var b := Eval(a.nodes, child, ctx);
      if b.app.Ok? {
        AttachWellFormed(a.nodes, b.nodes, a.app.value, b.app.value, id);
        EvalAddChildOk(ns, child, id, inner, ctx);
      }
    }
  }

  // ---------------------------------------------------------- getNode

  /** `getNode(app)(id)` finds a node inside the container (the shadow root
      when there is one, else the node) carrying the id, and finds one
      whenever such a node exists within the tree's depth. */
  lemma GetNodeFinds(ns: seq<Element>, node: NodeId, shadow: Option<NodeId>, id: string)
    ensures var container := if shadow.Some? then shadow.value else node;
      var r := FindById(ns, node, shadow, id);
      && (r.Some? ==> r.value < |ns| && container < |ns| && HasId(ns[r.value], id) && Reaches(ns, ns[container].children, r.value, |ns|))
      && (forall x: NodeId :: container < |ns| && x < |ns| && HasId(ns[x], id) && Reaches(ns, ns[container].children, x, |ns|) ==> r.Some?)
  {
    var container := if shadow.Some? then shadow.value else node;
    if container < |ns| {
      var kids := ns[container].children;
      if Search(ns, kids, id, |ns|).Some? {
        SearchInside(ns, kids, id, |ns|);
      }
      forall x: NodeId | x < |ns| && HasId(ns[x], id) && Reaches(ns, kids, x, |ns|)
        ensures Search(ns, kids, id, |ns|).Some?
      {
        SearchComplete(ns, kids, id, |ns|, x);
      }
    }
  }

  // ---------------------------------------------------------- setChildren

  /** `c.remove()` in a well-formed tree: `c` leaves every child list, and
      child lists only lose entries. */
  lemma DetachShrinks(ns: seq<Element>, c: NodeId)
    requires WellFormed(ns) && c < |ns|
    ensures var r := Detach(ns, c);
      && WellFormed(r)
      && (forall m: int, k: NodeId :: 0 <= m < |r| && k in r[m].children ==> k in ns[m].children && k != c)
  {
    DetachWellFormed(ns, c);
    assert Linked(ns, c);
  }

  /** Every entry of `a` is in `b` and not in `ks`. */
  predicate Sheds(a: seq<NodeId>, b: seq<NodeId>, ks: seq<NodeId>) {
    forall k :: k in a ==> k in b && k !in ks
  }

  /** Losing `init` and then `last` is losing `init + [last]`. */
  lemma LosesBoth(ns: seq<Element>, p: seq<Element>, r: seq<Element>, init: seq<NodeId>, last: NodeId, ks: seq<NodeId>)
    requires |p| == |ns| && |r| == |ns| && ks == init + [last]
    requires forall m :: 0 <= m < |p| ==> Sheds(p[m].children, ns[m].children, init)
    requires forall m: int, k: NodeId :: 0 <= m < |r| && k in r[m].children ==> k in p[m].children && k != last
    ensures forall m :: 0 <= m < |r| ==> Sheds(r[m].children, ns[m].children, ks)
  {
    forall m | 0 <= m < |r|
      ensures Sheds(r[m].children, ns[m].children, ks)
    {
      assert Sheds(p[m].children, ns[m].children, init);
    }
  }

  /** Removing `ks` from their parents leaves none of them in any child
      list, and child lists only lose entries. */
  lemma {:induction false} RemoveAllDetaches(ns: seq<Element>, ks: seq<NodeId>)
    requires WellFormed(ns) && forall k :: k in ks ==> k < |ns|
    ensures var r := RemoveAll(ns, ks);
      && WellFormed(r)
      && (forall m :: 0 <= m < |r| ==> Sheds(r[m].children, ns[m].children, ks))
    decreases |ks|
  {
    if ks != [] {
      var init := ks[..|ks| - 1];
      var last := ks[|ks| - 1];
      assert ks == init + [last];
      assert forall k :: k in ks <==> k in init || k == last;
      RemoveAllDetaches(ns, init);
      var p := RemoveAll(ns, init);
      assert last in ks;
      DetachShrinks(p, last);
      var r := Detach(p, last);
      assert r == RemoveAll(ns, ks);
      LosesBoth(ns, p, r, init, last, ks);
    } else {
      assert RemoveAll(ns, ks) == ns;
    }
  }

  /** What the reduce of `setChildren` has done so far to the tree `ns`: the
      roots `r.kids`, all newer than `ns`, follow the target's old children,
      and no other older node changed. */
  predicate Appended(ns: seq<Element>, t: NodeId, r: Children) {
    && t < |ns| <= |r.nodes|
    && WellFormed(r.nodes)
    && r.nodes[t].children == ns[t].children + r.kids
    && (forall i :: 0 <= i < |r.kids| ==> |ns| <= r.kids[i] < |r.nodes| && r.nodes[r.kids[i]].parent == Some(t))
    && (forall m :: 0 <= m < |ns| && m != t ==> r.nodes[m] == ns[m])
  }

  /** Appending one more root newer than the previous tree. */
  lemma AppendedAttach(ns: seq<Element>, a: View, prev: Children, nodes: seq<Element>, z: View, id: string)
    requires a.node < |ns| && (a.shadow.Some? ==> a.shadow.value < |ns|)
    requires Appended(ns, Target(a), prev)
    requires WellFormed(nodes) && Extends(prev.nodes, nodes) && RootIn(nodes, |prev.nodes|, z)
    ensures var s := Attach(nodes, a.(internal := prev.internal), z, id);
      s.app.Ok? && Appended(ns, Target(a), Children(s.nodes, s.app.value.internal, prev.kids + [z.node], None))
  {
    AttachWellFormed(prev.nodes, nodes, a.(internal := prev.internal), z, id);
    var s := Attach(nodes, a.(internal := prev.internal), z, id);
    var kids := prev.kids + [z.node];
    assert s.nodes[Target(a)].children == ns[Target(a)].children + kids;
    forall i | 0 <= i < |kids|
      ensures |ns| <= kids[i] < |s.nodes| && s.nodes[kids[i]].parent == Some(Target(a))
    {
      if i < |prev.kids| {
        assert kids[i] == prev.kids[i] && s.nodes[kids[i]] == prev.nodes[kids[i]];
      }
    }
  }

  /** One more component: rendered, then appended after the others. */
  lemma AttachStepAppends(ns: seq<Element>, a: View, ctx: Context, prev: Children, c: Component, id: string)
    requires a.node < |ns| && (a.shadow.Some? ==> a.shadow.value < |ns|)
    requires Appended(ns, Target(a), prev)
    ensures var r := AttachStep(prev, a, ctx, c, id);
      && Appended(ns, Target(a), r)
      && (r.err.Some? ==> r.err.value.NotSupported? || r.err.value.TypeError? || r.err.value.Raised?)
      && (r.err.None? ==> |r.kids| == |prev.kids| + 1)
  {
    EvalWellFormed(prev.nodes, c, ctx);
    var b := Eval(prev.nodes, c, ctx);
    if b.app.Ok? {
      AppendedAttach(ns, a, prev, b.nodes, b.app.value, id);
    }
  }

  /** The reduce of `setChildren` in a well-formed tree: the roots of the
      rendered components are appended to the target (the shadow root or the
      node) in list order, one per component until one rejects, which only
      `attachShadow`, `exportController` or a setup of `run` can make happen; no other older
      node changes. */
  lemma {:induction false} AttachAllAppends(ns: seq<Element>, a: View, ctx: Context, comps: seq<Component>, id: string)
    requires WellFormed(ns) && a.node < |ns| && (a.shadow.Some? ==> a.shadow.value < |ns|)
    ensures var r := AttachAll(ns, a, ctx, comps, id);
      && Appended(ns, Target(a), r)
      && (r.err.Some? ==> r.err.value.NotSupported? || r.err.value.TypeError? || r.err.value.Raised?)
      && (r.err.None? ==> |r.kids| == |comps|)
    decreases |comps|
  {
    if comps == [] {
      assert ns[Target(a)].children + [] == ns[Target(a)].children;
    } else {
      var init := comps[..|comps| - 1];
      AttachAllAppends(ns, a, ctx, init, id);
      var prev := AttachAll(ns, a, ctx, init, id);
      if prev.err.None? {
        AttachStepAppends(ns, a, ctx, prev, comps[|comps| - 1], id);
      }
    }
  }

  /** A sequence without members is empty. */
  lemma NoMemberEmpty(s: seq<NodeId>)
    ensures (forall k :: k !in s) ==> s == []
  {
    if s != [] {
      assert s[0] in s;
    }
  }

  /** Removing children of `p` changes no other node's child list, and
      only clears parents. */
  lemma {:induction false} RemoveAllElsewhere(ns: seq<Element>, ks: seq<NodeId>, p: NodeId)
    requires forall k :: k in ks ==> k < |ns| && ns[k].parent == Some(p)
    ensures var r := RemoveAll(ns, ks);
      && (forall m :: 0 <= m < |r| ==> r[m].parent == ns[m].parent || r[m].parent.None?)
      && (forall m :: 0 <= m < |r| && m != p ==> r[m].children == ns[m].children)
    decreases |ks|
  {
    if ks != [] {
      var init := ks[..|ks| - 1];
      var last := ks[|ks| - 1];
      assert forall k :: k in init ==> k in ks;
      assert last in ks;
      RemoveAllElsewhere(ns, init, p);
      var q := RemoveAll(ns, init);
      assert q[last].parent == Some(p) || q[last].parent.None?;
      assert RemoveAll(ns, ks) == Detach(q, last);
    }
  }

  /** `setChildren(app, context, mode)(components, id)` in a well-formed tree:
      `REPLACE` first removes the node's children, so without a shadow root
      the node ends up with exactly the new roots, in order, and with one
      the node is left empty while the new roots follow the shadow root's
      existing children; `APPEND` keeps the target's children and adds the
      new roots after them. */
  lemma SetChildrenPlaces(ns: seq<Element>, a: View, ctx: Context, mode: Mode, comps: seq<Component>, id: string)
    requires WellFormed(ns) && a.node < |ns| && (a.shadow.Some? ==> a.shadow.value < |ns|)
    ensures var r := SetChildrenView(ns, a, ctx, mode, comps, id);
      && WellFormed(r.nodes)
      && (r.err.Some? ==> r.err.value.NotSupported? || r.err.value.TypeError? || r.err.value.Raised?)
      && (r.err.None? ==> |r.kids| == |comps|)
      && (mode == Append ==> r.nodes[Target(a)].children == ns[Target(a)].children + r.kids)
      && (mode == Replace && a.shadow.None? ==> r.nodes[a.node].children == r.kids)
      && (mode == Replace && a.shadow.Some? && a.shadow.value != a.node ==>
            r.nodes[a.node].children == [] && r.nodes[a.shadow.value].children == ns[a.shadow.value].children + r.kids)
  {
    var kids := ns[a.node].children;
    assert Linked(ns, a.node);
    if mode == Replace {
      RemoveAllDetaches(ns, kids);
      var ns1 := RemoveAll(ns, kids);
      AttachAllAppends(ns1, a, ctx, comps, id);
      RemoveAllElsewhere(ns, kids, a.node);
      var left := ns1[a.node].children;
      assert Sheds(RemoveAll(ns, kids)[a.node].children, kids, kids);
      assert forall k :: k !in left;
      NoMemberEmpty(left);
    } else {
      AttachAllAppends(ns, a, ctx, comps, id);
    }
  }

  /** The reduce of `setChildren` over a single component that renders: it
      is attached, and its controllers join the parent's internal ones at its
      root. */
  lemma AttachOne(ns: seq<Element>, a: View, ctx: Context, c: Component, id: string)
    requires WellFormed(ns) && a.node < |ns| && (a.shadow.Some? ==> a.shadow.value < |ns|)
    requires Eval(ns, c, ctx).app.Ok?
    ensures var z := Eval(ns, c, ctx).app.value;
      var r := AttachAll(ns, a, ctx, [c], id);
      && r.err.None?
      && r.kids == [z.node]
      && r.internal == Merge(a.internal, z.controllers, z.node)
  {
    EvalWellFormed(ns, c, ctx);
    var b := Eval(ns, c, ctx);
    AttachWellFormed(ns, b.nodes, a, b.app.value, id);
    assert [c][..0] == [];
    assert AttachAll(ns, a, ctx, [c], id) == AttachStep(Children(ns, a.internal, [], None), a, ctx, c, id);
  }
}
