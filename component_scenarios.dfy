/** The combinators' own test cases, as facts about `Eval` and
    `SetChildrenView` on concrete components rendered into a document. */
module ComponentScenarios {
  import opened Js
  import opened Dom
  import opened Component
  import opened ComponentLaws
  import Util

  const Hej := Controller("Hej", map["sayHi" := Fn(0)])
  const ChildCtl := Controller("ChildController", map["sayHi" := Fn(0)])

  /** A setup function returning `c`: `run(() => Promise.resolve(c))`. */
  function Provide(c: Controller): Context -> Setup {
    _ => Resolved(Some(c))
  }

  /** `pipe(ofElement(tag), run(() => Promise.resolve(c)))` */
  function WithController(tag: string, c: Controller): Component {
    Run(Provide(c), Plain(tag))
  }

  /** "function supplied can return controller": the controller is found at
      the app's node of the map named after it. */
  lemma RunControllerScenario(ctx: Context)
    ensures var r := Eval([], WithController("div", Hej), ctx);
      && r.app.Ok? && "Hej" in r.app.value.controllers
      && Lookup(r.app.value.controllers["Hej"], r.app.value.node) == Some(map["self" := Hej])
  {
    RunRegisters([], Provide(Hej), Plain("div"), ctx);
  }

  /** "Add child exposes the childs main controller as internalController of
      parent": the node carrying the id holds the child's controller in the
      parent's internal map of that name. */
  lemma ChildControllerScenario(tag: string, id: string, c: Controller, ctx: Context)
    requires id != ""
    ensures var r := Eval([], AddChild(WithController(tag, c), id, Plain("div")), ctx);
      && r.app.Ok?
      && r.app.value == View(0, None, map[], r.app.value.internal)
      && FindById(r.nodes, 0, None, id) == Some(1)
      && r.nodes[1].tag == tag
      && c.name in r.app.value.internal
      && Lookup(r.app.value.internal[c.name], 1) == Some(map["self" := c])
  {
    var a := Eval([], Plain("div"), ctx);
    RunRegisters(a.nodes, Provide(c), Plain(tag), ctx);
    AddChildAttaches([], WithController(tag, c), id, Plain("div"), ctx);
    var m := Eval([], AddChild(WithController(tag, c), id, Plain("div")), ctx);
    assert m.nodes[0].children == [1];
    assert HasId(m.nodes[1], id);
    var b := Eval(a.nodes, WithController(tag, c), ctx);
    MergeExposes(map[], b.app.value.controllers, 1);
  }

  /** "exports inner controller by putting on parent node with specified
      id". */
  lemma ExportScenario(ctx: Context)
    ensures var r := Eval([], Export("child", "ChildController", "exportId", AddChild(WithController("div", ChildCtl), "child", Plain("div"))), ctx);
      && r.app.Ok? && "ChildController" in r.app.value.controllers
      && Lookup(r.app.value.controllers["ChildController"], r.app.value.node) == Some(map["exportId" := ChildCtl])
  {
    ChildControllerScenario("div", "child", ChildCtl, ctx);
    var m := Eval([], AddChild(WithController("div", ChildCtl), "child", Plain("div")), ctx);
    ExportAdds(m.nodes, m.app.value, "child", "ChildController", "exportId");
    assert map[] + map["exportId" := ChildCtl] == map["exportId" := ChildCtl];
  }

  /** `getNode` "returns existing node" and "returns undefined if no node". */
  lemma GetNodeScenario(ctx: Context)
    ensures var r := Eval([], AddChild(Plain("p"), "childId", Plain("div")), ctx);
      && r.app.Ok?
      && FindById(r.nodes, r.app.value.node, r.app.value.shadow, "childId").Some?
      && FindById(r.nodes, r.app.value.node, r.app.value.shadow, "foobar").None?
  {
    AddChildAttaches([], Plain("p"), "childId", Plain("div"), ctx);
    var r := Eval([], AddChild(Plain("p"), "childId", Plain("div")), ctx);
    assert r.nodes[0].children == [1] && r.nodes[1].children == [];
    assert HasId(r.nodes[1], "childId") && !HasId(r.nodes[1], "foobar");
  }

  /** `getNode` "returns node in shadow DOM": the child went into the shadow
      root, and is found there. */
  lemma GetNodeInShadowScenario(ctx: Context)
    ensures var r := Eval([], AddChild(Plain("p"), "childId", Map(WithShadow, Plain("div"))), ctx);
      && r.app.Ok? && r.app.value.shadow == Some(1)
      && r.nodes[1].children == [2] && r.nodes[2].tag == "p"
      && FindById(r.nodes, r.app.value.node, r.app.value.shadow, "childId") == Some(2)
  {
    MapWithShadow([], Plain("div"), ctx);
    AddChildAttaches([], Plain("p"), "childId", Map(WithShadow, Plain("div")), ctx);
    var r := Eval([], AddChild(Plain("p"), "childId", Map(WithShadow, Plain("div"))), ctx);
    assert HasId(r.nodes[2], "childId");
  }

  /** The app of `ofElement("div")`, rendered into an empty document. */
  const DivApp := View(0, None, map[], map[])
  const DivTree := [NewElement("div")]

  /** "Sets specified children to element". */
  lemma SetChildrenScenario(ctx: Context)
    ensures var r := SetChildrenView(DivTree, DivApp, ctx, Replace, [Plain("p")], "fdsa");
      r.err.None? && |r.nodes[0].children| == 1
  {
    AddDetachedWellFormed([], NewElement("div"));
    SetChildrenPlaces(DivTree, DivApp, ctx, Replace, [Plain("p")], "fdsa");
    assert RemoveAll(DivTree, []) == DivTree;
    AttachOne(DivTree, DivApp, ctx, Plain("p"), "fdsa");
  }

  /** "By default setChildren removes existing children": after two
      replacing calls the node has one child. */
  lemma ReplaceTwiceScenario(ctx: Context)
    ensures var s1 := SetChildrenView(DivTree, DivApp, ctx, Replace, [Plain("div")], "foo");
      && WellFormed(s1.nodes)
      && var s2 := SetChildrenView(s1.nodes, DivApp.(internal := s1.internal), ctx, Replace, [Plain("p")], "paragraph");
      && s2.err.None? && |s2.nodes[0].children| == 1
  {
    AddDetachedWellFormed([], NewElement("div"));
    SetChildrenPlaces(DivTree, DivApp, ctx, Replace, [Plain("div")], "foo");
    var s1 := SetChildrenView(DivTree, DivApp, ctx, Replace, [Plain("div")], "foo");
    var a := DivApp.(internal := s1.internal);
    SetChildrenPlaces(s1.nodes, a, ctx, Replace, [Plain("p")], "paragraph");
    assert Linked(s1.nodes, 0);
    RemoveAllDetaches(s1.nodes, s1.nodes[0].children);
    var ns1 := RemoveAll(s1.nodes, s1.nodes[0].children);
    AttachOne(ns1, a, ctx, Plain("p"), "paragraph");
  }

  const HejCtl := Controller("hej", map["sayHi" := Fn(0)])
  const HelloCtl := Controller("hello", map["sayHello" := Fn(1)])

  /** The first `setChildren` of the test of children's controllers. */
  lemma HejChildScenario(ctx: Context)
    ensures var s1 := SetChildrenView(DivTree, DivApp, ctx, Replace, [WithController("p", HejCtl)], "fdsa");
      && WellFormed(s1.nodes) && |s1.nodes| > 0
      && |s1.nodes[0].children| == 1
      && "hej" in s1.internal
      && Lookup(s1.internal["hej"], s1.nodes[0].children[0]) == Some(map["self" := HejCtl])
  {
    AddDetachedWellFormed([], NewElement("div"));
    assert RemoveAll(DivTree, []) == DivTree;
    var c1 := WithController("p", HejCtl);
    RunRegisters(DivTree, Provide(HejCtl), Plain("p"), ctx);
    AttachOne(DivTree, DivApp, ctx, c1, "fdsa");
    SetChildrenPlaces(DivTree, DivApp, ctx, Replace, [c1], "fdsa");
    var z1 := Eval(DivTree, c1, ctx).app.value;
    MergeExposes(map[], z1.controllers, z1.node);
  }

  /** "Controllers of children added as internal controllers in parent": a
      replacing call and then an appending one; the first child's controller
      survives the second call. */
  lemma ChildControllersScenario(ctx: Context)
    ensures var s1 := SetChildrenView(DivTree, DivApp, ctx, Replace, [WithController("p", HejCtl)], "fdsa");
      && WellFormed(s1.nodes) && |s1.nodes| > 0
      && var a := DivApp.(internal := s1.internal);
      && var s2 := SetChildrenView(s1.nodes, a, ctx, Append, [WithController("p", HelloCtl)], "fdsaB");
      && s2.err.None?
      && |s2.nodes[0].children| == 2
      && "hej" in s2.internal && "hello" in s2.internal
      && Lookup(s2.internal["hej"], s2.nodes[0].children[0]) == Some(map["self" := HejCtl])
      && Lookup(s2.internal["hello"], s2.nodes[0].children[1]) == Some(map["self" := HelloCtl])
  {
    HejChildScenario(ctx);
    var s1 := SetChildrenView(DivTree, DivApp, ctx, Replace, [WithController("p", HejCtl)], "fdsa");
    var a := DivApp.(internal := s1.internal);
    var c2 := WithController("p", HelloCtl);
    RunRegisters(s1.nodes, Provide(HelloCtl), Plain("p"), ctx);
    AttachOne(s1.nodes, a, ctx, c2, "fdsaB");
    SetChildrenPlaces(s1.nodes, a, ctx, Append, [c2], "fdsaB");
    var z2 := Eval(s1.nodes, c2, ctx).app.value;
    MergeExposes(s1.internal, z2.controllers, z2.node);
    var s2 := SetChildrenView(s1.nodes, a, ctx, Append, [c2], "fdsaB");
    assert s2.nodes[0].children == s1.nodes[0].children + [z2.node];
    assert z2.controllers.Keys == {"hello"};
    assert s2.internal["hej"] == s1.internal["hej"];
  }

  // ------------------------------------------------------ ofElement, ask, tell

  /** "creates component with element that had the modifier applied": a
      modifier setting the text `Hej` on a new `p`. */
  lemma OfElementScenario(ctx: Context)
    ensures var r := Eval([], OfElement("p", (props, _) => props["textContent" := "Hej"]), ctx);
      && r.app == Ok(View(0, None, map[], map[]))
      && r.nodes[0].tag == "p" && r.nodes[0].props == map["textContent" := "Hej"]
  {
  }

  /** A setup holding an `expect(context[k]).toBe(v)`: it throws, and so
      rejects, unless the context binds `k` to `v`. */
  function Expects(k: string, v: Value): Context -> Setup {
    c => if k in c && c[k] == v then Resolved(None) else Rejected(Str("expect"))
  }

  /** The component of the ask and tell tests: `pipe(ofElement(tag),
      ask(), run((_, __, context) => expect(context.foo).toBe("bar")))`. */
  function AsksFoo(tag: string): Component {
    Run(Expects("foo", Str("bar")), Util.Id(Plain(tag)))
  }

  /** "asks for specified value in context": with `foo: "bar"` in the
      context the expectation holds; without it the setup throws. */
  lemma AskScenario(ctx: Context)
    ensures Eval([], AsksFoo("p"), ctx["foo" := Str("bar")]).app.Ok?
    ensures "foo" !in ctx ==> Eval([], AsksFoo("p"), ctx).app == Err(Raised(Str("expect")))
  {
  }

  /** "asks for specified value in context propagating from subcomponent". */
  lemma AskChildScenario(ctx: Context)
    ensures Eval([], AddChild(AsksFoo("span"), "", Plain("p")), ctx["foo" := Str("bar")]).app.Ok?
  {
    var c := ctx["foo" := Str("bar")];
    AddChildAttaches([], AsksFoo("span"), "", Plain("p"), c);
    RunRegisters([NewElement("p")], Expects("foo", Str("bar")), Plain("span"), c);
  }

  /** "adds specified value to context": a `tell` outside the `run`
      satisfies its expectation whatever the caller's context. */
  lemma TellScenario(ctx: Context)
    ensures Eval([], Tell("foo", Str("bar"), AsksFoo("p")), ctx).app.Ok?
  {
    AskScenario(ctx);
  }

  /** "adds specified value to context of subcomponent". */
  lemma TellChildScenario(ctx: Context)
    ensures Eval([], Tell("foo", Str("bar"), AddChild(AsksFoo("span"), "", Plain("p"))), ctx).app.Ok?
  {
    AskChildScenario(ctx);
  }

  // ------------------------------------------------------------ getController

  const Foo := Controller("Foo", map["sayHi" := Fn(2)])

  /** `pipe(ofElement("div"), addChild(ChildWithController(fn), "childId"))`. */
  const WithFooChild := AddChild(WithController("p", Foo), "childId", Plain("div"))

  /** `getController` "returns controller of existing node" and "returns
      undefined if no node". */
  lemma GetControllerScenario(ctx: Context)
    ensures var r := Eval([], WithFooChild, ctx);
      && r.app.Ok? && "Foo" in r.app.value.internal
      && var x := r.app.value;
      && ControllerAt(r.nodes, x.node, x.shadow, x.internal["Foo"], "childId") == Some(map["self" := Foo])
      && ControllerAt(r.nodes, x.node, x.shadow, x.internal["Foo"], "foobar") == None
  {
    ChildControllerScenario("p", "childId", Foo, ctx);
    var r := Eval([], WithFooChild, ctx);
    assert r.nodes[0].children == [1] && r.nodes[1].children == [];
    assert !HasId(r.nodes[1], "foobar");
  }

  /** The app of `WithFooChild`: the `div` with the `p` carrying
      `childId`, and `Foo`'s internal map holding the `p` only. */
  lemma FooChildApp(ctx: Context)
    ensures var a := Eval([], WithFooChild, ctx);
      && a.app.Ok? && a.app.value.node == 0 && a.app.value.shadow.None? && a.app.value.controllers == map[]
      && WellFormed(a.nodes) && |a.nodes| == 2
      && a.nodes[0].children == [1] && a.nodes[1].children == [] && HasId(a.nodes[1], "childId")
      && "Foo" in a.app.value.internal && Lookup(a.app.value.internal["Foo"], 2) == None
  {
    var p := Eval([], Plain("div"), ctx);
    var q := Eval(p.nodes, WithController("p", Foo), ctx);
    RunRegisters(p.nodes, Provide(Foo), Plain("p"), ctx);
    AddChildAttaches([], WithController("p", Foo), "childId", Plain("div"), ctx);
    MergeExposes(map[], q.app.value.controllers, 1);
    EvalWellFormed([], WithFooChild, ctx);
  }

  /** The tree of the "no controller" test: a second child `div` after
      the controller's `p`, and the parent's internal maps unchanged by it. */
  lemma NoControllerTree(ctx: Context)
    ensures var a := Eval([], WithFooChild, ctx);
      var r := Eval([], AddChild(Plain("div"), "noControllerId", WithFooChild), ctx);
      && a.app.Ok? && r.app == a.app && a.app.value.node == 0 && a.app.value.shadow.None?
      && "Foo" in a.app.value.internal && Lookup(a.app.value.internal["Foo"], 2) == None
      && |r.nodes| == 3 && r.nodes[0].children == [1, 2]
      && r.nodes[1].children == [] && !HasId(r.nodes[1], "noControllerId")
      && r.nodes[2].children == [] && HasId(r.nodes[2], "noControllerId")
  {
    FooChildApp(ctx);
    var a := Eval([], WithFooChild, ctx);
    var x := a.app.value;
    AddChildAttaches([], Plain("div"), "noControllerId", WithFooChild, ctx);
    MergeNothing(x.internal, map[], 2);
    assert Restrict(map[], {}) == map[];
    assert Merge(x.internal, map[], 2) == x.internal;
  }

  /** `getController` "returns undefined if no controller": the node
      `noControllerId` is found, but `Foo`'s map holds nothing for it. */
  lemma GetControllerNoneScenario(ctx: Context)
    ensures var r := Eval([], AddChild(Plain("div"), "noControllerId", WithFooChild), ctx);
      && r.app.Ok? && "Foo" in r.app.value.internal
      && var x := r.app.value;
      && FindById(r.nodes, x.node, x.shadow, "noControllerId").Some?
      && ControllerAt(r.nodes, x.node, x.shadow, x.internal["Foo"], "noControllerId") == None
  {
    NoControllerTree(ctx);
    var r := Eval([], AddChild(Plain("div"), "noControllerId", WithFooChild), ctx);
    assert Search(r.nodes, [1, 2], "noControllerId", |r.nodes|) == Search(r.nodes, [2], "noControllerId", |r.nodes|);
    assert FindById(r.nodes, 0, None, "noControllerId") == Some(2);
  }

  /** `getController` "returns controller in shadow DOM": the child went
      into the shadow root, and its controller is found there. */
  lemma GetControllerInShadowScenario(ctx: Context)
    ensures var r := Eval([], AddChild(WithController("p", Foo), "childId", Map(WithShadow, Plain("div"))), ctx);
      && r.app.Ok? && r.app.value.shadow == Some(1)
      && r.nodes[1].children == [2] && r.nodes[2].tag == "p"
      && "Foo" in r.app.value.internal
      && var x := r.app.value;
      && ControllerAt(r.nodes, x.node, x.shadow, x.internal["Foo"], "childId") == Some(map["self" := Foo])
  {
    MapWithShadow([], Plain("div"), ctx);
    var a := Eval([], Map(WithShadow, Plain("div")), ctx);
    RunRegisters(a.nodes, Provide(Foo), Plain("p"), ctx);
    AddChildAttaches([], WithController("p", Foo), "childId", Map(WithShadow, Plain("div")), ctx);
    var b := Eval(a.nodes, WithController("p", Foo), ctx);
    MergeExposes(a.app.value.internal, b.app.value.controllers, 2);
    var r := Eval([], AddChild(WithController("p", Foo), "childId", Map(WithShadow, Plain("div"))), ctx);
    assert HasId(r.nodes[2], "childId");
  }
}
