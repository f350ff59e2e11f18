/** The router's test case: a router over two routes rendered with a
    context whose `url` selects one of them. */
module RouterScenarios {
  import opened Js
  import opened Dom
  import opened Component
  import opened ComponentLaws
  import opened Render
  import opened EventBus
  import opened Router

  /** `pipe(___route([/^\/routeA/, ofElement("strong")]),
      addRoute([/^\/routeB/, ofElement("em")]))` */
  function SpecRoutes(): seq<Route> {
    Declare(Route(Anchored("/routeA"), Plain("strong")), [Route(Anchored("/routeB"), Plain("em"))])
  }

  /** The test's context: both prefixes empty and the given `url`. */
  function TestContext(url: string): Context {
    map["matchedUrl" := Str(""), "matchedUrlFull" := Str(""), "url" := Str(url)]
  }

  /** The only route list entries: the first is `/routeA`, the second
      `/routeB`. */
  lemma SpecRoutesInOrder()
    ensures SpecRoutes() == [Route(Anchored("/routeA"), Plain("strong")), Route(Anchored("/routeB"), Plain("em"))]
  {
  }

  /** Replacing the children of the node of a one-element tree with a
      routed page made of one element: that element becomes its only
      child. */
  lemma ShowsPage(v: View, ctx: Context, tag: string, rest: string, m: string)
    requires v.node == 0 && v.shadow.None?
    ensures var s := SetChildrenView([NewElement("div")], v, ctx, Replace, [WithRoute(Plain(tag), rest, "", m)], "route");
      && s.err.None? && s.nodes[0].children == [1] && s.nodes[1].tag == tag
  {
    var ns := [NewElement("div")];
    var page := WithRoute(Plain(tag), rest, "", m);
    AddDetachedWellFormed([], NewElement("div"));
    WithRouteContext(ns, Plain(tag), rest, "", m, ctx);
    SetChildrenPlaces(ns, v, ctx, Replace, [page], "route");
    assert RemoveAll(ns, []) == ns;
    AttachOne(ns, v, ctx, page, "route");
    var b := Eval(ns, page, ctx);
    AddDetachedWellFormed(ns, b.nodes[1].(props := map[]));
    AttachWellFormed(ns, b.nodes, v, b.app.value, "route");
    assert [page][..0] == [];
    assert AttachAll(ns, v, ctx, [page], "route") == AttachStep(Children(ns, v.internal, [], None), v, ctx, page, "route");
  }

  /** At `/routeA` the first route is chosen, with nothing left over. */
  lemma RouteAChosen()
    ensures Resolve(TestContext("/routeA"), "", SpecRoutes(), "/routeA") ==
      Ok(Switch("/routeA", WithRoute(Plain("strong"), "/", "", "/routeA")))
  {
    SpecRoutesInOrder();
    assert "" + "/routeA" == "/routeA";
    assert Slice("/routeA", 0) == "/routeA";
    assert "/routeA"[7..] == "";
    MatchRouteFirst("/routeA", SpecRoutes(), "", 0);
  }

  /** At `/routeB` the first route does not match and the second is chosen. */
  lemma RouteBChosen()
    ensures Resolve(TestContext("/routeB"), "", SpecRoutes(), "/routeB") ==
      Ok(Switch("/routeB", WithRoute(Plain("em"), "/", "", "/routeB")))
  {
    SpecRoutesInOrder();
    assert "" + "/routeB" == "/routeB";
    assert Slice("/routeB", 0) == "/routeB";
    assert "/routeB"[7..] == "";
    assert "/routeB"[6] != "/routeA"[6];
    var ra, rb := Route(Anchored("/routeA"), Plain("strong")), Route(Anchored("/routeB"), Plain("em"));
    assert SpecRoutes() == [ra] + [rb];
    SkipRejected("/routeB", ra, [rb], "");
    MatchRouteFirst("/routeB", [rb], "", 0);
  }

  /** `Router(SpecRoutes())(context)` rendered into a new document: the
      router's `div` is the only node, and its setup's state is fresh. */
  method RenderRouter(ctx: Context) returns (doc: Document, store: Store, router: RouterState)
    requires RouterContext(ctx)
    ensures fresh(doc) && fresh(store) && fresh(router)
    ensures router.Valid(doc, store) && doc.nodes == [NewElement("div")]
    ensures router.app.node == 0 && router.view.node == 0 && router.view.shadow.None?
    ensures router.routes == SpecRoutes() && router.ctx == ctx && router.prevMatchUrl == ""
  {
    doc := new Document();
    store := new Store();
    RouterRenders([], SpecRoutes(), ctx);
    var r := Render.Render(doc, store, RouterComponent(SpecRoutes()), ctx);
    assert r.Ok?;
    ghost var v := Eval([], RouterComponent(SpecRoutes()), ctx).app.value;
    router := new RouterState(SpecRoutes(), r.value, v, ctx);
  }

  /** The test's two cases: the URL and the tag of the page it selects. */
  predicate TestCase(url: string, tag: string) {
    (url == "/routeA" && tag == "strong") || (url == "/routeB" && tag == "em")
  }

  /** Switching the test router's node to the page of `tag` leaves it as
      the node's only child. */
  lemma SwitchShows(url: string, tag: string, v0: View, ns: seq<Element>, v: View, prev: string)
    requires v0.node == 0 && v0.shadow.None?
    requires WellFormed([NewElement("div")])
    requires Navigated(Ok(Switch(url, WithRoute(Plain(tag), "/", "", url))), TestContext(url), [NewElement("div")], v0, "", ns, v, prev)
    ensures |ns| > 1 && ns[0].children == [1] && ns[1].tag == tag && prev == url
  {
    var page := WithRoute(Plain(tag), "/", "", url);
    ShowsPage(v0, TestContext(url), tag, "/", url);
    assert ns == SetChildrenView([NewElement("div")], v0, TestContext(url), Replace, [page], "route").nodes;
  }

  /** A navigation of the test router from its initial state to either
      test URL leaves that route's page as the node's only child. */
  lemma RouteShown(url: string, tag: string, v0: View, ns: seq<Element>, v: View, prev: string)
    requires TestCase(url, tag)
    requires v0.node == 0 && v0.shadow.None?
    requires WellFormed([NewElement("div")])
    requires Navigated(Resolve(TestContext(url), "", SpecRoutes(), url), TestContext(url), [NewElement("div")], v0, "", ns, v, prev)
    ensures |ns| > 1 && ns[0].children == [1] && ns[1].tag == tag && prev == url
  {
    if url == "/routeA" {
      RouteAChosen();
    } else {
      RouteBChosen();
    }
    SwitchShows(url, tag, v0, ns, v, prev);
  }

  /** "correct route is rendered", on the heap: render the router with the
      test URL, run its setup against a fresh bus, and the router's node
      has that route's page as its only child. */
  method CorrectRouteIsRendered(url: string, tag: string)
    requires TestCase(url, tag)
  {
    var ctx := TestContext(url);
    var doc, store, router := RenderRouter(ctx);
    var host := new Host({0});
    var bus := new Bus(host);
    assert "" + url == url;
    assert GoTo(Replayed(bus.Last("BROWSE_TO"), ctx)) == Some(url);
    ghost var v0 := router.view;
    var ctl := router.Setup(doc, store, bus, 1);
    RouteShown(url, tag, v0, doc.nodes, router.view, router.prevMatchUrl);
    assert ctl == RouterController;
    assert doc.nodes[0].children == [1] && doc.nodes[1].tag == tag;
  }
}
