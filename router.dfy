/** The router: route lists, the first-match search over them, and the
    per-router state machine that re-renders the router's node when the
    matched URL segment changes. */
module Router {
  import opened Js
  import opened Dom
  import opened Component
  import opened ComponentLaws
  import opened Render
  import opened EventBus
  import Util

  // ------------------------------------------------------------ patterns

  /** A route's `RegExp`, restricted to a literal: `^lit` matches `lit` at
      the start of the path, a bare `lit` its first occurrence anywhere. */
  datatype Pattern = Anchored(lit: string) | Unanchored(lit: string)

  /** `lit` occurs somewhere in `s`. */
  predicate Occurs(lit: string, s: string)
    decreases |s|
  {
    lit <= s || (s != [] && Occurs(lit, s[1..]))
  }

  lemma {:induction false} OccursFits(lit: string, s: string)
    requires Occurs(lit, s)
    ensures |lit| <= |s|
    decreases |s|
  {
    if !(lit <= s) {
      OccursFits(lit, s[1..]);
    }
  }

  /** `s.match(regexp)?.[0]`: the matched text, if any. */
  function Match(p: Pattern, s: string): (r: Option<string>)
    ensures r.Some? ==> r.value == p.lit && |r.value| <= |s|
    ensures p.Anchored? ==> (r.Some? <==> p.lit <= s)
    ensures p.Unanchored? ==> (r.Some? <==> Occurs(p.lit, s))
  {
    match p
    case Anchored(lit) => if lit <= s then Some(lit) else None
    case Unanchored(lit) =>
      if Occurs(lit, s) then OccursFits(lit, s); Some(lit) else None
  }

  // -------------------------------------------------------------- routes

  /** A `[RegExp, Component]` pair. */
  datatype Route = Route(pattern: Pattern, page: Component)

  /** `___route(route)`. */
  function Single(route: Route): (r: seq<Route>)
    ensures forall p, base :: MatchRoute(p, r, base).Ok? <==> Accepts(route, Normalised(p))
  {
    [route]
  }

  /** `addRoute(r)(rs)`: the new route goes after the existing ones. */
  function AddRoute(route: Route, rs: seq<Route>): (r: seq<Route>)
    ensures |r| == |rs| + 1 && r[..|rs|] == rs && r[|rs|] == route
  {
    rs + [route]
  }

  /** `pipe(___route(first), addRoute(more[0]), ..., addRoute(more[n-1]))`:
      the routes are listed, and so tried, in declaration order. */
  function Declare(first: Route, more: seq<Route>): (r: seq<Route>)
    ensures r == [first] + more
    decreases |more|
  {
    if more == [] then Single(first)
    else
      var init := more[..|more| - 1];
      assert init + [more[|more| - 1]] == more;
      AddRoute(more[|more| - 1], Declare(first, init))
  }

  // ---------------------------------------------------------- matching

  /** `pathname === "" ? "/" : pathname` */
  function Normalised(pathname: string): (r: string)
    ensures r != ""
    ensures pathname != "" ==> r == pathname
  {
    if pathname == "" then "/" else pathname
  }

  /** The text after the matched one is empty or starts a new segment. */
  predicate Boundary(rest: string) {
    rest == "" || rest[0] == '/'
  }

  /** The route's pattern matches `s` at a segment boundary. The remainder
      is taken by the length of the matched text from the start of `s`. */
  predicate Accepts(r: Route, s: string) {
    var m := Match(r.pattern, s);
    m.Some? && Boundary(s[|m.value|..])
  }

  /** The index of the first route that accepts `s`. */
  function FirstAccepted(routes: seq<Route>, s: string): (r: Option<nat>)
    ensures r.Some? ==> r.value < |routes| && Accepts(routes[r.value], s)
    ensures r.Some? ==> forall j :: 0 <= j < r.value ==> !Accepts(routes[j], s)
    ensures r.None? <==> forall j :: 0 <= j < |routes| ==> !Accepts(routes[j], s)
    decreases |routes|
  {
    if routes == [] then None
    else if Accepts(routes[0], s) then Some(0)
    else
      match FirstAccepted(routes[1..], s)
      case None => None
      case Some(i) => Some(i + 1)
  }

  /** `reminder === "" ? "/" : reminder` */
  function Reminder(rest: string): (r: string)
    ensures r != "" && (rest != "" ==> r == rest)
  {
    if rest == "" then "/" else rest
  }

  /** `pipe(page, ask(), tell(["url", rest]), tell(["matchedUrlFull", base
      + m]), tell(["matchedUrl", m]))` */
  function WithRoute(page: Component, rest: string, base: string, m: string): Component {
    Tell("matchedUrl", Str(m), Tell("matchedUrlFull", Str(base + m), Tell("url", Str(rest), Util.Id(page))))
  }

  /** The context a route's page is rendered with. */
  function RouteContext(ctx: Context, rest: string, base: string, m: string): (r: Context)
    ensures "url" in r && "matchedUrlFull" in r && "matchedUrl" in r
    ensures r["url"] == Str(rest) && r["matchedUrlFull"] == Str(base + m) && r["matchedUrl"] == Str(m)
    ensures forall k :: k in ctx && k != "url" && k != "matchedUrlFull" && k != "matchedUrl" ==> k in r && r[k] == ctx[k]
  {
    ctx["url" := Str(rest)]["matchedUrlFull" := Str(base + m)]["matchedUrl" := Str(m)]
  }

  /** The wrapped page sees its context with the three router entries set,
      whatever the context held before. */
  lemma WithRouteContext(ns: seq<Element>, page: Component, rest: string, base: string, m: string, ctx: Context)
    ensures Eval(ns, WithRoute(page, rest, base, m), ctx) == Eval(ns, page, RouteContext(ctx, rest, base, m))
  {
    var c1 := ctx["matchedUrl" := Str(m)];
    var c2 := c1["matchedUrlFull" := Str(base + m)];
    var c3 := c2["url" := Str(rest)];
    assert Eval(ns, WithRoute(page, rest, base, m), ctx) == Eval(ns, Tell("matchedUrlFull", Str(base + m), Tell("url", Str(rest), page)), c1);
    assert Eval(ns, Tell("matchedUrlFull", Str(base + m), Tell("url", Str(rest), page)), c1) == Eval(ns, Tell("url", Str(rest), page), c2);
    assert Eval(ns, Tell("url", Str(rest), page), c2) == Eval(ns, page, c3);
    assert c3 == RouteContext(ctx, rest, base, m);
  }

  /** The result for a route that accepts `s`: the matched text and the
      page wrapped with the context entries. */
  function Selected(r: Route, s: string, base: string): (string, Component)
    requires Accepts(r, s)
  {
    var m := Match(r.pattern, s).value;
    (m, WithRoute(r.page, Reminder(s[|m|..]), base, m))
  }

  /** `findMatchingRoute(pathname, routes, alreadyMatched)`, or the
      "no route" error it throws. */
  function MatchRoute(pathname: string, routes: seq<Route>, base: string): (r: Result<(string, Component)>)
    ensures r.Err? <==> forall j :: 0 <= j < |routes| ==> !Accepts(routes[j], Normalised(pathname))
    ensures r.Err? ==> r.error == NoRoute
  {
    var s := Normalised(pathname);
    match FirstAccepted(routes, s)
    case None => Err(NoRoute)
    case Some(i) => Ok(Selected(routes[i], s, base))
  }

  /** The first accepting route wins: routes before it are skipped,
      routes after it are never looked at. */
  lemma MatchRouteFirst(pathname: string, routes: seq<Route>, base: string, i: nat)
    requires i < |routes| && Accepts(routes[i], Normalised(pathname))
    requires forall j :: 0 <= j < i ==> !Accepts(routes[j], Normalised(pathname))
    ensures MatchRoute(pathname, routes, base) == Ok(Selected(routes[i], Normalised(pathname), base))
  {
    var k := FirstAccepted(routes, Normalised(pathname));
    assert k.Some?;
    assert k.value == i;
  }

  /** A route that matches but leaves a remainder that does not start a
      segment, like one that does not match at all, falls through to the
      next route. */
  lemma {:induction false} SkipRejected(pathname: string, r: Route, rs: seq<Route>, base: string)
    requires !Accepts(r, Normalised(pathname))
    ensures MatchRoute(pathname, [r] + rs, base) == MatchRoute(pathname, rs, base)
  {
    var s := Normalised(pathname);
    assert ([r] + rs)[1..] == rs;
    var k := FirstAccepted(rs, s);
    if k.Some? {
      assert ([r] + rs)[k.value + 1] == rs[k.value];
      MatchRouteFirst(pathname, [r] + rs, base, k.value + 1);
    }
  }

  /** A route added later never overrides an earlier one: it is chosen only
      when none of the earlier routes accepts. */
  lemma AddRouteLast(pathname: string, r: Route, rs: seq<Route>, base: string)
    ensures var s := Normalised(pathname);
      MatchRoute(pathname, AddRoute(r, rs), base) ==
        if MatchRoute(pathname, rs, base).Ok? then MatchRoute(pathname, rs, base)
        else if Accepts(r, s) then Ok(Selected(r, s, base))
        else Err(NoRoute)
  {
    var s := Normalised(pathname);
    var all := AddRoute(r, rs);
    var k := FirstAccepted(rs, s);
    if k.Some? {
      MatchRouteFirst(pathname, all, base, k.value);
    } else if Accepts(r, s) {
      MatchRouteFirst(pathname, all, base, |rs|);
    } else {
      assert forall j :: 0 <= j < |all| ==> all[j] == if j < |rs| then rs[j] else r;
    }
  }

  /** The empty path is matched as `"/"`. */
  lemma EmptyPathIsRoot(routes: seq<Route>, base: string)
    ensures MatchRoute("", routes, base) == MatchRoute("/", routes, base)
  {
  }

  /** With an anchored pattern the remainder is exactly the text after the
      match, so the path is the match followed by the remainder (`"/"`
      standing for an empty one). */
  lemma AnchoredSplits(r: Route, s: string, base: string)
    requires r.pattern.Anchored? && Accepts(r, s)
    ensures var m := Selected(r, s, base).0;
      && m == r.pattern.lit
      && s == m + s[|m|..]
      && Selected(r, s, base).1 == WithRoute(r.page, Reminder(s[|m|..]), base, m)
  {
  }

  /** The loop of `findMatchingRoute`: the first route whose match is
      followed by a segment boundary, or the "no route" error. */
  method FindMatchingRoute(pathname: string, routes: seq<Route>, alreadyMatched: string)
    returns (r: Result<(string, Component)>)
    ensures r == MatchRoute(pathname, routes, alreadyMatched)
  {
    var path := if pathname == "" then "/" else pathname;
    for i := 0 to |routes|
      invariant forall j :: 0 <= j < i ==> !Accepts(routes[j], path)
    {
      var route := routes[i];
      var m := Match(route.pattern, path);
      if m.Some? {
        var reminder := path[|m.value|..];
        if (reminder != "" && reminder[0] == '/') || reminder == "" {
          reminder := if reminder == "" then "/" else reminder;
          MatchRouteFirst(pathname, routes, alreadyMatched, i);
          return Ok((m.value, WithRoute(route.page, reminder, alreadyMatched, m.value)));
        }
      }
    }
    return Err(NoRoute);
  }

  // --------------------------------------------------------- navigation

  /** What a navigation does: nothing, or replace the router's children
      with the page of the newly matched segment. */
  datatype Navigation = Unchanged | Switch(segment: string, page: Component)

  /** `s.slice(k)`: empty when `k` is past the end. */
  function Slice(s: string, k: nat): (r: string)
    ensures k <= |s| ==> s == s[..k] + r
    ensures k > |s| ==> r == ""
  {
    if k <= |s| then s[k..] else ""
  }

  /** Re-render only when the matched segment differs from the previous one. */
  function Decide(prev: string, m: Result<(string, Component)>): (r: Result<Navigation>)
    ensures m.Err? <==> r.Err?
    ensures m.Err? ==> r == Err(m.error)
    ensures m.Ok? ==> (r == Ok(Unchanged) <==> m.value.0 == prev)
    ensures m.Ok? && m.value.0 != prev ==> r == Ok(Switch(m.value.0, m.value.1))
  {
    match m
    case Err(e) => Err(e)
    case Ok((seg, page)) => if seg == prev then Ok(Unchanged) else Ok(Switch(seg, page))
  }

  /** `handleNavigationChange(goToUrl)` for a router whose URL prefix is
      `base`: strip `base`'s length, match what is left with `base` as
      the already matched part, and decide. */
  function Navigate(prev: string, routes: seq<Route>, base: string, goToUrl: string): (r: Result<Navigation>)
    ensures var s := Normalised(Slice(goToUrl, |base|));
      r.Err? <==> forall j :: 0 <= j < |routes| ==> !Accepts(routes[j], s)
    ensures r.Err? ==> r.error == NoRoute
    ensures r.Ok? && r.value.Switch? ==> r.value.segment != prev
  {
    Decide(prev, MatchRoute(Slice(goToUrl, |base|), routes, base))
  }

  /** Once a navigation switched to a segment, navigating to the same URL
      again changes nothing. */
  lemma NavigateSettles(prev: string, routes: seq<Route>, base: string, goToUrl: string)
    requires Navigate(prev, routes, base, goToUrl).Ok? && Navigate(prev, routes, base, goToUrl).value.Switch?
    ensures Navigate(Navigate(prev, routes, base, goToUrl).value.segment, routes, base, goToUrl) == Ok(Unchanged)
  {
  }

  /** A context entry the router reads as a string. */
  predicate HasText(ctx: Context, k: string) {
    k in ctx && ctx[k].Str?
  }

  function Text(ctx: Context, k: string): string
    requires HasText(ctx, k)
  {
    ctx[k].s
  }

  /** The entries the router's context type requires. */
  predicate RouterContext(ctx: Context) {
    HasText(ctx, "matchedUrl") && HasText(ctx, "matchedUrlFull") && HasText(ctx, "url")
  }

  /** The subscription fallback `{url: `${matchedUrlFull}${url}`}`. */
  function Seed(ctx: Context): (r: Value)
    requires RouterContext(ctx)
    ensures Truthy(r) && Field(r, "url") == Str(Text(ctx, "matchedUrlFull") + Text(ctx, "url"))
  {
    Record(map["url" := Str(Text(ctx, "matchedUrlFull") + Text(ctx, "url"))])
  }

  /** `handleNavigationChange` as written: the URL is cut by the length of
      `context.matchedUrl`, the last matched segment only, which is also
      passed on as the already matched part. */
  function ResolveAsWritten(ctx: Context, prev: string, routes: seq<Route>, goToUrl: string): (r: Result<Navigation>)
    requires RouterContext(ctx)
    ensures var m := Text(ctx, "matchedUrl");
      |m| <= |goToUrl| ==> r == Decide(prev, MatchRoute(goToUrl[|m|..], routes, m))
  {
    Navigate(prev, routes, Text(ctx, "matchedUrl"), goToUrl)
  }

  /** `handleNavigationChange` with the URL cut by, and the already matched
      part taken from, `context.matchedUrlFull`: the whole prefix matched by
      the routers above. */
  function Resolve(ctx: Context, prev: string, routes: seq<Route>, goToUrl: string): (r: Result<Navigation>)
    requires RouterContext(ctx)
    ensures var full := Text(ctx, "matchedUrlFull");
      full <= goToUrl ==> r == Decide(prev, MatchRoute(goToUrl[|full|..], routes, full))
  {
    Navigate(prev, routes, Text(ctx, "matchedUrlFull"), goToUrl)
  }

  /** An absolute URL below the router's prefix is matched on the part
      after the prefix; in particular the fallback seed resolves the
      context's `url`. */
  lemma ResolveStripsPrefix(ctx: Context, prev: string, routes: seq<Route>, u: string)
    requires RouterContext(ctx)
    ensures var full := Text(ctx, "matchedUrlFull");
      Resolve(ctx, prev, routes, full + u) == Decide(prev, MatchRoute(u, routes, full))
  {
    var full := Text(ctx, "matchedUrlFull");
    assert (full + u)[|full|..] == u;
  }

  /** A page of a route matched with prefix `base` renders a nested router
      whose own URL prefix is the whole matched part `base + m`: an absolute
      URL `base + m + u` is resolved on `u`, with `base + m` passed on. */
  lemma NestedRouterResolves(ctx: Context, rest: string, base: string, m: string, prev: string, routes: seq<Route>, u: string)
    ensures var inner := RouteContext(ctx, rest, base, m);
      && RouterContext(inner)
      && Resolve(inner, prev, routes, base + m + u) == Decide(prev, MatchRoute(u, routes, base + m))
  {
    var inner := RouteContext(ctx, rest, base, m);
    ResolveStripsPrefix(inner, prev, routes, u);
  }

  /** At the top level and one level below, where the last segment is the
      whole prefix, both readings agree. */
  lemma AsWrittenAgreesBelowTop(ctx: Context, rest: string, m: string, prev: string, routes: seq<Route>, goToUrl: string)
    ensures var inner := RouteContext(ctx, rest, "", m);
      && RouterContext(inner)
      && ResolveAsWritten(inner, prev, routes, goToUrl) == Resolve(inner, prev, routes, goToUrl)
  {
    assert "" + m == m;
  }

  /** Two levels below the top, as written, the router's own seeded URL no
      longer resolves: under a route `/a` then `/b`, a router with the route
      `^/c` at `/a/b/c` cuts two characters, tries `/b/c` and throws "no
      route"; cut by the full prefix it matches `/c`. */
  lemma AsWrittenLosesPrefix()
    ensures var ctx := RouteContext(map[], "/c", "/a", "/b");
      var routes := [Route(Anchored("/c"), Plain("p"))];
      && RouterContext(ctx)
      && Field(Seed(ctx), "url") == Str("/a/b/c")
      && ResolveAsWritten(ctx, "", routes, "/a/b/c") == Err(NoRoute)
      && Resolve(ctx, "", routes, "/a/b/c").Ok?
      && Resolve(ctx, "", routes, "/a/b/c").value == Switch("/c", WithRoute(Plain("p"), "/", "/a/b", "/c"))
  {
    var ctx := RouteContext(map[], "/c", "/a", "/b");
    var routes := [Route(Anchored("/c"), Plain("p"))];
    assert "/a" + "/b" == "/a/b";
    assert "/a/b" + "/c" == "/a/b/c";
    assert Slice("/a/b/c", 2) == "/b/c";
    assert "/b/c"[1] != "/c"[1];
    assert Slice("/a/b/c", 4) == "/c";
    assert "/c"[2..] == "";
    MatchRouteFirst("/c", routes, "/a/b", 0);
  }

  // ---------------------------------------------------------- the router

  /** The controller the router's setup resolves to: `{name: "Router",
      listener}`, the subscribe function being an opaque function value. */
  const RouterController := Controller("Router", map["listener" := Fn(0)])

  /** `Router(routes)` as a recipe: a `div` whose setup yields the router's
      controller. What the setup does besides is `RouterState.Setup`. */
  function RouterComponent(routes: seq<Route>): Component {
    Run(_ => Resolved(Some(RouterController)), Util.Id(Util.Id(Plain("div"))))
  }

  /** `TopLevelRouter(routes)`: the router with both prefixes empty. */
  function TopLevelRouter(routes: seq<Route>): Component {
    Tell("matchedUrlFull", Str(""), Tell("matchedUrl", Str(""), RouterComponent(routes)))
  }

  /** The context the top-level router sees. */
  function TopLevel(ctx: Context): Context {
    ctx["matchedUrl" := Str("")]["matchedUrlFull" := Str("")]
  }

  /** The router renders a fresh `div` carrying only the router's
      controller, in its map of the same name. */
  lemma RouterRenders(ns: seq<Element>, routes: seq<Route>, ctx: Context)
    ensures Eval(ns, RouterComponent(routes), ctx) ==
      Built(ns + [NewElement("div")], Ok(View(|ns|, None, map["Router" := map[|ns| := Some(map["self" := RouterController])]], map[])))
  {
    RunRegisters(ns, _ => Resolved(Some(RouterController)), Plain("div"), ctx);
  }

  /** The top-level router is the router with both prefixes set empty, so
      its seed is the context's `url` itself. */
  lemma TopLevelRouterRenders(ns: seq<Element>, routes: seq<Route>, ctx: Context)
    requires HasText(ctx, "url")
    ensures RouterContext(TopLevel(ctx))
    ensures Text(TopLevel(ctx), "matchedUrl") == "" && Text(TopLevel(ctx), "matchedUrlFull") == ""
    ensures Field(Seed(TopLevel(ctx)), "url") == ctx["url"]
    ensures Eval(ns, TopLevelRouter(routes), ctx) == Eval(ns, RouterComponent(routes), TopLevel(ctx))
  {
    var c1 := ctx["matchedUrlFull" := Str("")];
    var c2 := c1["matchedUrl" := Str("")];
    assert c2 == TopLevel(ctx);
    assert "" + Text(ctx, "url") == Text(ctx, "url");
    assert Eval(ns, TopLevelRouter(routes), ctx) == Eval(ns, Tell("matchedUrl", Str(""), RouterComponent(routes)), c1);
  }

  /** What one navigation leaves, given the state before: the outcome `n`
      of `Resolve`, then the tree, the app's view and `prevMatchUrl`. */
  predicate Navigated(n: Result<Navigation>, ctx: Context, ns0: seq<Element>, v0: View, prev0: string,
                      ns: seq<Element>, v: View, prev: string)
    requires WellFormed(ns0) && v0.node < |ns0| && (v0.shadow.Some? ==> v0.shadow.value < |ns0|)
  {
    match n
    case Err(_) => ns == ns0 && v == v0 && prev == prev0
    case Ok(Unchanged) => ns == ns0 && v == v0 && prev == prev0
    case Ok(Switch(m, page)) =>
      var s := SetChildrenView(ns0, v0, ctx, Replace, [page], "route");
      && prev == m && ns == s.nodes && v == v0.(internal := s.internal)
  }

  /** The error a navigation with outcome `n` throws, or that the promise
      of its `setChildren` rejects with. */
  function NavigationError(n: Result<Navigation>, ctx: Context, ns0: seq<Element>, v0: View): Option<Error>
    requires WellFormed(ns0) && v0.node < |ns0| && (v0.shadow.Some? ==> v0.shadow.value < |ns0|)
  {
    match n
    case Err(e) => Some(e)
    case Ok(Unchanged) => None
    case Ok(Switch(_, page)) => SetChildrenView(ns0, v0, ctx, Replace, [page], "route").err
  }

  /** What the router's listener does with a `BROWSE_TO` payload: navigate
      to its `url`, if that is a string. */
  function GoTo(payload: Value): Option<string> {
    match Field(payload, "url")
    case Str(u) => Some(u)
    case _ => None
  }

  /** The payload `listener("BROWSE_TO", ..., seed)` dispatches at once:
      the last one notified if truthy, otherwise the seed. */
  function Replayed(last: Value, ctx: Context): Value
    requires RouterContext(ctx)
  {
    if Truthy(last) then last else Seed(ctx)
  }

  /** The closure state of one router's setup: `prevMatchUrl`, with the
      routes, the rendered app and the context it captured. */
  class RouterState {
    const routes: seq<Route>
    const app: App
    const ctx: Context
    /** `prevMatchUrl`: the segment currently shown, `""` at first. */
    var prevMatchUrl: string
    /** The app's controller tables as the store holds them. */
    ghost var view: View

    /** The app lives in `doc` and `store` shows its tables. */
    ghost predicate Valid(doc: Document, store: Store)
      reads this, doc, store
    {
      && doc.Valid() && RouterContext(ctx)
      && app.node < |doc.nodes| && (app.shadow.Some? ==> app.shadow.value < |doc.nodes|)
      && Shows(store.maps, store.tables, app, view) && Separate(store.tables, app)
    }

    /** The setup's closure as it starts: nothing shown yet. */
    constructor (routes: seq<Route>, app: App, ghost view: View, ctx: Context)
      ensures this.routes == routes && this.app == app && this.view == view && this.ctx == ctx
      ensures prevMatchUrl == ""
    {
      this.routes := routes;
      this.app := app;
      this.view := view;
      this.ctx := ctx;
      prevMatchUrl := "";
    }

    /** `handleNavigationChange(goToUrl)` for the URL prefix `base`: cut
        `base`'s length off `goToUrl`, find the route with `base` as the
        already matched part, and on a new segment show its page; `err` is
        the "no route" error it throws or the error `setChildren` rejects
        with. */
    method NavigateTo(doc: Document, store: Store, base: string, goToUrl: string) returns (err: Option<Error>)
      modifies this, doc, store
      requires Valid(doc, store)
      ensures Valid(doc, store)
      ensures Navigated(Navigate(old(prevMatchUrl), routes, base, goToUrl), ctx, old(doc.nodes), old(view), old(prevMatchUrl),
                        doc.nodes, view, prevMatchUrl)
      ensures err == NavigationError(Navigate(old(prevMatchUrl), routes, base, goToUrl), ctx, old(doc.nodes), old(view))
      ensures Progress(old(store.maps), old(store.tables), store.maps, store.tables, app.internal)
      ensures Navigate(old(prevMatchUrl), routes, base, goToUrl).Err? || Navigate(old(prevMatchUrl), routes, base, goToUrl) == Ok(Unchanged) ==>
        store.maps == old(store.maps) && store.tables == old(store.tables)
    {
      var url := if |base| <= |goToUrl| then goToUrl[|base|..] else "";
      var found := FindMatchingRoute(url, routes, base);
      if found.Err? {
        return Some(found.error);
      }
      var (matchedUrl, page) := found.value;
      if matchedUrl != prevMatchUrl {
        prevMatchUrl := matchedUrl;
        ghost var s := SetChildrenView(doc.nodes, view, ctx, Replace, [page], "route");
        var r := SetChildren(doc, store, app, view, ctx, Replace, [page], "route");
        view := view.(internal := s.internal);
        err := if r.Err? then Some(r.error) else None;
      } else {
        err := None;
      }
    }

    /** `handleNavigationChange(goToUrl)` as written: the prefix cut off and
        passed on is `context.matchedUrl`, the last matched segment. */
    method HandleNavigationChangeAsWritten(doc: Document, store: Store, goToUrl: string) returns (err: Option<Error>)
      modifies this, doc, store
      requires Valid(doc, store)
      ensures Valid(doc, store)
      ensures Navigated(ResolveAsWritten(ctx, old(prevMatchUrl), routes, goToUrl), ctx, old(doc.nodes), old(view), old(prevMatchUrl),
                        doc.nodes, view, prevMatchUrl)
      ensures err == NavigationError(ResolveAsWritten(ctx, old(prevMatchUrl), routes, goToUrl), ctx, old(doc.nodes), old(view))
      ensures Progress(old(store.maps), old(store.tables), store.maps, store.tables, app.internal)
      ensures ResolveAsWritten(ctx, old(prevMatchUrl), routes, goToUrl).Err? || ResolveAsWritten(ctx, old(prevMatchUrl), routes, goToUrl) == Ok(Unchanged) ==>
        store.maps == old(store.maps) && store.tables == old(store.tables)
    {
      err := NavigateTo(doc, store, Text(ctx, "matchedUrl"), goToUrl);
    }

    /** `handleNavigationChange(goToUrl)` with the prefix corrected to
        `context.matchedUrlFull`, the whole path matched above. */
    method HandleNavigationChange(doc: Document, store: Store, goToUrl: string) returns (err: Option<Error>)
      modifies this, doc, store
      requires Valid(doc, store)
      ensures Valid(doc, store)
      ensures Navigated(Resolve(ctx, old(prevMatchUrl), routes, goToUrl), ctx, old(doc.nodes), old(view), old(prevMatchUrl),
                        doc.nodes, view, prevMatchUrl)
      ensures err == NavigationError(Resolve(ctx, old(prevMatchUrl), routes, goToUrl), ctx, old(doc.nodes), old(view))
      ensures Progress(old(store.maps), old(store.tables), store.maps, store.tables, app.internal)
      ensures Resolve(ctx, old(prevMatchUrl), routes, goToUrl).Err? || Resolve(ctx, old(prevMatchUrl), routes, goToUrl) == Ok(Unchanged) ==>
        store.maps == old(store.maps) && store.tables == old(store.tables)
    {
      err := NavigateTo(doc, store, Text(ctx, "matchedUrlFull"), goToUrl);
    }

    /** The setup: register the router's node on the bus, subscribe to
        `BROWSE_TO` with `listener` standing for `ev =>
        handleNavigationChange(ev.detail.url)` and the seed as fallback;
        the subscription dispatches at once, so the listener navigates,
        with the prefix corrected as in `HandleNavigationChange`, before the
        controller is returned. What the listener throws is
        reported by the dispatch and not propagated. */
    method Setup(doc: Document, store: Store, bus: Bus, listener: ListenerId) returns (ctl: Controller)
      modifies this, doc, store, bus, bus.host
      requires Valid(doc, store)
      ensures Valid(doc, store)
      ensures ctl == RouterController
      ensures bus.observers == Alive(old(bus.observers), old(bus.host.alive)) + [app.node]
      ensures bus.lastEvent == old(bus.lastEvent) && bus.host.alive == old(bus.host.alive)
      ensures bus.host.ListenersOf(app.node, "BROWSE_TO") ==
        if listener in old(bus.host.ListenersOf(app.node, "BROWSE_TO")) then old(bus.host.ListenersOf(app.node, "BROWSE_TO"))
        else old(bus.host.ListenersOf(app.node, "BROWSE_TO")) + [listener]
      ensures forall n: NodeId, e: string :: (n, e) != (app.node, "BROWSE_TO") ==> bus.host.ListenersOf(n, e) == old(bus.host.ListenersOf(n, e))
      ensures var p := Replayed(old(bus.Last("BROWSE_TO")), ctx);
        && bus.host.log == old(bus.host.log) + Deliveries(app.node, "BROWSE_TO", bus.host.ListenersOf(app.node, "BROWSE_TO"), p)
        && (GoTo(p).None? ==>
              && doc.nodes == old(doc.nodes) && view == old(view) && prevMatchUrl == old(prevMatchUrl)
              && store.maps == old(store.maps) && store.tables == old(store.tables))
        && (GoTo(p).Some? ==>
              && Navigated(Resolve(ctx, old(prevMatchUrl), routes, GoTo(p).value), ctx, old(doc.nodes), old(view), old(prevMatchUrl),
                           doc.nodes, view, prevMatchUrl)
              && Progress(old(store.maps), old(store.tables), store.maps, store.tables, app.internal)
              && (var n := Resolve(ctx, old(prevMatchUrl), routes, GoTo(p).value);
                  n.Err? || n == Ok(Unchanged) ==> store.maps == old(store.maps) && store.tables == old(store.tables)))
    {
      var subscribe := bus.Register(app.node);
      var _, replayed := bus.Subscribe(subscribe, "BROWSE_TO", listener, Seed(ctx));
      if replayed.Some? {
        var goTo := GoTo(replayed.value);
        if goTo.Some? {
          var _ := HandleNavigationChange(doc, store, goTo.value);
        }
      }
      ctl := RouterController;
    }
  }
}
