/** The host element tree the combinators build on: an arena of nodes named
    by handle, each with a tag, string properties (its `id` among them), an
    ordered child list, a parent link and an optional shadow root. A shadow
    root is itself a node of the arena, tagged `#shadow-root`, whose `host`
    is the element it is attached to. Every tree operation is a function on
    the arena, and `Document`'s methods are proved to perform it. */
module Dom {
  import opened Js

  datatype Element = Element(
    tag: string,
    props: map<string, string>,
    children: seq<NodeId>,
    parent: Option<NodeId>,
    shadow: Option<NodeId>,
    host: Option<NodeId>)

  const ShadowTag := "#shadow-root"

  /** A new element: no properties, no children, detached. */
  function NewElement(tag: string): Element {
    Element(tag, map[], [], None, None, None)
  }

  /** Whether `e` carries the id `id` (an element without one carries none). */
  predicate HasId(e: Element, id: string) {
    "id" in e.props && e.props["id"] == id
  }

  // ------------------------------------------------------------ well-formed

  /** Node `n`'s links agree with the nodes they point to: each child names
      `n` as its parent and `n` is among its parent's children. */
  predicate Linked(ns: seq<Element>, n: nat)
    requires n < |ns|
  {
    && (forall k :: k in ns[n].children ==> k < |ns| && ns[k].parent == Some(n))
    && (ns[n].parent.Some? ==> ns[n].parent.value < |ns| && n in ns[ns[n].parent.value].children)
    && (ns[n].shadow.Some? ==> ns[n].shadow.value < |ns|)
    && (ns[n].host.Some? ==> ns[n].host.value < |ns|)
  }

  predicate WellFormed(ns: seq<Element>) {
    forall n :: 0 <= n < |ns| ==> Linked(ns, n)
  }

  // ----------------------------------------------------------- tree updates

  /** `node.remove()`: `c` leaves its parent's child list and has no parent. */
  function Detach(ns: seq<Element>, c: NodeId): (r: seq<Element>)
    requires c < |ns|
    ensures |r| == |ns|
    ensures r[c] == ns[c].(parent := None, children := r[c].children)
    ensures ns[c].parent != Some(c) ==> r[c].children == ns[c].children
    ensures forall n :: 0 <= n < |ns| && n != c && Some(n) != ns[c].parent ==> r[n] == ns[n]
    ensures ns[c].parent.Some? && ns[c].parent.value < |ns| ==>
      var q := ns[c].parent.value;
      r[q].children == Without(ns[q].children, c) &&
      (q != c ==> r[q] == ns[q].(children := r[q].children))
  {
    var q := ns[c].parent;
    var ns1 := if q.Some? && q.value < |ns| then ns[q.value := ns[q.value].(children := Without(ns[q.value].children, c))] else ns;
    ns1[c := ns1[c].(parent := None)]
  }

  /** `p.append(c)`: `c` is taken from wherever it was and becomes the last
      child of `p`. */
  function AppendChild(ns: seq<Element>, p: NodeId, c: NodeId): (r: seq<Element>)
    requires p < |ns| && c < |ns| && p != c
    ensures |r| == |ns|
    ensures r[p].children == Without(ns[p].children, c) + [c]
    ensures r[c].parent == Some(p)
    ensures ns[c].parent != Some(c) ==> r[c].children == ns[c].children
    ensures r[p] == ns[p].(children := r[p].children)
    ensures r[c] == ns[c].(parent := Some(p), children := r[c].children)
    ensures forall n :: 0 <= n < |ns| && n != c && n != p && Some(n) != ns[c].parent ==> r[n] == ns[n]
    ensures ns[c].parent.Some? && ns[c].parent.value < |ns| && ns[c].parent.value != p && ns[c].parent.value != c ==>
      var q := ns[c].parent.value;
      r[q] == ns[q].(children := Without(ns[q].children, c))
  {
    var d := Detach(ns, c);
    var d1 := d[p := d[p].(children := Without(ns[p].children, c) + [c])];
    d1[c := d1[c].(parent := Some(p))]
  }

  lemma DetachWellFormed(ns: seq<Element>, c: NodeId)
    requires c < |ns| && WellFormed(ns)
    ensures WellFormed(Detach(ns, c))
    ensures forall n :: 0 <= n < |ns| ==> c !in Detach(ns, c)[n].children
  {
    var r := Detach(ns, c);
    forall n | 0 <= n < |r|
      ensures c !in r[n].children
    {
      assert Linked(ns, n);
    }
    forall n | 0 <= n < |r|
      ensures Linked(r, n)
    {
      assert Linked(ns, n);
      forall k | k in r[n].children
        ensures k < |r| && r[k].parent == Some(n)
      {
        assert k in ns[n].children;
        assert Linked(ns, k);
      }
      if r[n].parent.Some? {
        assert Linked(ns, r[n].parent.value);
      }
    }
  }

  lemma AppendWellFormed(ns: seq<Element>, p: NodeId, c: NodeId)
    requires p < |ns| && c < |ns| && p != c && WellFormed(ns)
    ensures WellFormed(AppendChild(ns, p, c))
  {
    DetachWellFormed(ns, c);
    var d := Detach(ns, c);
    var r := AppendChild(ns, p, c);
    assert r == d[p := d[p].(children := Without(ns[p].children, c) + [c])][c := d[c].(parent := Some(p))];
    forall n | 0 <= n < |r|
      ensures Linked(r, n)
    {
      assert Linked(d, n);
      forall k | k in r[n].children
        ensures k < |r| && r[k].parent == Some(n)
      {
        if k != c {
          assert k in d[n].children;
          assert Linked(d, k);
        }
      }
      if r[n].parent.Some? && n != c {
        assert Linked(d, r[n].parent.value);
      }
    }
  }

  /** A new detached element without children keeps the tree well formed. */
  lemma AddDetachedWellFormed(ns: seq<Element>, e: Element)
    requires WellFormed(ns)
    requires e.children == [] && e.parent.None? && e.shadow.None? && e.host.None?
    ensures WellFormed(ns + [e])
  {
    var r := ns + [e];
    forall m | 0 <= m < |r|
      ensures Linked(r, m)
    {
      if m < |ns| {
        assert Linked(ns, m);
      }
    }
  }

  /** Properties carry no links. */
  lemma SetPropsWellFormed(ns: seq<Element>, n: NodeId, props: map<string, string>)
    requires WellFormed(ns) && n < |ns|
    ensures WellFormed(ns[n := ns[n].(props := props)])
  {
    var r := ns[n := ns[n].(props := props)];
    forall m | 0 <= m < |r|
      ensures Linked(r, m)
    {
      assert Linked(ns, m);
    }
  }

  // ----------------------------------------------------------- shadow roots

  /** The elements that accept a shadow root: valid custom element names
      (a lower-case letter first, a hyphen somewhere) and the listed tags. */
  predicate ShadowHostTag(tag: string) {
    || (|tag| > 0 && 'a' <= tag[0] <= 'z' && '-' in tag)
    || tag in {"article", "aside", "blockquote", "body", "div", "footer",
               "h1", "h2", "h3", "h4", "h5", "h6", "header", "main", "nav",
               "p", "section", "span"}
  }

  /** `h.attachShadow(...)` succeeds on an allowed tag without a shadow root
      yet; the root is a new node hosted by `h`. */
  function AttachShadowRoot(ns: seq<Element>, h: NodeId): (r: Result<seq<Element>>)
    requires h < |ns|
    ensures r.Ok? <==> ShadowHostTag(ns[h].tag) && ns[h].shadow.None?
    ensures r.Ok? ==>
      && |r.value| == |ns| + 1
      && r.value[|ns|] == Element(ShadowTag, map[], [], None, None, Some(h))
      && r.value[h] == ns[h].(shadow := Some(|ns|))
      && forall n :: 0 <= n < |ns| && n != h ==> r.value[n] == ns[n]
    ensures r.Err? ==> r.error.NotSupported?
  {
    if !ShadowHostTag(ns[h].tag) then Err(NotSupported("attachShadow: element does not support shadow roots"))
    else if ns[h].shadow.Some? then Err(NotSupported("attachShadow: shadow root already attached"))
    else Ok((ns + [Element(ShadowTag, map[], [], None, None, Some(h))])[h := ns[h].(shadow := Some(|ns|))])
  }

  lemma AttachShadowWellFormed(ns: seq<Element>, h: NodeId)
    requires WellFormed(ns) && h < |ns| && AttachShadowRoot(ns, h).Ok?
    ensures WellFormed(AttachShadowRoot(ns, h).value)
  {
    var r := AttachShadowRoot(ns, h).value;
    forall m | 0 <= m < |r|
      ensures Linked(r, m)
    {
      if m < |ns| {
        assert Linked(ns, m);
      }
    }
  }

  // --------------------------------------------------------------- ancestry

  /** Whether `a` is `n` or is reached from `n` by following parent links,
      and host links out of shadow roots, in at most `fuel` steps. */
  predicate Above(ns: seq<Element>, a: NodeId, n: NodeId, fuel: nat)
    decreases fuel
  {
    || a == n
    || (&& fuel > 0 && n < |ns|
        && var up := if ns[n].parent.Some? then ns[n].parent else ns[n].host;
           up.Some? && Above(ns, a, up.value, fuel - 1))
  }

  /** A detached node without a host has nothing above it but itself. */
  lemma AboveRoot(ns: seq<Element>, a: NodeId, n: NodeId, fuel: nat)
    requires n < |ns| && ns[n].parent.None? && ns[n].host.None? && a != n
    ensures !Above(ns, a, n, fuel)
  {
  }

  /** Walking up from an old node of a well-formed tree stays among the old
      nodes, whatever was added after them: a newer node is never above it. */
  lemma {:induction false} AboveOnlyOld(ns: seq<Element>, ns2: seq<Element>, b: NodeId, n: NodeId, fuel: nat)
    requires WellFormed(ns) && n < |ns| <= b && |ns| <= |ns2|
    requires forall m :: 0 <= m < |ns| ==> ns2[m] == ns[m]
    ensures !Above(ns2, b, n, fuel)
    decreases fuel
  {
    assert Linked(ns, n);
    if fuel > 0 {
      var up := if ns[n].parent.Some? then ns[n].parent else ns[n].host;
      if up.Some? {
        AboveOnlyOld(ns, ns2, b, up.value, fuel - 1);
      }
    }
  }

  // ----------------------------------------------------------------- search

  /** `container.querySelector("#" + id)` over the child list `kids`: the first
      node in tree order (each node before its descendants, siblings in order)
      carrying `id`. Shadow roots below are not entered. `fuel` bounds the
      depth. */
  function Search(ns: seq<Element>, kids: seq<NodeId>, id: string, fuel: nat): (r: Option<NodeId>)
    ensures r.Some? ==> r.value < |ns| && HasId(ns[r.value], id)
    decreases fuel, |kids|
  {
    if kids == [] || fuel == 0 then None
    else if kids[0] < |ns| && HasId(ns[kids[0]], id) then Some(kids[0])
    else
      var below := if kids[0] < |ns| then Search(ns, ns[kids[0]].children, id, fuel - 1) else None;
      if below.Some? then below else Search(ns, kids[1..], id, fuel)
  }

  /** `x` is one of `kids` or a descendant of one, within `fuel` levels. */
  predicate Reaches(ns: seq<Element>, kids: seq<NodeId>, x: NodeId, fuel: nat)
    decreases fuel, |kids|
  {
    && kids != [] && fuel > 0
    && (|| kids[0] == x
        || (kids[0] < |ns| && Reaches(ns, ns[kids[0]].children, x, fuel - 1))
        || Reaches(ns, kids[1..], x, fuel))
  }

  /** What the search returns lies inside the searched subtree. */
  lemma {:induction false} SearchInside(ns: seq<Element>, kids: seq<NodeId>, id: string, fuel: nat)
    requires Search(ns, kids, id, fuel).Some?
    ensures Reaches(ns, kids, Search(ns, kids, id, fuel).value, fuel)
    decreases fuel, |kids|
  {
    if kids[0] < |ns| && HasId(ns[kids[0]], id) {
    } else if kids[0] < |ns| && Search(ns, ns[kids[0]].children, id, fuel - 1).Some? {
      SearchInside(ns, ns[kids[0]].children, id, fuel - 1);
    } else {
      SearchInside(ns, kids[1..], id, fuel);
    }
  }

  /** The search finds something whenever a node inside the subtree carries
      the id. */
  lemma {:induction false} SearchComplete(ns: seq<Element>, kids: seq<NodeId>, id: string, fuel: nat, x: NodeId)
    requires Reaches(ns, kids, x, fuel) && x < |ns| && HasId(ns[x], id)
    ensures Search(ns, kids, id, fuel).Some?
    decreases fuel, |kids|
  {
    if kids[0] < |ns| && HasId(ns[kids[0]], id) {
    } else if kids[0] == x {
    } else if kids[0] < |ns| && Reaches(ns, ns[kids[0]].children, x, fuel - 1) {
      SearchComplete(ns, ns[kids[0]].children, id, fuel - 1, x);
    } else {
      SearchComplete(ns, kids[1..], id, fuel, x);
    }
  }

  /** A direct child carrying the id is always found. */
  lemma DirectChildFound(ns: seq<Element>, kids: seq<NodeId>, id: string, fuel: nat, i: nat)
    requires i < |kids| && kids[i] < |ns| && HasId(ns[kids[i]], id) && fuel > 0
    ensures Search(ns, kids, id, fuel).Some?
  {
    DirectChildReached(ns, kids, i, fuel);
    SearchComplete(ns, kids, id, fuel, kids[i]);
  }

  lemma {:induction false} DirectChildReached(ns: seq<Element>, kids: seq<NodeId>, i: nat, fuel: nat)
    requires i < |kids| && fuel > 0
    ensures Reaches(ns, kids, kids[i], fuel)
    decreases i
  {
    if i > 0 {
      DirectChildReached(ns, kids[1..], i - 1, fuel);
    }
  }

  // --------------------------------------------------------------- document

  /** The host document: the arena, updated in place by the tree operations. */
  class Document {
    var nodes: seq<Element>

    constructor ()
      ensures nodes == []
    {
      nodes := [];
    }

    predicate Valid()
      reads this
    {
      WellFormed(nodes)
    }

    /** `document.createElement(tag)`: a new detached element. */
    method CreateElement(tag: string) returns (n: NodeId)
      modifies this
      requires Valid()
      ensures Valid()
      ensures n == |old(nodes)| && nodes == old(nodes) + [NewElement(tag)]
    {
      AddDetachedWellFormed(nodes, NewElement(tag));
      n := |nodes|;
      nodes := nodes + [NewElement(tag)];
    }

    /** Replaces the properties of `n`, as a modifier or `e.id = ...` does. */
    method SetProps(n: NodeId, props: map<string, string>)
      modifies this
      requires Valid() && n < |nodes|
      ensures Valid()
      ensures nodes == old(nodes)[n := old(nodes)[n].(props := props)]
    {
      SetPropsWellFormed(nodes, n, props);
      nodes := nodes[n := nodes[n].(props := props)];
    }

    /** `node.remove()`. */
    method Remove(n: NodeId)
      modifies this
      requires Valid() && n < |nodes|
      ensures Valid()
      ensures nodes == Detach(old(nodes), n)
    {
      DetachWellFormed(nodes, n);
      nodes := Detach(nodes, n);
    }

    /** `p.append(c)` for an element `c`: refused when `c` is `p` or a
        host-including ancestor of it, otherwise `c` moves to the end of `p`'s
        children. */
    method Append(p: NodeId, c: NodeId) returns (err: Option<Error>)
      modifies this
      requires Valid() && p < |nodes| && c < |nodes| && nodes[c].host.None?
      ensures Valid()
      ensures Above(old(nodes), c, p, |old(nodes)|) ==> err == Some(HierarchyRequest) && nodes == old(nodes)
      ensures !Above(old(nodes), c, p, |old(nodes)|) ==> err == None && nodes == AppendChild(old(nodes), p, c)
    {
      if Above(nodes, c, p, |nodes|) {
        err := Some(HierarchyRequest);
      } else {
        AppendWellFormed(nodes, p, c);
        nodes := AppendChild(nodes, p, c);
        err := None;
      }
    }

    /** `h.attachShadow({mode})`. */
    method AttachShadow(h: NodeId) returns (r: Result<NodeId>)
      modifies this
      requires Valid() && h < |nodes|
      ensures Valid()
      ensures AttachShadowRoot(old(nodes), h).Ok? ==> r == Ok(|old(nodes)|) && nodes == AttachShadowRoot(old(nodes), h).value
      ensures AttachShadowRoot(old(nodes), h).Err? ==> r == Err(AttachShadowRoot(old(nodes), h).error) && nodes == old(nodes)
    {
      var a := AttachShadowRoot(nodes, h);
      if a.Ok? {
        AttachShadowWellFormed(nodes, h);
        r := Ok(|nodes|);
        nodes := a.value;
      } else {
        r := Err(a.error);
      }
    }
  }
}
