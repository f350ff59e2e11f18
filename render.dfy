/** The combinators on the heap. Controller maps are shared mutable objects:
    `map` re-keys them in place, `exportController` extends an existing map
    in place, and `mergeControllers` updates the parent's
    `internalControllers` object and its maps in place, so whoever holds the
    app sees the change. Those objects live in a `Store` and are named by
    handle, so two names holding the same handle are one object. `Render`
    interprets a recipe and `SetChildren` does what `setChildren` does; both
    are proved to compute `Eval` and `SetChildrenView` on what the store
    holds. */
module Render {
  import opened Js
  import opened Dom
  import opened Component

  type Handle = nat

  /** A map's contents after `set(n, e)`. */
  function Stored(s: Slots, n: NodeId, e: Option<Entry>): (r: Slots)
    ensures r.Keys == s.Keys + {n} && r[n] == e
    ensures forall m :: m in s && m != n ==> r[m] == s[m]
  {
    s[n := e]
  }

  /** An `internalControllers` object after `[k] = h`. */
  function Named(t: map<string, Handle>, k: string, h: Handle): (r: map<string, Handle>)
    ensures r.Keys == t.Keys + {k} && r[k] == h
    ensures forall j :: j in t && j != k ==> r[j] == t[j]
  {
    t[k := h]
  }

  /** The live `WeakMap<Node, entry>` objects and `internalControllers`
      objects, by handle. Weakness is not modelled. */
  class Store {
    var maps: seq<Slots>
    var tables: seq<map<string, Handle>>

    constructor ()
      ensures maps == [] && tables == []
    {
      maps := [];
      tables := [];
    }

    /** `new WeakMap()` filled with `s`. */
    method NewMap(s: Slots) returns (h: Handle)
      modifies this
      ensures h == |old(maps)| && maps == old(maps) + [s] && tables == old(tables)
    {
      h := |maps|;
      maps := maps + [s];
    }

    /** `weakMap.set(n, e)`. */
    method Set(h: Handle, n: NodeId, e: Option<Entry>)
      modifies this
      requires h < |maps|
      ensures maps == old(maps)[h := Stored(old(maps)[h], n, e)] && tables == old(tables)
    {
      maps := maps[h := Stored(maps[h], n, e)];
    }

    /** A new, empty `internalControllers` object. */
    method NewTable() returns (t: Handle)
      modifies this
      ensures t == |old(tables)| && tables == old(tables) + [map[]] && maps == old(maps)
    {
      t := |tables|;
      tables := tables + [map[]];
    }

    /** `internalControllers[k] = h`. */
    method Put(t: Handle, k: string, h: Handle)
      modifies this
      requires t < |tables|
      ensures tables == old(tables)[t := Named(old(tables)[t], k, h)] && maps == old(maps)
    {
      tables := tables[t := Named(tables[t], k, h)];
    }
  }

  /** `App`: the `controllers` object is copied by every spread, so it is a
      value holding handles, while `internalControllers` is shared. */
  datatype App = App(node: NodeId, shadow: Option<NodeId>, controllers: map<string, Handle>, internal: Handle)

  /** The maps named by `t` hold the tables `x`, name by name. */
  predicate Holds(ms: seq<Slots>, t: map<string, Handle>, x: Tables) {
    t.Keys == x.Keys && forall k :: k in t ==> t[k] < |ms| && ms[t[k]] == x[k]
  }

  /** `app` is the view `v`: same node and shadow root, and the maps of its
      two objects hold `v`'s tables. */
  predicate Shows(ms: seq<Slots>, ts: seq<map<string, Handle>>, app: App, v: View) {
    && app.node == v.node && app.shadow == v.shadow && app.internal < |ts|
    && Holds(ms, app.controllers, v.controllers) && Holds(ms, ts[app.internal], v.internal)
  }

  /** No map serves two names. */
  predicate Injective(t: map<string, Handle>) {
    forall j, k :: j in t && k in t && j != k ==> t[j] != t[k]
  }

  /** What keeps an app a faithful picture of a view: every map of `app`
      serves one name of one of its two objects. */
  predicate Separate(ts: seq<map<string, Handle>>, app: App) {
    && app.internal < |ts|
    && Injective(app.controllers) && Injective(ts[app.internal])
    && forall j, k :: j in app.controllers && k in ts[app.internal] ==> app.controllers[j] != ts[app.internal][k]
  }

  /** `s2` has every object of `s` unchanged, except those named in `except`. */
  predicate Keeps<T(==)>(s: seq<T>, s2: seq<T>, except: set<Handle>) {
    |s| <= |s2| && forall h :: 0 <= h < |s| && h !in except ==> s2[h] == s[h]
  }

  /** Every map named by `t` was created at or after handle `lo`. */
  predicate NewSince(t: map<string, Handle>, lo: nat) {
    forall k :: k in t ==> t[k] >= lo
  }

  /** What the maps named by `t` hold, read out as a value. */
  function Contents(ms: seq<Slots>, t: map<string, Handle>): (r: Tables)
    requires forall k :: k in t ==> t[k] < |ms|
    ensures Holds(ms, t, r)
  {
    map k | k in t :: ms[t[k]]
  }

  /** Maps outside `except` keep what they hold. */
  lemma HoldsFrame(ms: seq<Slots>, ms2: seq<Slots>, t: map<string, Handle>, x: Tables, except: set<Handle>)
    requires Holds(ms, t, x) && Keeps(ms, ms2, except)
    requires forall j :: j in t ==> t[j] !in except
    ensures Holds(ms2, t, x)
  {
  }

  /** Naming map `h` `k`. */
  lemma HoldsNamed(ms: seq<Slots>, t: map<string, Handle>, x: Tables, k: string, h: Handle)
    requires Holds(ms, t, x) && h < |ms|
    ensures Holds(ms, Named(t, k, h), x[k := ms[h]])
  {
  }

  /** Replacing the contents of the map named `k`, which no other name
      shares. */
  lemma HoldsReplaced(ms: seq<Slots>, t: map<string, Handle>, x: Tables, k: string, s: Slots)
    requires Holds(ms, t, x) && k in t && Injective(t)
    ensures Holds(ms[t[k] := s], t, x[k := s])
  {
  }

  /** A new map, named `k`. */
  lemma HoldsAdded(ms: seq<Slots>, t: map<string, Handle>, x: Tables, k: string, s: Slots)
    requires Holds(ms, t, x)
    ensures Holds(ms + [s], Named(t, k, |ms|), x[k := s])
  {
    HoldsFrame(ms, ms + [s], t, x, {});
    HoldsNamed(ms + [s], t, x, k, |ms|);
  }

  /** `getNode(app)(id)`. */
  function GetNode(doc: Document, app: App, id: string): (r: Option<NodeId>)
    reads doc
    ensures r.Some? ==> r.value < |doc.nodes| && HasId(doc.nodes[r.value], id)
  {
    FindById(doc.nodes, app.node, app.shadow, id)
  }

  /** `getController(app)(m, id)`: `m.get(getNode(app)(id)!)`. */
  function GetController(doc: Document, store: Store, app: App, m: Handle, id: string): (r: Option<Entry>)
    reads doc, store
    requires m < |store.maps|
    ensures r == ControllerAt(doc.nodes, app.node, app.shadow, store.maps[m], id)
  {
    var n := GetNode(doc, app, id);
    if n.Some? then Lookup(store.maps[m], n.value) else None
  }

  // ----------------------------------------------------------------- steps

  /** `of(node)`: no shadow, no controllers, a new `internalControllers`. */
  method Of(store: Store, node: NodeId) returns (app: App)
    modifies store
    ensures app == App(node, None, map[], |old(store.tables)|)
    ensures store.maps == old(store.maps) && store.tables == old(store.tables) + [map[]]
  {
    var t := store.NewTable();
    app := App(node, None, map[], t);
  }

  /** The handles `handled`, those of the names `done` among them, have been
      re-keyed in `ms2`; every other map is as in `ms`. */
  predicate RekeyedSoFar(ms: seq<Slots>, ms2: seq<Slots>, cs: map<string, Handle>, x: Tables, from: NodeId, to: NodeId,
                         done: set<string>, handled: set<Handle>)
    requires Holds(ms, cs, x)
  {
    && |ms2| == |ms| && Keeps(ms, ms2, cs.Values)
    && (forall j :: j in done ==> j in cs && cs[j] in handled)
    && (forall j :: j in cs ==> ms2[cs[j]] == if cs[j] in handled then Rekey(x[j], from, to) else x[j])
  }

  /** One iteration: `m.set(to, m.get(from))` for the map of name `k`. */
  method RekeyOne(ms: seq<Slots>, ms2: seq<Slots>, cs: map<string, Handle>, ghost x: Tables, from: NodeId, to: NodeId,
                  ghost done: set<string>, ghost handled: set<Handle>, k: string)
    returns (ms3: seq<Slots>)
    requires Holds(ms, cs, x) && k in cs
    requires RekeyedSoFar(ms, ms2, cs, x, from, to, done, handled)
    ensures RekeyedSoFar(ms, ms3, cs, x, from, to, done + {k}, handled + {cs[k]})
  {
    var h := cs[k];
    RekeyIdempotent(x[k], from, to);
    ms3 := ms2[h := Stored(ms2[h], to, Lookup(ms2[h], from))];
  }

  /** `Object.values(controllers).forEach(m => m.set(to, m.get(from)))` on
      the maps `ms`. A map listed under two names is updated twice, to the
      same effect. */
  method RekeyLoop(ms: seq<Slots>, cs: map<string, Handle>, ghost x: Tables, from: NodeId, to: NodeId)
    returns (ms2: seq<Slots>)
    requires Holds(ms, cs, x)
    ensures Holds(ms2, cs, RekeyAll(x, from, to))
    ensures |ms2| == |ms| && Keeps(ms, ms2, cs.Values)
  {
    ms2 := ms;
    var todo := cs.Keys;
    ghost var done: set<string> := {};
    ghost var handled: set<Handle> := {};
    while todo != {}
      invariant done + todo == cs.Keys && done !! todo
      invariant RekeyedSoFar(ms, ms2, cs, x, from, to, done, handled)
      decreases |todo|
    {
      var k :| k in todo;
      MoveKey(cs.Keys, done, todo, k);
      ms2 := RekeyOne(ms, ms2, cs, x, from, to, done, handled, k);
      done := done + {k};
      handled := handled + {cs[k]};
      todo := todo - {k};
    }
  }

  /** `map`'s re-keying of the app's controller maps, in the store. */
  method RekeyMaps(store: Store, cs: map<string, Handle>, ghost x: Tables, from: NodeId, to: NodeId)
    modifies store
    requires Holds(store.maps, cs, x)
    ensures Holds(store.maps, cs, RekeyAll(x, from, to))
    ensures |store.maps| == |old(store.maps)| && Keeps(old(store.maps), store.maps, cs.Values)
    ensures store.tables == old(store.tables)
  {
    store.maps := RekeyLoop(store.maps, cs, x, from, to);
  }

  /** The maps `ms2` and the object contents `tab2` come from `ms` and
      `tab` by updating only maps `tab` names and by adding names for new
      maps. */
  predicate Extended(ms: seq<Slots>, tab: map<string, Handle>, ms2: seq<Slots>, tab2: map<string, Handle>) {
    && Keeps(ms, ms2, tab.Values)
    && (forall j :: j in tab ==> j in tab2 && tab2[j] == tab[j])
    && (forall j :: j in tab2 ==> j in tab || tab2[j] >= |ms|)
  }

  lemma ExtendedTrans(ms0: seq<Slots>, tab0: map<string, Handle>, ms1: seq<Slots>, tab1: map<string, Handle>,
                      ms2: seq<Slots>, tab2: map<string, Handle>)
    requires Extended(ms0, tab0, ms1, tab1) && Extended(ms1, tab1, ms2, tab2)
    ensures Extended(ms0, tab0, ms2, tab2)
  {
    forall h | 0 <= h < |ms0| && h !in tab0.Values
      ensures ms2[h] == ms0[h]
    {
      assert forall j :: j in tab1 ==> tab1[j] != h;
    }
  }

  /** One name `k` of `mergeControllers`: `a[k] = (a[k] || new WeakMap()).set(nodeB, v)`
      on the maps `ms` and the `internalControllers` contents `tab`. */
  method MergeOne(ms: seq<Slots>, tab: map<string, Handle>, ghost x: Tables, k: string, nodeB: NodeId, v: Option<Entry>)
    returns (ms2: seq<Slots>, tab2: map<string, Handle>)
    requires Injective(tab) && Holds(ms, tab, x)
    ensures Injective(tab2)
    ensures Holds(ms2, tab2, x[k := Merged(x, k, nodeB, v)])
    ensures Extended(ms, tab, ms2, tab2)
  {
    var s: Slots := (if k in tab then ms[tab[k]] else map[])[nodeB := v];
    assert s == Merged(x, k, nodeB, v);
    if k in tab {
      HoldsReplaced(ms, tab, x, k, s);
      ms2 := ms[tab[k] := s];
      tab2 := tab;
    } else {
      HoldsAdded(ms, tab, x, k, s);
      ms2 := ms + [s];
      tab2 := Named(tab, k, |ms|);
    }
  }

  /** The names `done` of `b` merged, then one more. */
  method MergeNext(ms: seq<Slots>, tab: map<string, Handle>, ghost x: Tables, b: Tables, ghost done: set<string>, k: string, nodeB: NodeId)
    returns (ms2: seq<Slots>, tab2: map<string, Handle>)
    requires k in b && k !in done
    requires Injective(tab) && Holds(ms, tab, Merge(x, Restrict(b, done), nodeB))
    ensures Injective(tab2)
    ensures Holds(ms2, tab2, Merge(x, Restrict(b, done + {k}), nodeB))
    ensures Extended(ms, tab, ms2, tab2)
  {
    MergeRestrictStep(x, b, done, k, nodeB);
    ms2, tab2 := MergeOne(ms, tab, Merge(x, Restrict(b, done), nodeB), k, nodeB, Lookup(b[k], nodeB));
  }

  /** The loop of `mergeControllers(a, b, nodeB)` on the maps `ms` and
      the contents `tab` of `a`: every name of `b` in turn. */
  method MergeAll(ms: seq<Slots>, tab: map<string, Handle>, ghost x: Tables, b: Tables, nodeB: NodeId)
    returns (ms2: seq<Slots>, tab2: map<string, Handle>)
    requires Injective(tab) && Holds(ms, tab, x)
    ensures Injective(tab2)
    ensures Holds(ms2, tab2, Merge(x, b, nodeB))
    ensures Extended(ms, tab, ms2, tab2)
  {
    ms2, tab2 := ms, tab;
    MergeNothing(x, b, nodeB);
    var todo := b.Keys;
    ghost var done: set<string> := {};
    while todo != {}
      invariant done + todo == b.Keys && done !! todo
      invariant Injective(tab2)
      invariant Holds(ms2, tab2, Merge(x, Restrict(b, done), nodeB))
      invariant Extended(ms, tab, ms2, tab2)
      decreases |todo|
    {
      var k :| k in todo;
      MoveKey(b.Keys, done, todo, k);
      ghost var ms1, tab1 := ms2, tab2;
      ms2, tab2 := MergeNext(ms2, tab2, x, b, done, k, nodeB);
      ExtendedTrans(ms, tab, ms1, tab1, ms2, tab2);
      done := done + {k};
      todo := todo - {k};
    }
    assert done == b.Keys;
    RestrictAll(b);
  }

  /** `mergeControllers(a, b, nodeB)` for the `internalControllers` object
      `t`, `b` given by the contents of its maps. */
  method MergeTables(store: Store, t: Handle, ghost x: Tables, b: Tables, nodeB: NodeId)
    modifies store
    requires t < |store.tables| && Injective(store.tables[t]) && Holds(store.maps, store.tables[t], x)
    ensures |store.tables| == |old(store.tables)| && Keeps(old(store.tables), store.tables, {t})
    ensures Injective(store.tables[t])
    ensures Holds(store.maps, store.tables[t], Merge(x, b, nodeB))
    ensures Keeps(old(store.maps), store.maps, old(store.tables[t]).Values)
    ensures forall j :: j in store.tables[t] ==> j in old(store.tables[t]) || store.tables[t][j] >= |old(store.maps)|
    ensures forall j :: j in old(store.tables[t]) ==> j in store.tables[t] && store.tables[t][j] == old(store.tables[t])[j]
  {
    var ms, tab := MergeAll(store.maps, store.tables[t], x, b, nodeB);
    store.maps := ms;
    store.tables := store.tables[t := tab];
  }

  /** Every map `t2` names is one that `t` names or one created at or
      after handle `lo`. */
  predicate OldOrNew(t2: map<string, Handle>, t: map<string, Handle>, lo: nat) {
    forall k :: k in t2 ==> t2[k] in t.Values || t2[k] >= lo
  }

  /** What an update of an app's `controllers` object may do: change maps
      that object names, and name maps it names or new ones. */
  predicate Grown(ms: seq<Slots>, cs: map<string, Handle>, ms2: seq<Slots>, cs2: map<string, Handle>) {
    Keeps(ms, ms2, cs.Values) && OldOrNew(cs2, cs, |ms|)
  }

  /** An app whose `controllers` object grew keeps its `internalControllers`
      object apart and intact. */
  lemma GrownSeparate(ms: seq<Slots>, ms2: seq<Slots>, ts: seq<map<string, Handle>>, app: App, y: Tables, cs2: map<string, Handle>)
    requires Separate(ts, app) && Holds(ms, ts[app.internal], y)
    requires Grown(ms, app.controllers, ms2, cs2) && Injective(cs2)
    ensures Separate(ts, app.(controllers := cs2)) && Holds(ms2, ts[app.internal], y)
  {
    var t := ts[app.internal];
    forall j, k | j in cs2 && k in t
      ensures cs2[j] != t[k]
    {
      if cs2[j] in app.controllers.Values {
        var i :| i in app.controllers && app.controllers[i] == cs2[j];
      }
    }
  }

  /** An app whose `internalControllers` object grew keeps its
      `controllers` object apart and intact. */
  lemma InternalGrownSeparate(ms: seq<Slots>, ms2: seq<Slots>, ts: seq<map<string, Handle>>, ts2: seq<map<string, Handle>>,
                              app: App, x: Tables)
    requires Separate(ts, app) && Holds(ms, app.controllers, x)
    requires |ts2| == |ts| && Injective(ts2[app.internal])
    requires Keeps(ms, ms2, ts[app.internal].Values)
    requires forall j :: j in ts2[app.internal] ==> j in ts[app.internal] || ts2[app.internal][j] >= |ms|
    requires forall j :: j in ts2[app.internal] && j in ts[app.internal] ==> ts2[app.internal][j] == ts[app.internal][j]
    ensures Separate(ts2, app) && Holds(ms2, app.controllers, x)
  {
  }

  /** `controllers[k] = new WeakMap(s)`. */
  method RegisterOne(ms: seq<Slots>, cs: map<string, Handle>, ghost x: Tables, k: string, s: Slots)
    returns (ms2: seq<Slots>, cs2: map<string, Handle>)
    requires Injective(cs) && Holds(ms, cs, x)
    ensures Injective(cs2) && Holds(ms2, cs2, x[k := s]) && Grown(ms, cs, ms2, cs2) && Keeps(ms, ms2, {})
  {
    HoldsAdded(ms, cs, x, k, s);
    ms2 := ms + [s];
    cs2 := Named(cs, k, |ms|);
  }

  /** `run`'s continuation: a returned controller gets a new map of its
      own under its name. */
  method RunStep(store: Store, x: App, ghost v: View, c: Option<Controller>) returns (r: App)
    modifies store
    requires Shows(store.maps, store.tables, x, v) && Separate(store.tables, x)
    ensures Shows(store.maps, store.tables, r, Register(v, c)) && Separate(store.tables, r)
    ensures store.tables == old(store.tables) && Keeps(old(store.maps), store.maps, {})
    ensures r.internal == x.internal && OldOrNew(r.controllers, x.controllers, |old(store.maps)|)
  {
    if c.None? {
      r := x;
    } else {
      var ms, cs := RegisterOne(store.maps, x.controllers, v.controllers, c.value.name, map[x.node := Some(map["self" := c.value])]);
      GrownSeparate(store.maps, ms, store.tables, x, v.internal, cs);
      store.maps := ms;
      r := x.(controllers := cs);
    }
  }

  /** `getController(r)(controllers, nodeId)!.self`, with `controllers` the
      internal map named `table`. */
  method FindExported(doc: Document, store: Store, x: App, ghost v: View, nodeId: string, table: string)
    returns (r: Result<Controller>)
    requires Shows(store.maps, store.tables, x, v)
    ensures r == ExportedController(doc.nodes, v, nodeId, table)
  {
    var tab := store.tables[x.internal];
    if table !in tab {
      return Err(TypeError("controllers is undefined"));
    }
    var entry := GetController(doc, store, x, tab[table], nodeId);
    if entry.None? {
      return Err(TypeError("controller is undefined"));
    }
    if "self" !in entry.value {
      return Err(TypeError("controller.self is undefined"));
    }
    r := Ok(entry.value["self"]);
  }

  /** `controllers[k] = base` with `base` the map named `k`, or a new one,
      extended at `n` with `exportName: c`. */
  method ExportOne(ms: seq<Slots>, cs: map<string, Handle>, ghost x: Tables, k: string, n: NodeId, exportName: string, c: Controller)
    returns (ms2: seq<Slots>, cs2: map<string, Handle>)
    requires Injective(cs) && Holds(ms, cs, x)
    ensures Injective(cs2) && Grown(ms, cs, ms2, cs2)
    ensures Holds(ms2, cs2, x[k := Exported(if k in x then x[k] else map[], n, exportName, c)])
  {
    if k in cs {
      var s := Exported(ms[cs[k]], n, exportName, c);
      HoldsReplaced(ms, cs, x, k, s);
      ms2 := ms[cs[k] := s];
      cs2 := cs;
    } else {
      var s := Exported(map[], n, exportName, c);
      HoldsAdded(ms, cs, x, k, s);
      ms2 := ms + [s];
      cs2 := Named(cs, k, |ms|);
    }
  }

  /** The base map of `c`'s name, or a new one, extended at `x.node` with
      `exportName: c`; the app's controllers get it under `c.name`. */
  method ExtendBase(store: Store, x: App, ghost v: View, c: Controller, exportName: string) returns (r: App)
    modifies store
    requires Shows(store.maps, store.tables, x, v) && Separate(store.tables, x)
    ensures var base := if c.name in v.controllers then v.controllers[c.name] else map[];
      Shows(store.maps, store.tables, r, v.(controllers := v.controllers[c.name := Exported(base, x.node, exportName, c)]))
    ensures Separate(store.tables, r)
    ensures store.tables == old(store.tables) && Keeps(old(store.maps), store.maps, x.controllers.Values)
    ensures r.internal == x.internal && OldOrNew(r.controllers, x.controllers, |old(store.maps)|)
  {
    var ms, cs := ExportOne(store.maps, x.controllers, v.controllers, c.name, x.node, exportName, c);
    GrownSeparate(store.maps, ms, store.tables, x, v.internal, cs);
    store.maps := ms;
    r := x.(controllers := cs);
  }

  /** `exportController`'s continuation. */
  method ExportStep(doc: Document, store: Store, x: App, ghost v: View, nodeId: string, table: string, exportName: string)
    returns (r: Result<App>)
    modifies store
    requires Shows(store.maps, store.tables, x, v) && Separate(store.tables, x)
    ensures var e := ExportView(doc.nodes, v, nodeId, table, exportName);
      && r.Ok? == e.Ok?
      && (r.Err? ==> r.error == e.error && store.maps == old(store.maps))
      && (r.Ok? ==> Shows(store.maps, store.tables, r.value, e.value) && Separate(store.tables, r.value))
    ensures store.tables == old(store.tables) && Keeps(old(store.maps), store.maps, x.controllers.Values)
    ensures r.Ok? ==> r.value.internal == x.internal && OldOrNew(r.value.controllers, x.controllers, |old(store.maps)|)
  {
    var c := FindExported(doc, store, x, v, nodeId, table);
    if c.Err? {
      return Err(c.error);
    }
    var app := ExtendBase(store, x, v, c.value, exportName);
    r := Ok(app);
  }

  /** The covered `map` functions on the tree; the controllers are left to
      `RekeyMaps`. */
  method ApplyTransform(doc: Document, t: Transform, x: App, ghost v: View) returns (r: Result<App>)
    modifies doc
    requires doc.Valid() && x.node == v.node && x.shadow == v.shadow && RootIn(doc.nodes, 0, v)
    ensures doc.Valid()
    ensures var m := TransformView(old(doc.nodes), t, v);
      && doc.nodes == m.nodes
      && r.Ok? == m.app.Ok?
      && (r.Err? ==> r.error == m.app.error)
      && (r.Ok? ==> r.value == x.(node := m.app.value.node, shadow := m.app.value.shadow))
  {
    match t
    case Identity =>
      r := Ok(x);
    case WrapDiv =>
      var d := doc.CreateElement("div");
      var err := doc.Append(d, x.node);
      match err {
        case Some(e) => r := Err(e);
        case None => r := Ok(x.(node := d));
      }
    case WithShadow =>
      var s := doc.AttachShadow(x.node);
      match s {
        case Err(e) => r := Err(e);
        case Ok(h) => r := Ok(x.(shadow := Some(h)));
      }
    case Retag(tag) =>
      var n := doc.CreateElement(tag);
      r := Ok(x.(node := n));
  }

  /** `addChild`'s DOM part: `id` set on the child, which is then appended
      at `target`. */
  method PlaceChild(doc: Document, target: NodeId, child: NodeId, id: string) returns (err: Option<Error>)
    modifies doc
    requires doc.Valid() && target < |doc.nodes| && child < |doc.nodes| && doc.nodes[child].host.None?
    ensures doc.Valid()
    ensures var ns1 := WithId(old(doc.nodes), child, id);
      if Above(ns1, child, target, |ns1|) then err == Some(HierarchyRequest) && doc.nodes == ns1
      else err == None && doc.nodes == AppendChild(ns1, target, child)
  {
    if id != "" {
      doc.SetProps(child, doc.nodes[child].props["id" := id]);
    }
    err := doc.Append(target, child);
  }

  /** `addChild`'s continuation: set the id, append, merge. The result is
      the parent app itself, whose `internalControllers` object was updated
      in place. */
  method AddChildStep(doc: Document, store: Store, a: App, ghost va: View, b: App, ghost vb: View, id: string)
    returns (r: Result<App>)
    modifies doc, store
    requires doc.Valid() && a.node < |doc.nodes| && (a.shadow.Some? ==> a.shadow.value < |doc.nodes|)
    requires b.node < |doc.nodes| && doc.nodes[b.node].host.None?
    requires Shows(store.maps, store.tables, a, va) && Holds(store.maps, b.controllers, vb.controllers) && b.node == vb.node
    requires Separate(store.tables, a)
    ensures doc.Valid() && Separate(store.tables, a)
    ensures Outcome(Attach(old(doc.nodes), va, vb, id), doc.nodes, store.maps, store.tables, r)
    ensures r.Ok? ==> r.value == a
    ensures r.Err? ==> store.maps == old(store.maps) && store.tables == old(store.tables)
    ensures |store.tables| == |old(store.tables)| && Keeps(old(store.tables), store.tables, {a.internal})
    ensures Keeps(old(store.maps), store.maps, old(store.tables[a.internal]).Values)
    ensures OldOrNew(store.tables[a.internal], old(store.tables[a.internal]), |old(store.maps)|)
  {
    var target := if a.shadow.Some? then a.shadow.value else a.node;
    var err := PlaceChild(doc, target, b.node, id);
    if err.Some? {
      return Err(err.value);
    }
    ghost var ms, ts := store.maps, store.tables;
    var bt := Contents(store.maps, b.controllers);
    assert bt == vb.controllers;
    MergeTables(store, a.internal, va.internal, bt, b.node);
    InternalGrownSeparate(ms, store.maps, ts, store.tables, a, va.controllers);
    r := Ok(a);
  }

  // ------------------------------------------------------------ rendering

  /** The covered `map` functions, then the re-keying of the app's
      controller maps from the old node to the new one. */
  method MapStep(doc: Document, store: Store, t: Transform, x: App, ghost v: View) returns (r: Result<App>)
    modifies doc, store
    requires doc.Valid() && RootIn(doc.nodes, 0, v)
    requires Shows(store.maps, store.tables, x, v) && Separate(store.tables, x)
    ensures doc.Valid()
    ensures var m := TransformView(old(doc.nodes), t, v);
      && doc.nodes == m.nodes
      && r.Ok? == m.app.Ok?
      && (r.Err? ==> r.error == m.app.error)
      && (r.Ok? ==> Shows(store.maps, store.tables, r.value, m.app.value.(controllers := RekeyAll(v.controllers, v.node, m.app.value.node))))
      && (r.Ok? ==> Separate(store.tables, r.value))
    ensures store.tables == old(store.tables) && Keeps(old(store.maps), store.maps, x.controllers.Values)
    ensures r.Ok? ==> r.value.internal == x.internal && r.value.controllers == x.controllers
  {
    r := ApplyTransform(doc, t, x, v);
    if r.Ok? {
      ghost var ms := store.maps;
      RekeyMaps(store, x.controllers, v.controllers, x.node, r.value.node);
      GrownSeparate(ms, store.maps, store.tables, x, v.internal, x.controllers);
    }
  }

  /** A handle named by an object whose maps are all new since `lo`. */
  lemma NewSinceValues(t: map<string, Handle>, lo: nat)
    requires NewSince(t, lo)
    ensures forall h :: h in t.Values ==> h >= lo
  {
  }

  /** Objects unchanged across two updates of which the second touches only
      objects newer than the first's start. */
  lemma KeepsTrans<T>(s0: seq<T>, s1: seq<T>, s2: seq<T>, except: set<Handle>)
    requires Keeps(s0, s1, {}) && Keeps(s1, s2, except)
    requires forall h :: h in except ==> h >= |s0|
    ensures Keeps(s0, s2, {})
  {
  }

  /** Maps named from an object that only grew from `t` are new since `lo`
      when those of `t` are. */
  lemma NewSinceGrown(t2: map<string, Handle>, t: map<string, Handle>, lo: nat, lo2: nat)
    requires OldOrNew(t2, t, lo2) && NewSince(t, lo) && lo <= lo2
    ensures NewSince(t2, lo)
  {
    forall k | k in t2
      ensures t2[k] >= lo
    {
      if t2[k] in t.Values {
        var j :| j in t && t[j] == t2[k];
      }
    }
  }

  /** What rendering guarantees about the store: no object that existed
      before changes, and the app's objects and maps are all new. */
  predicate Fresh(ms0: seq<Slots>, ts0: seq<map<string, Handle>>, ms: seq<Slots>, ts: seq<map<string, Handle>>, app: App) {
    && app.internal < |ts|
    && NewSince(app.controllers, |ms0|) && app.internal >= |ts0| && NewSince(ts[app.internal], |ms0|)
  }

  /** The tree `ns` and the store are what rendering with outcome `e`
      leaves: the same tree, the same success or error, and on success an
      app whose objects hold `e`'s tables. */
  predicate Outcome(e: Built, ns: seq<Element>, ms: seq<Slots>, ts: seq<map<string, Handle>>, r: Result<App>) {
    && ns == e.nodes
    && r.Ok? == e.app.Ok?
    && (r.Err? ==> r.error == e.app.error)
    && (r.Ok? ==> Shows(ms, ts, r.value, e.app.value) && Separate(ts, r.value))
  }

  /** `c(context)`: renders the recipe into `doc`. The tree afterwards and
      the outcome are those of `Eval`; the app's objects hold the tables of
      `Eval`'s view, and they and their maps are all new. */
  method Render(doc: Document, store: Store, c: Component, ctx: Context) returns (r: Result<App>)
    modifies doc, store
    requires doc.Valid()
    ensures doc.Valid()
    ensures Outcome(Eval(old(doc.nodes), c, ctx), doc.nodes, store.maps, store.tables, r)
    ensures Keeps(old(store.maps), store.maps, {}) && Keeps(old(store.tables), store.tables, {})
    ensures r.Ok? ==> Fresh(old(store.maps), old(store.tables), store.maps, store.tables, r.value)
    decreases c, 1
  {
    ghost var ns0, ms0, ts0 := doc.nodes, store.maps, store.tables;
    match c
    case OfElement(tag, modifier) =>
      var n := doc.CreateElement(tag);
      doc.SetProps(n, modifier(map[], ctx));
      var app := Of(store, n);
      r := Ok(app);
    case Tell(k, v, inner) =>
      r := Render(doc, store, inner, ctx[k := v]);
    case Map(t, inner) =>
      var a := Render(doc, store, inner, ctx);
      if a.Err? {
        return a;
      }
      ghost var v := Eval(ns0, inner, ctx).app.value;
      ghost var ms1 := store.maps;
      r := MapStep(doc, store, t, a.value, v);
      NewSinceValues(a.value.controllers, |ms0|);
      KeepsTrans(ms0, ms1, store.maps, a.value.controllers.Values);
    case Run(setup, inner) =>
      var a := Render(doc, store, inner, ctx);
      if a.Err? {
        return a;
      }
      var s := setup(ctx);
      if s.Rejected? {
        return Err(Raised(s.reason));
      }
      ghost var v := Eval(ns0, inner, ctx).app.value;
      ghost var ms1 := store.maps;
      var x := RunStep(store, a.value, v, s.controller);
      NewSinceGrown(x.controllers, a.value.controllers, |ms0|, |ms1|);
      r := Ok(x);
    case Export(nodeId, table, exportName, inner) =>
      r := RenderExport(doc, store, nodeId, table, exportName, inner, ctx);
    case AddChild(child, id, inner) =>
      r := RenderAddChild(doc, store, child, id, inner, ctx);
  }

  /** `addChild`'s continuation once the parent `a`, rendered from the
      store `ms0`/`ts0`, and then the child `b`, rendered from `ms1`/`ts1`,
      are there. */
  method FinishAddChild(doc: Document, store: Store, a: App, ghost va: View, b: App, ghost vb: View, id: string,
                        ghost ms0: seq<Slots>, ghost ts0: seq<map<string, Handle>>,
                        ghost ms1: seq<Slots>, ghost ts1: seq<map<string, Handle>>)
    returns (r: Result<App>)
    modifies doc, store
    requires doc.Valid() && RootIn(doc.nodes, 0, va) && RootIn(doc.nodes, 0, vb) && b.node == vb.node
    requires Shows(ms1, ts1, a, va) && Separate(ts1, a) && Fresh(ms0, ts0, ms1, ts1, a)
    requires Keeps(ms0, ms1, {}) && Keeps(ts0, ts1, {})
    requires Keeps(ms1, store.maps, {}) && Keeps(ts1, store.tables, {})
    requires Holds(store.maps, b.controllers, vb.controllers)
    ensures doc.Valid()
    ensures Outcome(Attach(old(doc.nodes), va, vb, id), doc.nodes, store.maps, store.tables, r)
    ensures Keeps(ms0, store.maps, {}) && Keeps(ts0, store.tables, {})
    ensures r.Ok? ==> Fresh(ms0, ts0, store.maps, store.tables, r.value)
  {
    ghost var ms2, ts2 := store.maps, store.tables;
    HoldsFrame(ms1, ms2, a.controllers, va.controllers, {});
    HoldsFrame(ms1, ms2, ts1[a.internal], va.internal, {});
    r := AddChildStep(doc, store, a, va, b, vb, id);
    NewSinceValues(ts2[a.internal], |ms0|);
    KeepsTrans(ms0, ms2, store.maps, ts2[a.internal].Values);
    KeepsTrans(ts0, ts2, store.tables, {a.internal});
    if r.Ok? {
      NewSinceGrown(store.tables[a.internal], ts2[a.internal], |ms0|, |ms2|);
    }
  }

  /** `addChild(child, id)(inner)(context)`: the parent, then the child, then
      `addChild`'s continuation. */
  method RenderAddChild(doc: Document, store: Store, child: Component, id: string, inner: Component, ctx: Context)
    returns (r: Result<App>)
    modifies doc, store
    requires doc.Valid()
    ensures doc.Valid()
    ensures Outcome(Eval(old(doc.nodes), AddChild(child, id, inner), ctx), doc.nodes, store.maps, store.tables, r)
    ensures Keeps(old(store.maps), store.maps, {}) && Keeps(old(store.tables), store.tables, {})
    ensures r.Ok? ==> Fresh(old(store.maps), old(store.tables), store.maps, store.tables, r.value)
    decreases AddChild(child, id, inner), 0
  {
    ghost var ns0, ms0, ts0 := doc.nodes, store.maps, store.tables;
    var a := Render(doc, store, inner, ctx);
    if a.Err? {
      return a;
    }
    ghost var va := Eval(ns0, inner, ctx).app.value;
    ghost var ns1, ms1, ts1 := doc.nodes, store.maps, store.tables;
    var b := Render(doc, store, child, ctx);
    if b.Err? {
      return b;
    }
    ghost var vb := Eval(ns1, child, ctx).app.value;
    ghost var s := Attach(doc.nodes, va, vb, id);
    r := FinishAddChild(doc, store, a.value, va, b.value, vb, id, ms0, ts0, ms1, ts1);
    EvalAddChildOk(ns0, child, id, inner, ctx);
  }

  /** `exportController(...)(inner)(context)`: the component, then
      `exportController`'s continuation. */
  method RenderExport(doc: Document, store: Store, nodeId: string, table: string, exportName: string, inner: Component, ctx: Context)
    returns (r: Result<App>)
    modifies doc, store
    requires doc.Valid()
    ensures doc.Valid()
    ensures Outcome(Eval(old(doc.nodes), Export(nodeId, table, exportName, inner), ctx), doc.nodes, store.maps, store.tables, r)
    ensures Keeps(old(store.maps), store.maps, {}) && Keeps(old(store.tables), store.tables, {})
    ensures r.Ok? ==> Fresh(old(store.maps), old(store.tables), store.maps, store.tables, r.value)
    decreases Export(nodeId, table, exportName, inner), 0
  {
    ghost var ns0, ms0, ts0 := doc.nodes, store.maps, store.tables;
    var a := Render(doc, store, inner, ctx);
    if a.Err? {
      return a;
    }
    ghost var v := Eval(ns0, inner, ctx).app.value;
    ghost var ms1 := store.maps;
    r := ExportStep(doc, store, a.value, v, nodeId, table, exportName);
    NewSinceValues(a.value.controllers, |ms0|);
    KeepsTrans(ms0, ms1, store.maps, a.value.controllers.Values);
    if r.Ok? {
      NewSinceGrown(r.value.controllers, a.value.controllers, |ms0|, |ms1|);
    }
  }

  // ------------------------------------------------------------ setChildren

  lemma PrefixMembers(ks: seq<NodeId>, j: nat)
    requires j <= |ks|
    ensures forall k :: k in ks[..j] ==> k in ks
  {
    forall k | k in ks[..j]
      ensures k in ks
    {
      var m :| 0 <= m < j && ks[..j][m] == k;
      assert ks[m] == k;
    }
  }

  /** `Array.from(node.childNodes).forEach(e => e.remove())`. */
  method RemoveChildren(doc: Document, node: NodeId)
    modifies doc
    requires doc.Valid() && node < |doc.nodes|
    ensures doc.Valid()
    ensures var kids := old(doc.nodes)[node].children;
      (forall k :: k in kids ==> k < |old(doc.nodes)|) && doc.nodes == RemoveAll(old(doc.nodes), kids)
  {
    ghost var ns0 := doc.nodes;
    assert Linked(ns0, node);
    var kids := doc.nodes[node].children;
    var i := 0;
    while i < |kids|
      invariant 0 <= i <= |kids| && doc.Valid() && |doc.nodes| == |ns0|
      invariant forall k :: k in kids ==> k < |ns0|
      invariant forall k :: k in kids[..i] ==> k < |ns0|
      invariant doc.nodes == RemoveAll(ns0, kids[..i])
    {
      assert kids[..i + 1][..i] == kids[..i] && kids[..i + 1][i] == kids[i];
      assert kids[i] in kids;
      doc.Remove(kids[i]);
      PrefixMembers(kids, i + 1);
      i := i + 1;
    }
    assert kids[..i] == kids;
  }

  /** The parent app `app` shows `v` with the internal tables `cur` has
      merged so far, and the tree is `cur`'s. */
  predicate Attached(ns: seq<Element>, ms: seq<Slots>, ts: seq<map<string, Handle>>, app: App, v: View, cur: Children) {
    && ns == cur.nodes
    && Shows(ms, ts, app, v.(internal := cur.internal)) && Separate(ts, app)
  }

  /** Maps changed only among those an object names that only grew from
      `t`, which in turn were kept apart from the untouched ones. */
  lemma KeepsGrown(ms0: seq<Slots>, ms1: seq<Slots>, ms2: seq<Slots>, t0: map<string, Handle>, t1: map<string, Handle>)
    requires Keeps(ms0, ms1, t0.Values) && Keeps(ms1, ms2, t1.Values)
    requires OldOrNew(t1, t0, |ms0|)
    ensures Keeps(ms0, ms2, t0.Values)
  {
    forall h | 0 <= h < |ms0| && h !in t0.Values
      ensures ms2[h] == ms0[h]
    {
      assert forall j :: j in t1 ==> t1[j] != h;
    }
  }

  /** An object grown twice from `t0`. */
  lemma OldOrNewTrans(t0: map<string, Handle>, t1: map<string, Handle>, t2: map<string, Handle>, lo: nat, lo1: nat)
    requires OldOrNew(t1, t0, lo) && OldOrNew(t2, t1, lo1) && lo <= lo1
    ensures OldOrNew(t2, t0, lo)
  {
    forall k | k in t2
      ensures t2[k] in t0.Values || t2[k] >= lo
    {
      if t2[k] in t1.Values {
        var j :| j in t1 && t1[j] == t2[k];
      }
    }
  }

  /** Between two states of `setChildren`'s reduce, only the parent's
      `internalControllers` object `t` and the maps it names changed, and it
      only names maps it named or new ones. */
  predicate Progress(ms0: seq<Slots>, ts0: seq<map<string, Handle>>, ms: seq<Slots>, ts: seq<map<string, Handle>>, t: Handle) {
    && |ts| >= |ts0| && t < |ts0| && Keeps(ts0, ts, {t})
    && Keeps(ms0, ms, ts0[t].Values) && OldOrNew(ts[t], ts0[t], |ms0|)
  }

  lemma ProgressTrans(ms0: seq<Slots>, ts0: seq<map<string, Handle>>, ms1: seq<Slots>, ts1: seq<map<string, Handle>>,
                      ms2: seq<Slots>, ts2: seq<map<string, Handle>>, t: Handle)
    requires Progress(ms0, ts0, ms1, ts1, t) && Progress(ms1, ts1, ms2, ts2, t)
    ensures Progress(ms0, ts0, ms2, ts2, t)
  {
    KeepsGrown(ms0, ms1, ms2, ts0[t], ts1[t]);
    OldOrNewTrans(ts0[t], ts1[t], ts2[t], |ms0|, |ms1|);
  }

  /** One step of the reduce: the next component rendered and attached. */
  method AttachNext(doc: Document, store: Store, app: App, ghost v: View, ghost cur: Children, ctx: Context,
                    c: Component, id: string)
    returns (err: Option<Error>)
    modifies doc, store
    requires doc.Valid() && v.node < |cur.nodes| && (v.shadow.Some? ==> v.shadow.value < |cur.nodes|)
    requires Attached(doc.nodes, store.maps, store.tables, app, v, cur)
    ensures doc.Valid()
    ensures var next := AttachStep(cur, v, ctx, c, id);
      err == next.err && Attached(doc.nodes, store.maps, store.tables, app, v, next)
    ensures Progress(old(store.maps), old(store.tables), store.maps, store.tables, app.internal)
  {
    ghost var va := v.(internal := cur.internal);
    ghost var ms2, ts2 := store.maps, store.tables;
    var b := Render(doc, store, c, ctx);
    HoldsFrame(ms2, store.maps, app.controllers, va.controllers, {});
    HoldsFrame(ms2, store.maps, ts2[app.internal], va.internal, {});
    if b.Err? {
      return Some(b.error);
    }
    ghost var vb := Eval(cur.nodes, c, ctx).app.value;
    ghost var ts3 := store.tables;
    var r := AddChildStep(doc, store, app, va, b.value, vb, id);
    if r.Err? {
      return Some(r.error);
    }
    err := None;
  }

  /** The reduce of `setChildren` from the tree as it is: each component
      rendered and attached in turn until one fails. */
  method AttachLoop(doc: Document, store: Store, app: App, ghost v: View, ctx: Context, comps: seq<Component>, id: string)
    returns (err: Option<Error>)
    modifies doc, store
    requires doc.Valid() && app.node < |doc.nodes| && (app.shadow.Some? ==> app.shadow.value < |doc.nodes|)
    requires Shows(store.maps, store.tables, app, v) && Separate(store.tables, app)
    ensures doc.Valid()
    ensures var s := AttachAll(old(doc.nodes), v, ctx, comps, id);
      err == s.err && Attached(doc.nodes, store.maps, store.tables, app, v, s)
    ensures Progress(old(store.maps), old(store.tables), store.maps, store.tables, app.internal)
  {
    ghost var ns1, ms1, ts1 := doc.nodes, store.maps, store.tables;
    assert comps[..0] == [];
    var i := 0;
    ghost var cur := AttachAll(ns1, v, ctx, comps[..i], id);
    while i < |comps|
      invariant 0 <= i <= |comps| && doc.Valid()
      invariant cur == AttachAll(ns1, v, ctx, comps[..i], id)
      invariant cur.err.None? && Attached(doc.nodes, store.maps, store.tables, app, v, cur)
      invariant Progress(ms1, ts1, store.maps, store.tables, app.internal)
    {
      ghost var ms2, ts2 := store.maps, store.tables;
      AttachAllNext(ns1, v, ctx, comps, id, i);
      err := AttachNext(doc, store, app, v, cur, ctx, comps[i], id);
      ProgressTrans(ms1, ts1, ms2, ts2, store.maps, store.tables, app.internal);
      if err.Some? {
        AttachAllStops(ns1, v, ctx, comps, id, i + 1);
        return;
      }
      cur := AttachStep(cur, v, ctx, comps[i], id);
      i := i + 1;
    }
    assert comps[..i] == comps;
    err := None;
  }

  /** `setChildren(app, context, mode)(components, id)`: in `Replace` mode the
      node's children are removed first; then each component is rendered and
      attached in turn, merging its controllers into the app's
      `internalControllers` object, until one fails. That object is updated
      in place, so what was merged before a failure stays merged. */
  method SetChildren(doc: Document, store: Store, app: App, ghost v: View, ctx: Context, mode: Mode,
                     comps: seq<Component>, id: string)
    returns (r: Result<App>)
    modifies doc, store
    requires doc.Valid() && app.node < |doc.nodes| && (app.shadow.Some? ==> app.shadow.value < |doc.nodes|)
    requires Shows(store.maps, store.tables, app, v) && Separate(store.tables, app)
    ensures doc.Valid()
    ensures var s := SetChildrenView(old(doc.nodes), v, ctx, mode, comps, id);
      && doc.nodes == s.nodes
      && r.Ok? == s.err.None?
      && (r.Err? ==> r.error == s.err.value)
      && (r.Ok? ==> r.value == app)
      && Shows(store.maps, store.tables, app, v.(internal := s.internal)) && Separate(store.tables, app)
    ensures Progress(old(store.maps), old(store.tables), store.maps, store.tables, app.internal)
  {
    if mode == Replace {
      RemoveChildren(doc, app.node);
    }
    var err := AttachLoop(doc, store, app, v, ctx, comps, id);
    r := if err.Some? then Err(err.value) else Ok(app);
  }
}
