/** The event bus of `mkEventbus`: an ordered list of weakly held observer
    nodes and a last-payload cache per event name, over a host that keeps
    listeners per (node, event name) and delivers events synchronously. */
module EventBus {
  import opened Js

  /** Identity of a listener function. */
  type ListenerId = nat

  /** One synchronous invocation of `listener`, attached to `node` for
      `event`, with `payload` as the event's `detail`. */
  datatype Delivery = Delivery(node: NodeId, event: string, listener: ListenerId, payload: Value)

  /** What `register(node)` returns: the subscribe function bound to `node`. */
  datatype Subscriber = Subscriber(node: NodeId)

  /** What the subscribe function returns: the unsubscribe thunk, which knows
      its node, event name and listener. */
  datatype Subscription = Subscription(node: NodeId, event: string, listener: ListenerId)

  /** All `ls` invoked on `node` for `event` with `payload`, in order. */
  function Deliveries(node: NodeId, event: string, ls: seq<ListenerId>, payload: Value): (r: seq<Delivery>)
    ensures |r| == |ls|
  {
    if ls == [] then [] else [Delivery(node, event, ls[0], payload)] + Deliveries(node, event, ls[1..], payload)
  }

  lemma {:induction false} DeliveriesAt(node: NodeId, event: string, ls: seq<ListenerId>, payload: Value, i: nat)
    requires i < |ls|
    ensures Deliveries(node, event, ls, payload)[i] == Delivery(node, event, ls[i], payload)
    decreases |ls|
  {
    if i > 0 {
      DeliveriesAt(node, event, ls[1..], payload, i - 1);
    }
  }

  lemma {:induction false} DeliveriesMember(node: NodeId, event: string, ls: seq<ListenerId>, payload: Value, d: Delivery)
    requires d in Deliveries(node, event, ls, payload)
    ensures d.node == node && d.event == event && d.payload == payload && d.listener in ls
    decreases |ls|
  {
    if d != Delivery(node, event, ls[0], payload) {
      DeliveriesMember(node, event, ls[1..], payload, d);
    }
  }

  /** The entries of `obs` whose node is still alive, in their original order. */
  function Alive(obs: seq<NodeId>, alive: set<NodeId>): (r: seq<NodeId>)
    ensures |r| <= |obs|
  {
    if obs == [] then [] else (if obs[0] in alive then [obs[0]] else []) + Alive(obs[1..], alive)
  }

  /** `Alive` is determined entry by entry, so it distributes over `+`. */
  lemma {:induction false} AliveAppend(a: seq<NodeId>, b: seq<NodeId>, alive: set<NodeId>)
    ensures Alive(a + b, alive) == Alive(a, alive) + Alive(b, alive)
    decreases |a|
  {
    if a == [] {
      assert a + b == b;
    } else {
      var t := a[1..];
      var hd := if a[0] in alive then [a[0]] else [];
      assert (a + b)[0] == a[0];
      assert (a + b)[1..] == t + b;
      assert Alive(a + b, alive) == hd + Alive(t + b, alive);
      assert Alive(a, alive) == hd + Alive(t, alive);
      AliveAppend(t, b, alive);
      assert hd + (Alive(t, alive) + Alive(b, alive)) == (hd + Alive(t, alive)) + Alive(b, alive);
    }
  }

  /** Pruning keeps exactly the live entries, each as often as it occurs. */
  lemma {:induction false} AliveCounts(obs: seq<NodeId>, alive: set<NodeId>, n: NodeId)
    ensures multiset(Alive(obs, alive))[n] == if n in alive then multiset(obs)[n] else 0
    decreases |obs|
  {
    if obs != [] {
      AliveCounts(obs[1..], alive, n);
      assert obs == [obs[0]] + obs[1..];
    }
  }

  /** Pruning twice is pruning once. */
  lemma {:induction false} AliveIdempotent(obs: seq<NodeId>, alive: set<NodeId>)
    ensures Alive(Alive(obs, alive), alive) == Alive(obs, alive)
    decreases |obs|
  {
    if obs != [] {
      AliveIdempotent(obs[1..], alive);
      var head := if obs[0] in alive then [obs[0]] else [];
      AliveAppend(head, Alive(obs[1..], alive), alive);
      if obs[0] in alive {
        assert head[1..] == [];
      }
    }
  }

  lemma AliveOne(x: NodeId, alive: set<NodeId>)
    ensures Alive([x], alive) == if x in alive then [x] else []
  {
    assert [x][1..] == [];
  }

  /** The host's event-dispatch API and its garbage collector: listeners per
      (node, event name), the set of nodes still reachable, and the log of every
      listener invocation. */
  class Host {
    var listeners: map<(NodeId, string), seq<ListenerId>>
    var alive: set<NodeId>
    var log: seq<Delivery>

    constructor (alive: set<NodeId>)
      ensures this.alive == alive && listeners == map[] && log == []
    {
      this.alive := alive;
      listeners := map[];
      log := [];
    }

    /** The listeners attached to `node` for `event`, in attachment order. */
    function ListenersOf(node: NodeId, event: string): seq<ListenerId>
      reads this
    {
      if (node, event) in listeners then listeners[(node, event)] else []
    }

    /** `node.addEventListener(event, l)`: attaching a listener twice has no effect. */
    method AddListener(node: NodeId, event: string, l: ListenerId)
      modifies this
      ensures alive == old(alive) && log == old(log)
      ensures l in old(ListenersOf(node, event)) ==> listeners == old(listeners)
      ensures l !in old(ListenersOf(node, event)) ==>
        listeners == old(listeners)[(node, event) := old(ListenersOf(node, event)) + [l]]
    {
      var ls := ListenersOf(node, event);
      if l !in ls {
        listeners := listeners[(node, event) := ls + [l]];
      }
    }

    /** `node.removeEventListener(event, l)`; a no-op if `l` is not attached. */
    method RemoveListener(node: NodeId, event: string, l: ListenerId)
      modifies this
      ensures alive == old(alive) && log == old(log)
      ensures listeners == old(listeners)[(node, event) := Without(old(ListenersOf(node, event)), l)]
    {
      listeners := listeners[(node, event) := Without(ListenersOf(node, event), l)];
    }

    /** `node.dispatchEvent(new CustomEvent(event, {detail: payload}))`: every
        listener attached to `node` for `event` runs, synchronously, in order. */
    method Dispatch(node: NodeId, event: string, payload: Value)
      modifies this
      ensures alive == old(alive) && listeners == old(listeners)
      ensures log == old(log) + Deliveries(node, event, ListenersOf(node, event), payload)
    {
      log := log + Deliveries(node, event, ListenersOf(node, event), payload);
    }

    /** `e.deref()?.dispatchEvent(...)` for one observer entry. */
    method DispatchEntry(n: NodeId, event: string, payload: Value)
      modifies this
      ensures log == old(log) + Reach(n, alive, listeners, event, payload)
      ensures listeners == old(listeners) && alive == old(alive)
    {
      if n in alive {
        Dispatch(n, event, payload);
      } else {
        assert log + [] == log;
      }
    }

    /** `observers.forEach(e => e.deref()?.dispatchEvent(...))`. */
    method DispatchAll(obs: seq<NodeId>, event: string, payload: Value)
      modifies this
      ensures log == old(log) + Fanout(obs, old(alive), old(listeners), event, payload)
      ensures listeners == old(listeners) && alive == old(alive)
    {
      ghost var log0, al, ls := log, alive, listeners;
      var i := 0;
      while i < |obs|
        invariant 0 <= i <= |obs|
        invariant listeners == ls && alive == al
        invariant log0 + Fanout(obs, al, ls, event, payload) == log + Fanout(obs[i..], al, ls, event, payload)
      {
        ghost var next := Reach(obs[i], al, ls, event, payload);
        ghost var rest := Fanout(obs[i + 1..], al, ls, event, payload);
        assert obs[i..][0] == obs[i] && obs[i..][1..] == obs[i + 1..];
        assert Fanout(obs[i..], al, ls, event, payload) == next + rest;
        ghost var before := log;
        DispatchEntry(obs[i], event, payload);
        assert before + (next + rest) == (before + next) + rest;
        i := i + 1;
      }
      assert Fanout(obs[i..], al, ls, event, payload) == [];
      assert log + [] == log;
    }

    /** The environment reclaims the nodes in `dead`; liveness only shrinks. */
    method Collect(dead: set<NodeId>)
      modifies this
      ensures alive == old(alive) - dead
      ensures listeners == old(listeners) && log == old(log)
    {
      alive := alive - dead;
    }
  }

  /** Everything `notify` dispatches: for each observer entry alive now, in
      list order, every listener attached to it for `event`. */
  function Fanout(obs: seq<NodeId>, alive: set<NodeId>, ls: map<(NodeId, string), seq<ListenerId>>,
                  event: string, payload: Value): seq<Delivery>
  {
    if obs == [] then []
    else Reach(obs[0], alive, ls, event, payload) + Fanout(obs[1..], alive, ls, event, payload)
  }

  /** What `e.deref()?.dispatchEvent(...)` delivers for one observer entry. */
  function Reach(n: NodeId, alive: set<NodeId>, ls: map<(NodeId, string), seq<ListenerId>>,
                 event: string, payload: Value): seq<Delivery>
  {
    if n in alive then Deliveries(n, event, if (n, event) in ls then ls[(n, event)] else [], payload) else []
  }

  lemma FanoutOne(n: NodeId, alive: set<NodeId>, ls: map<(NodeId, string), seq<ListenerId>>, event: string, payload: Value)
    ensures Fanout([n], alive, ls, event, payload) == Reach(n, alive, ls, event, payload)
  {
    assert [n][1..] == [];
  }

  lemma {:induction false} FanoutAppend(a: seq<NodeId>, b: seq<NodeId>, alive: set<NodeId>,
                                        ls: map<(NodeId, string), seq<ListenerId>>, event: string, payload: Value)
    ensures Fanout(a + b, alive, ls, event, payload) == Fanout(a, alive, ls, event, payload) + Fanout(b, alive, ls, event, payload)
    decreases |a|
  {
    if a == [] {
      assert a + b == b;
    } else {
      assert (a + b)[0] == a[0];
      assert (a + b)[1..] == a[1..] + b;
      FanoutAppend(a[1..], b, alive, ls, event, payload);
    }
  }

  /** A delivery of `notify` goes to a live observer, for the notified event,
      with the notified payload, to a listener attached there. */
  lemma {:induction false} FanoutSound(obs: seq<NodeId>, alive: set<NodeId>, ls: map<(NodeId, string), seq<ListenerId>>,
                                       event: string, payload: Value, d: Delivery)
    requires d in Fanout(obs, alive, ls, event, payload)
    ensures d.node in obs && d.node in alive
    ensures d.event == event && d.payload == payload
    ensures (d.node, event) in ls && d.listener in ls[(d.node, event)]
    decreases |obs|
  {
    var here := Reach(obs[0], alive, ls, event, payload);
    if d in here {
      DeliveriesMember(obs[0], event, if (obs[0], event) in ls then ls[(obs[0], event)] else [], payload, d);
    } else {
      FanoutSound(obs[1..], alive, ls, event, payload, d);
    }
  }

  /** Conversely every live observer entry receives the event on each of its
      listeners for it. */
  lemma {:induction false} FanoutComplete(obs: seq<NodeId>, alive: set<NodeId>, ls: map<(NodeId, string), seq<ListenerId>>,
                                          event: string, payload: Value, n: NodeId, l: ListenerId)
    requires n in obs && n in alive && (n, event) in ls && l in ls[(n, event)]
    ensures Delivery(n, event, l, payload) in Fanout(obs, alive, ls, event, payload)
    decreases |obs|
  {
    if obs[0] == n {
      var i :| 0 <= i < |ls[(n, event)]| && ls[(n, event)][i] == l;
      DeliveriesAt(n, event, ls[(n, event)], payload, i);
    } else {
      FanoutComplete(obs[1..], alive, ls, event, payload, n, l);
    }
  }

  /** The state of one `mkEventbus()` closure. */
  class Bus {
    const host: Host
    /** `observers`: weak references, so an entry may outlive its node. */
    var observers: seq<NodeId>
    /** `lastEvent`: the most recent payload per event name. */
    var lastEvent: map<string, Value>

    /** `mkEventbus()`: no observers, nothing cached. */
    constructor (host: Host)
      ensures this.host == host && observers == [] && lastEvent == map[]
    {
      this.host := host;
      observers := [];
      lastEvent := map[];
    }

    /** `lastEvent[event]`: `undefined` if nothing was notified yet. */
    function Last(event: string): (r: Value)
      reads this
    {
      if event in lastEvent then lastEvent[event] else Undefined
    }

    /** `cleanup()`: a backward scan that splices out every entry whose node
        is no longer alive. */
    method Cleanup()
      modifies this
      ensures observers == Alive(old(observers), host.alive)
      ensures lastEvent == old(lastEvent)
    {
      var i := |observers|;
      while i > 0
        invariant 0 <= i <= |old(observers)|
        invariant observers == old(observers)[..i] + Alive(old(observers)[i..], host.alive)
        invariant lastEvent == old(lastEvent)
      {
        ghost var o := old(observers);
        assert o[i - 1..] == [o[i - 1]] + o[i..];
        AliveAppend([o[i - 1]], o[i..], host.alive);
        AliveOne(o[i - 1], host.alive);
        assert o[..i] == o[..i - 1] + [o[i - 1]];
        if observers[i - 1] !in host.alive {
          observers := observers[..i - 1] + observers[i..];
        }
        i := i - 1;
      }
      assert old(observers)[0..] == old(observers);
    }

    /** `register(node)`: prune, then append exactly one entry for `node`,
        and return the subscribe function bound to it. */
    method Register(node: NodeId) returns (s: Subscriber)
      modifies this
      ensures s == Subscriber(node)
      ensures observers == Alive(old(observers), host.alive) + [node]
      ensures lastEvent == old(lastEvent)
    {
      Cleanup();
      observers := observers + [node];
      s := Subscriber(node);
    }

    /** The subscribe function `listen(node)(event, listener, fallback)`:
        attach the listener, then replay the cached payload if it is truthy,
        else dispatch `fallback` if that is truthy. `fallback` is `Undefined`
        when the argument is omitted. `replayed` is the payload dispatched. */
    method Subscribe(s: Subscriber, event: string, listener: ListenerId, fallback: Value)
      returns (sub: Subscription, replayed: Option<Value>)
      modifies host
      ensures sub == Subscription(s.node, event, listener)
      ensures replayed == if Truthy(Last(event)) then Some(Last(event))
                          else if Truthy(fallback) then Some(fallback)
                          else None
      ensures host.ListenersOf(s.node, event) ==
        if listener in old(host.ListenersOf(s.node, event)) then old(host.ListenersOf(s.node, event))
        else old(host.ListenersOf(s.node, event)) + [listener]
      ensures forall n: NodeId, e: string :: (n, e) != (s.node, event) ==> host.ListenersOf(n, e) == old(host.ListenersOf(n, e))
      ensures host.alive == old(host.alive)
      ensures host.log == old(host.log) +
        (if replayed.Some? then Deliveries(s.node, event, host.ListenersOf(s.node, event), replayed.value) else [])
    {
      host.AddListener(s.node, event, listener);
      var last := Last(event);
      if Truthy(last) {
        host.Dispatch(s.node, event, last);
        replayed := Some(last);
      } else if Truthy(fallback) {
        host.Dispatch(s.node, event, fallback);
        replayed := Some(fallback);
      } else {
        replayed := None;
      }
      sub := Subscription(s.node, event, listener);
    }

    /** The unsubscribe thunk: detach that listener from that node for that
        event only; the observer list is left as it is. */
    method Unsubscribe(sub: Subscription)
      modifies host
      ensures sub.listener !in host.ListenersOf(sub.node, sub.event)
      ensures host.ListenersOf(sub.node, sub.event) == Without(old(host.ListenersOf(sub.node, sub.event)), sub.listener)
      ensures forall n: NodeId, e: string :: (n, e) != (sub.node, sub.event) ==> host.ListenersOf(n, e) == old(host.ListenersOf(n, e))
      ensures host.alive == old(host.alive) && host.log == old(host.log)
    {
      host.RemoveListener(sub.node, sub.event, sub.listener);
    }

    /** `notify(event, payload)`: cache the payload for `event` only, dispatch
        it to every live observer in list order, then prune. */
    method Notify(event: string, payload: Value)
      modifies this, host
      ensures lastEvent == old(lastEvent)[event := payload]
      ensures Last(event) == payload && forall other :: other != event ==> Last(other) == old(Last(other))
      ensures host.log == old(host.log) + Fanout(old(observers), old(host.alive), old(host.listeners), event, payload)
      ensures observers == Alive(old(observers), old(host.alive))
      ensures host.listeners == old(host.listeners) && host.alive == old(host.alive)
    {
      lastEvent := lastEvent[event := payload];
      host.DispatchAll(observers, event, payload);
      Cleanup();
    }

  }

  // ------------------------------------------------------------------ laws

  /** A listener that is not attached to a node for an event receives nothing
      from a `notify` of that event, whatever the observer list holds: so after
      the unsubscribe thunk has run, a later `notify` does not invoke it. */
  lemma DetachedListenerNotInvoked(obs: seq<NodeId>, alive: set<NodeId>, ls: map<(NodeId, string), seq<ListenerId>>,
                                   event: string, payload: Value, n: NodeId, l: ListenerId)
    requires (n, event) in ls ==> l !in ls[(n, event)]
    ensures forall d :: d in Fanout(obs, alive, ls, event, payload) ==> !(d.node == n && d.listener == l)
  {
    forall d | d in Fanout(obs, alive, ls, event, payload)
      ensures !(d.node == n && d.listener == l)
    {
      FanoutSound(obs, alive, ls, event, payload, d);
    }
  }

  /** A node reclaimed before `notify` is neither invoked by it nor kept in
      the observer list afterwards. */
  lemma {:induction false} DeadAreDroppedAndSilent(obs: seq<NodeId>, alive: set<NodeId>, ls: map<(NodeId, string), seq<ListenerId>>,
                                                   event: string, payload: Value, n: NodeId)
    requires n !in alive
    ensures n !in Alive(obs, alive)
    ensures forall d :: d in Fanout(obs, alive, ls, event, payload) ==> d.node != n
    decreases |obs|
  {
    if obs != [] {
      DeadAreDroppedAndSilent(obs[1..], alive, ls, event, payload, n);
    }
    forall d | d in Fanout(obs, alive, ls, event, payload) ensures d.node != n {
      FanoutSound(obs, alive, ls, event, payload, d);
    }
  }

  // ------------------------------------------------------------- scenarios

  /** Two nodes registered and subscribed, one `notify`: each listener runs once. */
  method RegisteredNodesAreNotified(nodeA: NodeId, nodeB: NodeId)
    requires nodeA != nodeB
  {
    var host := new Host({nodeA, nodeB});
    var bus := new Bus(host);
    var sa := bus.Register(nodeA);
    var _, ra := bus.Subscribe(sa, "Hej", 1, Undefined);
    var sb := bus.Register(nodeB);
    assert bus.observers == [nodeA, nodeB];
    var _, rb := bus.Subscribe(sb, "Hej", 2, Undefined);
    assert ra == None && rb == None && host.log == [];
    assert host.ListenersOf(nodeA, "Hej") == [1] && host.ListenersOf(nodeB, "Hej") == [2];
    assert host.alive == {nodeA, nodeB};
    ghost var ls := host.listeners;
    var p := Str("Hello");
    bus.Notify("Hej", p);
    assert [nodeA, nodeB][1..] == [nodeB];
    FanoutOne(nodeB, {nodeA, nodeB}, ls, "Hej", p);
    assert [1][1..] == [] && [2][1..] == [];
    assert Reach(nodeA, {nodeA, nodeB}, ls, "Hej", p) == [Delivery(nodeA, "Hej", 1, p)];
    assert Reach(nodeB, {nodeA, nodeB}, ls, "Hej", p) == [Delivery(nodeB, "Hej", 2, p)];
    assert host.log == [Delivery(nodeA, "Hej", 1, Str("Hello")), Delivery(nodeB, "Hej", 2, Str("Hello"))];
  }

  /** Two notifications before any subscription: only the last is replayed. */
  method OnlyLastEventIsReplayed(nodeA: NodeId) {
    var host := new Host({nodeA});
    var bus := new Bus(host);
    bus.Notify("Hej", Str("Hello"));
    bus.Notify("Hej", Str("Fisken"));
    var s := bus.Register(nodeA);
    var _, replayed := bus.Subscribe(s, "Hej", 7, Undefined);
    assert replayed == Some(Str("Fisken"));
    assert [7][1..] == [];
    assert host.log == [Delivery(nodeA, "Hej", 7, Str("Fisken"))];
  }

  /** Unsubscribed before the `notify`: the listener never runs. */
  method NotNotifiedIfUnregistered(nodeA: NodeId) {
    var host := new Host({nodeA});
    var bus := new Bus(host);
    var s := bus.Register(nodeA);
    var unregister, _ := bus.Subscribe(s, "Hej", 3, Undefined);
    bus.Unsubscribe(unregister);
    assert host.ListenersOf(nodeA, "Hej") == [];
    bus.Notify("Hej", Str("Hello"));
    assert [nodeA][1..] == [];
    assert host.log == [];
  }
}
