# o2fp core in Dafny

A model of the runtime core of o2fp, a small TypeScript toolkit that builds
DOM user interfaces out of *components*. A component is a function from a
context object to a promise of an *app*. An app has four parts:

- `node`, its root element;
- `shadow`, an optional shadow root;
- `controllers`, the weak maps it exposes;
- `internalControllers`, the weak maps of its children.

The model covers four files.

- **Event bus** (`src/eventbus.ts`), module `EventBus`.
  - `Host` stands for the browser's event-dispatch API. It holds listeners
    per (node, event name), the set of nodes the garbage collector has not
    reclaimed, and a log of every listener invocation.
  - `Bus` is the closure state of `mkEventbus`: the ordered observer list
    and the `lastEvent` cache.
  - `cleanup`, `register`, the subscribe function and its unsubscribe
    thunk, and `notify` are methods proved against the spec functions
    `Alive` and `Fanout`.
- **Components** (`src/component.ts`).
  - Module `Component` gives the meaning of each combinator on values.
    A component is a recipe datatype built from `ofElement`, `tell`, `map`,
    `run`, `exportController` and `addChild`. Its meaning `Eval` is the
    element tree after rendering, plus the app or the error that rejects
    the promise.
  - `setChildren` is `SetChildrenView`. `getNode` and `getController` are
    `FindById` and `ControllerAt`.
  - Module `Dom` is the element tree those functions act on, with
    `append`, `remove`, `attachShadow` and the `#id` search. Each node is a
    handle into an arena.
  - Module `Render` is the heap-level interpreter. The weak maps live in a
    `Store` and an app refers to them by handle, so the in-place updates
    that `map`, `mergeControllers`, `exportController` and `setChildren`
    make through shared references are modelled as such. Each of its
    methods is proved to compute exactly what `Eval` / `SetChildrenView`
    say.
  - Module `ComponentLaws` states what each combinator does to the app it
    wraps. Module `ComponentScenarios` replays the repository's tests of
    `ofElement`, `ask`, `tell`, `run`, `addChild`, `exportController`,
    `getNode`, `getController` and `setChildren`. An `expect` inside a
    `run` setup is a setup that rejects unless it holds.
- **Router** (`src/router.ts`), module `Router`.
  - Route lists, and the ordered first-match search `findMatchingRoute`.
  - The router's setup: the `prevMatchUrl` state machine in class
    `RouterState`, the `BROWSE_TO` subscription and the returned controller.
  - `TopLevelRouter`.
  - Module `RouterScenarios` replays the router test.
- **Utilities** (`src/util.ts`), module `Util`: `pipe`, `id`, `compact`
  and `convertToCSS`.

The async chaining of the source is modelled as sequential composition.
`addChild` renders the parent first, then the child.

## Model

| member | source | states |
|---|---|---|
| Util.PipeEmpty | src/util.ts:83-85 | a pipe with no functions returns its value |
| Util.PipeSnoc | src/util.ts:83-85 | `pipe` is a left fold: the last function is applied last, to the result of the others |
| Util.PipeConcat | src/util.ts:83-85 | piping through `a` then `b` is piping through `a + b` |
| Util.PipeTwo | src/util.ts:83-85 | `pipe(v, f, g) == g(f(v)) == pipe(f(v), g)` |
| Util.Id | src/util.ts:87 | `id(x)` is `x`; `ask`, `tellController` and `askEventBus` are `id` on their component at run time |
| Util.Compact | src/util.ts:91-92 | the result is no longer than the input and every element kept is truthy |
| Util.CompactAppend | src/util.ts:91-92 | the filter distributes over concatenation, so kept elements stay in their original order |
| Util.CompactMembers | src/util.ts:91-92 | a value is kept if and only if it occurs in the input and is truthy |
| Util.CompactCounts | src/util.ts:91-92 | each truthy value is kept as many times as it occurs; falsy values never |
| Util.DeclarationTexts | src/util.ts:105 | one `prop:value` text per declaration, in order |
| Util.RuleTexts | src/util.ts:102-107 | one block text per selector entry, in order |
| Util.RuleTextShape | src/util.ts:104-106 | a block is `selector{`, the declarations joined by `;`, then a `;}` that is always there (`sel{;}` when there are none) |
| Util.Split | src/util.ts:108 | splitting always yields at least one piece (the inverse used for `join`) |
| Util.SplitNoSeparator | src/util.ts:108 | a text without the separator splits into itself |
| Util.SplitAt | src/util.ts:108 | splitting at the first separator peels off the text before it |
| Util.SplitJoin | src/util.ts:108 | joining pieces free of a one-character separator is undone by splitting on it |
| Util.JoinNoNewline | src/util.ts:106 | joining newline-free texts with a newline-free separator gives a newline-free text |
| Util.RuleTextNoNewline | src/util.ts:103-106 | a block built from newline-free parts has no newline |
| Util.ConvertToCssBlocks | src/util.ts:100-108 | the stylesheet splits back at `"\n"` into exactly one block per selector entry, in order |
| Js.Field | src/router.ts:107 | reading a property gives the stored value, or `undefined` when it is absent |
| Js.Without | src/eventbus.ts:42 | removing a listener or child keeps exactly the other entries |
| Js.WithoutAbsent | src/eventbus.ts:42 | removing what is not attached changes nothing |
| EventBus.Deliveries | src/eventbus.ts:36-37 | a dispatch invokes one delivery per attached listener |
| EventBus.DeliveriesAt | src/eventbus.ts:36-37 | the i-th delivery of a dispatch goes to the i-th listener, in attachment order |
| EventBus.DeliveriesMember | src/eventbus.ts:36-37 | every delivery of a dispatch carries that node, event and payload, and goes to an attached listener |
| EventBus.Alive | src/eventbus.ts:19-25 | pruning never lengthens the list |
| EventBus.AliveAppend | src/eventbus.ts:19-25 | pruning decides entry by entry, so it keeps the relative order of the survivors |
| EventBus.AliveCounts | src/eventbus.ts:19-25 | pruning keeps exactly the live entries, each as often as it occurs |
| EventBus.AliveIdempotent | src/eventbus.ts:19-25 | pruning twice is pruning once |
| EventBus.AliveOne | src/eventbus.ts:21-22 | a single entry survives if and only if its node is alive |
| EventBus.Host.constructor | src/eventbus.ts:15 | a fresh host has no listeners and an empty log |
| EventBus.Host.AddListener | src/eventbus.ts:34 | `addEventListener` appends the listener unless it is already attached, touching no other (node, event) |
| EventBus.Host.RemoveListener | src/eventbus.ts:42 | `removeEventListener` drops that listener from that (node, event) only |
| EventBus.Host.Dispatch | src/eventbus.ts:36-40 | `dispatchEvent` logs one delivery per attached listener, in order, and changes nothing else |
| EventBus.Host.DispatchEntry | src/eventbus.ts:56 | `e.deref()?.dispatchEvent(...)` delivers to a live node and does nothing for a reclaimed one |
| EventBus.Host.DispatchAll | src/eventbus.ts:55-57 | the `forEach` appends exactly `Fanout` of the observer list to the log |
| EventBus.Host.Collect | src/eventbus.ts:16 | the collector only removes nodes from the live set |
| EventBus.FanoutOne | src/eventbus.ts:55-57 | fan-out over one entry is that entry's dispatch |
| EventBus.FanoutAppend | src/eventbus.ts:55-57 | fan-out follows the observer list: over `a + b` it is over `a`, then over `b` |
| EventBus.FanoutSound | src/eventbus.ts:55-57 | every delivery of `notify` goes to a live observer, for the notified event and payload, to a listener attached there |
| EventBus.FanoutComplete | src/eventbus.ts:55-57 | every listener of every live observer receives the notified event |
| EventBus.Bus.constructor | src/eventbus.ts:15-17 | a new bus has no observers and nothing cached |
| EventBus.Bus.Cleanup | src/eventbus.ts:19-25 | the backward splice loop leaves exactly the entries whose node is alive, in order, and leaves the cache alone |
| EventBus.Bus.Register | src/eventbus.ts:44-48 | `register` prunes, then appends exactly one entry for the node at the end, and returns the subscribe function for it |
| EventBus.Bus.Subscribe | src/eventbus.ts:27-43 | subscribing attaches the listener, then dispatches the cached payload if truthy, else the fallback if truthy, else nothing; it logs exactly those deliveries and changes no other listeners |
| EventBus.Bus.Unsubscribe | src/eventbus.ts:42 | the thunk detaches only that listener from that node for that event; observers, liveness and the log are unchanged |
| EventBus.Bus.Notify | src/eventbus.ts:50-59 | `notify` caches the payload for that event, leaves every other event's cached value as it was, delivers it to every live observer in list order, then prunes |
| EventBus.DetachedListenerNotInvoked | src/eventbus.ts:42-59 | a listener not attached for an event receives nothing from a `notify` of it, so after unsubscribing it is never invoked |
| EventBus.DeadAreDroppedAndSilent | src/eventbus.ts:55-58 | a reclaimed node is neither invoked by `notify` nor kept in the observer list afterwards |
| Dom.Detach | src/component.ts:527 | `remove()` takes the node out of its parent's child list and leaves every other node alone |
| Dom.AppendChild | src/component.ts:422 | `append` moves the child to the end of the parent's list, out of its previous parent's |
| Dom.DetachWellFormed | src/component.ts:527 | removing keeps the tree consistent and the node is in no child list afterwards |
| Dom.AppendWellFormed | src/component.ts:422 | appending keeps parent links and child lists consistent |
| Dom.AddDetachedWellFormed | src/component.ts:92 | a newly created element keeps the tree consistent |
| Dom.SetPropsWellFormed | src/component.ts:93 | the modifier's property changes keep the tree consistent |
| Dom.AttachShadowRoot | src/component.spec.ts:108-120 | `attachShadow` succeeds if and only if the tag may host one and has none yet; the root is a new node hosted by it; otherwise `NotSupportedError` |
| Dom.AttachShadowWellFormed | src/component.spec.ts:108-120 | attaching a shadow root keeps the tree consistent |
| Dom.AboveRoot | src/component.ts:422 | nothing is an ancestor of a detached node, so appending under it cannot raise a hierarchy error |
| Dom.AboveOnlyOld | src/component.ts:422 | a new node is no ancestor of an old one |
| Dom.Search | src/component.ts:547 | a node that `querySelector("#id")` finds carries that id |
| Dom.SearchInside | src/component.ts:547 | the node found is a descendant of the container |
| Dom.SearchComplete | src/component.ts:547 | if a descendant carries the id, the search finds one |
| Dom.DirectChildFound | src/component.ts:547 | a child carrying the id is found |
| Dom.DirectChildReached | src/component.ts:547 | every child is a descendant |
| Dom.Document.constructor | src/component.ts:69 | a new document is empty |
| Dom.Document.CreateElement | src/component.ts:92 | `createElement(tag)` adds one detached element with that tag |
| Dom.Document.SetProps | src/component.ts:93 | the modifier's changes land on that node only |
| Dom.Document.Remove | src/component.ts:527 | `remove()` on the document is `Detach` |
| Dom.Document.Append | src/component.ts:422 | `append` raises a hierarchy error exactly when the child is an ancestor of the parent, and otherwise is `AppendChild` |
| Dom.Document.AttachShadow | src/component.spec.ts:108-120 | `attachShadow` on the document is `AttachShadowRoot`, and leaves the tree alone when it fails |
| Component.WithId | src/component.ts:419-421 | a truthy id is set on the child's node only; an empty id sets nothing |
| Component.FindById | src/component.ts:543-548 | `getNode` only returns a node carrying the id |
| Component.ControllerAt | src/component.ts:590-594 | `getController` finds nothing when `getNode` finds nothing, and what it finds is the map's entry for a node carrying the id |
| Component.Register | src/component.ts:267-283 | a returned controller replaces the name's map by one holding only `node ↦ {self: controller}`, other names kept; no controller changes nothing; node, shadow and internal controllers stay |
| Component.Exported | src/component.ts:345-350 | the node's entry becomes the previous entry (or `{}`) with `exportName ↦ controller` added, its other members kept; other nodes unchanged |
| Component.ExportedController | src/component.ts:334-337 | the exported controller is the `self` of the selected internal map's entry for a node carrying the id; anything missing is a `TypeError` |
| Component.ExportView | src/component.ts:334-358 | export only changes the controllers object, and fails only with `TypeError` |
| Component.RekeyAll | src/component.ts:173-175 | every controller map gets `newNode ↦ get(oldNode)` and no name is added or lost |
| Component.RekeyIdempotent | src/component.ts:173-175 | re-keying a map twice (it is shared by two names) is re-keying it once |
| Component.Merge | src/component.ts:438-445 | `mergeControllers` yields the names of both objects |
| Component.Restrict | src/component.ts:439 | the names of `b` already visited by the `forEach`, with their maps |
| Component.MergeNothing | src/component.ts:438-445 | merging no names leaves the parent's object as it is |
| Component.RestrictAll | src/component.ts:439 | visiting every name of `b` is all of `b` |
| Component.RestrictInsert | src/component.ts:439-441 | visiting one more name adds exactly its map |
| Component.MergeInsert | src/component.ts:440-441 | merging one more name sets that name's map at the child node and changes no other name |
| Component.MergeRestrictStep | src/component.ts:439-442 | one more `forEach` step is one more `a[k] = (a[k] \|\| new WeakMap()).set(nodeB, b[k].get(nodeB))` |
| Component.TransformView | src/component.ts:459-463 | the covered `map` functions keep the app's controllers and leave every old node other than the root alone |
| Component.Attach | src/component.ts:419-432 | `addChild`'s attachment keeps the parent's node, shadow and controllers and merges the child's controllers at the child's node; its only failure is a hierarchy error |
| Component.AttachFrame | src/component.ts:419-422 | the attachment changes no node older than the two apps and the parent stays detached |
| Component.Eval | src/component.ts:74-96 | rendering only adds nodes after the existing ones and resolves to a detached root among them |
| Component.EvalMap | src/component.ts:170-177 | `map` only adds nodes and resolves to a new detached root |
| Component.EvalRun | src/component.ts:258-289 | `run` only adds nodes and resolves to a new detached root |
| Component.EvalExport | src/component.ts:331-361 | `exportController` only adds nodes and resolves to a new detached root |
| Component.EvalAddChild | src/component.ts:401-435 | `addChild` only adds nodes and resolves to a new detached root |
| Component.EvalAddChildOk | src/component.ts:401-435 | when parent and child render, `addChild` resolves to the attachment of the child to the parent |
| Component.RemoveAll | src/component.ts:527 | removing the children keeps every node handle |
| Component.AttachStep | src/component.ts:529-531 | one step of the `reduce` only adds nodes |
| Component.AttachAll | src/component.ts:529-532 | the `reduce` only adds nodes |
| Component.AttachAllStops | src/component.ts:529-534 | once a component fails, the rest are neither attached nor merged |
| Component.SetChildrenView | src/component.ts:503-535 | `setChildren` only adds nodes after the existing ones; where it places them is `SetChildrenPlaces` |
| Component.AttachAllNext | src/component.ts:529-532 | after `j` successful steps the `reduce` renders and attaches component `j` |
| ComponentLaws.TransformWellFormed | src/component.ts:459-463 | the covered `map` functions keep the tree consistent; only attaching a shadow root can fail, with `NotSupportedError` |
| ComponentLaws.AttachWellFormed | src/component.ts:419-432 | the child is appended last under `shadow` if present, else under `node`, with the id set; no other node changes |
| ComponentLaws.EvalWellFormed | src/component.ts:74-436 | rendering keeps the tree consistent and fails only with `NotSupportedError`, `TypeError` or what a `run` setup rejects with |
| ComponentLaws.TellInnermostWins | src/component.ts:126-132 | of two `tell`s of one key, the one nearer the component wins |
| ComponentLaws.TellCommute | src/component.ts:126-132 | `tell`s of different keys commute |
| ComponentLaws.TellReachesChild | src/component.ts:126-132 | a `tell` around `addChild` reaches both the parent and the child |
| ComponentLaws.TellReachesSetup | src/component.ts:126-132 | a `tell` around `run` reaches its setup function, whose resolved controller is registered |
| ComponentLaws.TellReachesModifier | src/component.ts:126-132 | a `tell` around `ofElement` reaches its modifier |
| ComponentLaws.MapMovesControllers | src/component.ts:170-177 | `map` gives every controller name `newNode ↦ old entry of oldNode` and keeps every other entry and the internal controllers |
| ComponentLaws.MapIdentity | src/component.spec.ts:88-96 | `map(id)` yields the same node, shadow, tree and controller entries |
| ComponentLaws.MapCompose | src/component.spec.ts:122-145 | two `map`s in a row carry the original entries to the final node |
| ComponentLaws.MapRetag | src/component.spec.ts:98-106 | a `map` that swaps the node gives a new element with that tag and keeps the shadow |
| ComponentLaws.MapWithShadow | src/component.spec.ts:108-120 | a `map` attaching a shadow root succeeds exactly when the tag allows a new one; the shadow is a new node hosted by the app's node |
| ComponentLaws.WrapDivWraps | src/component.ts:459-463 | `wrapDiv`'s node is a new `div` whose only child is the old node |
| ComponentLaws.RunRegisters | src/component.ts:261-284 | a returned controller replaces the name's map by one holding only `node ↦ {self: controller}`; other names, node, shadow, internal controllers and tree are unchanged; no controller changes nothing; a setup that rejects makes `run` reject with its reason |
| ComponentLaws.ExportAdds | src/component.ts:338-357 | export succeeds exactly when the selected entry and its `self` exist, else `TypeError`; under `self.name` the node's entry becomes the previous entry extended with `exportName ↦ self`; other names and nodes unchanged |
| ComponentLaws.MergeExposes | src/component.ts:438-445 | after the merge each of the child's names holds the child's entry at the child node; other entries and names are unchanged |
| ComponentLaws.AddChildAttaches | src/component.ts:401-435 | `addChild` appends the child's root last under the target and merges the child's controllers into the internal ones; the child's own internal controllers are dropped; a failing side rejects as is |
| ComponentLaws.GetNodeFinds | src/component.ts:543-548 | `getNode` searches the shadow root if present, else the node, and finds a node if and only if a descendant carries the id |
| ComponentLaws.DetachShrinks | src/component.ts:527 | after one `remove()` child lists only lose entries, and that node is in none |
| ComponentLaws.LosesBoth | src/component.ts:527 | removing the children one after another accumulates: lists lose all of them |
| ComponentLaws.RemoveAllDetaches | src/component.ts:526-528 | after the removal loop the tree is consistent, lists only lose entries, and none of the removed children is in any list |
| ComponentLaws.AppendedAttach | src/component.ts:529-531 | one more attachment appends one more new root under the target |
| ComponentLaws.AttachStepAppends | src/component.ts:529-531 | a `reduce` step appends its root under the target or fails with `NotSupportedError`, `TypeError` or a setup's rejection |
| ComponentLaws.AttachAllAppends | src/component.ts:529-534 | the components are attached in list order after the target's existing children, one root each |
| ComponentLaws.NoMemberEmpty | src/component.ts:527 | a child list with no members is empty |
| ComponentLaws.SetChildrenPlaces | src/component.ts:503-535 | `REPLACE` without a shadow root leaves the node with exactly the new roots in order; with a shadow root it empties the node and the new roots follow the shadow root's existing children; `APPEND` keeps the target's old children and adds the new roots after them |
| ComponentLaws.RemoveAllElsewhere | src/component.ts:527 | removing the node's children changes no other node's child list and only clears parents |
| ComponentLaws.AttachOne | src/component.ts:529-532 | attaching one rendered component yields its root as the only new child and merges its controllers |
| ComponentScenarios.RunControllerScenario | src/component.spec.ts:159-173 | the returned controller is found under its name at the app's node, as `{self: controller}` |
| ComponentScenarios.ChildControllerScenario | src/component.spec.ts:223-246 | the child's controller is exposed as an internal controller of the parent, at the child's node |
| ComponentScenarios.ExportScenario | src/component.spec.ts:177-201 | the child's controller is exported on the parent's node under the export name |
| ComponentScenarios.GetNodeScenario | src/component.ts:553-571 | `getNode` finds the child by its id and nothing for an unknown id |
| ComponentScenarios.GetNodeInShadowScenario | src/component.ts:573-587 | with a shadow root the child goes under it and `getNode` finds it there |
| ComponentScenarios.SetChildrenScenario | src/component.spec.ts:256-272 | `setChildren` sets the given child on an empty node |
| ComponentScenarios.ReplaceTwiceScenario | src/component.spec.ts:313-329 | a second `REPLACE` removes the first child, leaving one |
| ComponentScenarios.HejChildScenario | src/component.spec.ts:296-299 | the child's controller becomes an internal controller of the parent at the child's node |
| ComponentScenarios.OfElementScenario | src/component.spec.ts:19-29 | `ofElement("p", e => e.textContent = "Hej")` gives a `p` carrying the text |
| ComponentScenarios.AskScenario | src/component.spec.ts:32-40 | the setup after `ask` sees `foo: "bar"` from the context; without it the expectation throws and `run` rejects |
| ComponentScenarios.AskChildScenario | src/component.spec.ts:42-55 | the child's setup sees the caller's `foo` |
| ComponentScenarios.TellScenario | src/component.spec.ts:59-68 | a `tell(["foo", "bar"])` outside satisfies the setup whatever the caller's context |
| ComponentScenarios.TellChildScenario | src/component.spec.ts:70-84 | the `tell` reaches the child's setup |
| ComponentScenarios.FooChildApp | src/component.ts:604-608 | the parent holds the child `p` with `childId`, and `Foo`'s internal map has no entry for other nodes |
| ComponentScenarios.GetControllerScenario | src/component.ts:610-637 | `getController` finds `Foo`'s controller at `childId` and nothing at `foobar` |
| ComponentScenarios.NoControllerTree | src/component.ts:639-653 | a second child without a controller is appended after the first and leaves the internal maps alone |
| ComponentScenarios.GetControllerNoneScenario | src/component.ts:639-653 | `noControllerId` is found, but `getController` gives `undefined` for it |
| ComponentScenarios.GetControllerInShadowScenario | src/component.ts:655-673 | under a shadow root the child lands in the root and its controller is found |
| ComponentScenarios.ChildControllersScenario | src/component.spec.ts:274-311 | after `APPEND` both children's controllers are visible through the parent's internal controllers |
| Render.Stored | src/component.ts:174 | `weakMap.set(n, e)` sets that key and keeps the others |
| Render.Named | src/component.ts:441 | `a[k] = map` names that map under `k` and keeps the other names |
| Render.Store.constructor | src/component.ts:78-79 | no weak maps or controller objects exist yet |
| Render.Store.NewMap | src/component.ts:271-273 | `new WeakMap([...])` is a new map with those entries; no other map changes |
| Render.Store.Set | src/component.ts:174 | `set` updates that one map in place, visible through every reference to it |
| Render.Store.NewTable | src/component.ts:78-79 | `{}` is a new, empty controller object |
| Render.Store.Put | src/component.ts:441 | assigning a name in a controller object changes that object only |
| Render.Contents | src/component.ts:173 | reading an object's maps gives the tables it holds |
| Render.GetNode | src/component.ts:543-548 | `getNode` on the heap only returns a node carrying the id |
| Render.GetController | src/component.ts:590-594 | `getController` reads the map's entry for the node `getNode` finds, nothing when there is none |
| Render.Of | src/component.ts:74-80 | `of(node)` is an app with no shadow, no controllers and a new, empty internal object |
| Render.RekeyLoop | src/component.ts:173-175 | the `forEach` over the maps computes `RekeyAll`, touching only the app's own maps |
| Render.RekeyMaps | src/component.ts:173-175 | the in-place re-keying leaves the store holding `RekeyAll` of the controllers |
| Render.MergeOne | src/component.ts:441 | one `a[k] = (a[k] \|\| new WeakMap()).set(...)` step, on the heap |
| Render.MergeNext | src/component.ts:439-442 | one more `forEach` step of the merge extends the merged names by one |
| Render.MergeAll | src/component.ts:439-444 | the merge loop computes `Merge` and touches only the parent's internal maps |
| Render.MergeTables | src/component.ts:438-445 | `mergeControllers` mutates the internal object in place so it holds `Merge`; no other object changes |
| Render.RegisterOne | src/component.ts:277-283 | registering one controller names a new map under its name |
| Render.RunStep | src/component.ts:267-284 | `run`'s continuation leaves the app holding `Register` of its controllers |
| Render.FindExported | src/component.ts:335-338 | the heap lookup of the exported controller is `ExportedController` |
| Render.ExportOne | src/component.ts:340-356 | the base map, extended in place or new, is named under the controller's name |
| Render.ExtendBase | src/component.ts:340-357 | the app afterwards shows the exported entry on its node |
| Render.ExportStep | src/component.ts:334-358 | `exportController`'s continuation computes `ExportView`, error included |
| Render.ApplyTransform | src/component.ts:459-463 | the covered `map` functions change the document as `TransformView` says |
| Render.PlaceChild | src/component.ts:419-422 | the id is set, then the child is appended at the target |
| Render.AddChildStep | src/component.ts:418-433 | `addChild`'s continuation computes `Attach` and merges the child's maps into the parent's internal object in place |
| Render.MapStep | src/component.ts:171-176 | `map`'s continuation computes `TransformView` and re-keys every controller map |
| Render.Render | src/component.ts:74-436 | the interpreter computes exactly `Eval`: the same tree, the same success or error, and an app whose objects hold `Eval`'s tables |
| Render.FinishAddChild | src/component.ts:418-433 | after rendering both sides the attachment computes `Attach` |
| Render.RenderAddChild | src/component.ts:401-435 | `addChild` on the heap computes `Eval` of `addChild` |
| Render.RenderExport | src/component.ts:331-361 | `exportController` on the heap computes `Eval` of the export |
| Render.RemoveChildren | src/component.ts:526-528 | the removal loop leaves the document as `RemoveAll` of the node's children |
| Render.AttachNext | src/component.ts:529-531 | one `reduce` step on the heap computes `AttachStep` and mutates only the app's internal object |
| Render.AttachLoop | src/component.ts:529-534 | the `reduce` on the heap computes `AttachAll` |
| Render.SetChildren | src/component.ts:503-535 | `setChildren` computes `SetChildrenView`; the merge shows through `app` itself, whose internal object now holds the new entries |
| Router.OccursFits | src/router.ts:47 | a literal occurring in a text is no longer than it |
| Router.Match | src/router.ts:47 | an anchored pattern matches exactly when the literal is a prefix, an unanchored one when it occurs; the match is the literal |
| Router.Single | src/router.ts:17 | a one-route list finds a route exactly when that route accepts the normalised path |
| Router.AddRoute | src/router.ts:19-29 | `addRoute` keeps the existing routes in order and puts the new one last |
| Router.Declare | src/router.ts:17-29 | `___route(r)` and repeated `addRoute` list the routes in declaration order |
| Router.Normalised | src/router.ts:44 | an empty path becomes `"/"`; any other path is kept |
| Router.FirstAccepted | src/router.ts:45-62 | the index found is the first route whose match ends at a segment boundary; none is found exactly when no route does |
| Router.Reminder | src/router.ts:51 | an empty remainder becomes `"/"`; any other is kept |
| Router.RouteContext | src/router.ts:52-58 | the page sees `url` = remainder, `matchedUrlFull` = already matched + match, `matchedUrl` = match, and every other key unchanged |
| Router.WithRouteContext | src/router.ts:52-58 | rendering the wrapped page is rendering the page with that context |
| Router.MatchRoute | src/router.ts:31-64 | the search fails, with "no route", exactly when no route accepts the normalised path |
| Router.MatchRouteFirst | src/router.ts:45-59 | the first accepting route wins, with its match and wrapped component |
| Router.SkipRejected | src/router.ts:48-50 | a route whose match does not end at a boundary falls through to the next |
| Router.AddRouteLast | src/router.ts:26 | a route added by `addRoute` is tried only after all earlier ones |
| Router.EmptyPathIsRoot | src/router.ts:44 | the empty path is matched as `"/"` |
| Router.AnchoredSplits | src/router.ts:49-59 | an anchored match splits the path into the literal and the remainder given to the page |
| Router.FindMatchingRoute | src/router.ts:31-64 | the loop with early return computes `MatchRoute`, error included |
| Router.Slice | src/router.ts:90 | `slice(k)` drops the first `k` characters, all of them when `k` is past the end |
| Router.Decide | src/router.ts:96-100 | the page is re-rendered exactly when the matched segment differs from `prevMatchUrl`; a failed match throws |
| Router.Navigate | src/router.ts:89-100 | a navigation fails, with "no route", exactly when no route accepts the normalised rest of the URL; a switch is always to a new segment |
| Router.ResolveAsWritten | src/router.ts:89-100 | as written, the URL is cut by the length of `matchedUrl` and matched with `matchedUrl` as already matched |
| Router.Resolve | src/router.ts:89-100 | corrected, a URL below `matchedUrlFull` is matched on what follows it, with `matchedUrlFull` as already matched |
| Router.NavigateSettles | src/router.ts:96-99 | after switching to a segment, navigating to the same URL again changes nothing |
| Router.Seed | src/router.ts:109 | the fallback is truthy and its `url` is `matchedUrlFull + url` |
| Router.ResolveStripsPrefix | src/router.ts:90-95 | the corrected navigation strips exactly `matchedUrlFull` and passes it as already matched |
| Router.NestedRouterResolves | src/router.ts:52-58 | in a router nested in a route, a URL starting with the outer full match is resolved against its rest |
| Router.AsWrittenAgreesBelowTop | src/router.ts:90-95 | one level below the top, the code as written agrees with the corrected navigation |
| Router.AsWrittenLosesPrefix | src/router.ts:90-95 | two levels below the top, the code as written fails on its own fallback URL where the corrected one switches |
| Router.RouterRenders | src/router.ts:77-116 | the router renders a new `div` carrying only `{self: Router controller}` in its map of the same name |
| Router.TopLevelRouterRenders | src/router.ts:120-121 | `TopLevelRouter` sets both prefixes to `""`, so the fallback URL is the context's `url` |
| Router.RouterState.constructor | src/router.ts:87 | `prevMatchUrl` starts as `""` |
| Router.RouterState.NavigateTo | src/router.ts:89-101 | for a given prefix: no route gives the error and changes nothing; the same segment changes nothing; a new segment updates `prevMatchUrl` and places the page by `REPLACE` |
| Router.RouterState.HandleNavigationChangeAsWritten | src/router.ts:89-101 | `handleNavigationChange` as written: the outcome is `ResolveAsWritten`'s, cut by `matchedUrl` |
| Router.RouterState.HandleNavigationChange | src/router.ts:89-101 | `handleNavigationChange` with the corrected prefix: the outcome is `Resolve`'s, cut by `matchedUrlFull` |
| Router.RouterState.Setup | src/router.ts:103-115 | the router's node is registered last; the listener is appended to the node's `BROWSE_TO` listeners unless already there, other lists unchanged; the replayed or fallback payload is navigated to with the corrected prefix, the store changing only in the router app's internal maps and not at all without a switch; the `Router` controller is returned |
| RouterScenarios.SpecRoutesInOrder | src/router.spec.ts:17-18 | the test's two routes are tried in declaration order |
| RouterScenarios.ShowsPage | src/router.ts:98 | replacing the router's children with a page leaves that page as its only child |
| RouterScenarios.RouteAChosen | src/router.spec.ts:15-28 | `/routeA` switches to the `strong` page |
| RouterScenarios.RouteBChosen | src/router.spec.ts:15-28 | `/routeB` skips the first route and switches to the `em` page |
| RouterScenarios.RenderRouter | src/router.spec.ts:21 | the test router is rendered as one `div` node |
| RouterScenarios.SwitchShows | src/router.spec.ts:21-27 | after the switch the router's only child is the page chosen |
| RouterScenarios.RouteShown | src/router.spec.ts:15-28 | for each test URL the router's only child has the expected tag |

## Left out

- Promise scheduling: rendering is sequential. `addChild`'s `Promise.all` renders the parent, then the child. Overlapping `setChildren` calls are not modelled.
- WeakRef and WeakMap weakness: the bus's liveness is a set the environment shrinks with `Host.Collect`. Controller maps are ordinary maps in a `Store`, addressed by handle.
- The RegExp engine: a route pattern is a literal, either anchored (`^lit`) or unanchored. The remainder is cut at the match's length from the start of the path, as `slice(match[0].length)` does. For an unanchored literal found further in, this is what the code does too.
- `querySelector` syntax: `#id` is modelled as a depth-first search for the id attribute below the container.
- `attachShadow`'s `mode`, and the exact list of tags allowed to host a shadow root: the model uses a standard subset plus custom-element names.
- `css`, `mount`, `mkId`, `resetStyle`, `installHistoryRouting`, `Redirect` and the type-level machinery (`MergedWeakMaps`, `Rename`, the overload interfaces). They are browser I/O, randomness, style sheets or compile-time only.
- Component.Eval: `map` is modelled for four functions: `id`, `wrapDiv`, attaching a shadow root, and swapping the node for a new element. An arbitrary `mapFn` is not modelled.
- Component.Eval: `ofElement`'s modifier is a rewrite of the new element's properties, given the context. Anything else a modifier can do to the element (appending children, attaching listeners or a shadow root) is not modelled.
- Component.EvalRun: the setup function sees only the context. `appUtil` and the app itself are not passed to it, and its side effects are not modelled. A setup that throws or rejects is its `Rejected` outcome.
- Component.EvalExport: the `exports(internalControllers)` selector is modelled as a fixed `(nodeId, internal map name, exportName)` triple. A selector that computes these from the internal controllers is not modelled.
- Component.AttachAll: after a component fails, the components after it are not rendered. The source builds every `addChild` before any settles, so it creates their elements and runs their setups, and a router among them registers on the bus; only attaching and merging them is skipped.
- Component.EvalAddChild: when the parent rejects, the child is not rendered. `Promise.all` in the source calls the child too, and only the attachment is skipped.
- Router.RouterState.HandleNavigationChange: implements the corrected prefix (`matchedUrlFull`), not the code as written, which cuts and passes `context.matchedUrl`; the code as written is `HandleNavigationChangeAsWritten`. The two differ for routers two levels or more below the top (see Findings).
- Router.RouterState.Setup: navigates with the corrected prefix, as `HandleNavigationChange` does. With the code as written, a router two levels or more below the top throws "no route" on its own seed (see Findings).
- Router.RouterState.Setup: the router's listener is a `ListenerId` parameter. The immediate replay calls `HandleNavigationChange` itself. Later `BROWSE_TO` deliveries are the environment's to pass on. What the listener throws is reported by the dispatch and not propagated.
- Router.RouterState.Setup: a payload whose `url` is not a string is ignored.
- Router.RouterState.Setup: the controller's `listener` member is an opaque function value.
- Router.RouterState.HandleNavigationChange: the returned promise is the error option, so a rejection is a value.
- Router.RouterState.Valid: `matchedUrl`, `matchedUrlFull` and `url` are required to be strings in the context. Other context values are not modelled.
- Re-entrant `register` calls made by a listener during `notify`'s `forEach`: each listener's effect is only its logged delivery.
- `CustomEvent` objects: a delivery records the node, the event name, the listener and the `detail` payload.

## Findings

| source | as written | input that shows it | evidently intended | confidence | as-written member | corrected member |
|---|---|---|---|---|---|---|
| src/router.ts:90,94 | `handleNavigationChange` strips `context.matchedUrl.length` characters and passes `context.matchedUrl` as already matched. `matchedUrl` is only the last matched segment, while the router's own fallback URL starts with `matchedUrlFull`. | A router two levels deep: `matchedUrlFull = "/a/b"`, `matchedUrl = "/b"`, `url = "/c"`, one route `^/c`. The fallback `/a/b/c` is cut to `/b/c`, so no route matches and the listener throws "no route". | Strip `matchedUrlFull` and pass it as already matched, so the page sees `matchedUrlFull = "/a/b/c"`. The two agree at the top level and one level below. | not executed | Router.AsWrittenLosesPrefix | Router.ResolveStripsPrefix |
