# mini-react in Dafny

A model of the deterministic core of mini-react, a small React clone written in
JavaScript. The model has five parts.

- **Class-component update coordinator** (`src/component.js`).
  - The global `updateQueue`: a batching flag and the list of queued updaters.
  - Each instance's `Updater`, with its `pendingStates`, `callbacks` and `nextProps`.
  - The left fold of `getState`.
  - The `shouldUpdate` pipeline and `PureComponent.shouldComponentUpdate`.
  - `Component.setState` and `forceUpdate`.
- **Reconciler** (`src/component.js`).
  - The five-way case split of `compareTwoVdmo`.
  - The per-kind patches of `updateElement`.
  - The positional pairing of children in `updateChildren`, with its insertion hint.
  - `findDOM`.
  - It works over an arena of host nodes that the model owns. The arena is a map from node id to kind, text, properties, style and handler store, plus parent links and ordered children lists. Its operations are create, append, insert-before, remove and replace.
- **Mounting and hooks** (`src/react-dom.js`).
  - `createDOM`'s dispatch over the element kinds.
  - Host and text nodes with `updateProps`, and children.
  - Function and class components, refs, memo/provider/consumer wrappers, and `render`.
  - The global `hookState` slot array and its `hookIndex` cursor, with `useState`, `useReducer`, `useRef`, `useMemo`, `useCallback` and `useContext`.
- **Elements** (`src/react.js`): `createElement`, `createRef`, `forwardRef`, `createContext` and `memo`. From `src/utils/index.js`: `isReactText`, `wrapToVdom` and `shallowEqual`, whose `for…in` walks the *indices* of the key array.
- **Synthetic events** (`src/event.js`).
  - `addEvent` writes a node's handler store and the document-level listener set.
  - `dispatchEvent` walks parent links from the target to the root inside the batching window, then flushes the queue.

How the model represents the system:

- **JavaScript values** (`JsValues.Value`): undefined, null, booleans, numbers, strings, and object, array, function and element values.
  - Objects, arrays, functions and elements carry an identity. `===` compares identities.
  - A caller-supplied allocator (`Heap`) supplies fresh identities.
  - `Truthy` is JavaScript truthiness.
- **User code**: the bodies of `render`, lifecycle methods, reducers, comparators, `setState` functions and event handlers.
  - It is an oracle `call(id, args)`.
  - Each call the library makes for its side effect becomes an `Event` appended to a `Trace`: componentWillMount, componentDidMount, componentWillUpdate, componentDidUpdate, the re-render request, a handler call, and so on. The ordering claims are stated on that trace.
- **Mount records** (`Vdom.Mounted`): the fields the source writes onto rendered elements (`dom`, `classInstance`, `oldRenderElement`, `prevProps`).
- **Reconciler results** (`Vdom.Res`): `Ok`, `Threw` (a JavaScript TypeError or DOM exception the source would raise), or `Unmodelled` (a path whose JavaScript behaviour rests on aliasing the model does not track).

Where the code departs from the library's documented design, the model follows the code:

- `shouldComponentUpdate(nextProps, nextState)` and `getDerivedStateFromProps(nextProps, state)` both receive the raw `nextProps`. That is `undefined` on a `setState` path. It is not "the props in effect".
- `getDerivedStateFromProps` receives the state before the update.
- A *truthy* result of `getDerivedStateFromProps` replaces the state. A falsy one keeps the old state and drops the merged one.
- While batching, `emitUpdate` appends its updater on every call, even when it is already queued.
- `createElement` deletes `__source` and `__self` from the caller's `config` object, in place.
- The text patch writes `textContent` only when the new content is truthy.
- The provider and consumer patches call their helpers with no arguments, so they always throw.
- `componentDidUpdate` is called after the re-diff with the instance's current props and state.

## Model

| member | source | states |
|---|---|---|
| Utils.WrapToVdom | src/utils/index.js:3-23 | a string or number becomes a fresh text element with props `{content: x}` and no key or ref; any other value is returned unchanged |
| Utils.WrapToVdomIdempotent | src/utils/index.js:12-23 | the result is never a string or number, so wrapping it again returns it unchanged |
| Utils.IndexLoopAll | src/utils/index.js:53-57 | the early-return loop over `0..n-1` returns true iff its test holds at every index |
| Utils.ShallowEqualIdentical | src/utils/index.js:36-39 | `===` arguments compare equal |
| Utils.ShallowEqualNonObject | src/utils/index.js:40-47 | non-identical arguments where one side is a non-object or null compare unequal |
| Utils.ShallowEqualDistinctObjects | src/utils/index.js:48-58 | distinct objects are equal iff their own-key counts agree and, for every index j below the count, `b` owns the property named by j's digits and both sides hold `===` values under that name |
| Utils.ShallowEqualKeyCount | src/utils/index.js:48-52 | distinct objects with different own-key counts compare unequal |
| Utils.NamedKeysNeverEqual | src/utils/index.js:53-57 | distinct objects with at least one key compare unequal when every key of `b` has a non-digit character |
| Utils.TwoSingleKeyObjectsUnequal | src/utils/index.js:53-57 | two distinct `{a: 1}` objects compare unequal |
| Utils.EmptyObjectsEqual | src/utils/index.js:36-58 | two distinct `{}` compare equal; an `undefined` argument defaults to a fresh `{}` |
| Utils.EqualArraysEqual | src/utils/index.js:48-58 | distinct arrays of equal length with `===` elements compare equal, because their own keys are their indices |
| Utils.ShallowEqualAsymmetric | src/utils/index.js:48-58 | the comparison is not symmetric: `{x: 1}` equals `{"0": undefined}` but not the other way round |
| JsValues.LookupAssign | src/component.js:70 | in `{...target, ...source}` a name that `source` has takes `source`'s value; any other name keeps `target`'s |
| JsValues.AssignNames | src/component.js:70 | the spread's keys are the union of both sides' keys |
| JsValues.LookupSetProp | src/react-dom.js:318 | writing one property changes the lookup of that name only |
| JsValues.ToLower | src/react-dom.js:314 | each ASCII capital is lowered and every other character is kept, at the same length |
| React.CreateElement | src/react.js:24-42 | throws iff `config` is undefined or null; otherwise returns a fresh element of the given type whose props are a fresh object |
| React.CreateElementFields | src/react.js:29-41 | `key` and `ref` are lifted out of `config` to the element; props own no `key`, `ref`, `__source` or `__self`; `children` is the normalised child list; every other name is copied from `config` |
| React.CreateElementMutatesConfig | src/react.js:25-28 | the caller's `config` (same identity) loses `__source` and `__self` and keeps every other property |
| React.ManyChildren | src/react.js:30-32 | with more than one child, `children` is an array of every child in order, each passed through wrapToVdom |
| React.AtMostOneChild | src/react.js:33-34 | with no child, `children` is undefined; one element child is itself, not an array; one string child becomes a text element |
| React.CreateRef | src/react.js:44-46 | a fresh object whose only key is `current`, holding null |
| React.ForwardRef | src/react.js:49-54 | a forward-ref type storing the function as `render` |
| React.Memo | src/react.js:74-80 | a memo type around the function, whose comparator defaults to shallowEqual |
| React.ContextCells.CreateContext | src/react.js:66-72 | the Provider and the consumer both point at the new context, whose current value is the default |
| React.ContextCells.Provide | src/react-dom.js:261-264 | rendering a provider writes its `value` prop into the context's current value |
| React.ContextCells.CurrentValue | src/react-dom.js:86-88 | reads the context's current value; an unknown context reads undefined |
| Hooks.Written | src/react-dom.js:56 | writing slot i changes only slot i; writing past the end leaves holes that read undefined |
| Hooks.EverySameMeaning | src/react-dom.js:160-163 | `deps.every(...)` over the new deps is true iff the new deps are empty or each is `===` to the stored dep at its index; it throws iff there are new deps and the stored deps are undefined or null |
| Hooks.EqualDepsSame | src/react-dom.js:160-166 | new deps that are `===` position by position to a stored list at least as long compare unchanged |
| Hooks.LongerUndefinedDepsSame | src/react-dom.js:163 | a new `undefined` dep past the end of the stored list counts as unchanged |
| Hooks.DepsDecisionKeeps | src/react-dom.js:160-166 | a slot `[value, deps]` hands back `value`, without recomputing, to a later call whose deps match |
| Hooks.EmptyDepsKeep | src/react-dom.js:181-187 | an empty deps list always keeps the stored value |
| Hooks.RecomputeMeansChanged | src/react-dom.js:167-171 | a recomputation on a filled slot means some new dep is not `===` to the stored one at its index |
| Hooks.HookStore.ScheduleUpdate | src/react-dom.js:23-29 | throws iff render never installed it; otherwise resets the cursor to 0 and starts one re-diff; the slots stay untouched |
| Hooks.HookStore.UseState | src/react-dom.js:67-75 | the slot becomes `slot \|\| initial`, that value is returned, the setter is bound to this index, and the cursor advances by exactly 1 |
| Hooks.HookStore.SetState | src/react-dom.js:70-74 | writes only the captured slot, then calls scheduleUpdate once |
| Hooks.HookStore.UseReducer | src/react-dom.js:54-65 | a falsy slot is seeded with the initial state and a truthy one is kept; the slot's value is returned and the cursor advances by exactly 1 |
| Hooks.HookStore.Dispatch | src/react-dom.js:59-63 | stores `reducer(old, action)`, or `action` when there is no reducer, in the captured slot only, then calls scheduleUpdate once |
| Hooks.HookStore.UseRef | src/react-dom.js:90-97 | a falsy slot is seeded with a fresh `{current: null}`; a filled slot returns the same stored box; the cursor advances by 1 either way |
| Hooks.HookStore.UseMemo | src/react-dom.js:160-177 | when the deps match, the stored value is returned with no factory call; otherwise the factory is called exactly once and `[value, deps]` is stored; the cursor advances by 1; a throwing comparison changes nothing |
| Hooks.HookStore.UseCallback | src/react-dom.js:181-196 | as UseMemo, except that the callback is stored and never called |
| Hooks.HookStore.UseContext | src/react-dom.js:86-88 | returns the context's current value and leaves the cursor alone |
| Component.PureShouldComponentUpdate | src/component.js:347-354 | the same props object and the same state object give false; props with at least one own key against an undefined nextProps, as on every setState path, give true |
| Component.DerivedState | src/component.js:101-111 | without getDerivedStateFromProps the state is the merged one; with it, a truthy result of `(nextProps, oldState)` replaces the old state and a falsy one keeps it |
| Component.MergeStepLookup | src/component.js:64-70 | one step of the fold: a name takes the entry's value when the entry owns it, or the value returned by a function entry called on the running state; otherwise it keeps the running state's value |
| Component.FoldSnoc | src/component.js:64-71 | folding a queue plus one entry is folding the queue, then merging the entry |
| Component.FoldAppend | src/component.js:64-71 | folding a concatenation folds the second queue over the result of the first |
| Component.NextStateAppend | src/component.js:61-75 | getState splits over a concatenation of pending queues |
| Component.NextStateFresh | src/component.js:70 | a non-empty queue yields a fresh object, the last one allocated |
| Component.NextStateEmpty | src/component.js:61-75 | an empty queue leaves the state object itself |
| Component.FoldLoop | src/component.js:64-71 | the `forEach` loop computes the left fold of the pending entries |
| Component.Updater.GetState | src/component.js:61-75 | returns the left fold of the pending entries over the current state; the queue is left empty; callbacks and nextProps are untouched |
| Component.Updater.RunCallbacks | src/component.js:55 | every queued callback is called once, in submission order |
| Component.ShouldUpdate | src/component.js:78-117 | a falsy shouldComponentUpdate suppresses componentWillUpdate and the re-render only; a truthy nextProps replaces props either way; the state is DerivedState's |
| Component.Updater.UpdateComponent | src/component.js:50-58 | nothing changes unless nextProps is truthy or states are pending; otherwise the folded state goes through shouldUpdate, then each callback runs once in order, and both queues are left empty |
| Component.Updater.EmitUpdate | src/component.js:39-48 | always overwrites nextProps; while batching, it only appends the updater to the queue; otherwise it is updateComponent |
| Component.Updater.AddState | src/component.js:30-36 | appends the partial state, and the callback only when it is a function, then emitUpdate with undefined: queued while batching, otherwise applied at once, with callbacks called after the lifecycle events |
| Component.Instance.SetState | src/component.js:302-304 | addState on the instance's own updater: while batching, the entry, the function callback and the updater are queued and nothing else changes; otherwise the pending entries are folded, shouldUpdate runs with an undefined nextProps, and the callbacks are called after its events |
| Component.UpdateStep | src/component.js:50-58 | nothing changes unless nextProps is truthy or states are pending; otherwise both queues end empty, nextProps stays, and one fresh object is allocated per pending entry |
| Component.Run | src/component.js:15-17 | the loop over the queued updaters on values: every slot stays keyed, and an updater not in the list keeps its slot |
| Component.Turn | src/component.js:16 | one updateComponent on the slot of one queued updater, its calls appended after the earlier ones |
| Component.RunSnoc | src/component.js:15-17 | running one more queued updater is one more turn after the earlier ones |
| Component.RunDrains | src/component.js:13-20 | after the loop no queued updater holds a pending state or a callback |
| Component.RunRepeated | src/component.js:15-17 | an updater queued n times with no new props runs once: the later turns find its queues empty |
| Component.BatchedSetStates | src/component.js:13-20 | n setState calls in one batch give one update: one shouldUpdate over the fold of all n entries, then the n callbacks in submission order |
| Component.UpdateQueue.BatchUpdate | src/component.js:13-20 | each queued updater's fields, the trace and the allocator end as Run says, updater by updater in list order; then the flag and the list are cleared |
| Component.UpdateQueue.Clear | src/component.js:18-19 | the flag is false and the list empty afterwards; the flushed updaters keep their slots |
| Component.UpdateQueue.SetBatching | src/event.js:29 | sets the flag and keeps the queued list |
| Component.FlushAll | src/component.js:15-17 | the loop leaves every queued updater's fields as Run gives them, with the trace extended by Run's calls in list order |
| Component.FlushLoop | src/component.js:15-17 | the `for…of` loop, stated per index through Run on the prefix done so far |
| Component.FlushOne | src/component.js:16 | one turn of the loop: the updaters' fields, the trace and the allocator move from one batch to the next as Turn says, and the other updaters keep their fields |
| Component.Flushed | src/component.js:13-20 | holding it means the older log is a prefix of the trace and every queued updater holds the slot Run gives it |
| Dom.Document.CreateNode | src/react-dom.js:217-225 | a new detached node with the next id and no children |
| Dom.Document.AppendChild | src/react-dom.js:34 | appends the child last; fails exactly when the parent is a text node |
| Dom.Document.InsertBefore | src/component.js:160 | puts the child just before the reference node; fails exactly when the reference is not a child of the parent |
| Dom.Document.RemoveChild | src/component.js:149 | takes the child out of the parent's list and unlinks it; fails exactly when it is not a child |
| Dom.Document.ReplaceChild | src/component.js:173 | puts the new node at the old child's position and unlinks the old child; fails exactly when the old one is not a child |
| Dom.Document.SetTextContent | src/component.js:195 | replaces a text node's content; the rest of the arena is untouched |
| Dom.Document.SetAttr | src/react-dom.js:318 | writes one property of one node |
| Dom.Document.SetStyle | src/react-dom.js:309 | writes one style attribute of one node |
| Dom.Document.SetStore | src/event.js:15-16 | gives one node a fresh handler store; nothing else in the document changes |
| Dom.Document.SetDidMount | src/react-dom.js:385-388 | records on one node the instance whose componentDidMount is bound there; nothing else changes |
| Dom.Document.Listen | src/event.js:21-22 | adds the event type to the document's listeners and changes no node |
| Dom.WfInsert | src/component.js:159-163 | inserting a detached node into a children list keeps the arena well formed |
| Dom.WfRemove | src/component.js:149 | removing a child keeps the arena well formed |
| Dom.WfReplace | src/component.js:173 | replacing a child by a detached node keeps the arena well formed |
| Dom.AncestryLinks | src/event.js:33-38 | the ancestry of a node follows parent links from the node itself to a root |
| Event.AddedStoreHandlers | src/event.js:10-18 | after addEvent the store holds the handler under its event type and every other type's entry as before |
| Event.AddEvent | src/event.js:10-24 | creates the store if it is missing, writes `store[eventType]`, and adds the type's document listener; installing it again changes nothing |
| Event.BubbleIsAncestry | src/event.js:33-38 | the walk visits exactly the target's ancestry, target first; it calls the handler of every node on the path that has one, in path order; it throws iff a node on the path holds a truthy handler that is not a function |
| Event.BubbleWalk | src/event.js:33-38 | the `while` loop appends exactly the walk's handler calls to the trace |
| Event.DispatchEvent | src/event.js:26-44 | sets the batching flag, walks, then clears the flag and flushes the queue as BatchUpdate says, after the handler calls; the updaters queued before are then drained; a throwing handler leaves the flag set and the queue as it was |
| Event.StartDispatch | src/event.js:28-38 | sets the flag and walks from the target; the queue and its updaters' fields are as they were |
| Event.EndDispatch | src/event.js:42-43 | clears the flag, then flushes the queue as BatchUpdate says |
| HostProps.RouteOf | src/react-dom.js:301-320 | `children` is skipped, `style` is copied attribute by attribute, keys starting with `on` become lower-cased handlers, any other non-empty key is written to the node |
| HostProps.UpdateStyles | src/react-dom.js:306-310 | the inner loop writes each style attribute, in order |
| HostProps.UpdateProp | src/react-dom.js:302-320 | one key of the new props is applied to the node as RouteOf says |
| HostProps.UpdateProps | src/react-dom.js:300-322 | the node and the listener set end as every key of the new props applied in order; parents and children are untouched |
| HostProps.NodeAfterAttrs | src/react-dom.js:300-322 | a plain key of the new props carries its new value; every other property, including one only the old props had, keeps the node's value |
| HostProps.StyleAfterLookup | src/react-dom.js:306-310 | after the style copy, an attribute of the new styles carries its value, and every other attribute keeps the style's own |
| HostProps.NodeAfterHandlers | src/react-dom.js:311-315 | props with no `on` key that lowers to a name leave that name's handler and document listener as they were |
| HostProps.HandlerInstalled | src/react-dom.js:311-315 | for any props, the handler under a lower-cased `on` name is the value of the last `on` key that lowers to it, and that type's document listener is present |
| HostProps.NodeStepHandler | src/react-dom.js:311-315 | one key changes the handler for a name only when it is an `on` key lowering to that name, and adds only that listener |
| Vdom.FindDOM | src/component.js:123-132 | follows rendered records down to a text or host record, and the node found is one the record names |
| Vdom.CaseOf | src/component.js:143-186 | the five cases are exclusive, each with its own condition, and tested in source order |
| Vdom.ChildList | src/component.js:219-220 | an array is its own list; any other child becomes a one-element list |
| Vdom.HintFromFirst | src/component.js:224-227 | the search gives the node of the first present old child at or after a position, or throws when its findDOM throws; it gives no hint when there is no present child |
| Vdom.HintFrom | src/component.js:224-227 | no hint exactly when no old child from the position on is present; a hint, or a throw, comes from some present old child from the position on |
| Vdom.NextHint | src/component.js:224-227 | the `nextDOM` at step i: none exactly when no old child after i is present, and otherwise the node of some present old child after i |
| Vdom.NextHintFirst | src/component.js:224-227 | the hint at step i comes from the first present old child after i; keys play no part |
| Mount.Refs.Attach | src/react-dom.js:246-248 | a falsy ref is skipped; an object ref's `current` gets the target; a truthy primitive ref throws |
| Mount.ClassPropsLookup | src/react-dom.js:343-344 | a class receives `{...defaultProps, ...props}`: a prop wins over a default |
| Mount.ChildrenRoute | src/react-dom.js:230-239 | the three-way test on `props.children` reduces to "not an array and truthy" |
| Mount.CreateDOM | src/react-dom.js:202-250 | wraps a primitive first, then builds the element; the first node created is returned detached and the arena only grows; a nullish or boolean value throws; a forward-ref throws |
| Mount.CreateElementDOM | src/react-dom.js:204-226 | dispatches in source order: forward-ref, memo, provider, consumer, text, class, function, host tag; a text, provider or consumer element with nullish props throws |
| Mount.CreateNodeElement | src/react-dom.js:215-249 | a text or host node whose properties are updateProps applied to a fresh node; a host node's children are paired with `props.children`; the ref points at the node |
| Mount.HostTree | src/react-dom.js:225-240 | creates the node, writes its props and mounts its children when props are truthy |
| Mount.NewHostNode | src/react-dom.js:225-229 | the new node carries updateProps of the new props over an empty node |
| Mount.MountChildren | src/react-dom.js:230-239 | a single child is rendered, an array is reconciled; every record is paired with its child; a null `children` throws |
| Mount.MountAll | src/react-dom.js:329-334 | the parent's children list ends as the old list followed by one appended root per child, in order; each record whose node can be found has that root as its node |
| Mount.MountNext | src/react-dom.js:330-333 | one child rendered into the parent: the new node is appended after the earlier roots and its record is paired with the child |
| Mount.RootedStep | src/react-dom.js:330-333 | a record whose node is the appended root extends the roots one-to-one |
| Mount.Render | src/react-dom.js:21-39 | mounts the tree, appends its root to the container and installs scheduleUpdate; then componentDidMount, left on the root, is the last event |
| Mount.AttachRoot | src/react-dom.js:32-39 | appends the root last; the didMount left on it is called after the append; a text container fails |
| Mount.CreateFunction | src/react-dom.js:398-408 | the recorded render is the function's result on the props; a string or number result fails |
| Mount.CreateClass | src/react-dom.js:339-392 | constructs the instance from the props with defaults and the context; records what render returned; leaves componentDidMount on the new root |
| Mount.NewInstance | src/react-dom.js:340-358 | a fresh instance and updater, linked to each other, constructed as the class says |
| Mount.ClassTree | src/react-dom.js:368-391 | componentWillMount is called before render; the rendered tree is mounted; a string or number render result fails |
| Mount.ClassRendered | src/react-dom.js:378-391 | records the rendered tree and leaves componentDidMount on the new root |
| Mount.CreateWrapped | src/react-dom.js:252-277 | a memo, provider or consumer record holds the tree it rendered and the props a memo compares against |
| Reconciler.UnmountEvents | src/component.js:152-154 | componentWillUnmount is called exactly when the old record is a class component that has it |
| Reconciler.DidMountEvents | src/component.js:166-168 | componentDidMount is called exactly when the new root carries one |
| Reconciler.DetachedRemoves | src/component.js:148-149 | after case 2 the removed node is gone from its parent's list, which is one shorter, and every other child is still there |
| Reconciler.RemoveOld | src/component.js:146-154 | succeeds iff findDOM finds a node that has a parent; the node is then detached, followed by componentWillUnmount; a throw changes nothing |
| Reconciler.PlacedIn | src/component.js:159-163 | the new root goes just before the hint when there is one, otherwise last |
| Reconciler.Place | src/component.js:159-163 | insertBefore with a hint, appendChild without one; fails on a missing parent or a stale hint |
| Reconciler.CreateNew | src/component.js:155-168 | case 3: creates the tree, splices its root into the parent at the hint, then calls componentDidMount |
| Reconciler.ReplaceOld | src/component.js:169-183 | case 4: creates the new tree first, puts its root in the old node's place, then calls componentWillUnmount of the old instance followed by componentDidMount of the new root |
| Reconciler.SwappedReplaces | src/component.js:173 | after case 4 the parent's list has the new root in place of the old node, at the same length |
| Reconciler.UpdateText | src/component.js:191-196 | reuses the old text node and rewrites its content only when the new content is truthy; nullish props throw |
| Reconciler.UpdateClass | src/component.js:269-281 | reuses the instance and its rendered tree, calls componentWillReceiveProps, then emitUpdate with the new props |
| Reconciler.Compared | src/component.js:236 | the memo comparator is shallowEqual or the user's function, as the element says |
| Reconciler.CompareTwoVdom | src/component.js:143-187 | Diffed: case 1 changes nothing; case 2 detaches the old node, then componentWillUnmount; case 3 splices the new root at the hint, then componentDidMount; case 4 swaps the new root into the old node's place, then componentWillUnmount and componentDidMount; in case 5 a field-less record is kept and provider and consumer throw; a result is present iff the new value is truthy |
| Reconciler.RemoveCase | src/component.js:146-154 | case 2 as Diffed states it: the old node leaves its parent iff findDOM finds it with a parent, followed by componentWillUnmount |
| Reconciler.CreateCase | src/component.js:155-168 | case 3 as Diffed states it: the new root spliced before the hint or last, then componentDidMount |
| Reconciler.ReplaceCase | src/component.js:169-183 | case 4 as Diffed states it: a throwing findDOM changes nothing; otherwise the new root takes the old node's place |
| Reconciler.PatchCase | src/component.js:184-186 | case 5 as Diffed states it, through updateElement |
| Reconciler.ChainedStep | src/component.js:222-229 | one more position of updateChildren extends the chain of diffs |
| Reconciler.ChainedAt | src/component.js:222-229 | each position of a chained children diff is compareTwoVdmo under the parent with the old and new child at that index and the later old children's hint |
| Reconciler.UpdateElement | src/component.js:189-216 | dispatches on the old kind; the result carries the new value; provider and consumer patches throw |
| Reconciler.UpdateHost | src/component.js:203-208 | reuses the old node; the document after updateProps has the node's props rewritten by every key of the new props in order and nothing else changed; nullish props then throw; otherwise the children diff runs from that document as UpdateChildren says |
| Reconciler.UpdateChildren | src/component.js:218-230 | runs `max(old, new)` steps; step j takes the document and the log from the ones step j-1 left, as compareTwoVdmo does under the node with the old and new child at j and the hint of the later old children; the new record keeps the first `new` results |
| Reconciler.UpdateChild | src/component.js:223-228 | a throwing hint search throws; otherwise the effect on the document and the log is Diffed under the node, with the old and new child at the index and the hint of the later old children |
| Reconciler.UpdateFunction | src/component.js:284-290 | a throwing findDOM changes nothing; otherwise the function's result on the new props is diffed against the last render under the parent of the old node, as Diffed states, and becomes the recorded render |
| Reconciler.UpdateMemo | src/component.js:232-247 | equal props keep the old rendered tree and change nothing; otherwise the new render is diffed against the old one with no parent, as Diffed states, and the new props are recorded |
| Reconciler.SnapshotEvents | src/component.js:329-331 | getSnapshotBeforeUpdate is called exactly when the instance has it |
| Reconciler.DidUpdateEvents | src/component.js:337-339 | componentDidUpdate is called exactly when the instance has it |
| Reconciler.RenderAgain | src/component.js:319-331 | refreshes the context when the class declares a contextType, then renders, then takes the snapshot |
| Reconciler.DiffUnder | src/component.js:333 | the new render diffed against the old, as Diffed states, under the parent the old node has |
| Reconciler.Rediff | src/component.js:333-339 | the diff under the old node's parent as Diffed states; then componentDidUpdate last, or the diff's throw passed on with nothing logged |
| Reconciler.Settle | src/component.js:334-339 | after the diff, componentDidUpdate is logged on success and a throw passes through |
| Reconciler.ForceUpdate | src/component.js:312-340 | findDOM of the last render first (a throw changes nothing), then render with the refreshed context and the snapshot; the new render is diffed, as Diffed states, under the parent of the old node; componentDidUpdate comes last |

## Left out

- `useEffect` and `useLayoutEffect` (src/react-dom.js:107-155): they depend on timer and microtask scheduling, and they write their slot at whatever cursor position holds when the deferred callback runs.
- The synthetic event's copy of the native event's fields (src/event.js:47-53), `console.log` calls and the demo application in src/index.js.
- Real browser `document` and node behaviour: the arena stands in for it, and no browser semantics are claimed.
- The values of the `./constants` markers: element kinds are a closed datatype instead.
- Bodies of user code (render, lifecycle methods, reducers, comparators, handlers): an oracle `call(id, args)`, with calls made for their effect logged as events.
- Hooks.HookStore.ScheduleUpdate: the model counts the re-diff it starts but does not carry it out. In the source, `scheduleUpdate` calls compareTwoVdmo with the element last given to `render` as both the old and the new tree. Under a class root, that path runs updateClassComponent, emitUpdate and forceUpdate, which re-diffs the live DOM and patches function-component children with their hook slots (src/index.js:108-112). Also, every nested `render` call made while mounting (src/react-dom.js:233, 238, 332) reassigns `scheduleUpdate` to the innermost container and element. Neither the re-render nor this reassignment is modelled.
- Component.ShouldUpdate: the closing `forceUpdate()` is a `Rerender` event on the trace, not a call into Reconciler.ForceUpdate, because the Component module precedes the Reconciler.
- Reconciler.ForceUpdate: it takes the instance's last rendered record as a parameter and returns the new one, because an instance cannot hold a mount record. It does not update the stale `oldRenderElement` on the class element's own record.
- Reconciler.UpdateElement: it states the common shape of the result (the new value, its nodes in the arena). It does not repeat the document effects of the host, function and memo patches that UpdateHost, UpdateFunction and UpdateMemo state in their own contracts.
- Reconciler.CompareTwoVdom: in case 5, for host, function, class and memo records, Diffed states only the result's shape. The document effect is stated one level down, by UpdateHost, UpdateFunction, UpdateMemo and ForceUpdate.
- Reconciler.PatchCase: it carries that case 5 of CompareTwoVdom, so for host, function, class and memo records it too states only the result's shape, leaving the document effect to the same callees.
- JsValues.ElementProps: every element gets four own keys (type, props, key, ref). The text element that wrapToVdom builds (src/utils/index.js:15-20) has only `type` and `props`, so spreading a text element, or iterating it with `for…in`, shows two extra keys here.
- Reconciler.UpdateHost: it does not state the change to the document's set of event listeners.
- Reconciler.UpdateClass: it states the updater's new state, and the re-render appears as a `Rerender` event, as in Component.ShouldUpdate. The document effect of that re-render is Reconciler.ForceUpdate's contract, which is not chained in here.
- Numbers are integers only. A `NaN` dependency, which makes useMemo and useCallback always recompute, and a `NaN` prop, which is never shallow-equal to itself, are not modelled.
- Re-entrant user code: the oracle returns values and never calls back into the library. The model does not cover setState, a hook setter or dispatch called from render, lifecycle methods or handlers. A queue filled while a handler runs under the batching flag (src/event.js:26-44) therefore arises in the model only from updaters queued beforehand.
- JsValues.OwnKeys: keys are kept in insertion order. The integer-like keys that `Object.keys` and `for…in` put first, in ascending order, are not modelled.
- React.Memo: the comparator is `Option<nat>`, so an explicit `null` comparator, which throws at the first comparison, cannot be written.
- Host props named `store` or `componentDidMount` land on the same node fields that the library itself uses. This aliasing is not modelled.
- JsValues.IsObject: a component type value (`TypeRef`) is never an object or a callable value here. Consumer children that are a component type therefore throw.
- Mount.CreateClass: it does not state that the element's ref ends at the instance, because a child mounted later may reuse the same ref object.
- Dom.Document.SetTextContent: only text nodes are written; setting the text of an element node, which would drop its children, gives `Unmodelled` to the caller.
- JsValues.ToLower: it lowers ASCII letters only, not the locale-aware `toLocaleLowerCase` of other characters.
- Aliasing: the source writes fields onto the new element before reading the old one. When the old and new element are the same object, a function or memo patch reads what it just wrote. These paths give `Unmodelled`.
- A record whose constructor does not match its element's kind, a plain object, array or function handed to createDOM, and a ref that is a component type: these give `Unmodelled`.
- The memo, provider and consumer patches beyond their first step. A memo patch reads `.parentNod` (a typo), so its parent is undefined. A re-render that goes from a falsy value to an element then throws on the append. Provider and consumer patches are called with no arguments, so they always throw.
- Forward-ref mounting: createForwardComponent calls createDOM on the same element again without end. The model takes that as a throw.
- Recursion depth: mounting and patching take a `fuel` bound, and running out gives `Unmodelled`. A deep enough tree therefore falls outside the model.
