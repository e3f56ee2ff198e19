# vue-presetup: the pre-setup cache, modelled in Dafny

vue-presetup pre-mounts a Vue component off-screen so that its setup work is
already done when the component is shown. The library holds one module-level
cache, a `Map` from a component's name to its pre-mounted render node (vnode).
Two operations use the cache:

- `preSetupComponent(component)` first checks the component's `name`. With no
  name, or an empty one, it only warns. With a name, it builds a vnode whose
  props carry a `preSetupPromise` record holding the promise's own `resolve`
  and `reject`. It renders the vnode into a detached `div`, ORs the kept-alive
  bit `1 << 9` (512) into the vnode's `shapeFlag`, and stores the vnode under
  the name. `Map.set` silently replaces any earlier entry.
- The render function of `PreSetupView` receives a placeholder vnode. With no
  placeholder it renders nothing. It returns the placeholder unchanged when
  the placeholder's component has no name, or when that name has no cache
  entry. Otherwise it returns the cached vnode and deletes the entry, so each
  pre-set-up node is swapped in at most once.

Files:

- `wrappers.dfy`: the `Option` datatype.
- `presetup.dfy` (module `PreSetup`): the data model and the two operations.
  - Components, settlers, the `preSetupPromise` record, props and nodes are
    datatypes.
  - Each operation is a pure specification function: `AfterPreSetup` for the
    insert and `Decide` / `ViewRender` for the view.
  - Class `PreSetupModule` stands for the module's state: a field
    `cache: map<string, Node>`, and one method per operation. Each method
    changes the field in place and is proved equal to its specification
    function.
  - The class invariant `CacheInvariant` says every entry is keyed by its own
    component's name, carries the kept-alive bit and carries a pre-setup
    record.
- `properties.dfy` (module `PreSetupProperties`): lemmas that relate several
  calls. They cover last write wins, swap-then-passthrough, and that the
  invariant is kept. They also cover any sequence of calls (`Run`): a name is
  consumed at most once per pre-setup, and the last pre-setup of a name wins
  until something swaps it in.

What the library does not do:

- A missing name only produces a console warning (src/index.ts:14). The
  promise is not rejected; it stays pending.
- `Map.set` (src/index.ts:27) overwrites a stale entry without unmounting it.
- The library has no removal operation and no helper to read the context from
  inside a component.

Framework effects:

- `h(...)` is modelled as building a `Node` value.
- `render(...)` into a detached container is modelled as an opaque effect.
  The shape flag the node carries when line 26 runs is the parameter
  `flagAfterMount`. The mount is taken not to call back into the library (see
  "## Left out").
- The promise's identity is a parameter (`promise`). `resolve` and `reject`
  are the opaque values `Resolve(promise)` and `Reject(promise)`.
- The console warning is the method's `warned` result.

## Model

| member | source | states |
|---|---|---|
| `PreSetup.NameOf` | src/index.ts:13 | a component counts as named exactly when its `name` is present and non-empty (JavaScript falsiness), and the name used is that string |
| `PreSetup.KeepAlive` | src/index.ts:26 | `shapeFlag \|= 1 << 9` leaves bit 9 set and every other bit of the flag as it was |
| `PreSetup.NewNode` | src/index.ts:19-26 | the stored node instantiates the given component, its props hold exactly the `preSetupPromise` record with that promise's own `resolve` and `reject`, and its flag has bit 9 set with the other bits of the mounted flag kept |
| `PreSetup.AfterPreSetup` | src/index.ts:13-27 | an unnamed component leaves the cache exactly as it was; a named one puts the new node under its name, keeps every other key's entry, and grows the cache by one only when the name was not yet there |
| `PreSetup.Decide` | src/index.ts:46-56 | the decision table: nothing exactly when there is no placeholder, passthrough exactly when the placeholder is unnamed or its name is not cached, take exactly when its name is cached |
| `PreSetup.ViewRender` | src/index.ts:45-58 | a render returns nothing only for no placeholder, never adds or alters an entry, returns the cached node and removes only that key when the placeholder's name is cached, and otherwise returns the placeholder with the cache unchanged |
| `PreSetup.PreSetupModule.constructor` | src/index.ts:4 | the module starts with an empty cache that satisfies the cache invariant |
| `PreSetup.PreSetupModule.PreSetupComponent` | src/index.ts:11-29 | the method warns exactly for an unnamed component, keeps the cache invariant, and leaves the cache field equal to `AfterPreSetup` of the old cache |
| `PreSetup.PreSetupModule.RenderView` | src/index.ts:45-58 | the method keeps the cache invariant, and its result and new cache field equal `ViewRender` of the placeholder and the old cache |
| `PreSetupProperties.LastWriteWins` | src/index.ts:27 | two pre-setups under one name, even of different components, leave the same cache as the second alone: one entry, the second node |
| `PreSetupProperties.PreSetupKeepsInvariant` | src/index.ts:19-27 | a pre-setup keeps every entry keyed by its component's name, kept-alive and carrying a pre-setup record |
| `PreSetupProperties.ViewKeepsInvariant` | src/index.ts:51-54 | a view render keeps the cache invariant |
| `PreSetupProperties.SwapKeepsComponentName` | src/index.ts:48-54 | over a cache that keeps its invariant, the view always renders a node whose component has the placeholder's name, a node it swaps in carries the kept-alive bit and a pre-setup record, and a passthrough returns the placeholder itself |
| `PreSetupProperties.PreSetupThenSwapOnce` | src/index.ts:51-54 | pre-setup then render of a same-named placeholder returns exactly the new node and drops that name only; a second render returns the placeholder and changes nothing |
| `PreSetupProperties.RunKeepsInvariant` | src/index.ts:11-58 | every cache reached by any sequence of calls from one that keeps the invariant keeps it |
| `PreSetupProperties.ConsumeAtMostOnce` | src/index.ts:51-54 | along any sequence of calls, the swaps of a name plus a surviving entry never exceed the pre-setups of that name plus the entry at the start |
| `PreSetupProperties.NoSwapWithoutPreSetup` | src/index.ts:51-56 | from the empty cache, a name that is never pre-set-up is never swapped in and never cached |
| `PreSetupProperties.UntouchedEntry` | src/index.ts:11-58 | calls that neither pre-set-up nor swap in a name leave its presence and its node unchanged |
| `PreSetupProperties.LastPreSetupWins` | src/index.ts:27 | after the last pre-setup of a name, and as long as no render swaps it in, the cache holds exactly that pre-setup's node under the name |

## Left out

- The Vue functions `h`, `render`, `defineComponent` and `getCurrentInstance` (src/index.ts:1, 19, 25, 31, 38) belong to a foreign framework. A node is built as a value, and mounting is an opaque effect whose only trace is the `flagAfterMount` parameter.
- The `instance.ctx.activate` override (src/index.ts:41-43) moves the node's DOM element with `insertBefore`. It is a KeepAlive internal of Vue and a DOM mutation, and it is not modelled. The model only proves that every swapped-in node carries the kept-alive bit this hook relies on.
- Promise creation and settlement (src/index.ts:12) are not modelled. Settlement happens asynchronously in the pre-set-up component's own code, which is not part of this library. The promise is an identity, and `resolve`/`reject` are opaque values stored in the props. Neither branch of `preSetupComponent` settles the promise explicitly.
- PreSetup.AfterPreSetup: calls back into the library during the mount at line 25 are not modelled. `render` runs the component's `setup()` and renders its subtree synchronously, before line 27. That code may itself call `preSetupComponent`, or render a nested `PreSetupView` whose line 53 deletes an entry. In the library the cache at line 27 is the cache after the mount. The model takes it to be the cache at entry, so the frame ("every other key's entry is kept", the size change) holds only for mounts that do not re-enter the library. The same holds for `PreSetup.PreSetupModule.PreSetupComponent`, which is proved equal to `AfterPreSetup`.
- PreSetup.PreSetupModule.PreSetupComponent: a throw during node creation or mounting is not modelled. Lines 19-27 run inside the promise executor (src/index.ts:12), so if `h`, `render` or `window.document.createElement` throws, the library rejects the promise and lines 26-27 never run, leaving the cache unchanged. The model treats these framework calls as never throwing, so for a named component it always stores the node.
- `console.warn` (src/index.ts:14) is I/O; only the fact that it happens is modelled, as `warned`.
- `window.document.createElement` (src/index.ts:25) is DOM I/O and is not modelled.
- Node identity: a vnode is a mutable object in the library, but here it is a value. "Returns the cached node" is proved as equality of values. The model cannot tell apart two distinct vnodes with equal contents, and it does not model aliasing.
- `PreSetup.KeepAlive`: the shape flag is held as the 32-bit pattern that JavaScript's `|=` works on. The conversion of a JavaScript number to that pattern (ToInt32) is not modelled, because Vue's shape flags are always small non-negative integers.
- The playground application (playground/src/index.ts, playground/src/router.ts, playground/src/i18n.ts) is demo wiring with no algorithmic content. The build configuration (playground/vite.config.ts, tsup.config.ts) is not modelled either.
