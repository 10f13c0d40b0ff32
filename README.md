# vanilla-context-menu, modelled in Dafny

This project models the runtime core of the vanilla context-menu widget, the
`ContextMenu` class of `src/index.ts`, with the browser document reduced to
plain data. The widget is built from a target (a selector, an element or
nothing), a list of menu entries (single items or divided groups) and an
appearance. When it is constructed it resolves its targets and builds its rows.
`init` registers the listeners and injects a stylesheet. A right-click on a
target then closes any open menu and opens a fresh one, placed at the pointer
or flipped against the far edge of the viewport.

Modules, one per concern of the component:

- `Wrappers`: `Option`, used for `undefined`/`null` members and `??` defaults.
- `Dom`: elements as identities, and `Detach` (`node.remove()` on a child list) with its lemmas.
- `Items`: menu items, entries and rows. `Flatten` is the reference definition of the row list, and `CreateMenuItemNodes` is the nested construction loop, proved equal to it. Lemmas give row count, origin, tier, order and divider placement.
- `Positioning`: the clamping rule with margin 20 (`ClampAxis`, `Place`).
- `Targets`: `getTargetNodes` over an abstract `querySelectorAll` that may reject a selector, including JavaScript truthiness of the option. The empty selector is falsy.
- `Styles`: the `appendStyles` guard over a head of entries with optional ids.
- `Widget`: the classes `Closure` (a function object), `Document`, `MenuContainer`, `Gesture` (the `contextmenu` event) and `ContextMenu`. `ContextMenu` has fields `isOpened` and `menuNode`, plus a ghost set of every container it has rendered. `Valid()` holds three facts:
  - `isOpened` holds exactly when `menuNode` is set;
  - the stored container is attached to the body exactly once;
  - no other container this widget rendered is attached.

  The constructor, `CloseMenu`, `OnContextMenu`, `Init` and `AppendStyles` state their whole new state.

`closeMenu` called twice is the same as calling it once. After any call,
`isOpened` is false. On a closed widget, the contract of `CloseMenu` leaves the
body, `isOpened` and `menuNode` unchanged. `Dom.DetachIdempotent` states the
same for the removal itself.

Two behaviours of the code that a reader might not expect:

- The guard at `src/index.ts:161-164` looks for an element carrying a fixed
  id. The `<style>` element created at lines 165-167 is never given that id,
  so every `init` adds another stylesheet. `Styles.RepeatedInjection` proves
  that `n` calls on a head without the id add `n` stylesheets. Injection is
  idempotent only when another element already carries that id
  (`Styles.TaggedHeadUnchanged`).
- A target given as the empty string is falsy in JavaScript. It therefore
  produces the "invalid target" diagnostic rather than a failed query.

The widget's own function objects are modelled as `Closure` objects, known
only by identity. The handlers supplied by the caller in an item's `events`
are opaque `Handler` values, since the widget only passes them on. The constructor binds `closeMenu` once (line 157), and each `init`
creates a new arrow function per target. `AddListener` models
`addEventListener`, which ignores a registration identical to one already
present. So a second `init` registers no new close listener
(`Widget.CloseWiredAgain`), but it does register a new gesture listener on
every target.

`CreateMenuItemNodes` and `GetTargetNodes` are module-level members that take
the options as parameters. The constructor calls them before the object is
complete. In the source they are private methods that read the same fields.

## Model

| member | source | states |
|---|---|---|
| Items.CreateMenuItemNodes | src/index.ts:188-212 | A missing item list yields no rows and the "menu is empty" diagnostic. Otherwise the rows built by the nested loop are exactly `Flatten` of the entries: groups expanded in place, each row tiered by its top-level index, the last row of each group marked. |
| Items.FlattenLength | src/index.ts:196-209 | The number of rows is the sum over entries of 1 for a single item and the group's length for a group. |
| Items.FlattenPrefix | src/index.ts:196-209 | The rows of a prefix of the entries are a prefix of the rows, so rows are only ever appended. |
| Items.EntryRowAt | src/index.ts:198-207 | Row `j` of one entry carries the item's label and listeners, the entry's index as tier, and the divider exactly when the entry is a group and `j` is its last position. |
| Items.RowOfEntry | src/index.ts:196-233 | Rows are built by `ItemRow`, the model of `createMenuItemNode`. Item `j` of entry `i` becomes the row at `Offset(i) + j`, with that item's label and listeners. Its tier is `i`, and it is a divider if and only if entry `i` is a group and `j` is its last item. |
| Items.RowOrigin | src/index.ts:196-209 | Conversely, every row lies in the block of the entry whose index is its tier, so every row comes from exactly one entry. |
| Items.TiersNondecreasing | src/index.ts:196-209 | Tiers never decrease along the rows. Rows keep entry order, and all rows of a group share a tier. |
| Items.FlattenItems | src/index.ts:196-230 | Row labels and listeners are those of the items in entry order, with each group's items in their own order. |
| Items.DividerCount | src/index.ts:198-207 | The number of divider rows equals the number of non-empty groups. Single items and empty groups contribute none. |
| Dom.DetachMembership | src/index.ts:246 | After `remove()`, the removed node is absent from the body and every other node is still present. |
| Dom.DetachKeepsOthers | src/index.ts:246 | Removal shortens the child list by the node's occurrences, and removing an absent node changes nothing. |
| Dom.DetachIdempotent | src/index.ts:243-249 | Removing a node a second time changes nothing. |
| Positioning.ClampAxis | src/index.ts:267-275 | The position is never past the pointer, and the menu's far edge is always inside the viewport. When the menu fits, the position is the pointer. When it does not, the position is flush with the far edge minus the margin: `pos + size + 20 == viewport`. |
| Positioning.Place | src/index.ts:264-283 | The geometry carries the measured size, the top is clamped against the inner height and the left against the inner width, and both far edges lie inside the viewport. |
| Positioning.ClampStable | src/index.ts:267-275 | Clamping an already clamped position leaves it unchanged. |
| Positioning.NoNearEdgeClamp | src/index.ts:267-275 | There is no clamp at the near edge. For every non-negative pointer, a menu larger than the viewport gets a negative coordinate. |
| Positioning.NoNearEdgeClampExample | src/index.ts:267-275 | A 700-pixel menu in a 600-pixel viewport, opened at 10, is placed at -120. |
| Positioning.PlacementExamples | src/index.ts:267-275 | In an 800x600 viewport, a 200x100 menu at (750, 550) is placed at (580, 480), and at (10, 10) it stays at (10, 10). |
| Targets.GetTargetNodes | src/index.ts:171-186 | A falsy target gives no nodes and "invalid target". An element gives itself. A non-empty selector that the query rejects gives the uncaught selector error. Otherwise it gives all matches in query order, or no nodes and "not found" when there are none. When resolution succeeds, the list is empty exactly when a diagnostic is reported, and every node is the given element or a match of the selector. |
| Styles.InjectStyles | src/index.ts:160-168 | The head is only extended. Without an entry carrying the fixed id, exactly one stylesheet entry without an id is appended; otherwise the head is unchanged. Whether the id is present never changes. |
| Styles.RepeatedInjection | src/index.ts:160-168 | On a head without the id, `n` injections add `n` entries and `n` stylesheets, and the id stays absent. |
| Styles.TaggedHeadUnchanged | src/index.ts:161-164 | When an entry already carries the id, any number of injections leaves the head unchanged. |
| Widget.AddListener | src/index.ts:252-256 | Registration only extends the listener list. It adds the listener exactly when an identical registration is not already present, so the list grows by at most one. |
| Widget.CloseWiredFirstTime | src/index.ts:252-253 | A close handler not yet registered anywhere is registered twice, for document `click` and then window `blur`. |
| Widget.CloseWiredAgain | src/index.ts:252-253 | Once the bound `closeMenu` has been wired, wiring it again adds nothing, whatever was registered in between. |
| Widget.ContextMenu.constructor | src/index.ts:149-158 | Appearance defaults to light. The targets are the resolved nodes and the rows are `Flatten` of the items, or none when the items are missing. The console diagnostics are those of resolution and of a missing item list. `closeMenu` is bound once to a fresh function object. The widget starts closed with nothing rendered, satisfying `Valid()`. |
| Widget.ContextMenu.AppendStyles | src/index.ts:160-168 | The document head becomes `InjectStyles` of the old head. |
| Widget.ContextMenu.RenderMenu | src/index.ts:235-241 | Returns a fresh container with the widget's appearance, no geometry, and the prebuilt rows as children in order. |
| Widget.ContextMenu.CloseMenu | src/index.ts:243-249 | Keeps `Valid()` and leaves the widget closed with no stored menu. When already closed, the body is unchanged. When open, exactly the stored container is removed from the body. |
| Widget.ContextMenu.OnContextMenu | src/index.ts:256-284 | Prevents the default action and closes any open menu first. It keeps `Valid()`, opens with a fresh container holding the rows in order with the widget's appearance, and places it by `Place`. The body becomes the old body, minus the previous menu, plus the new one at the end. |
| Widget.ContextMenu.Init | src/index.ts:251-287 | The bound `closeMenu` is registered for document click and window blur, unless identical registrations are already present. After that comes one new open handler per target, in target order, each a fresh function object distinct from the others. Then the styles are injected. An empty target list wires no gesture listener. |
| Widget.AtMostOneAttached | src/index.ts:259-262 | Under `Valid()`, any two attached containers rendered by one widget are the same one: the open menu. |
| Widget.CreateContextMenu | src/index.ts:290-300 | A selector that the query rejects throws before `init`: the method reports `thrown` and the head and listeners are unchanged. Otherwise the old listeners are kept. One new function object, the new widget's close handler, is registered for document click and then window blur. After it come one gesture listener per resolved target in target order, each a new function object. The styles are injected. |

## Left out

- The CSS text (`src/index.ts:22-136`) and the exact `style` attribute strings are not modelled. The stylesheet is a tag, and the geometry is a record of four integers.
- The animation delay `index * 0.08` seconds is a floating-point value. Only the integer tier is modelled.
- Labels are inserted with `innerHTML` without escaping. A label is kept as an uninterpreted string.
- Event listeners are recorded as data: the target, the event name, the function object and which handler runs. Dispatch, `preventDefault` beyond a flag, the capture option and the browser event loop are not modelled.
- `scrollWidth`/`scrollHeight` (layout after attaching) and `innerWidth`/`innerHeight` are integer parameters of the gesture handler. The event's `clientX`/`clientY`, which are floating-point numbers in the browser, are integers in the model too.
- `getElementById` searches the whole document. The model searches only the head and ignores ids elsewhere on the page, although any element there carrying the fixed id would also suppress the injection.
- Widget.ContextMenu.constructor requires a target that resolves without a selector error. When `querySelectorAll` throws a `SyntaxError` for an invalid non-empty selector, the exception escapes the constructor and `createContextMenu`. `Targets.GetTargetNodes` models that outcome as `SelectorError`, but a Dafny constructor cannot fail, so construction in that case is not modelled. `Widget.CreateContextMenu` is a method, so it models the throw: it reports `thrown` and leaves the document unchanged.
- Rows are values, not nodes. In the browser, rendering a second menu moves the shared row nodes out of the previous, already detached container. The model does not capture that move.
- `Valid()` describes one widget. Several widgets on one page share the head and the body, and their interleaving is not modelled.
- `console.error` output is modelled as diagnostic values: the constructor's `diagnostics` and the resolution's `diagnostic`. The message texts are not modelled.
- The build scripts (`scripts/*.mjs`) and the bundler configuration (`config/*.js`) are tooling with no runtime behaviour, and are not part of this model.
