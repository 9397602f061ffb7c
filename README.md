# Viewport pointer tracking, modelled in Dafny

`src/viewport.ts` of `@i-xi-dev/ui-viewport` keeps, for a browser window, the
last position of the primary pointer of each pointer type (`mouse`, `pen`,
`touch`). It mirrors those positions into twelve custom properties of an
adopted style rule, `--ixi-page-<type>-<axis>` and
`--ixi-viewport-<type>-<axis>`. It also calls registered pointer-down
listeners with the position of each primary pointer-down.

This project models that pointer tracking:

- `Coordinates`: the pointer types, axes and coordinate spaces. Also the
  position value (`_PointerPosition`), its off-screen sentinel (-1000) and the
  translation from page to layout-viewport coordinates.
- `PxFormat`: the `` `${v}px` `` text of an integer coordinate. A parser
  `ParsePx` is the partner that proves the text loses nothing.
- `CssVars`: `_cssPageVar` and `_cssViewportVar`. The parser `ParseVarName`
  is the partner that proves every name is well formed and names one
  (space, pointer type, axis) triple.
- `InitialCss`: `_createInitialCss`, the `*:root` rule text with the twelve
  declarations at `-1000px`. The rule's initial properties are derived from
  the same declaration list.
- `PointerStore`: the pure view of the per-type store and of the style rule.
  It holds the "style rule mirrors the store" relation and the four writes of
  one move.
- `PointerDownRegistry`: registry entries and the functions that specify
  delivery (`Deliveries`, `Persistent`) and abort (`WithoutSignal`).
- `Viewports`: the classes. `Viewport` has the mutable per-type records, the
  adopted rule and the listener set. Its methods are the constructor,
  `#onPointerMove`, the pointermove and pointerdown handlers,
  `addPointerDownListener`, and the abort observer each registration
  attaches to its signal.
- `ViewportScenarios`: client methods. They show what callers can conclude
  from the contracts alone: a tracked mouse move, a `once` listener across
  two pointer-downs, and an aborted registration.

Window state the handlers read is passed in as parameters: the event
coordinates and `scrollX`/`scrollY`. Listener callbacks are opaque. A
pointer-down returns the sequence of calls it makes, each naming the entry
and the position passed.

The code registers both event handlers whatever the tracking mode, and each
handler then checks the mode itself. The model follows the code: the handlers
exist and do nothing when tracking is off.

## Model

| member | source | states |
|---|---|---|
| Coordinates.NewPointerPosition | src/viewport.ts:105-112 | every coordinate of a new position, in both spaces and on both axes, is the off-screen sentinel -1000 |
| Coordinates.PositionAt | src/viewport.ts:197-202 | the page coordinates are the event's; each layout-viewport coordinate plus the window scroll offset on its axis gives the page coordinate |
| PxFormat.NatDigits | src/viewport.ts:235-238 | the decimal text of a number is non-empty, all digits, and has no leading zero unless it is "0" |
| PxFormat.DigitsValueOfNatDigits | src/viewport.ts:235-238 | the decimal text of a natural number reads back as that number |
| PxFormat.PxRoundTrip | src/viewport.ts:235-238 | the `<v>px` text of any integer coordinate parses back to that coordinate |
| PxFormat.PxInjective | src/viewport.ts:235-238 | two coordinates with the same pixel text are equal |
| CssVars.CssPageVarRecognised | src/viewport.ts:21-23 | the page variable built for a pointer type and axis is recognised as the page variable of exactly that type and axis |
| CssVars.CssViewportVarRecognised | src/viewport.ts:25-27 | the viewport variable built for a pointer type and axis is recognised as the layout-viewport variable of exactly that type and axis |
| CssVars.VarNameParts | src/viewport.ts:21-27 | every variable name is `--ixi-`, then the space word, pointer type and axis joined by `-` |
| CssVars.ParseVarNameComplete | src/viewport.ts:21-27 | every page or viewport variable name is recognised as the triple it was built from |
| CssVars.ParseVarNameSound | src/viewport.ts:21-27 | a recognised string is exactly the name of the triple recognised, so only the twelve names are accepted |
| CssVars.VarNameInjective | src/viewport.ts:21-27 | distinct (space, pointer type, axis) triples get distinct variable names |
| InitialCss.AllVarKeys | src/viewport.ts:29-44 | the initial rule declares twelve variables, pairwise distinct |
| InitialCss.AllVarKeysComplete | src/viewport.ts:29-44 | every (space, pointer type, axis) triple is among the twelve declared |
| InitialCss.InitialDeclarationsComplete | src/viewport.ts:29-44 | every variable has a declaration, and no two declarations share a name |
| InitialCss.InitialValueIsSentinel | src/viewport.ts:29-44 | the initial value `-1000px` is the pixel text of the off-screen sentinel of a new position |
| InitialCss.CreateInitialCss | src/viewport.ts:29-44 | the generated rule text contains the declaration line `<name>: -1000px;` for every page and viewport variable |
| InitialCss.InitialProperties | src/viewport.ts:154-158 | the adopted rule holds exactly the twelve variable names, each set to the sentinel's pixel text |
| InitialCss.InitialPropertiesMatchNewPosition | src/viewport.ts:154-164 | each initial property is the pixel text of its coordinate in a new position |
| PointerStore.InitialPositions | src/viewport.ts:160-164 | the store has a record for every pointer type, each at the new-position sentinel |
| PointerStore.MoveProperties | src/viewport.ts:235-238 | a move of type t adds exactly t's four variables to the rule, each holding the pixel text of its coordinate in its space and on its axis; every other property keeps its value |
| PointerStore.DistinctVariablesOfType | src/viewport.ts:235-238 | the four variables written for one pointer type are pairwise distinct |
| PointerStore.InitialMirrors | src/viewport.ts:154-164 | the initial rule mirrors the initial store: each variable holds the pixel text of its coordinate |
| PointerStore.MoveKeepsMirror | src/viewport.ts:224-239 | updating t's record and writing its four variables keeps the rule a mirror of the store |
| PointerDownRegistry.AppendFreshKeepsIdsBelow | src/viewport.ts:246-258 | a registration appends an entry distinct from every entry present, and the registry keeps distinct entries |
| PointerDownRegistry.PersistentKeepsIdsBelow | src/viewport.ts:203-206 | deleting the `once` entries keeps the registry's entries distinct |
| PointerDownRegistry.WithoutSignalKeepsIdsBelow | src/viewport.ts:253-255 | deleting the entries of an aborted signal keeps the registry's entries distinct |
| PointerDownRegistry.Deliveries | src/viewport.ts:203-208 | a pointer-down makes one call per entry, in insertion order, each with that entry's identity and listener and the event's position |
| PointerDownRegistry.Signal.constructor | src/viewport.ts:246-255 | a new abort signal is not yet aborted, so registering with it adds an entry |
| PointerDownRegistry.AppendKeepsNoneAborted | src/viewport.ts:248-258 | registering only with a signal that is not aborted keeps every signal in the registry unaborted |
| PointerDownRegistry.FilterKeepsNoneAborted | src/viewport.ts:203-206 | deleting entries, by a pointer-down or an abort, keeps every signal in the registry unaborted |
| PointerDownRegistry.PersistentMembers | src/viewport.ts:203-206 | after a pointer-down the registry holds exactly the entries not registered with `once` |
| PointerDownRegistry.PersistentIsSubsequence | src/viewport.ts:203-206 | the surviving entries keep their insertion order |
| PointerDownRegistry.PersistentIdempotent | src/viewport.ts:203-206 | after one pointer-down, a second one deletes nothing more |
| PointerDownRegistry.NoOnceIsPersistent | src/viewport.ts:203-206 | a registry with no `once` entry is unchanged by a pointer-down |
| PointerDownRegistry.OnceNeverRedelivered | src/viewport.ts:203-208 | no call made by the next pointer-down belongs to an entry registered with `once` |
| PointerDownRegistry.WithoutSignalMembers | src/viewport.ts:253-255 | aborting a signal removes exactly the entries registered with it and keeps every other entry |
| PointerDownRegistry.AbortUndoesRegistration | src/viewport.ts:246-258 | registering with a fresh signal and then aborting it leaves the registry as it was before |
| PointerDownRegistry.PersistentDistinct | src/viewport.ts:203-206 | the entries left after a pointer-down are still distinct |
| PointerDownRegistry.WithoutSignalDistinct | src/viewport.ts:253-255 | the entries left after an abort are still distinct |
| Viewports.StyleRule.SetProperty | src/viewport.ts:235-238 | writing a property sets that one name to the value and leaves the rest of the rule unchanged |
| Viewports.PointerRecord.constructor | src/viewport.ts:161-163 | a new record holds the new-position sentinel |
| Viewports.NewStore | src/viewport.ts:160-164 | three distinct records at the sentinel, one per pointer type, form a complete store of distinct records whose positions are the initial ones |
| Viewports.Viewport.constructor | src/viewport.ts:150-170 | with tracking on, a fresh rule holding the initial properties and a fresh sentinel record per type; with tracking off, no rule and no records; the registry starts empty |
| Viewports.Viewport.OnPointerMove | src/viewport.ts:224-243 | only t's record changes, to the page position and the position relative to the layout viewport; the rule, which is present whenever tracking is on, gets t's four writes; the invariant, including the rule mirroring the store, is kept |
| Viewports.Viewport.MoveRecord | src/viewport.ts:225-229 | the record of t alone changes in place, to the page position and the position relative to the layout viewport; every other type's position is unchanged |
| Viewports.Viewport.MovedValid | src/viewport.ts:224-243 | writing the moved position to t's record and t's four variables to the rule keeps the rule a mirror of the store |
| Viewports.Viewport.PushVariables | src/viewport.ts:231-239 | when the rule is present, it receives exactly the four writes of t's variables, from t's record; otherwise nothing changes; the store is never changed |
| Viewports.Viewport.HandlePointerMove | src/viewport.ts:177-187 | a primary pointer of a tracking viewport moves its type's record and its four variables in the rule; any other event changes neither store nor rule |
| Viewports.Viewport.HandlePointerDown | src/viewport.ts:189-210 | for a primary pointer of a tracking viewport, the calls are the in-order deliveries and the `once` entries are gone afterwards; otherwise no call and no change |
| Viewports.Viewport.Deliver | src/viewport.ts:203-208 | walking the live set, deleting each `once` entry before its call, makes exactly the in-order deliveries and leaves exactly the persistent entries |
| Viewports.Viewport.AddPointerDownListener | src/viewport.ts:246-259 | an already aborted signal leaves the registry unchanged; otherwise exactly one new entry, distinct from all present, is appended |
| Viewports.Viewport.Abort | src/viewport.ts:248-255 | the signal becomes aborted; on its first abort, exactly the entries registered with it are deleted, in order; after any abort no entry of the signal is left, and the invariant keeps every registered signal unaborted |

## Left out

- The window's event registration (`addEventListener`) and its passive options are left out. The handlers are methods called with the event's fields.
- The 100 ms `UiUtils.debounce` around the move update (src/viewport.ts:183-185) is left out. `HandlePointerMove` applies the move at once; timing is not modelled.
- The async wrapper around the style writes and its `.catch` logging (src/viewport.ts:231-242) are left out. The body has no `await`, so the writes run at once and no failure path is modelled.
- The style sheet plumbing (`CSSStyleSheet`, `replaceSync`, `adoptedStyleSheets`, `cssRules[0]`) is left out. The rule's properties are taken from the declaration list that the rule text is rendered from; CSS text is not parsed.
- `_getMetrics` and the page and viewport metrics fields (src/viewport.ts:70-97, 172-175) are left out, because pointer tracking never reads them. As written, it stores `scrollTop` as the layout viewport's `offsetX` and `scrollLeft` as its `offsetY` (lines 84-85).
- `Viewport.get()` and the module-level singleton (src/viewport.ts:215-222) are left out. As written, `get()` constructs without options, so tracking is off there; the model's constructor takes the mode as a parameter.
- `Object.freeze`/`Object.seal` are left out. The model expresses them as `const` fields and a record class whose fields are all set on every move.
- Floating point is not modelled: coordinates and scroll offsets are integers. JavaScript number formatting of fractions, `-0` and exponent forms therefore has no counterpart in `Px`.
- Pointer types outside `mouse`, `pen` and `touch` are not modelled. The source would index a missing record and throw.
- The `once` flag is read from the options when an entry is registered, not when it is delivered. A caller that mutates its options object afterwards is not modelled.
- `instanceof AbortSignal` is modelled as the signal being present (non-null).
- Listener bodies are not modelled, so re-entrant registration or abort during a delivery is not modelled, nor are exceptions escaping a listener. A returned promise is not modelled either.
- Viewports.Viewport.Abort: a signal shared by several `Viewport` objects is not modelled. Aborting it through one viewport leaves the others' invariant unproved, so they cannot be used afterwards; the source's singleton has only one viewport.
- Viewports.Viewport.OnPointerMove: requires tracking to be on, since the records exist only then; its only caller checks the mode first.
- Orientation locking and the commented-out visual-viewport code (src/viewport.ts:261-262, 275-290) are TODOs in the source and are not modelled.
