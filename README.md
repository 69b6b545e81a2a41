# click-touch-rotator, modelled in Dafny

This project models the core of a small browser library and the image
rotator built on it.

The rotator (`rotator.js`) shows one image of a sequence at a time. A
horizontal drag turns it:

- each drag delta is folded into a rotation amount in [0, 1];
- the amount picks a frame index;
- the displayed image moves to that frame only when the frame's image has
  loaded. Otherwise the old frame stays on screen.

The helper library (`aFrame.js`) contributes four pieces:

- a named-event registry (`on`, `fire`, `clearEvents`);
- class-name helpers (`hasClass`, `addClass`, `removeClass`);
- a first-match user-agent table and the animation strategy it selects;
- a draggable handle whose `enabled` flag gates dragging.

Modules:

- `Rotation` (rotation.dfy): the arithmetic of `my.update` on values. It
  covers JavaScript's truncated `%`, the step, the two-step wrap, the frame
  index, the swap guard and the coordinator's invariant. Lemmas cover single
  updates and whole drag sequences.
- `DragInput` (drag_input.dfy): `RT.addDragEvents`. It is a class holding the
  last position and the last delta. Its invariant ties the deltas it has
  reported to the value-level `Deltas` of the positions it has seen, so the
  telescoping lemma `DeltasTelescope` applies to the class.
- `Rotator` (rotator.dfy): `RT.image` as class `FrameImage`, and
  `RT.coordinator` as class `Coordinator`. The coordinator's methods are
  proved against `Rotation.Update` and keep `Rotation.Inv`.
- `Events` (events.dfy): `AF.event` as class `EventTarget`, over a
  `map<string, seq<Subscriber>>`.
- `ClassNames` (class_names.dfy): `AF.hasClass`, `addClass` and
  `removeClass`. A class attribute is modelled as its token sequence.
- `Browser` (browser.dfy): `AF.browser` and the strategy switch of
  `AF.animation`.
- `DragHandles` (drag_handle.dfy): `AF.drag`.
- `Wrappers` (wrappers.dfy): `Option`, for arguments that may be missing.

Behaviour of the code worth knowing:

- An empty `imageUrls` array is truthy in JavaScript, so `p.imageUrls || ['']`
  keeps it. The coordinator then has no frames and an `undefined` image
  source. Only a missing `imageUrls` gives the single `''` frame.
- The remainder is taken before dividing, so one event moves the amount by
  less than one turn. The two-step wrap therefore keeps the amount in [0, 1]
  for every `deltaX`, however large. The upper bound 1 is reachable (a
  half-circumference drag from a half turn) and points one past the last
  frame, so the guard keeps the previous frame on screen.
- `p.circumference || 200` keeps any non-zero circumference, negative ones
  too. The amount invariant holds for every non-zero circumference.
- `clearEvents('')` empties the whole registry, because `''` is falsy.

## Model

| member | source | states |
|---|---|---|
| `Rotation.JsRem` | rotator.js:161 | `deltaX % circumference` as JavaScript computes it: dividend = truncated quotient × divisor + remainder, the remainder is smaller than the divisor in magnitude and has the dividend's sign |
| `Rotation.JsRemUnique` | rotator.js:161 | any value with that sign, magnitude and quotient relation equals `JsRem`, so the contract fixes JavaScript's `%` completely |
| `Rotation.Step` | rotator.js:161 | the per-event step `(deltaX % c) / c` lies strictly between -1 and 1, and is 0 for a zero delta |
| `Rotation.NextAmount` | rotator.js:157-169 | "curAmount is always a value between 0 and 1": from [0, 1] the wrapped amount stays in [0, 1] for any delta; the wrap changes the sum only by a whole turn, and not at all when the sum is already in [0, 1] |
| `Rotation.FrameIndex` | rotator.js:171 | `Math.floor(length * amount)` is the floor of that product; for an amount in [0, 1] it lies in [0, length], and below length when the amount is below 1 |
| `Rotation.QuarterTurns` | rotator.js:161-171 | with four frames and circumference 200: +50 px gives amount 0.25 and index 1, +250 px gives 0.25 again, -50 px wraps to 0.75 and index 3, and +100 px from a half turn reaches exactly 1, which gives index 4 |
| `Rotation.Update` | rotator.js:159-181 | the new amount is `NextAmount`; the index changes only to an in-range, loaded frame, and then the display shows that frame's URL; otherwise the display is unchanged |
| `Rotation.UpdateSwapsIff` | rotator.js:171-179 | the index and display change if and only if the computed index differs from the current one, is below the frame count and names a loaded frame; otherwise both stay as they were |
| `Rotation.UpdateIgnoresDeltaY` | rotator.js:159-181 | two updates that differ only in `deltaY` give the same state |
| `Rotation.FullTurnHolds` | rotator.js:167-175 | for any circumference and deltas, an update that lands on exactly 1 points one past the last frame; the guard rejects it, so the index and the displayed image stay as they were and only the amount changes |
| `Rotation.UpdateKeepsInv` | rotator.js:144-178 | every update keeps the invariant: amount in [0, 1], index in range (0 for no frames), display showing the current frame, a frame other than the first current only once loaded |
| `Rotation.LoadKeepsInv` | rotator.js:110-112 | frames finishing their load (readiness only gained, URLs unchanged) never break the invariant |
| `Rotation.Replay` | rotator.js:209-211 | the amount stays in [0, 1] after any sequence of drag events |
| `Rotation.ReplayKeepsInv` | rotator.js:157-178 | the whole invariant holds after any sequence of drag events |
| `Rotation.ReplayHoldsUnready` | rotator.js:173-179 | stale-frame hold: while no other frame is loaded, no drag sequence changes the index or the displayed image |
| `DragInput.DeltasTelescope` | rotator.js:58-69 | the deltas reported for successive positions add up to the last position minus the start position |
| `DragInput.DeltasAt` | rotator.js:61-64 | each reported delta is the position minus the previous position, the first one minus the start |
| `DragInput.DragSource.constructor` | rotator.js:42-46 | the source starts at position 0 with zero deltas and no document-wide listeners |
| `DragInput.DragSource.Move` | rotator.js:58-69 | `drag` reports `pos - previous` on both axes and stores `pos`; the reported deltas remain `Deltas` of the positions seen since the press, and they sum to the displacement since the start |
| `DragInput.DragSource.StartDrag` | rotator.js:47-57 | `startDrag` records the position, reports `drag(0, 0)` first and `dragstart` after it, and attaches the move/up listeners |
| `DragInput.DragSource.PointerMove` | rotator.js:52-54 | a pointer move is reported as a drag only while the listeners are attached, and then the move joins the interaction's positions and its delta the reported deltas; otherwise nothing changes |
| `DragInput.DragSource.PointerUp` | rotator.js:70-76 | `endDrag` detaches the listeners and reports `dragend` once; a release with no drag in progress reports nothing |
| `Rotator.FrameImage.GetUrl` | rotator.js:101-103 | `getUrl` returns the URL fixed when the record was made (`''` when none was given) |
| `Rotator.FrameImage.IsReady` | rotator.js:105-107 | `isReady` reports whether the image has loaded, which only the load handler turns on |
| `Rotator.FrameImage.constructor` | rotator.js:97-99 | a record keeps the given URL, or `''` when none was given, and starts not ready |
| `Rotator.FrameImage.MarkLoaded` | rotator.js:110-112 | the load handler sets `ready` to true; nothing sets it back |
| `Rotator.Coordinator.constructor` | rotator.js:138-198 | defaults: a missing URL list becomes `['']`, a missing or zero circumference 200; one fresh, unloaded record per URL in input order; amount 0, index 0, source the first URL; the invariant holds |
| `Rotator.Coordinator.Update` | rotator.js:159-181 | the new state is `Rotation.Update` of the old one; frames and classes are untouched; the invariant is kept |
| `Rotator.Coordinator.FrameLoaded` | rotator.js:110-112 | a finished load flips exactly that frame's readiness; the rotation state is untouched; the invariant is kept |
| `Rotator.Coordinator.Handle` | rotator.js:207-221 | a `drag` runs the update with its deltas, `dragstart` sets the class to `active`, `dragend` clears it |
| `Rotator.Coordinator.PointerDown` | rotator.js:47-57 | a press re-evaluates the current amount through `update(0, 0)`, which may show a frame that loaded since the last drag, then marks the image active |
| `Rotator.Coordinator.PointerMove` | rotator.js:58-69 | during a drag a move updates the rotation by its offset from the last reported position, and the source then holds the new position; outside a drag the rotation, the classes and the source's position are unchanged |
| `Rotator.Coordinator.PointerUp` | rotator.js:70-76 | a release ends the drag and clears the `active` marker without touching the rotation or the source's position |
| `ClassNames.HasClass` | aFrame.js:93-96 | a class is present exactly when it is one of the tokens, that is, occurs in the token multiset; regex semantics are left out |
| `ClassNames.RemoveFirstSpec` | aFrame.js:110-116 | removing an absent class leaves the list unchanged; removing a present one drops its first occurrence and keeps all other tokens in order |
| `ClassNames.RemoveFirstMultiset` | aFrame.js:110-116 | removal takes exactly one copy of the class out of the token multiset |
| `ClassNames.AddedSpec` | aFrame.js:101-105 | after adding, the class is present; adding twice equals adding once; removing undoes an add that appended |
| `ClassNames.AddClass` | aFrame.js:101-105 | `addClass` appends the class unless present; a present class leaves `className` unchanged |
| `ClassNames.RemoveClass` | aFrame.js:110-116 | `removeClass` removes the class's first occurrence, and changes nothing when it is absent |
| `Events.CallsInOrder` | aFrame.js:301-306 | firing calls every listener exactly once, in subscription order, with the payload and its own arguments |
| `Events.FireAfterOn` | aFrame.js:263-306 | firing after `on` calls the old listeners and then the new one; every other name's list is unchanged |
| `Events.FireAfterClear` | aFrame.js:242-251 | after clearing a name, or clearing everything, firing that name calls nothing; other names are unchanged when one name is cleared |
| `Events.EventTarget.constructor` | aFrame.js:228 | a new event target has an empty registry |
| `Events.EventTarget.ClearEvents` | aFrame.js:237-252 | a non-string or empty name empties the registry; a registered name loses its listeners; an unregistered name changes nothing; other names keep their lists |
| `Events.EventTarget.On` | aFrame.js:263-279 | a non-string name is filed under `unknown`; a missing function becomes a no-op and missing arguments `{}`; the item goes at the end of its list and no other list changes |
| `Events.EventTarget.Fire` | aFrame.js:291-307 | a non-string name returns `false` and calls nothing; otherwise exactly the name's listeners are called in order with the payload (`{}` if missing); an unknown name calls nothing |
| `Browser.IndexOfFrom` | aFrame.js:39 | the search behind `indexOf`, from a position inside the string or at its end: the first occurrence at or after it, or -1 when there is none |
| `Browser.IndexOf` | aFrame.js:39 | `indexOf` is -1 exactly when the substring never occurs; otherwise it is the first occurrence |
| `Browser.FirstMatch` | aFrame.js:37-45 | the position of the first table entry whose substring occurs in the user agent; no earlier entry occurs |
| `Browser.FirstMatchIs` | aFrame.js:37-45 | the scan stops at any entry that occurs when no earlier one does |
| `Browser.DetectBrowser` | aFrame.js:22-49 | the scan returns the first matching entry's code, and `default` exactly when no entry's substring occurs |
| `Browser.CodeExamples` | aFrame.js:26-33 | order matters: a user agent naming an iPad is `mobile` whatever else it names; Chrome without an Apple device is `webkit` even next to `Gecko` |
| `Browser.SelectStrategy` | aFrame.js:385-398 | `webkit` and `mobile` select the WebKit strategy, `mozilla` the Mozilla strategy, anything else the default |
| `Browser.StrategyForUserAgent` | aFrame.js:383-400 | WebKit strategy exactly when an iPod, iPhone, iPad, Apple or Chrome is named; Mozilla when only Gecko is; the default when none is |
| `DragHandles.DragHandle.constructor` | aFrame.js:320-323 | a handle starts enabled, with zero offsets and no listeners |
| `DragHandles.DragHandle.Drag` | aFrame.js:333-338 | the node is placed at the pointer minus the grab offset |
| `DragHandles.DragHandle.StartDrag` | aFrame.js:324-332 | a disabled handle changes no state; an enabled one records the grab offset, leaves the node where it was and attaches the listeners |
| `DragHandles.DragHandle.PointerMove` | aFrame.js:330-338 | a move drags the node only while the listeners are attached |
| `DragHandles.DragHandle.EndDrag` | aFrame.js:339-342 | releasing detaches the listeners and leaves the node, the grab offset and the enabled flag as they were |
| `DragHandles.DragHandle.SetEnabled` | aFrame.js:348-356 | the flag follows the argument; enabling adds the `draggable` class, disabling removes it; the position, the grab offset and the listeners are untouched, so a drag in progress carries on after `setEnabled(false)` |

## Left out

- Listener attach and detach, event normalisation (`addListener`, `removeListener`, `getEventTarget`, `getEventPosition`, `stopEvent`, `onClick`): browser plumbing. Positions and node offsets are integer parameters, and "listeners attached" is a boolean.
- `getElementPosition`: it walks the live DOM `offsetParent` chain.
- Image fetching (`new Image()`, `src` assignment). A finished load is the explicit `FrameLoaded` / `MarkLoaded` step. A failed load is a frame that never gets that step.
- The style writes of the animation strategies, and `setLeft`, `setTop` and the no-op `setDuration`. Only the strategy selection is modelled.
- Floating point: amounts are exact reals, so IEEE-754 rounding of `curAmount` is not modelled. Circumferences and deltas are integers.
- `getRegExp`, its cache, and regex semantics. Class names are modelled as whitespace-free, non-empty tokens and a class attribute as its token sequence. The exact whitespace `addClass` and `removeClass` leave in the string is not modelled.
- The registry's array-as-map quirks (`hasOwnProperty('length')` and similar). The registry is a map from name to list.
- Re-entrancy: a handler that calls `on` or `clearEvents` while `fire` runs. Handlers are identities; `fire` records the calls it makes instead of running them.
- The coordinator's `container` and `appendChild`: the DOM placement of the image element.
- The coordinator's listeners are called directly for each notification the drag source reports, not looked up through the event registry.
- `Rotator.Coordinator.constructor`: URLs are strings. A URL list holding non-string values is not modelled.
