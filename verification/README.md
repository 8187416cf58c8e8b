# Stickerbomb editor — a Dafny model of its core

The stickerbomb editor is a single-page tool for composing "sticker bomb"
artwork. You place images (stickers) on a canvas that is measured in
millimetres. You move, scale, rotate, mirror, fade and restack them, then
export the result as a PNG at a chosen resolution in dpi. All of its logic
lives in `app.js`. This project models the part of `app.js` that decides what the
artwork *is*: the state record, the sticker store, the selection, the
gestures, the keyboard and panel edits, the zoom and canvas-size clamps, and
the export plan. The DOM and the canvas API are not modelled.

The modules follow the program's layers:

- `Optional`: the `Option` type used for "no selection", "not found" and
  `parseInt` giving `NaN`.
- `Units`: millimetre to pixel conversions, JavaScript's `Math.round`, and the
  zoom and canvas-size clamps.
- `State`: the `Sticker`, `Session` and `Editor` records, the start-up
  state, lookup by id, and `Valid`. `Valid` is the invariant the editor keeps
  between events: zoom in [0.2, 4], canvas sides at least 100 mm, ids
  distinct and below the counter, and the selection naming a sticker in the
  store.
- `Store`: sticker creation, duplication, deletion, clearing, selection,
  bring-to-front and send-to-back, arrow-key nudges and side-panel edits.
- `Geometry`: where a sticker lands on screen (rounded to whole pixels) and
  in the export (exact). It relates the two.
- `Interaction`: press, move and release for drag, resize and rotate.
- `Export`: the export image size, the draw order (a stable sort by stacking
  key that skips stickers whose image fails to load), and each draw's
  geometry.
- `App`: every event as a command, `Step` as the state transition, and the
  lemmas that every step keeps `Valid`, never reuses an id and keeps the
  scale floor.

Behaviour of `app.js` worth knowing, which the model reproduces:

- A duplicate's stacking key is the number of stickers (`app.js:486`). It is
  not one above the largest key, so the copy is not always on top.
  `App.DuplicateCanLandBelowOriginal` shows a sequence of events after which
  the copy sits below its own original.
- `Math.round` rounds halves toward +infinity, so -2.5 rounds to -2.
  `Units.Round` models exactly that, not rounding half away from zero.
- Delete, bring-to-front, send-to-back, duplicate, nudge and the panel
  controls all look the selection up with `getSelected` (`app.js:446-448`).
  Each is a no-op when no sticker carries the selected id.
- The canvas-size form falls back to 340 or 230 mm only when the field
  parses to `NaN` or 0. A field such as `-5` gives -5, which the `max` then
  raises to 100 mm.
- A gesture whose sticker has been deleted mid-gesture changes nothing. In
  the source the move handler still writes to the detached record, which no
  longer exists anywhere the editor can see.

## Model

| member | source | states |
|---|---|---|
| Units.Round | app.js:97 | `Math.round`: the result is within half of the input, halves going up |
| Units.RoundIsNearest | app.js:97 | no integer is closer to the input than its rounding |
| Units.ScreenPx | app.js:97-99 | `mmToPx` is the whole pixel count nearest the exact length at 3.7795275591 px/mm times the zoom, an exact half going up |
| Units.ScreenPxMonotone | app.js:97 | a longer length or a larger zoom never gives fewer screen pixels |
| Units.ExportPx | app.js:667-670 | an export side is within half a pixel of the canvas side at dpi / 25.4 px/mm |
| Units.ExportPxAt300Dpi | app.js:668-670 | 100 mm at 300 dpi is 1181 px |
| Units.ClampZoom | app.js:156 | the zoom lands in [0.2, 4]; an in-range request is kept; an out-of-range one goes to the nearer bound |
| Units.ClampZoomIdempotentMonotone | app.js:156 | clamping twice equals clamping once, and the clamp keeps the order of requests |
| Units.CanvasSide | app.js:635-636 | a canvas side is at least 100 mm; a parsed value of at least 100 is kept; `NaN` or 0 gives the fallback |
| State.IndexOf | app.js:447 | `find`: the first position holding the id, or none when no sticker holds it |
| State.SelectedIndex | app.js:446-448 | `getSelected` finds a sticker carrying the selected id, or reports that none does |
| State.InitialIsValid | app.js:12-23 | the start-up state (340 x 230 mm, zoom 1, empty store, counter 1) satisfies the invariant |
| State.SameIdsKeep | app.js:446-448 | editing stickers without touching ids keeps ids distinct and keeps every lookup unchanged |
| State.AppendFresh | app.js:553-556 | appending a sticker with the counter's id keeps ids distinct and below the advanced counter, and lookup finds it at the end |
| Store.NewSticker | app.js:171-195 | a new sticker is 60 mm wide with the image's aspect ratio, centred on the canvas, unscaled, unrotated, opaque, unmirrored, with the next id and key equal to the store size |
| Store.CreateSticker | app.js:543-557 | a loaded image appends its sticker, advances the counter, selects it, leaves existing stickers alone and keeps the invariant |
| Store.Select | app.js:394-405 | only the selection changes, to the id; after selecting a present id, `getSelected` finds exactly that sticker |
| Store.Deselect | app.js:407-415 | only the selection changes, to none, so `getSelected` finds nothing |
| Store.Duplicate | app.js:484-487 | the copy equals the original except for a fresh id, an 8 mm offset on both axes and key equal to the store size; the copy is selected and nothing else changes; no-op without a selection |
| Store.RemoveId | app.js:509 | the filter leaves no sticker with the id, and every survivor was in the store |
| Store.RemoveIdExact | app.js:509 | filtering an absent id changes nothing; with distinct ids it removes exactly the entry `find` locates, keeping the rest in order |
| Store.RemoveKeeps | app.js:509 | deleting keeps ids distinct, brings back no absent id and keeps scales floored |
| Store.DeleteSelected | app.js:505-511 | the selected sticker is gone, the others keep their order, the selection is cleared; no-op without a selection |
| Store.Clear | app.js:720-728 | a confirmed clear empties the store and the selection and changes nothing else, the counter included; an unconfirmed one changes nothing |
| Store.MaxZ | app.js:493 | `Math.max` over keys bounds every key and is attained |
| Store.MinZ | app.js:500 | `Math.min` over keys bounds every key and is attained |
| Store.UpdateAtKeeps | app.js:451-482 | replacing a sticker by one with the same id keeps the invariant, the selection and absent ids |
| Store.BringToFront | app.js:491-496 | the selected sticker's key becomes max + 1, strictly above every other sticker; nothing else changes |
| Store.SendToBack | app.js:498-503 | the selected sticker's key becomes min - 1, strictly below every other sticker; nothing else changes |
| Store.Nudge | app.js:524-533 | an arrow moves the selected sticker 1 mm (10 with Shift) along one axis in the arrow's direction, y growing downwards; nothing else changes |
| Store.NudgeUndoes | app.js:526-530 | in exact arithmetic, a nudge followed by the opposite nudge restores the editor exactly |
| Store.ApplyPanelEdit | app.js:451-482 | each panel control changes only its own field on the selected sticker (percent / 100 for scale and opacity); no-op without a selection |
| Geometry.ScreenBoxApproximatesPlacement | app.js:226-230 | the on-screen box is the exact placement at the screen density, up to half a pixel in position and half a pixel per unit of scale in size |
| Geometry.RotatePivotIsBoxCentre | app.js:317-321 | the rotate pivot is the container corner plus the centre of the sticker's on-screen box |
| Geometry.ExportDraw | app.js:700-710 | the export draw is centred on the exact placement's centre, has its size, the sticker's rotation and opacity, and mirror factor -1 exactly when flipped |
| Geometry.PlacementScales | app.js:700-703 | placements at two densities differ by the ratio of the densities |
| Interaction.ClientToCanvas | app.js:294-300 | scaling the canvas point back by the zoom and adding the container corner gives the client point |
| Interaction.ResizedScale | app.js:364-369 | the new scale is at least 0.1; when start + signed distance / 150 is above 0.1 the result is exactly that, otherwise 0.1; zero diagonal sign keeps the start scale (floored); moving down-right never shrinks; moving up-left never grows |
| Interaction.ResizeShrinkExample | app.js:365-369 | 3 px left and 4 px up (5 px of travel) from scale 1 gives 29/30 |
| Interaction.Snap | app.js:361-363 | a snapped angle is a multiple of 15 within 7 degrees of the input |
| Interaction.SnapIsNearest | app.js:362 | no multiple of 15 is closer to the input than its snap |
| Interaction.SnapIdempotent | app.js:362 | snapping a snapped angle changes nothing |
| Interaction.RotatedAngle | app.js:356-363 | without Shift the angle is the start plus the turn, rounded; with Shift it is a multiple of 15 within 7 of that rounding |
| Interaction.SnapFromTenTurnedThirteen | app.js:359-362 | starting at 10 degrees and turning 13 with Shift gives 30 |
| Interaction.BeginDrag | app.js:302-313 | pressing a sticker's body selects it and opens a drag session recording the pointer in canvas pixels and the sticker's position; nothing else changes; a missing id changes nothing |
| Interaction.BeginResize | app.js:332-344 | pressing a corner handle selects the sticker and opens a resize session recording the client point and the sticker's scale; nothing else changes |
| Interaction.BeginRotate | app.js:315-330 | pressing the rotation handle selects the sticker and opens a rotate session pivoting on its on-screen centre and recording its rotation; nothing else changes |
| Interaction.MovedSticker | app.js:350-370 | a drag moves the sticker so that its offset in mm times the screen density is the client offset less the scaled start point; a resize sets the scale by the resize rule; a rotate sets the rotation by the rotate rule; each touches only its own fields |
| Interaction.Move | app.js:346-375 | a move changes only the session's sticker, and only position (drag, to the press position plus the pointer's canvas displacement at the current zoom and rect), scale (resize, by the resize rule from the snapshot) or rotation (rotate, by the rotate rule from the snapshot); without a session nothing changes |
| Interaction.End | app.js:377-379 | releasing ends the session and changes nothing else |
| Interaction.MoveAfterEndChangesNothing | app.js:347 | after release, pointer moves change nothing |
| Interaction.MoveLatestWins | app.js:350-370 | each move recomputes from the press snapshot, so two moves equal the last one alone |
| Interaction.DragFollowsPointer | app.js:350-355 | a drag moves the sticker by the client displacement divided by zoom times 3.7795275591, and changes nothing else about it |
| Interaction.ResizeFollowsPointer | app.js:332-369 | pressing a corner and moving sets the scale by the resize rule from the scale at the press and the client travel, and changes nothing else about the sticker |
| Interaction.RotateFollowsTurn | app.js:315-363 | pressing the rotation handle and moving sets the rotation by the rotate rule from the rotation at the press and the pointer's turn, and changes nothing else about the sticker |
| Interaction.DragWithoutMovement | app.js:350-355 | a drag with no pointer travel leaves every sticker where it was |
| Export.Insert | app.js:683 | inserting into a key-sorted sequence keeps it sorted and adds exactly that one element |
| Export.SortByZ | app.js:683 | the sort is ascending by key and is a permutation of the store |
| Export.InsertKeepsTies | app.js:683 | insertion goes in front of the equal keys and keeps the order of each key's elements |
| Export.SortIsStable | app.js:683 | for every key, the stickers carrying it come out in store order |
| Export.Loaded | app.js:714 | no sticker whose image fails to load survives, and at most the input survives |
| Export.LoadedCount | app.js:714 | each sticker survives as often as it occurs in the input when its image loads and never otherwise, so the skipped ones are exactly the failing ones |
| Export.LoadedKeepsOrder | app.js:685-687 | skipping stickers keeps an ascending order ascending |
| Export.LoadedPermutation | app.js:685-687 | skipping the same images from two permutations leaves two permutations |
| Export.Draws | app.js:685-687 | one draw per layer, in order, each at the layer's exact export placement |
| Export.DrawOrder | app.js:683-687 | the draw order is ascending by key and holds each loading sticker exactly once; with every image loading it is a permutation of the store |
| Export.ExportPlan | app.js:666-717 | the image is the canvas at dpi / 25.4 px/mm, rounded; layers follow the draw order; each draw is at its layer's exact placement and carries its image, rotation, opacity and horizontal and vertical mirroring |
| Export.LoadedNothingBroken | app.js:714 | when every image loads, nothing is skipped |
| Export.ExportDrawsStableOrder | app.js:683 | with every image loading, stickers sharing a key are drawn in store order |
| Export.ExportSizeExample | app.js:667-670 | a 100 mm square canvas at 300 dpi exports 1181 px square |
| App.SetZoom | app.js:155-159 | setting the zoom keeps an in-range request, sends a request below 0.2 to 0.2 and one above 4 to 4, and changes nothing else |
| App.OnWheel | app.js:656-661 | Ctrl + wheel zooms by 1.1 when scrolling up and by 0.9 otherwise; a plain wheel changes nothing |
| App.ApplyCanvas | app.js:634-638 | applying the size form gives sides of at least 100 mm, keeps fields of at least 100, raises other non-zero fields to exactly 100, uses 340 / 230 for `NaN` or 0, and changes nothing else |
| App.OnKeyDown | app.js:514-540 | in a form field nothing happens; Delete / Backspace delete, Escape deselects, arrows nudge, Ctrl+D duplicates; other keys do nothing |
| App.Step | app.js:264-287 | only the size form changes the canvas, only the zoom controls change the zoom, only presses and releases change the session; the counter rises by at most one, only on a load, duplicate or key event, and when it rises the new last sticker carries the old counter as its id; zoom in and out are `setZoom` of the zoom times and over 1.25 |
| App.ZoomInThenOut | app.js:651-652 | in exact arithmetic, zooming in and then out restores the editor while zooming in stays within the clamp |
| App.ZoomInAtMaximum | app.js:651 | at zoom 4, zooming in changes nothing |
| App.StepKeepsValid | app.js:12-23 | every event keeps the editor's invariant |
| App.StepNeverReusesIds | app.js:179 | an id handed out and then removed never comes back, and the counter never goes down |
| App.StepKeepsScaleFloor | app.js:369 | only the scale slider set below 10 % can bring a scale under 0.1 |
| App.DuplicateCanLandBelowOriginal | app.js:486 | after two loads and two bring-to-front presses, the duplicate's key is below its original's |
| App.RaisePressedThenDuplicate | app.js:484-496 | pressing, raising and duplicating sticker 1 puts the copy at key 2 and the original at key 3 |
| App.TwoLoadedOneRaised | app.js:491-496 | after two loads and bring-to-front, the keys are 0 and 2 with the second sticker selected |
| App.ScenarioSteps | app.js:484-496 | the scenario's events dispatch to the load, bring-to-front, press and duplicate operations |
| App.LoadTwiceThenRaise | app.js:491-496 | two load events and a bring-to-front press are the corresponding store operations |
| App.PressRaiseDuplicate | app.js:484-496 | a body press, a bring-to-front press and a duplicate press are the corresponding operations |
| App.TwoLoaded | app.js:171-195 | two loads into a fresh editor give ids 1 and 2 at keys 0 and 1, with the second selected |

## Left out

- The DOM, CSS and the event wiring: element creation, class toggles,
  `applyStickerStyle`'s writes, panel read-back (`updateControlPanel`),
  touch handling and `preventDefault`. Each event handler is a `Step` command.
- Image loading and the asynchronous export. A loaded image appears as a
  command carrying its natural size. A failed load at export time is the
  set `broken` of sources that do not load.
- Drawing itself: background fill, grid, `drawImage`, `toDataURL`, the
  download link and its file name.
- `Math.atan2` and `Math.sqrt`: a move carries the pointer's turn in
  degrees and its travel distance as inputs. `startAngle` is folded into the
  turn.
- Floating point: millimetres, zoom and scale are exact reals. Rounding to
  pixels is modelled where the source rounds.
- The built-in sticker library (`generateBuiltinStickers`), file upload and
  drag-and-drop reading of files. All of these end in an image-loaded event.
- The zoom-fit button: it reads the viewport size from the DOM, then calls
  `setZoom`, which is modelled.
- The canvas preset buttons: their sizes live in the page markup and are
  applied without the clamp.
- The background colour and the grid switch: they only affect drawing.
- `startWMm`, `startHMm` and the corner handle's name: the resize session
  captures them but never uses them.
- Store.NewSticker: requires a positive natural width, because the source
  divides by it and a zero would give an infinite or `NaN` height.
- Store.CreateSticker: requires a positive natural width, for the same reason.
- App.Step: requires a non-zero zoom (the clamp guarantees one) and a
  positive natural width for loaded images, for the same reasons. It also
  requires a pointer's travel to be non-negative, as a square root is, and a
  key named `Delete`, `Backspace`, `Escape` or an arrow to use its own
  constructor rather than `Other`.
- App.StepKeepsScaleFloor: excludes the scale slider below 10 %, which the
  source allows and which does bring the scale under 0.1.
- Export.DrawOrder: says each loading sticker is drawn exactly once and that
  the order is sorted. It does not restate stability, which
  Export.ExportDrawsStableOrder proves for the case where every image loads.
