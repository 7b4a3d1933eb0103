# Canvas state engine of a frame-based drawing and animation editor

This project models, in Dafny, the state engine of an Android drawing editor.
Users draw strokes on a canvas, keep drawings in an ordered list of frames and
play the frames back as a looping animation. The engine has two phases:

- **Effect phase** (`processAction`). It runs before reduction. It turns a
  relative drag delta into an absolute offset, synthesises preset shapes, asks
  for the colour picker to be hidden, and starts the playback loop. Apart
  from the in-place `lineTo` on the stroke in progress during a drag, it
  communicates only by submitting follow-up actions.
- **Reducer** (`reduce`). A total, pure `(state, action) -> state` function.
  It owns the frames, each frame's strokes, its stroke in progress and its last
  offset, the per-frame undo/redo history (one snapshot list plus a cursor), and
  the editor configuration.

## Files

- `geometry.dfy` (module `Geometry`) holds integer points, colours, paths and
  the preset shapes. Paths are recorded as their command list. `PathBuilder` is
  a class standing for the mutable path object that `drawShape` builds one call
  at a time.
- `canvas_action.dfy` (module `CanvasActions`) holds the closed action type.
  It has one datatype constructor per variant of the sealed hierarchy in
  `app/src/main/java/ru/kartollika/yandexcup/canvas/mvi/CanvasAction.kt:10-52`,
  and `FrameIndex` (`Current` or `Index(n)`). `DrawStart` carries an absolute
  start point. `DrawDrag` carries a delta relative to the frame's last offset.
  `UpdateOffset` carries an absolute point. `DrawFinish` carries nothing.
- `canvas_state.dfy` (module `CanvasModel`) holds the state, the frame and the
  editor configuration. It also holds the helpers the reducer calls.
  Definitions marked ASSUMED stand for helpers whose bodies are not part of
  this model (see "Left out").
- `canvas_feature.dfy` (module `CanvasFeature`) holds:
  - `Reduce` and its arms;
  - `Process`, the effect phase;
  - `Dispatch`: effect phase, then the action's reduction, then its follow-ups;
  - the `DrawShape` method;
  - the `AnimationLoop` method, proved against the `Ticks` function.
- `canvas_properties.dfy` (module `CanvasProperties`) holds the lemmas.

A state is `WellFormed` when the frame list is non-empty, the current index
lies inside it, and every history cursor names an existing snapshot. A state
is `Synced` when each frame's snapshot under the cursor equals its committed
strokes.

## Model

Source paths are relative to the repository root.

| member | source | states |
|---|---|---|
| `CanvasFeature.Reduce` | app/src/main/java/ru/kartollika/yandexcup/canvas/mvi/CanvasFeature.kt:159-378 | `DrawDrag`, `SelectShape` and `ExportToGif` leave the state as it is; the follow-up actions keep the current index and the number of frames |
| `CanvasFeature.ReduceDrawStart` | app/src/main/java/ru/kartollika/yandexcup/canvas/mvi/CanvasFeature.kt:161-191 | identity while previewing; otherwise only the current frame changes: its stroke in progress is the start point alone, erase mode holds exactly in Erase mode and then the colour is transparent, the brush size is the configured one, the last offset is the start point; strokes and history are kept |
| `CanvasFeature.ReduceUpdateOffset` | app/src/main/java/ru/kartollika/yandexcup/canvas/mvi/CanvasFeature.kt:194-205 | only the current frame's last offset changes, to the given absolute point |
| `CanvasFeature.CommittedPaths` | app/src/main/java/ru/kartollika/yandexcup/canvas/mvi/CanvasFeature.kt:208-210 | the stroke in progress, when there is one, is appended after the committed strokes; otherwise the strokes are unchanged |
| `CanvasFeature.ReduceDrawFinish` | app/src/main/java/ru/kartollika/yandexcup/canvas/mvi/CanvasFeature.kt:207-230 | only the current frame changes: it commits its stroke in progress (if any) and clears it; the cursor advances by one even with nothing to commit; the history becomes the snapshots up to the old cursor plus the new content, so history and content agree |
| `CanvasFeature.ReduceUndo` | app/src/main/java/ru/kartollika/yandexcup/canvas/mvi/CanvasFeature.kt:246-256 | identity without a previous snapshot (cursor at 0); otherwise only the current frame changes: its cursor moves back one and its strokes become that snapshot's |
| `CanvasFeature.ReduceRedo` | app/src/main/java/ru/kartollika/yandexcup/canvas/mvi/CanvasFeature.kt:258-269 | identity when the cursor is on the last snapshot; otherwise only the current frame changes: its cursor moves forward one and its strokes become that snapshot's |
| `CanvasFeature.ReduceDrawPath` | app/src/main/java/ru/kartollika/yandexcup/canvas/mvi/CanvasFeature.kt:354-376 | appends exactly one non-erasing stroke with the given path and the configured colour and brush size; history, cursor and stroke in progress are untouched |
| `CanvasFeature.RoundToInt` | app/src/main/java/ru/kartollika/yandexcup/canvas/mvi/CanvasFeature.kt:295-297 | the delay stored is the nearest integer to the requested one, ties rounded up |
| `CanvasFeature.ExtendCurrentPath` | app/src/main/java/ru/kartollika/yandexcup/canvas/mvi/CanvasFeature.kt:78 | the stroke in progress, when there is one, gains a line to the new offset; nothing else changes |
| `CanvasFeature.Process` | app/src/main/java/ru/kartollika/yandexcup/canvas/mvi/CanvasFeature.kt:67-130 | emits at most one follow-up. A drag with no last offset emits nothing and changes nothing. A drag with a last offset extends the stroke and emits one `UpdateOffset(last + delta)`. `DrawStart`, `EraseClick`, `PencilClick` and `OnColorItemClicked` emit `HideColorPicker`. `SelectShape` emits the shape's `DrawPath`. Every other action emits nothing here; `StartAnimation`'s emissions are those of the playback loop, modelled separately by `AnimationLoop` |
| `CanvasFeature.DrawShape` | app/src/main/java/ru/kartollika/yandexcup/canvas/mvi/CanvasFeature.kt:132-146 | the path built command by command is the shape's fixed geometry, submitted as `DrawPath` |
| `Geometry.Add` | app/src/main/java/ru/kartollika/yandexcup/canvas/mvi/CanvasFeature.kt:74-77 | the new offset differs from the last offset by exactly the drag delta, coordinate by coordinate |
| `Geometry.ShapePath` | app/src/main/java/ru/kartollika/yandexcup/canvas/mvi/CanvasFeature.kt:135-144 | circle and square are the oval and rectangle in (100,100)-(400,400); the triangle is a move to (100,100), lines to (200,250) and (0,250), and a line back to (100,100) |
| `CanvasFeature.AnimationLoop` | app/src/main/java/ru/kartollika/yandexcup/canvas/mvi/CanvasFeature.kt:148-157 | the indices submitted are exactly `Ticks(0, obs)`: from 0, one per iteration while preview is on, each the previous plus one modulo the frame count |
| `CanvasFeature.ReduceAll` | app/src/main/java/ru/kartollika/yandexcup/canvas/mvi/CanvasFeature.kt:67-130 | reducing the follow-up actions keeps the current index and the number of frames; a single follow-up is reduced exactly as `reduce` would |
| `CanvasFeature.Dispatch` | app/src/main/java/ru/kartollika/yandexcup/canvas/mvi/CanvasFeature.kt:67-130 | one submitted action end to end: an action that emits nothing is just its reduction; `DrawStart`, `EraseClick`, `PencilClick` and `OnColorItemClicked` are their reduction followed by closing the pickers; `SelectShape` appends the shape's stroke |
| `CanvasModel.EmptyFrame` | app/src/main/java/ru/kartollika/yandexcup/canvas/mvi/CanvasFeature.kt:315 | ASSUMED reading of `Frame()`: no strokes, no stroke in progress, no last offset, and a one-snapshot history with the cursor on it, in sync |
| `CanvasModel.CurrentFrame` | app/src/main/java/ru/kartollika/yandexcup/canvas/mvi/CanvasFeature.kt:70 | ASSUMED reading of `state.currentFrame`: the frame at the current index, which is one of the state's frames |
| `Geometry.PathBuilder.constructor` | app/src/main/java/ru/kartollika/yandexcup/canvas/mvi/CanvasFeature.kt:133 | `Path()`: a new path has no commands |
| `Geometry.PathBuilder.MoveTo` | app/src/main/java/ru/kartollika/yandexcup/canvas/mvi/CanvasFeature.kt:139 | `moveTo` appends one move command and keeps the earlier commands |
| `Geometry.PathBuilder.LineTo` | app/src/main/java/ru/kartollika/yandexcup/canvas/mvi/CanvasFeature.kt:140-142 | `lineTo` appends one line command and keeps the earlier commands |
| `Geometry.PathBuilder.AddOval` | app/src/main/java/ru/kartollika/yandexcup/canvas/mvi/CanvasFeature.kt:136 | `addOval` appends one oval command and keeps the earlier commands |
| `Geometry.PathBuilder.AddRect` | app/src/main/java/ru/kartollika/yandexcup/canvas/mvi/CanvasFeature.kt:137 | `addRect` appends one rectangle command and keeps the earlier commands |
| `CanvasModel.ReplaceAt` | app/src/main/java/ru/kartollika/yandexcup/canvas/mvi/CanvasFeature.kt:177-188 | `replace`: the frame at the index becomes the new item applied to it; every other frame and the length are kept |
| `CanvasModel.DropSnapshotsStartingFrom` | app/src/main/java/ru/kartollika/yandexcup/canvas/mvi/CanvasFeature.kt:224 | keeps the snapshots below the index, in order |
| `CanvasModel.PushSnapshot` | app/src/main/java/ru/kartollika/yandexcup/canvas/mvi/CanvasFeature.kt:225 | appends one snapshot of the frame's strokes after the existing ones |
| `CanvasModel.PreviousSnapshot` | app/src/main/java/ru/kartollika/yandexcup/canvas/mvi/CanvasFeature.kt:247 | ASSUMED: exists exactly when the cursor is at least 1 (and within the history), and is the position before the cursor |
| `CanvasModel.NextSnapshot` | app/src/main/java/ru/kartollika/yandexcup/canvas/mvi/CanvasFeature.kt:259 | ASSUMED: exists exactly when a snapshot follows the cursor, and is that position |
| `CanvasModel.RestoreSnapshot` | app/src/main/java/ru/kartollika/yandexcup/canvas/mvi/CanvasFeature.kt:252 | ASSUMED: the frame takes the snapshot's strokes and the cursor moves to it, leaving the frame in sync; history, stroke in progress and last offset are kept |
| `CanvasModel.HidePickers` | app/src/main/java/ru/kartollika/yandexcup/canvas/mvi/CanvasFeature.kt:336-337 | ASSUMED: all three pickers are closed |
| `CanvasModel.OpenColorPicker` | app/src/main/java/ru/kartollika/yandexcup/canvas/mvi/CanvasFeature.kt:319 | ASSUMED: the colour picker is open and no other picker is |
| `CanvasModel.OpenBrushPicker` | app/src/main/java/ru/kartollika/yandexcup/canvas/mvi/CanvasFeature.kt:320-326 | ASSUMED: the brush-size picker is open and no other picker is |
| `CanvasModel.OpenShapesPicker` | app/src/main/java/ru/kartollika/yandexcup/canvas/mvi/CanvasFeature.kt:328-334 | ASSUMED: the shapes picker is open and no other picker is |
| `CanvasProperties.ReducePreservesWellFormed` | app/src/main/java/ru/kartollika/yandexcup/canvas/mvi/CanvasFeature.kt:159-378 | every reduction keeps the state well formed. This assumes the frame-list helpers do, and that `ChangeCurrentFrame`/`SelectFrame` name an existing frame |
| `CanvasProperties.ReducePreservesSync` | app/src/main/java/ru/kartollika/yandexcup/canvas/mvi/CanvasFeature.kt:207-269 | every reduction other than `DrawPath` and the frame-list helpers keeps each frame's history in agreement with its strokes |
| `CanvasProperties.ConfigurationActionsKeepFrames` | app/src/main/java/ru/kartollika/yandexcup/canvas/mvi/CanvasFeature.kt:232-352 | actions outside the frame arms leave every frame and history unchanged. Only `StopAnimation`, `ChangeCurrentFrame` and `SelectFrame` among them move the current index |
| `CanvasProperties.RedoUndoes` | app/src/main/java/ru/kartollika/yandexcup/canvas/mvi/CanvasFeature.kt:246-269 | on an in-sync frame with a previous snapshot, undo then redo gives back the state exactly, given the ASSUMED helpers |
| `CanvasProperties.UndoUndoesRedo` | app/src/main/java/ru/kartollika/yandexcup/canvas/mvi/CanvasFeature.kt:246-269 | on an in-sync frame with a next snapshot, redo then undo gives back the state exactly, given the ASSUMED helpers |
| `CanvasProperties.UndoAfterFinish` | app/src/main/java/ru/kartollika/yandexcup/canvas/mvi/CanvasFeature.kt:207-256 | undo right after a commit restores the earlier strokes and cursor; redo then gives back the committed state, given the ASSUMED helpers |
| `CanvasProperties.FinishTruncatesHistory` | app/src/main/java/ru/kartollika/yandexcup/canvas/mvi/CanvasFeature.kt:221-225 | after a commit at cursor k, the history has k+2 snapshots and redo does nothing |
| `CanvasProperties.ShapeLostByUndoRedo` | app/src/main/java/ru/kartollika/yandexcup/canvas/mvi/CanvasFeature.kt:354-376 | a `DrawPath` stroke leaves the frame out of sync with its history; undo followed by redo then drops the shape |
| `CanvasProperties.DragWithoutOffsetIsNoOp` | app/src/main/java/ru/kartollika/yandexcup/canvas/mvi/CanvasFeature.kt:69-81 | a drag dispatched with no last offset leaves the whole state unchanged |
| `CanvasProperties.DragExtendsStroke` | app/src/main/java/ru/kartollika/yandexcup/canvas/mvi/CanvasFeature.kt:69-81 | a dispatched drag moves the last offset by the delta. It extends the stroke in progress (if any) by a line to that point. Nothing else changes |
| `CanvasProperties.InterleavedDragsLoseDelta` | app/src/main/java/ru/kartollika/yandexcup/canvas/mvi/CanvasFeature.kt:69-81 | if a second drag's effect phase reads the state before the first drag's `UpdateOffset` is reduced, the last offset ends at the old offset plus the second delta only; a non-zero first delta is lost |
| `CanvasProperties.DragsBuildStroke` | app/src/main/java/ru/kartollika/yandexcup/canvas/mvi/CanvasFeature.kt:69-81 | a run of drags on a stroke in progress changes only the current frame: its stroke gains one line per delta, to the running sums of the deltas, and its last offset ends at the final sum |
| `CanvasProperties.StrokeLifecycle` | app/src/main/java/ru/kartollika/yandexcup/canvas/mvi/CanvasFeature.kt:161-230 | start, a run of drags, finish: the frame gains exactly one stroke, starting at the start point through the running sums, and its history records it |
| `CanvasProperties.SelectShapeAddsShape` | app/src/main/java/ru/kartollika/yandexcup/canvas/mvi/CanvasFeature.kt:127 | a dispatched shape selection appends exactly one non-erasing stroke with the shape's geometry and the configured colour and brush size, and leaves the history alone |
| `CanvasProperties.FollowUpOrderIrrelevant` | app/src/main/java/ru/kartollika/yandexcup/canvas/mvi/CanvasFeature.kt:67-130 | reducing an action's follow-ups before the action gives the same state as reducing them after it |
| `CanvasProperties.FollowUpsAreQuiet` | app/src/main/java/ru/kartollika/yandexcup/canvas/mvi/CanvasFeature.kt:87-128 | the follow-up actions emit nothing and change nothing in the effect phase |
| `CanvasProperties.PickerExclusivity` | app/src/main/java/ru/kartollika/yandexcup/canvas/mvi/CanvasFeature.kt:236-337 | no reduction outside the frame-list helpers opens a second picker, given the ASSUMED helpers |
| `CanvasProperties.PickerToggles` | app/src/main/java/ru/kartollika/yandexcup/canvas/mvi/CanvasFeature.kt:236-240 | colour, brush and shapes buttons toggle their own picker. An open picker closes along with the others; a closed one opens alone. Only picker flags change, given the ASSUMED helpers |
| `CanvasProperties.ConfigurationSettings` | app/src/main/java/ru/kartollika/yandexcup/canvas/mvi/CanvasFeature.kt:232-351 | tool, colour, brush size, delay, colour-expansion and frames-sheet actions each change their one setting and nothing else; `CustomColorClick` negates the expansion flag, `ShowFrames`/`HideFrames` set the sheet flag to true/false (the configuration settings rest on the ASSUMED reading of `updateEditorConfig`) |
| `CanvasProperties.DeleteAllFramesResets` | app/src/main/java/ru/kartollika/yandexcup/canvas/mvi/CanvasFeature.kt:314-317 | exactly one empty frame remains, selected, well formed and in sync, given the ASSUMED helpers |
| `CanvasProperties.SelectFrameMovesAndCloses` | app/src/main/java/ru/kartollika/yandexcup/canvas/mvi/CanvasFeature.kt:309-312 | the index becomes the given one, unchecked, and the frames sheet closes |
| `CanvasProperties.AnimationStartStop` | app/src/main/java/ru/kartollika/yandexcup/canvas/mvi/CanvasFeature.kt:278-289 | start turns preview on and closes every picker, touching no frame; stop turns preview off, lands on the last frame and changes nothing else, given the ASSUMED helpers |
| `CanvasProperties.IndexAndPickerArms` | app/src/main/java/ru/kartollika/yandexcup/canvas/mvi/CanvasFeature.kt:291-337 | `ChangeCurrentFrame(i)` makes `i` the current index and changes nothing else; `ShowColorPicker` opens the colour picker; `HideBrushSizePicker` closes every picker, given the ASSUMED helpers |
| `CanvasProperties.PreviewBlocksDrawStart` | app/src/main/java/ru/kartollika/yandexcup/canvas/mvi/CanvasFeature.kt:161-162 | while previewing, the `DrawStart` reducer arm leaves the state unchanged; the dispatched action still closes the pickers through its `HideColorPicker` follow-up |
| `CanvasProperties.TicksStep` | app/src/main/java/ru/kartollika/yandexcup/canvas/mvi/CanvasFeature.kt:150-155 | the loop starts at its start index. Each later index is the previous plus one, modulo the frame count read just before it, and lies within that count. Each index was submitted while preview was on |
| `CanvasProperties.TicksCycle` | app/src/main/java/ru/kartollika/yandexcup/canvas/mvi/CanvasFeature.kt:150-155 | with a fixed frame count n, the k-th index from start i is (i + k) mod n, so from 0 the loop runs 0, 1, …, n-1, 0, … |
| `CanvasProperties.PlaybackIndicesAdmissible` | app/src/main/java/ru/kartollika/yandexcup/canvas/mvi/CanvasFeature.kt:291-293 | while the frame count stays fixed, every index the loop submits names an existing frame, so reducing its `ChangeCurrentFrame` keeps the state well formed and makes the k-th submitted index, k mod n, the current frame |

## Behaviour worth noting

- `DrawPath` (`CanvasFeature.kt:354-376`) pushes no history snapshot, unlike
  `DrawFinish` (`CanvasFeature.kt:221-225`). `ShapeLostByUndoRedo` shows the
  result: undo followed by redo drops an inserted shape.
- `DrawFinish` (`CanvasFeature.kt:207-230`) advances the cursor and pushes a
  snapshot even when no stroke is in progress.
- Only the `DrawStart` reducer arm checks the preview flag (`CanvasFeature.kt:162`); its effect phase still closes the pickers. Drags and
  `DrawFinish` still act while previewing. No arm checks the Transform mode.
- `ExportToGif` has no arm in either phase. It is modelled as the identity in
  both.

## Left out

- Compose UI (`CanvasScreen.kt`, `FramesScreen.kt`, `BottomControls.kt`) is not
  part of this model. That includes the gesture transform matrix and the
  viewport zoom clamp, which are float numerics in the UI layer.
  `FramesViewModel.kt` and `FramesRepository.kt` are thin injected wrappers and
  are left out too.
- The call forms `DrawStart` without an offset and `DrawFinish(path)` in
  `CanvasScreen.kt` match no declared action and are ignored.
- Coroutines, `delay` and the dispatch machinery of the MVI base class are not
  part of this model. `Dispatch` treats one submitted action and its
  follow-ups as one uninterrupted step: effect, reduction, follow-ups.
  `FollowUpOrderIrrelevant` shows that reducing the follow-ups before their
  own action gives the same state. Interleaving with later actions is not
  captured: `startFramesAnimation` keeps its effect phase running while
  preview is on, so effect phases can overlap later actions.
  `InterleavedDragsLoseDelta` shows one consequence.
- CanvasProperties.DragsBuildStroke: assumes, like `StrokeLifecycle`, that
  each drag's follow-up `UpdateOffset` is reduced before the next drag's
  effect phase reads the last offset; otherwise the later drag reads a stale
  offset and the earlier delta is lost (`InterleavedDragsLoseDelta`).
- `AnimationLoop` is not composed with the reducer. The loop reads the preview
  flag and the frame count from a finite sequence of observations, which stands
  in for the live state. The sequence also bounds how long the loop is
  followed; the delay is left out.
- Floats become integers. Offsets are integer points, so float rounding in
  `lastOffset + delta` is not captured. `Offset.Unspecified` is `None`. Brush
  size and the requested delay are `real`. `RoundToInt` does not model the
  clamping of `roundToInt` to the 32-bit range or NaN. Colours are packed ARGB
  integers, with `Color.Transparent` as 0.
- The path object is modelled as a value. The in-place `lineTo` in the drag
  effect becomes a value update of the state. Aliasing of a path object between
  frames (for example by `copyFrame`) is not captured.
- `addNewFrame`, `copyFrame` and `deleteFrame` have no bodies in this model.
  The reducer takes them as parameters. `WellBehaved` assumes only that each
  keeps a well-formed state well formed. Nothing else is claimed about them.
- These helpers' bodies are not part of this model, so the definitions given
  for them are assumptions: `previousSnapshot`, `nextSnapshot`,
  `restoreSnapshot`, `hidePickers`, `openColorPicker`, `openBrushPicker`,
  `openShapesPicker`, `updateEditorConfig` (read as setting the named field
  of the editor configuration and keeping every other one; `Reduce` writes
  each call as that one-field update), the snapshot contents (a frame's strokes) and the
  default `Frame()` (empty, with one empty snapshot and cursor 0). `previousSnapshot` and `nextSnapshot` are
  read as positions in the history, and `restoreSnapshot` restores by
  position; a helper that located the snapshot by value would behave
  differently when two snapshots are equal, as after a `DrawFinish` with no
  stroke in progress. `RedoUndoes` and `UndoUndoesRedo` rest on this reading.
- State fields the reducer never touches are not modelled: the loading flag,
  export progress, canvas size, `canUndo`/`canRedo`, the previous frame and the
  maximum frame count. The same holds for one-shot events.
- CanvasProperties.ReducePreservesSync: excludes the frame-list helpers, because their bodies are not part of this model, and `DrawPath`, which does break the agreement.
- CanvasProperties.PickerExclusivity: excludes the frame-list helpers, because their effect on the editor configuration is not part of this model.
- CanvasProperties.ReducePreservesWellFormed: holds only under the `WellBehaved` assumption on the frame-list helpers and for frame indices that name an existing frame.
