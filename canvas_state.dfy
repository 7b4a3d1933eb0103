/** The state the canvas engine owns: frames with their strokes and undo
    history, the current frame, and the editor configuration.

    The state declarations and the helpers below live, in the modelled
    program, in files that are not part of this model. Every definition marked
    ASSUMED is this model's reading of a helper whose body is not available;
    it is not source behaviour. */
module CanvasModel {
  import opened Geometry

  datatype Option<T> = None | Some(value: T)

  datatype DrawMode = Pencil | Erase | Transform

  /** How a stroke is rendered. */
  datatype PathProperties = PathProperties(color: Color, eraseMode: bool, brushSize: real)

  /** One stroke: its path and its rendering properties. */
  datatype PathWithProperties = PathWithProperties(path: Path, properties: PathProperties)

  /** ASSUMED: a history snapshot records the committed strokes of a frame. */
  datatype Snapshot = Snapshot(paths: seq<PathWithProperties>)

  /** One canvas: committed strokes, the stroke being drawn (if any), the last
      absolute touch position (`None` stands for an unspecified offset) and
      the undo/redo history as one list of snapshots with a cursor. */
  datatype Frame = Frame(
    paths: seq<PathWithProperties>,
    currentPath: Option<PathWithProperties>,
    lastOffset: Option<Point>,
    snapshots: seq<Snapshot>,
    historyIndex: nat)

  datatype EditorConfiguration = EditorConfiguration(
    currentMode: DrawMode,
    color: Color,
    brushSize: real,
    colorPickerVisible: bool,
    brushSizePickerVisible: bool,
    shapesPickerVisible: bool,
    colorPickerExpanded: bool,
    isPreviewAnimation: bool,
    animationDelay: int)

  datatype CanvasState = CanvasState(
    frames: seq<Frame>,
    currentFrameIndex: int,
    editorConfiguration: EditorConfiguration,
    framesSheetVisible: bool)

  /** ASSUMED: the default `Frame()` has no strokes, no stroke in progress, an
      unspecified last offset, and a history holding one empty snapshot. */
  function EmptyFrame(): (f: Frame)
    ensures f.paths == [] && f.currentPath.None? && f.lastOffset.None?
    ensures InSync(f) && f.historyIndex == 0 && |f.snapshots| == 1
  {
    Frame([], None, None, [Snapshot([])], 0)
  }

  predicate HasCurrentFrame(s: CanvasState) {
    0 <= s.currentFrameIndex < |s.frames|
  }

  function CurrentFrame(s: CanvasState): (f: Frame)
    requires HasCurrentFrame(s)
    ensures f in s.frames
  {
    s.frames[s.currentFrameIndex]
  }

  /** The history cursor points at an existing snapshot. */
  predicate HistoryValid(f: Frame) {
    f.historyIndex < |f.snapshots|
  }

  /** The snapshot under the cursor is the frame's committed content. */
  predicate InSync(f: Frame) {
    HistoryValid(f) && f.snapshots[f.historyIndex].paths == f.paths
  }

  /** The shape every reachable state has: at least one frame, the current
      index inside the frame list, and every history cursor in range. */
  predicate WellFormed(s: CanvasState) {
    HasCurrentFrame(s) && forall i :: 0 <= i < |s.frames| ==> HistoryValid(s.frames[i])
  }

  /** Every frame's history agrees with its committed content. */
  predicate Synced(s: CanvasState) {
    forall i :: 0 <= i < |s.frames| ==> InSync(s.frames[i])
  }

  /** `replace`: the frame at `i` becomes `newItem` applied to it. */
  function ReplaceAt(frames: seq<Frame>, i: int, newItem: Frame -> Frame): (r: seq<Frame>)
    requires 0 <= i < |frames|
    ensures |r| == |frames| && r[i] == newItem(frames[i])
    ensures forall j :: 0 <= j < |r| && j != i ==> r[j] == frames[j]
  {
    frames[i := newItem(frames[i])]
  }

  /** `dropSnapshotsStartingFrom(k)`: keeps the snapshots at indices below `k`. */
  function DropSnapshotsStartingFrom(snapshots: seq<Snapshot>, k: nat): (r: seq<Snapshot>)
    ensures |r| == if k <= |snapshots| then k else |snapshots|
    ensures forall j :: 0 <= j < |r| ==> r[j] == snapshots[j]
  {
    if k <= |snapshots| then snapshots[..k] else snapshots
  }

  /** `pushSnapshot(frame)`: appends a snapshot of the frame's strokes. */
  function PushSnapshot(snapshots: seq<Snapshot>, frame: Frame): (r: seq<Snapshot>)
    ensures |r| == |snapshots| + 1 && r[..|snapshots|] == snapshots
    ensures r[|snapshots|] == Snapshot(frame.paths)
  {
    snapshots + [Snapshot(frame.paths)]
  }

  /** ASSUMED: `previousSnapshot` is the position just before the cursor, if any. */
  function PreviousSnapshot(f: Frame): (r: Option<nat>)
    ensures r.Some? <==> 1 <= f.historyIndex <= |f.snapshots|
    ensures r.Some? ==> r.value + 1 == f.historyIndex
  {
    if 1 <= f.historyIndex <= |f.snapshots| then Some(f.historyIndex - 1) else None
  }

  /** ASSUMED: `nextSnapshot` is the position just after the cursor, if any. */
  function NextSnapshot(f: Frame): (r: Option<nat>)
    ensures r.Some? <==> f.historyIndex + 1 < |f.snapshots|
    ensures r.Some? ==> r.value == f.historyIndex + 1
  {
    if f.historyIndex + 1 < |f.snapshots| then Some(f.historyIndex + 1) else None
  }

  /** ASSUMED: `restoreSnapshot` puts back the strokes recorded at position `k`
      and moves the cursor there; nothing else in the frame changes. */
  function RestoreSnapshot(f: Frame, k: nat): (r: Frame)
    ensures k < |f.snapshots| ==> InSync(r) && r.historyIndex == k
    ensures r.snapshots == f.snapshots && r.currentPath == f.currentPath && r.lastOffset == f.lastOffset
  {
    if k < |f.snapshots| then f.(paths := f.snapshots[k].paths, historyIndex := k) else f
  }

  /** No more than one of the three pickers is open. */
  predicate AtMostOnePicker(c: EditorConfiguration) {
    (c.colorPickerVisible ==> !c.brushSizePickerVisible && !c.shapesPickerVisible) &&
    (c.brushSizePickerVisible ==> !c.shapesPickerVisible)
  }

  /** ASSUMED: `hidePickers` closes all three pickers and changes nothing else. */
  function HidePickers(s: CanvasState): (r: CanvasState)
    ensures !r.editorConfiguration.colorPickerVisible
    ensures !r.editorConfiguration.brushSizePickerVisible
    ensures !r.editorConfiguration.shapesPickerVisible
  {
    s.(editorConfiguration := s.editorConfiguration.(
      colorPickerVisible := false, brushSizePickerVisible := false, shapesPickerVisible := false))
  }

  /** ASSUMED: `openColorPicker` shows the colour picker and closes the others. */
  function OpenColorPicker(s: CanvasState): (r: CanvasState)
    ensures r.editorConfiguration.colorPickerVisible && AtMostOnePicker(r.editorConfiguration)
  {
    s.(editorConfiguration := s.editorConfiguration.(
      colorPickerVisible := true, brushSizePickerVisible := false, shapesPickerVisible := false))
  }

  /** ASSUMED: `openBrushPicker` shows the brush-size picker and closes the others. */
  function OpenBrushPicker(s: CanvasState): (r: CanvasState)
    ensures r.editorConfiguration.brushSizePickerVisible && AtMostOnePicker(r.editorConfiguration)
  {
    s.(editorConfiguration := s.editorConfiguration.(
      colorPickerVisible := false, brushSizePickerVisible := true, shapesPickerVisible := false))
  }

  /** ASSUMED: `openShapesPicker` shows the shapes picker and closes the others. */
  function OpenShapesPicker(s: CanvasState): (r: CanvasState)
    ensures r.editorConfiguration.shapesPickerVisible && AtMostOnePicker(r.editorConfiguration)
  {
    s.(editorConfiguration := s.editorConfiguration.(
      colorPickerVisible := false, brushSizePickerVisible := false, shapesPickerVisible := true))
  }
}
