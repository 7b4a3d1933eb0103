/** The canvas engine: the pure reducer, the effect phase that runs before it
    and may emit follow-up actions, shape synthesis and the playback loop. */
module CanvasFeature {
  import opened Geometry
  import opened CanvasActions
  import opened CanvasModel

  /** The frame-list helpers `addNewFrame`, `copyFrame` and `deleteFrame`.
      Their bodies are not part of this model, so the reducer takes them as
      parameters and nothing is claimed about them beyond `WellBehaved`. */
  datatype FrameListOps = FrameListOps(
    addNewFrame: CanvasState -> CanvasState,
    copyFrame: CanvasState -> CanvasState,
    deleteFrame: (CanvasState, FrameIndex) -> CanvasState)

  /** ASSUMPTION about the frame-list helpers: each maps a well-formed state
      to a well-formed state (the frame list never becomes empty and the
      current index stays inside it). */
  ghost predicate WellBehaved(ops: FrameListOps) {
    (forall s :: WellFormed(s) ==> WellFormed(ops.addNewFrame(s))) &&
    (forall s :: WellFormed(s) ==> WellFormed(ops.copyFrame(s))) &&
    (forall s, t :: WellFormed(s) ==> WellFormed(ops.deleteFrame(s, t)))
  }

  /** The actions whose reduction reads or replaces the current frame. */
  predicate ReadsCurrentFrame(a: Action) {
    a.DrawStart? || a.UpdateOffset? || a.DrawFinish? || a.UndoChange? || a.RedoChange? || a.DrawPath?
  }

  /** The actions handled by a frame-list helper. */
  predicate IsFrameListAction(a: Action) {
    a.AddNewFrame? || a.CopyFrame? || a.DeleteFrame?
  }

  /** The actions the effect phase emits. */
  predicate IsFollowUp(a: Action) {
    a.UpdateOffset? || a.HideColorPicker? || a.DrawPath?
  }

  /** Neither the frame list's length, the current index nor the editor
      configuration differ, and every frame but the current one is unchanged. */
  predicate OnlyCurrentFrameChanged(s: CanvasState, r: CanvasState) {
    r.currentFrameIndex == s.currentFrameIndex &&
    r.editorConfiguration == s.editorConfiguration &&
    r.framesSheetVisible == s.framesSheetVisible &&
    |r.frames| == |s.frames| &&
    forall i :: 0 <= i < |s.frames| && i != s.currentFrameIndex ==> r.frames[i] == s.frames[i]
  }

  /** Kotlin's `roundToInt`: the nearest integer, ties rounded up. */
  function RoundToInt(x: real): (r: int)
    ensures r as real - 0.5 <= x < r as real + 0.5
  {
    (x + 0.5).Floor
  }

  // ---------------------------------------------------------------------
  // Reduction arms that touch the frames

  /** `DrawStart`: ignored during preview; otherwise begins a stroke at the
      start point in the current frame, with properties taken from the editor
      configuration (erasing strokes are transparent). */
  function ReduceDrawStart(s: CanvasState, start: Point): (r: CanvasState)
    requires HasCurrentFrame(s)
    ensures s.editorConfiguration.isPreviewAnimation ==> r == s
    ensures !s.editorConfiguration.isPreviewAnimation ==>
      OnlyCurrentFrameChanged(s, r) &&
      var cfg, before, after := s.editorConfiguration, CurrentFrame(s), r.frames[s.currentFrameIndex];
      after.paths == before.paths && after.snapshots == before.snapshots && after.historyIndex == before.historyIndex &&
      after.lastOffset == Some(start) &&
      after.currentPath.Some? && after.currentPath.value.path == [MoveTo(start)] &&
      (after.currentPath.value.properties.eraseMode <==> cfg.currentMode == Erase) &&
      after.currentPath.value.properties.color ==
        (if cfg.currentMode == Erase then Transparent else cfg.color) &&
      after.currentPath.value.properties.brushSize == cfg.brushSize
  {
    if s.editorConfiguration.isPreviewAnimation then s
    else
      var cfg := s.editorConfiguration;
      var properties := PathProperties(
        if cfg.currentMode == Erase then Transparent else cfg.color,
        cfg.currentMode == Erase,
        cfg.brushSize);
      var path := [MoveTo(start)];
      s.(frames := ReplaceAt(s.frames, s.currentFrameIndex,
        (frame: Frame) => frame.(currentPath := Some(PathWithProperties(path, properties)), lastOffset := Some(start))))
  }

  /** `UpdateOffset`: records a new absolute last offset in the current frame. */
  function ReduceUpdateOffset(s: CanvasState, offset: Point): (r: CanvasState)
    requires HasCurrentFrame(s)
    ensures OnlyCurrentFrameChanged(s, r)
    ensures r.frames[s.currentFrameIndex] == CurrentFrame(s).(lastOffset := Some(offset))
  {
    s.(frames := ReplaceAt(s.frames, s.currentFrameIndex, (frame: Frame) => frame.(lastOffset := Some(offset))))
  }

  /** The strokes of `f` once its stroke in progress, if any, is committed. */
  function CommittedPaths(f: Frame): (r: seq<PathWithProperties>)
    ensures f.currentPath.None? ==> r == f.paths
    ensures f.currentPath.Some? ==> |r| == |f.paths| + 1 && r[..|f.paths|] == f.paths && r[|f.paths|] == f.currentPath.value
  {
    match f.currentPath
    case Some(p) => f.paths + [p]
    case None => f.paths
  }

  /** `DrawFinish`: commits the stroke in progress (if any), clears it, drops
      every snapshot after the cursor, records the new content and advances
      the cursor. The history grows even when there was nothing to commit. */
  function ReduceDrawFinish(s: CanvasState): (r: CanvasState)
    requires HasCurrentFrame(s)
    ensures OnlyCurrentFrameChanged(s, r)
    ensures var before, after := CurrentFrame(s), r.frames[s.currentFrameIndex];
      after.paths == CommittedPaths(before) && after.currentPath.None? &&
      after.lastOffset == before.lastOffset &&
      after.historyIndex == before.historyIndex + 1 &&
      (HistoryValid(before) ==>
        InSync(after) &&
        after.snapshots == before.snapshots[..before.historyIndex + 1] + [Snapshot(after.paths)])
  {
    var paths := CommittedPaths(CurrentFrame(s));
    s.(frames := ReplaceAt(s.frames, s.currentFrameIndex,
      (frame: Frame) =>
        var newFrame := frame.(paths := paths, currentPath := None);
        newFrame.(
          historyIndex := frame.historyIndex + 1,
          snapshots := PushSnapshot(DropSnapshotsStartingFrom(frame.snapshots, frame.historyIndex + 1), newFrame))))
  }

  /** `UndoChange`: unchanged when there is no earlier snapshot; otherwise the
      current frame takes the content of the previous snapshot. */
  function ReduceUndo(s: CanvasState): (r: CanvasState)
    requires HasCurrentFrame(s)
    ensures CurrentFrame(s).historyIndex == 0 ==> r == s
    ensures PreviousSnapshot(CurrentFrame(s)).None? ==> r == s
    ensures PreviousSnapshot(CurrentFrame(s)).Some? ==>
      OnlyCurrentFrameChanged(s, r) &&
      var before, after := CurrentFrame(s), r.frames[s.currentFrameIndex];
      after.historyIndex + 1 == before.historyIndex &&
      after.paths == before.snapshots[after.historyIndex].paths &&
      after.snapshots == before.snapshots && after.currentPath == before.currentPath &&
      after.lastOffset == before.lastOffset
  {
    match PreviousSnapshot(CurrentFrame(s))
    case None => s
    case Some(k) => s.(frames := ReplaceAt(s.frames, s.currentFrameIndex, (frame: Frame) => RestoreSnapshot(frame, k)))
  }

  /** `RedoChange`: unchanged when there is no later snapshot; otherwise the
      current frame takes the content of the next snapshot. */
  function ReduceRedo(s: CanvasState): (r: CanvasState)
    requires HasCurrentFrame(s)
    ensures CurrentFrame(s).historyIndex + 1 >= |CurrentFrame(s).snapshots| ==> r == s
    ensures NextSnapshot(CurrentFrame(s)).Some? ==>
      OnlyCurrentFrameChanged(s, r) &&
      var before, after := CurrentFrame(s), r.frames[s.currentFrameIndex];
      after.historyIndex == before.historyIndex + 1 &&
      after.paths == before.snapshots[after.historyIndex].paths &&
      after.snapshots == before.snapshots && after.currentPath == before.currentPath &&
      after.lastOffset == before.lastOffset
  {
    match NextSnapshot(CurrentFrame(s))
    case None => s
    case Some(k) => s.(frames := ReplaceAt(s.frames, s.currentFrameIndex, (frame: Frame) => RestoreSnapshot(frame, k)))
  }

  /** `DrawPath`: appends one committed, non-erasing stroke with the configured
      colour and brush size; the history is left as it is. */
  function ReduceDrawPath(s: CanvasState, path: Path): (r: CanvasState)
    requires HasCurrentFrame(s)
    ensures OnlyCurrentFrameChanged(s, r)
    ensures var before, after := CurrentFrame(s), r.frames[s.currentFrameIndex];
      |after.paths| == |before.paths| + 1 && after.paths[..|before.paths|] == before.paths &&
      after.paths[|before.paths|] == PathWithProperties(path,
        PathProperties(s.editorConfiguration.color, false, s.editorConfiguration.brushSize)) &&
      after.snapshots == before.snapshots && after.historyIndex == before.historyIndex &&
      after.currentPath == before.currentPath && after.lastOffset == before.lastOffset
  {
    s.(frames := ReplaceAt(s.frames, s.currentFrameIndex,
      (frame: Frame) =>
        var properties := PathProperties(s.editorConfiguration.color, false, s.editorConfiguration.brushSize);
        frame.(paths := frame.paths + [PathWithProperties(path, properties)])))
  }

  // ---------------------------------------------------------------------
  // The reducer

  /** `reduce`: the total transition function of the engine. The one-field
      configuration updates stand for `updateEditorConfig`, read (ASSUMED) as
      setting the named field and keeping every other one. */
  function Reduce(ops: FrameListOps, s: CanvasState, a: Action): (r: CanvasState)
    requires ReadsCurrentFrame(a) ==> HasCurrentFrame(s)
    ensures a.DrawDrag? || a.SelectShape? || a.ExportToGif? ==> r == s
    ensures IsFollowUp(a) ==> r.currentFrameIndex == s.currentFrameIndex && |r.frames| == |s.frames|
    ensures a.HideColorPicker? ==> r == HidePickers(s)
  {
    var cfg := s.editorConfiguration;
    match a
    case DrawStart(start) => ReduceDrawStart(s, start)
    case DrawDrag(_) => s
    case UpdateOffset(offset) => ReduceUpdateOffset(s, offset)
    case DrawFinish => ReduceDrawFinish(s)
    case EraseClick => s.(editorConfiguration := cfg.(currentMode := Erase))
    case OnColorClick => if cfg.colorPickerVisible then HidePickers(s) else OpenColorPicker(s)
    case PencilClick => s.(editorConfiguration := cfg.(currentMode := Pencil))
    case UndoChange => ReduceUndo(s)
    case RedoChange => ReduceRedo(s)
    case OnColorChanged(color) => s.(editorConfiguration := cfg.(color := color))
    case AddNewFrame => ops.addNewFrame(s)
    case DeleteFrame(target) => ops.deleteFrame(s, target)
    case StartAnimation => HidePickers(s.(editorConfiguration := cfg.(isPreviewAnimation := true)))
    case StopAnimation =>
      s.(editorConfiguration := cfg.(isPreviewAnimation := false), currentFrameIndex := |s.frames| - 1)
    case ChangeCurrentFrame(i) => s.(currentFrameIndex := i)
    case AnimationDelayChange(delay) => s.(editorConfiguration := cfg.(animationDelay := RoundToInt(delay)))
    case CopyFrame => ops.copyFrame(s)
    case ShowFrames => s.(framesSheetVisible := true)
    case HideFrames => s.(framesSheetVisible := false)
    case SelectFrame(i) => s.(currentFrameIndex := i, framesSheetVisible := false)
    case DeleteAllFrames => s.(frames := [EmptyFrame()], currentFrameIndex := 0)
    case ShowColorPicker => OpenColorPicker(s)
    case ShowBrushSizePicker => if cfg.brushSizePickerVisible then HidePickers(s) else OpenBrushPicker(s)
    case OpenShapes => if cfg.shapesPickerVisible then HidePickers(s) else OpenShapesPicker(s)
    case HideColorPicker => HidePickers(s)
    case HideBrushSizePicker => HidePickers(s)
    case ChangeBrushSize(size) => s.(editorConfiguration := cfg.(brushSize := size))
    case CustomColorClick => s.(editorConfiguration := cfg.(colorPickerExpanded := !cfg.colorPickerExpanded))
    case OnColorItemClicked(color) => s.(editorConfiguration := cfg.(color := color))
    case SelectShape(_) => s
    case DrawPath(path) => ReduceDrawPath(s, path)
    case ExportToGif => s
  }

  // ---------------------------------------------------------------------
  // The effect phase

  /** What the effect phase leaves behind: the state after its in-place path
      update, and the follow-up actions it submitted, in order. */
  datatype Effect = Effect(state: CanvasState, emitted: seq<Action>)

  /** The current frame's stroke in progress, if any, extended by a line to `p`
      (the in-place `lineTo` on the shared path object). */
  function ExtendCurrentPath(s: CanvasState, p: Point): (r: CanvasState)
    requires HasCurrentFrame(s)
    ensures OnlyCurrentFrameChanged(s, r)
    ensures var before, after := CurrentFrame(s), r.frames[s.currentFrameIndex];
      after == before.(currentPath := after.currentPath) &&
      (before.currentPath.None? ==> after.currentPath.None?) &&
      (before.currentPath.Some? ==> after.currentPath == Some(before.currentPath.value.(path := before.currentPath.value.path + [LineTo(p)])))
  {
    var frame := CurrentFrame(s);
    match frame.currentPath
    case None => s
    case Some(cp) =>
      s.(frames := s.frames[s.currentFrameIndex := frame.(currentPath := Some(cp.(path := cp.path + [LineTo(p)])))])
  }

  /** `processAction`, without the playback loop that `StartAnimation`
      launches (see `AnimationLoop`). A drag delta is turned into an absolute
      offset against the frame's last offset; without a last offset the drag
      is discarded. */
  function Process(s: CanvasState, a: Action): (r: Effect)
    requires a.DrawDrag? ==> HasCurrentFrame(s)
    ensures |r.emitted| <= 1 && forall b :: b in r.emitted ==> IsFollowUp(b)
    ensures !a.DrawDrag? ==> r.state == s
    ensures a.DrawDrag? && CurrentFrame(s).lastOffset.None? ==> r == Effect(s, [])
    ensures a.DrawDrag? && CurrentFrame(s).lastOffset.Some? ==>
      var p := Add(CurrentFrame(s).lastOffset.value, a.delta);
      r == Effect(ExtendCurrentPath(s, p), [UpdateOffset(p)])
    ensures a.DrawStart? || a.EraseClick? || a.PencilClick? || a.OnColorItemClicked? ==> r.emitted == [HideColorPicker]
    ensures a.SelectShape? ==> r.emitted == [DrawPath(ShapePath(a.shape))]
    ensures !(a.DrawDrag? || a.DrawStart? || a.EraseClick? || a.PencilClick? || a.OnColorItemClicked? || a.SelectShape?)
      ==> r.emitted == []
  {
    match a
    case DrawDrag(delta) =>
      (match CurrentFrame(s).lastOffset
       case None => Effect(s, [])
       case Some(lastOffset) =>
         var newOffset := Add(lastOffset, delta);
         Effect(ExtendCurrentPath(s, newOffset), [UpdateOffset(newOffset)]))
    case DrawStart(_) => Effect(s, [HideColorPicker])
    case EraseClick => Effect(s, [HideColorPicker])
    case PencilClick => Effect(s, [HideColorPicker])
    case OnColorItemClicked(_) => Effect(s, [HideColorPicker])
    case SelectShape(shape) => Effect(s, [DrawPath(ShapePath(shape))])
    case _ => Effect(s, [])
  }

  /** `drawShape`: builds the preset shape's path command by command and
      submits it as a `DrawPath`. */
  method DrawShape(shape: Shape) returns (action: Action)
    ensures action.DrawPath? && action.path == ShapePath(shape)
  {
    var path := new PathBuilder();
    match shape {
      case Circle => path.AddOval(Rect(100, 100, 400, 400));
      case Square => path.AddRect(Rect(100, 100, 400, 400));
      case Triangle =>
        path.MoveTo(Point(100, 100));
        path.LineTo(Point(200, 250));
        path.LineTo(Point(0, 250));
        path.LineTo(Point(100, 100));
    }
    action := DrawPath(path.ops);
  }

  /** Reduces the follow-up actions one after another. */
  function ReduceAll(ops: FrameListOps, s: CanvasState, actions: seq<Action>): (r: CanvasState)
    requires forall b :: b in actions ==> IsFollowUp(b)
    requires (exists b :: b in actions && ReadsCurrentFrame(b)) ==> HasCurrentFrame(s)
    ensures r.currentFrameIndex == s.currentFrameIndex && |r.frames| == |s.frames|
    ensures |actions| == 1 ==> r == Reduce(ops, s, actions[0])
    decreases |actions|
  {
    if actions == [] then s
    else
      assert actions[0] in actions;
      assert forall b :: b in actions[1..] ==> b in actions;
      ReduceAll(ops, Reduce(ops, s, actions[0]), actions[1..])
  }

  /** The actions whose processing needs the current frame, in the effect
      phase, in reduction, or in reducing what the effect phase emits. */
  predicate NeedsCurrentFrame(a: Action) {
    ReadsCurrentFrame(a) || a.DrawDrag? || a.SelectShape?
  }

  /** One submitted action, end to end: the effect phase, the action's own
      reduction, then the reduction of each follow-up it emitted. */
  function Dispatch(ops: FrameListOps, s: CanvasState, a: Action): (r: CanvasState)
    requires NeedsCurrentFrame(a) ==> HasCurrentFrame(s)
    ensures !(a.DrawDrag? || a.DrawStart? || a.EraseClick? || a.PencilClick? || a.OnColorItemClicked? || a.SelectShape?)
      ==> r == Reduce(ops, s, a)
    ensures a.DrawStart? || a.EraseClick? || a.PencilClick? || a.OnColorItemClicked? ==>
      r == HidePickers(Reduce(ops, s, a))
    ensures a.SelectShape? ==> r == ReduceDrawPath(s, ShapePath(a.shape))
  {
    var e := Process(s, a);
    var s1 := Reduce(ops, e.state, a);
    assert forall b :: b in e.emitted && ReadsCurrentFrame(b) ==> a.DrawDrag? || a.SelectShape?;
    ReduceAll(ops, s1, e.emitted)
  }

  // ---------------------------------------------------------------------
  // The playback loop

  /** What the playback loop sees of the state at one iteration: whether
      preview is still on (checked at the top) and how many frames there are
      (read after the delay). */
  datatype Observation = Observation(playing: bool, frameCount: int)

  predicate FrameCountsPositive(obs: seq<Observation>) {
    forall k :: 0 <= k < |obs| ==> obs[k].frameCount > 0
  }

  /** The frame indices the loop submits, starting from index `i`, for the
      given observations. */
  function Ticks(i: int, obs: seq<Observation>): (r: seq<int>)
    requires FrameCountsPositive(obs)
    ensures |r| <= |obs|
    decreases |obs|
  {
    if obs == [] || !obs[0].playing then []
    else [i] + Ticks((i + 1) % obs[0].frameCount, obs[1..])
  }

  /** `startFramesAnimation`: from index 0, while preview is on, submit
      `ChangeCurrentFrame` for the index, wait, and step to the next index
      modulo the frame count. The returned sequence holds the submitted
      indices; the observation sequence bounds how long the loop is followed. */
  method AnimationLoop(obs: seq<Observation>) returns (emitted: seq<int>)
    requires FrameCountsPositive(obs)
    ensures emitted == Ticks(0, obs)
  {
    var frameIndex := 0;
    var k := 0;
    emitted := [];
    while k < |obs| && obs[k].playing
      invariant 0 <= k <= |obs|
      invariant emitted + Ticks(frameIndex, obs[k..]) == Ticks(0, obs)
      decreases |obs| - k
    {
      assert obs[k..][1..] == obs[k + 1..];
      emitted := emitted + [frameIndex];
      frameIndex := (frameIndex + 1) % obs[k].frameCount;
      k := k + 1;
    }
  }
}
