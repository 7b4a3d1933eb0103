/** Properties of the canvas engine: the invariants every reduction keeps,
    the undo/redo laws, the drag protocol, shape insertion, the pickers and
    the playback loop. */
module CanvasProperties {
  import opened Geometry
  import opened CanvasActions
  import opened CanvasModel
  import opened CanvasFeature

  /** The raw frame indices carried by `ChangeCurrentFrame` and `SelectFrame`
      are assigned without a check; they keep the state well formed only when
      they name an existing frame. */
  predicate Admissible(s: CanvasState, a: Action) {
    (a.ChangeCurrentFrame? ==> 0 <= a.frameIndex < |s.frames|) &&
    (a.SelectFrame? ==> 0 <= a.frameIndex < |s.frames|)
  }

  /** The actions that may change a frame or the frame list. */
  predicate TouchesFrames(a: Action) {
    ReadsCurrentFrame(a) || IsFrameListAction(a) || a.DeleteAllFrames?
  }

  // ---------------------------------------------------------------------
  // Invariants

  /** Every reduction of an admissible action keeps the state well formed,
      given that the frame-list helpers do. */
  lemma ReducePreservesWellFormed(ops: FrameListOps, s: CanvasState, a: Action)
    requires WellBehaved(ops) && WellFormed(s) && Admissible(s, a)
    ensures WellFormed(Reduce(ops, s, a))
  {
  }

  /** Every reduction except `DrawPath` and the frame-list helpers keeps each
      frame's history in agreement with its committed strokes. */
  lemma ReducePreservesSync(ops: FrameListOps, s: CanvasState, a: Action)
    requires WellFormed(s) && Synced(s)
    requires !a.DrawPath? && !IsFrameListAction(a)
    ensures Synced(Reduce(ops, s, a))
  {
  }

  /** Actions outside the frame arms leave every frame, and so every history,
      exactly as it was. */
  lemma ConfigurationActionsKeepFrames(ops: FrameListOps, s: CanvasState, a: Action)
    requires !TouchesFrames(a)
    ensures Reduce(ops, s, a).frames == s.frames
    ensures !(a.StopAnimation? || a.ChangeCurrentFrame? || a.SelectFrame?) ==>
      Reduce(ops, s, a).currentFrameIndex == s.currentFrameIndex
  {
  }

  // ---------------------------------------------------------------------
  // Undo and redo

  /** Undo followed by redo gives back the state exactly. */
  lemma RedoUndoes(s: CanvasState)
    requires HasCurrentFrame(s) && InSync(CurrentFrame(s))
    requires CurrentFrame(s).historyIndex > 0
    ensures ReduceRedo(ReduceUndo(s)) == s
  {
  }

  /** Redo followed by undo gives back the state exactly. */
  lemma UndoUndoesRedo(s: CanvasState)
    requires HasCurrentFrame(s) && InSync(CurrentFrame(s))
    requires CurrentFrame(s).historyIndex + 1 < |CurrentFrame(s).snapshots|
    ensures ReduceUndo(ReduceRedo(s)) == s
  {
  }

  /** Undo right after a commit restores the committed strokes and the cursor
      as they were before it, and redo then gives back the committed state. */
  lemma UndoAfterFinish(s: CanvasState)
    requires HasCurrentFrame(s) && InSync(CurrentFrame(s))
    ensures var f := ReduceDrawFinish(s); var u := ReduceUndo(f);
      CurrentFrame(u).paths == CurrentFrame(s).paths &&
      CurrentFrame(u).historyIndex == CurrentFrame(s).historyIndex &&
      CurrentFrame(u).currentPath.None? &&
      ReduceRedo(u) == f
  {
  }

  /** Committing with redo snapshots ahead discards them: the history ends
      right after the new snapshot, and redo has nothing left to do. */
  lemma FinishTruncatesHistory(s: CanvasState)
    requires HasCurrentFrame(s) && HistoryValid(CurrentFrame(s))
    ensures var f := ReduceDrawFinish(s);
      |CurrentFrame(f).snapshots| == CurrentFrame(s).historyIndex + 2 &&
      ReduceRedo(f) == f
  {
  }

  /** A shape inserted with `DrawPath` is not recorded in the history: undo
      then redo brings back the strokes as they were before the shape. */
  lemma ShapeLostByUndoRedo(s: CanvasState, path: Path)
    requires HasCurrentFrame(s) && InSync(CurrentFrame(s))
    requires CurrentFrame(s).historyIndex > 0
    ensures var d := ReduceDrawPath(s, path);
      !InSync(CurrentFrame(d)) &&
      CurrentFrame(ReduceRedo(ReduceUndo(d))).paths == CurrentFrame(s).paths &&
      CurrentFrame(ReduceRedo(ReduceUndo(d))).paths != CurrentFrame(d).paths
  {
  }

  // ---------------------------------------------------------------------
  // Drawing a stroke

  lemma ReduceAllSingle(ops: FrameListOps, s: CanvasState, b: Action)
    requires IsFollowUp(b) && (ReadsCurrentFrame(b) ==> HasCurrentFrame(s))
    ensures ReduceAll(ops, s, [b]) == Reduce(ops, s, b)
  {
  }

  /** A drag before any offset is known is discarded without a trace. */
  lemma DragWithoutOffsetIsNoOp(ops: FrameListOps, s: CanvasState, delta: Point)
    requires HasCurrentFrame(s) && CurrentFrame(s).lastOffset.None?
    ensures Dispatch(ops, s, DrawDrag(delta)) == s
  {
  }

  /** A drag with a known last offset moves it by the delta and, when a
      stroke is in progress, extends the stroke by a line to the new offset. */
  lemma {:induction false} DragExtendsStroke(ops: FrameListOps, s: CanvasState, delta: Point)
    requires HasCurrentFrame(s) && CurrentFrame(s).lastOffset.Some?
    ensures var r := Dispatch(ops, s, DrawDrag(delta));
      var before, after := CurrentFrame(s), r.frames[s.currentFrameIndex];
      var p := Add(before.lastOffset.value, delta);
      OnlyCurrentFrameChanged(s, r) &&
      after.lastOffset == Some(p) &&
      after.paths == before.paths && after.snapshots == before.snapshots && after.historyIndex == before.historyIndex &&
      (before.currentPath.None? ==> after.currentPath.None?) &&
      (before.currentPath.Some? ==>
        after.currentPath == Some(before.currentPath.value.(path := before.currentPath.value.path + [LineTo(p)])))
  {
    var p := Add(CurrentFrame(s).lastOffset.value, delta);
    var e := Process(s, DrawDrag(delta));
    assert e == Effect(ExtendCurrentPath(s, p), [UpdateOffset(p)]);
    var s1 := Reduce(ops, e.state, DrawDrag(delta));
    assert s1 == e.state;
    ReduceAllSingle(ops, s1, UpdateOffset(p));
  }

  /** When a second drag's effect phase runs before the first drag's
      `UpdateOffset` has been reduced, it reads the stale last offset: the
      offset ends at the old one plus the second delta, and the first delta
      is lost. The drag arms of `reduce` are the identity, so only the
      effect phases and the follow-ups appear here. */
  lemma {:induction false} InterleavedDragsLoseDelta(ops: FrameListOps, s: CanvasState, d1: Point, d2: Point)
    requires HasCurrentFrame(s) && CurrentFrame(s).lastOffset.Some?
    ensures var e1 := Process(s, DrawDrag(d1));
      HasCurrentFrame(e1.state) &&
      var e2 := Process(e1.state, DrawDrag(d2));
      var r := ReduceAll(ops, ReduceAll(ops, e2.state, e1.emitted), e2.emitted);
      var last := CurrentFrame(s).lastOffset.value;
      HasCurrentFrame(r) && CurrentFrame(r).lastOffset == Some(Add(last, d2)) &&
      (d1 != Point(0, 0) ==> CurrentFrame(r).lastOffset != Some(Add(Add(last, d1), d2)))
  {
    var last := CurrentFrame(s).lastOffset.value;
    var e1 := Process(s, DrawDrag(d1));
    assert e1 == Effect(ExtendCurrentPath(s, Add(last, d1)), [UpdateOffset(Add(last, d1))]);
    assert CurrentFrame(e1.state).lastOffset == Some(last);
    var e2 := Process(e1.state, DrawDrag(d2));
    assert e2 == Effect(ExtendCurrentPath(e1.state, Add(last, d2)), [UpdateOffset(Add(last, d2))]);
    ReduceAllSingle(ops, e2.state, UpdateOffset(Add(last, d1)));
    var s1 := ReduceAll(ops, e2.state, e1.emitted);
    ReduceAllSingle(ops, s1, UpdateOffset(Add(last, d2)));
  }

  /** The line commands a run of drags appends, from the offset `from`. */
  function DragLines(from: Point, deltas: seq<Point>): (r: Path)
    ensures |r| == |deltas|
    decreases |deltas|
  {
    if deltas == [] then [] else [LineTo(Add(from, deltas[0]))] + DragLines(Add(from, deltas[0]), deltas[1..])
  }

  /** The offset reached after a run of drags from `from`. */
  function DragEnd(from: Point, deltas: seq<Point>): Point
    decreases |deltas|
  {
    if deltas == [] then from else DragEnd(Add(from, deltas[0]), deltas[1..])
  }

  /** Dispatching a run of drags, one after the other. */
  function DragAll(ops: FrameListOps, s: CanvasState, deltas: seq<Point>): (r: CanvasState)
    requires HasCurrentFrame(s)
    ensures HasCurrentFrame(r) && r.currentFrameIndex == s.currentFrameIndex
    decreases |deltas|
  {
    if deltas == [] then s
    else
      var s1 := Dispatch(ops, s, DrawDrag(deltas[0]));
      DragAll(ops, s1, deltas[1..])
  }

  /** The frame expected after a run of drags on a stroke in progress: the
      stroke gains `DragLines` and the last offset moves to `DragEnd`. */
  function DraggedFrame(f: Frame, deltas: seq<Point>): Frame
    requires f.lastOffset.Some? && f.currentPath.Some?
  {
    var q, cp := f.lastOffset.value, f.currentPath.value;
    f.(lastOffset := Some(DragEnd(q, deltas)), currentPath := Some(cp.(path := cp.path + DragLines(q, deltas))))
  }

  lemma {:induction false} DraggedFrameSplit(f: Frame, deltas: seq<Point>)
    requires f.lastOffset.Some? && f.currentPath.Some? && deltas != []
    ensures DraggedFrame(DraggedFrame(f, [deltas[0]]), deltas[1..]) == DraggedFrame(f, deltas)
  {
    var q, cp := f.lastOffset.value, f.currentPath.value;
    var q1 := Add(q, deltas[0]);
    assert [deltas[0]][1..] == [];
    assert DragLines(q, [deltas[0]]) == [LineTo(q1)];
    assert DragEnd(q, [deltas[0]]) == q1;
    assert DragEnd(q, deltas) == DragEnd(q1, deltas[1..]);
    assert DragLines(q, deltas) == [LineTo(q1)] + DragLines(q1, deltas[1..]);
    assert cp.path + DragLines(q, deltas) == (cp.path + [LineTo(q1)]) + DragLines(q1, deltas[1..]);
  }

  lemma {:induction false} DragOnce(ops: FrameListOps, s: CanvasState, delta: Point)
    requires HasCurrentFrame(s)
    requires CurrentFrame(s).lastOffset.Some? && CurrentFrame(s).currentPath.Some?
    ensures Dispatch(ops, s, DrawDrag(delta)) ==
      s.(frames := s.frames[s.currentFrameIndex := DraggedFrame(CurrentFrame(s), [delta])])
  {
    DragExtendsStroke(ops, s, delta);
    assert [delta][1..] == [];
    var q := CurrentFrame(s).lastOffset.value;
    assert DragLines(q, [delta]) == [LineTo(Add(q, delta))];
    assert DragEnd(q, [delta]) == Add(q, delta);
    var r := Dispatch(ops, s, DrawDrag(delta));
    var t := s.(frames := s.frames[s.currentFrameIndex := DraggedFrame(CurrentFrame(s), [delta])]);
    assert r.frames[s.currentFrameIndex] == t.frames[s.currentFrameIndex];
    assert r.frames == t.frames;
  }

  /** A run of drags on a stroke in progress changes only the current frame,
      which becomes `DraggedFrame`: one line per delta, to the running sums of
      the deltas, with the last offset left at the final sum. */
  lemma {:induction false} DragsBuildStroke(ops: FrameListOps, s: CanvasState, deltas: seq<Point>)
    requires HasCurrentFrame(s)
    requires CurrentFrame(s).lastOffset.Some? && CurrentFrame(s).currentPath.Some?
    ensures DragAll(ops, s, deltas) ==
      s.(frames := s.frames[s.currentFrameIndex := DraggedFrame(CurrentFrame(s), deltas)])
    decreases |deltas|
  {
    var f := CurrentFrame(s);
    if deltas == [] {
      assert f.currentPath.value.(path := f.currentPath.value.path + []) == f.currentPath.value;
      assert DraggedFrame(f, deltas) == f;
      assert s.frames[s.currentFrameIndex := f] == s.frames;
    } else {
      var s1 := Dispatch(ops, s, DrawDrag(deltas[0]));
      DragOnce(ops, s, deltas[0]);
      DragsBuildStroke(ops, s1, deltas[1..]);
      DraggedFrameSplit(f, deltas);
      assert s1.frames[s.currentFrameIndex := DraggedFrame(CurrentFrame(s1), deltas[1..])] ==
        s.frames[s.currentFrameIndex := DraggedFrame(f, deltas)];
    }
  }

  /** A whole stroke: start at `p`, drag through `deltas`, finish. The frame
      gains exactly one stroke, the line through the start point and the
      running sums of the deltas, and its history records it. Start and
      finish are applied through their reducer arms alone: the effect phase
      of `DrawStart` only closes the pickers, that of `DrawFinish` does
      nothing. The drags go through `Dispatch`, since
      their effect phase is what moves the stroke. */
  lemma {:induction false} StrokeLifecycle(ops: FrameListOps, s: CanvasState, p: Point, deltas: seq<Point>)
    requires HasCurrentFrame(s) && InSync(CurrentFrame(s))
    requires !s.editorConfiguration.isPreviewAnimation
    ensures var s1 := ReduceDrawStart(s, p); var s2 := DragAll(ops, s1, deltas); var s3 := ReduceDrawFinish(s2);
      var before, after := CurrentFrame(s), CurrentFrame(s3);
      |after.paths| == |before.paths| + 1 && after.paths[..|before.paths|] == before.paths &&
      after.paths[|before.paths|].path == [MoveTo(p)] + DragLines(p, deltas) &&
      after.currentPath.None? && InSync(after) &&
      after.historyIndex == before.historyIndex + 1
  {
    var s1 := ReduceDrawStart(s, p);
    DragsBuildStroke(ops, s1, deltas);
    var s2 := DragAll(ops, s1, deltas);
    assert CurrentFrame(s2) == DraggedFrame(CurrentFrame(s1), deltas);
  }

  // ---------------------------------------------------------------------
  // Shapes

  /** Selecting a shape adds exactly one committed, non-erasing stroke with
      the shape's fixed geometry and the configured colour and brush size,
      and leaves the history alone. */
  lemma {:induction false} SelectShapeAddsShape(ops: FrameListOps, s: CanvasState, shape: Shape)
    requires HasCurrentFrame(s)
    ensures var r := Dispatch(ops, s, SelectShape(shape)); var before, after := CurrentFrame(s), r.frames[s.currentFrameIndex];
      OnlyCurrentFrameChanged(s, r) &&
      after.paths == before.paths + [PathWithProperties(ShapePath(shape),
        PathProperties(s.editorConfiguration.color, false, s.editorConfiguration.brushSize))] &&
      after.snapshots == before.snapshots && after.historyIndex == before.historyIndex
  {
    var e := Process(s, SelectShape(shape));
    assert e == Effect(s, [DrawPath(ShapePath(shape))]);
    ReduceAllSingle(ops, s, DrawPath(ShapePath(shape)));
  }

  // ---------------------------------------------------------------------
  // Effect phase

  /** The order in which follow-ups are reduced, relative to the action that
      emitted them, does not matter: reducing them before the action gives
      the same state as reducing them after it. */
  lemma FollowUpOrderIrrelevant(ops: FrameListOps, s: CanvasState, a: Action)
    requires NeedsCurrentFrame(a) ==> HasCurrentFrame(s)
    ensures var e := Process(s, a);
      HasCurrentFrame(e.state) == HasCurrentFrame(s) &&
      Reduce(ops, ReduceAll(ops, e.state, e.emitted), a) == Dispatch(ops, s, a)
  {
  }

  /** The follow-ups themselves emit nothing and change nothing in the effect phase. */
  lemma FollowUpsAreQuiet(s: CanvasState, a: Action)
    requires IsFollowUp(a)
    ensures Process(s, a) == Effect(s, [])
  {
  }

  // ---------------------------------------------------------------------
  // Pickers and configuration

  /** No reduction outside the frame-list helpers ever opens a second picker. */
  lemma PickerExclusivity(ops: FrameListOps, s: CanvasState, a: Action)
    requires ReadsCurrentFrame(a) ==> HasCurrentFrame(s)
    requires !IsFrameListAction(a)
    requires AtMostOnePicker(s.editorConfiguration)
    ensures AtMostOnePicker(Reduce(ops, s, a).editorConfiguration)
  {
  }

  /** The three picker buttons toggle: a visible picker is closed (with the
      others), a hidden one is opened alone. Only the picker flags change. */
  lemma PickerToggles(ops: FrameListOps, s: CanvasState, a: Action)
    requires a.OnColorClick? || a.ShowBrushSizePicker? || a.OpenShapes?
    ensures var c, r := s.editorConfiguration, Reduce(ops, s, a).editorConfiguration;
      var own := if a.OnColorClick? then c.colorPickerVisible
                 else if a.ShowBrushSizePicker? then c.brushSizePickerVisible
                 else c.shapesPickerVisible;
      var ownNow := if a.OnColorClick? then r.colorPickerVisible
                    else if a.ShowBrushSizePicker? then r.brushSizePickerVisible
                    else r.shapesPickerVisible;
      ownNow == !own &&
      (own ==> !r.colorPickerVisible && !r.brushSizePickerVisible && !r.shapesPickerVisible) &&
      AtMostOnePicker(r) &&
      r.(colorPickerVisible := c.colorPickerVisible, brushSizePickerVisible := c.brushSizePickerVisible,
         shapesPickerVisible := c.shapesPickerVisible) == c &&
      Reduce(ops, s, a).frames == s.frames
  {
  }

  /** The tool, colour, brush, delay, expansion and frames-sheet actions
      change their one setting and nothing else. */
  lemma ConfigurationSettings(ops: FrameListOps, s: CanvasState, a: Action)
    requires a.EraseClick? || a.PencilClick? || a.OnColorChanged? || a.OnColorItemClicked? ||
             a.ChangeBrushSize? || a.AnimationDelayChange? || a.CustomColorClick? ||
             a.ShowFrames? || a.HideFrames?
    ensures var c, r := s.editorConfiguration, Reduce(ops, s, a);
      r.frames == s.frames && r.currentFrameIndex == s.currentFrameIndex &&
      (a.ShowFrames? || a.HideFrames? ==> r == s.(framesSheetVisible := a.ShowFrames?)) &&
      (!(a.ShowFrames? || a.HideFrames?) ==> r.framesSheetVisible == s.framesSheetVisible) &&
      (a.EraseClick? ==> r.editorConfiguration == c.(currentMode := Erase)) &&
      (a.PencilClick? ==> r.editorConfiguration == c.(currentMode := Pencil)) &&
      (a.OnColorChanged? || a.OnColorItemClicked? ==> r.editorConfiguration == c.(color := a.color)) &&
      (a.ChangeBrushSize? ==> r.editorConfiguration == c.(brushSize := a.size)) &&
      (a.AnimationDelayChange? ==>
        r.editorConfiguration == c.(animationDelay := r.editorConfiguration.animationDelay) &&
        r.editorConfiguration.animationDelay as real - 0.5 <= a.animationDelay < r.editorConfiguration.animationDelay as real + 0.5) &&
      (a.CustomColorClick? ==>
        r.editorConfiguration == c.(colorPickerExpanded := !c.colorPickerExpanded))
  {
  }

  // ---------------------------------------------------------------------
  // Frames and playback

  /** Deleting all frames leaves one empty frame, selected, with a fresh history. */
  lemma DeleteAllFramesResets(ops: FrameListOps, s: CanvasState)
    ensures var r := Reduce(ops, s, DeleteAllFrames);
      |r.frames| == 1 && r.currentFrameIndex == 0 &&
      r.frames[0].paths == [] && r.frames[0].currentPath.None? &&
      WellFormed(r) && Synced(r) && r.editorConfiguration == s.editorConfiguration
  {
  }

  /** Selecting a frame moves to it and closes the frames sheet. */
  lemma SelectFrameMovesAndCloses(ops: FrameListOps, s: CanvasState, i: int)
    ensures var r := Reduce(ops, s, SelectFrame(i));
      r.currentFrameIndex == i && !r.framesSheetVisible &&
      r.frames == s.frames && r.editorConfiguration == s.editorConfiguration
  {
  }

  /** Starting playback turns preview on and closes every picker; stopping it
      turns preview off and lands on the last frame. Neither touches a frame. */
  lemma AnimationStartStop(ops: FrameListOps, s: CanvasState)
    ensures var r := Reduce(ops, s, StartAnimation);
      r.editorConfiguration.isPreviewAnimation &&
      !r.editorConfiguration.colorPickerVisible && !r.editorConfiguration.brushSizePickerVisible &&
      !r.editorConfiguration.shapesPickerVisible &&
      r.frames == s.frames && r.currentFrameIndex == s.currentFrameIndex
    ensures var r := Reduce(ops, s, StopAnimation);
      r == s.(editorConfiguration := s.editorConfiguration.(isPreviewAnimation := false),
              currentFrameIndex := |s.frames| - 1) &&
      (WellFormed(s) ==> WellFormed(r))
  {
  }

  /** `ChangeCurrentFrame` moves to the given index, unchecked, and nothing
      else; `ShowColorPicker` opens the colour picker and `HideBrushSizePicker`
      closes every picker, whatever their state before. */
  lemma IndexAndPickerArms(ops: FrameListOps, s: CanvasState, i: int)
    ensures Reduce(ops, s, ChangeCurrentFrame(i)) == s.(currentFrameIndex := i)
    ensures Reduce(ops, s, ShowColorPicker) == OpenColorPicker(s)
    ensures Reduce(ops, s, HideBrushSizePicker) == HidePickers(s)
  {
  }

  /** While preview is on, a new stroke cannot be started. */
  lemma PreviewBlocksDrawStart(ops: FrameListOps, s: CanvasState, p: Point)
    requires HasCurrentFrame(s) && s.editorConfiguration.isPreviewAnimation
    ensures Reduce(ops, s, DrawStart(p)) == s
  {
  }

  /** Every index the playback loop submits is a step of `(i + 1) % n` from
      the previous one, starting at 0, and names an existing frame for the
      frame count read just before it was submitted. */
  lemma {:induction false} TicksStep(i: int, obs: seq<Observation>, k: nat)
    requires FrameCountsPositive(obs)
    requires k < |Ticks(i, obs)|
    ensures Ticks(i, obs)[0] == i
    ensures k > 0 ==> Ticks(i, obs)[k] == (Ticks(i, obs)[k - 1] + 1) % obs[k - 1].frameCount
    ensures k > 0 ==> 0 <= Ticks(i, obs)[k] < obs[k - 1].frameCount
    ensures obs[k].playing
    decreases k
  {
    if k > 0 {
      var j := (i + 1) % obs[0].frameCount;
      assert FrameCountsPositive(obs[1..]);
      TicksStep(j, obs[1..], k - 1);
      if k == 1 {
        assert Ticks(i, obs)[1] == Ticks(j, obs[1..])[0];
      }
    }
  }

  /** With a fixed number of frames `n`, the loop cycles through
      `i, i+1, …, n-1, 0, 1, …`. */
  lemma {:induction false} TicksCycle(i: int, n: int, obs: seq<Observation>, k: nat)
    requires n > 0 && 0 <= i < n
    requires forall j :: 0 <= j < |obs| ==> obs[j].frameCount == n
    requires k < |Ticks(i, obs)|
    ensures Ticks(i, obs)[k] == (i + k) % n
    ensures 0 <= Ticks(i, obs)[k] < n
    decreases k
  {
    var t := Ticks(i, obs);
    assert obs != [] && obs[0].playing;
    var j := (i + 1) % n;
    var rest := obs[1..];
    assert forall m :: 0 <= m < |rest| ==> rest[m].frameCount == n;
    assert t == [i] + Ticks(j, rest);
    if k == 0 {
      ModUnique(i, n, 0, i);
    } else {
      assert t[k] == Ticks(j, rest)[k - 1];
      if i + 1 < n {
        ModUnique(i + 1, n, 0, i + 1);
        TicksCycle(j, n, rest, k - 1);
      } else {
        ModUnique(i + 1, n, 1, 0);
        TicksCycle(j, n, rest, k - 1);
        ModShift(k - 1, n);
      }
    }
  }

  /** While the frame list keeps its length, every index the playback loop
      submits can be reduced without leaving the frame list. */
  lemma {:induction false} PlaybackIndicesAdmissible(ops: FrameListOps, s: CanvasState, obs: seq<Observation>, k: nat)
    requires WellFormed(s)
    requires forall j :: 0 <= j < |obs| ==> obs[j].frameCount == |s.frames|
    requires k < |Ticks(0, obs)|
    ensures Admissible(s, ChangeCurrentFrame(Ticks(0, obs)[k]))
    ensures WellFormed(Reduce(ops, s, ChangeCurrentFrame(Ticks(0, obs)[k])))
    ensures Reduce(ops, s, ChangeCurrentFrame(Ticks(0, obs)[k])).currentFrameIndex == k % |s.frames|
  {
    TicksCycle(0, |s.frames|, obs, k);
  }

  lemma {:induction false} ModShift(k: nat, n: int)
    requires n > 0
    ensures (n + k) % n == k % n
  {
    var q, m := k / n, k % n;
    assert k == q * n + m;
    assert n + k == (q + 1) * n + m;
    ModUnique(n + k, n, q + 1, m);
  }

  /** The remainder is determined by any quotient-remainder decomposition. */
  lemma {:induction false} ModUnique(a: int, n: int, q: int, m: int)
    requires n > 0 && 0 <= m < n && a == q * n + m
    ensures a % n == m
  {
    var q2, m2 := a / n, a % n;
    assert a == q2 * n + m2;
    if q > q2 {
      MulAtLeast(q - q2, n);
    } else if q < q2 {
      MulAtLeast(q2 - q, n);
    }
  }

  lemma MulAtLeast(d: int, n: int)
    requires d >= 1 && n >= 0
    ensures d * n >= n
    decreases d
  {
  }
}
