/** The closed set of actions the canvas engine accepts. */
module CanvasActions {
  import opened Geometry

  /** How a frame-targeted operation names its frame. */
  datatype FrameIndex = Current | Index(index: int)

  /** One action submitted to the engine.
      The three offset-carrying actions mean different things:
      `DrawStart` carries an absolute start point, `DrawDrag` a delta relative
      to the frame's last offset, and `UpdateOffset` an absolute point.
      `DrawFinish` carries nothing: the committed path is the frame's own. */
  datatype Action =
    | DrawFinish
    | DrawStart(start: Point)
    | DrawDrag(delta: Point)
    | UpdateOffset(offset: Point)
    | EraseClick
    | PencilClick
    | OnColorClick
    | OnColorChanged(color: Color)
    | OnColorItemClicked(color: Color)
    | UndoChange
    | RedoChange
    | AddNewFrame
    | DeleteFrame(target: FrameIndex)
    | StartAnimation
    | StopAnimation
    | ChangeCurrentFrame(frameIndex: int)
    | AnimationDelayChange(animationDelay: real)
    | CopyFrame
    | ShowFrames
    | HideFrames
    | SelectFrame(frameIndex: int)
    | DeleteAllFrames
    | HideColorPicker
    | ShowColorPicker
    | ShowBrushSizePicker
    | HideBrushSizePicker
    | ChangeBrushSize(size: real)
    | CustomColorClick
    | OpenShapes
    | SelectShape(shape: Shape)
    | DrawPath(path: Path)
    | ExportToGif
}
