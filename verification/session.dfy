/**
 * The whole editing session: the events the user interface and the render
 * loop produce, the action each dispatches, and the invariants every state
 * reachable from the initial one keeps.
 */
module Session {
  import opened Optional
  import opened Grid
  import opened World
  import opened Editor
  import opened BlockGrid
  import opened ViewPanel

  /** Everything that reaches the reducer from outside. */
  datatype Event =
    | PointerMove(hit: Hit)
    | PointerDown(hit: Hit, stamp: Stamp)
    | KeyDown(key: string)
    | SelectTool(tool: ToolMode)
    | SelectObjectType(objectType: ObjectType)
    | ClearAll(confirmed: bool)
    | PressViewButton(view: string)
    | AnimationFinished
    | CameraMoved(patch: Settings)

  /** A view of the fixed catalog, looked up by name. */
  predicate IsCatalogView(name: string) {
    exists i :: 0 <= i < |CAMERA_VIEWS| && CAMERA_VIEWS[i].name == name
  }

  /**
   * The end of a camera animation settles on its destination. An animation
   * toward a name outside the catalog never starts, so it never finishes.
   */
  function FinishAnimation(cv: CameraView): (a: Option<Action>)
    ensures a.Some? <==> cv.targetView.Some? && IsCatalogView(cv.targetView.value)
    ensures a.Some? ==> a.value == SetCurrentView(cv.targetView.value)
  {
    if cv.targetView.Some? && IsCatalogView(cv.targetView.value) then Some(SetCurrentView(cv.targetView.value))
    else None
  }

  /** The action an event dispatches, if any. */
  function Dispatch(s: EditorState, e: Event): (a: Option<Action>)
    ensures a.Some? ==> !a.value.SetInteractionMode? && !a.value.Unrecognized?
    ensures e.ClearAll? ==> (a.Some? <==> e.confirmed && |s.blocks| > 0)
  {
    match e
    case PointerMove(hit) => Some(HandlePointerMove(s.toolMode, hit))
    case PointerDown(hit, stamp) => HandlePointerDown(s, hit, stamp)
    case KeyDown(key) => HandleKeyDown(key)
    case SelectTool(t) => Some(SetToolMode(t))
    case SelectObjectType(o) => Some(SetObjectType(o))
    case ClearAll(confirmed) => if |s.blocks| > 0 && confirmed then Some(ClearBlocks) else None
    case PressViewButton(v) => HandleViewChange(s.cameraView, v)
    case AnimationFinished => FinishAnimation(s.cameraView)
    case CameraMoved(patch) => Some(UpdateCameraData(patch))
  }

  function Step(s: EditorState, e: Event): (r: EditorState) {
    match Dispatch(s, e)
    case None => s
    case Some(a) => Reducer(s, a)
  }

  function Replay(s: EditorState, events: seq<Event>): (r: EditorState)
    decreases |events|
  {
    if |events| == 0 then s else Replay(Step(s, events[0]), events[1..])
  }

  /** Every placed cell is on or above the ground plane. */
  ghost predicate AboveGround(blocks: seq<Block>) {
    forall p :: Occupies(blocks, p) ==> p.y >= 0
  }

  /**
   * What the session keeps true: no overlap, nothing below ground, an anchor
   * exactly while a second click is pending (so the placing-first mode is
   * never entered), anchor and preview above ground, and a destination view
   * exactly while the camera animates.
   */
  ghost predicate Consistent(s: EditorState) {
    && NoOverlap(s.blocks)
    && AboveGround(s.blocks)
    && s.interactionMode != PlacingFirst
    && (s.firstClickPosition.Some? <==> s.interactionMode == PlacingSecond)
    && (s.firstClickPosition.Some? ==> s.firstClickPosition.value.y >= 0)
    && (s.previewPosition.Some? ==> s.previewPosition.value.y >= 0)
    && (s.cameraView.isAnimating <==> s.cameraView.targetView.Some?)
  }

  lemma InitialConsistent()
    ensures Consistent(INITIAL_STATE)
  {
    assert Flatten(INITIAL_STATE.blocks) == [];
  }

  lemma AppendAboveGround(s: EditorState, start: Pos, end: Pos, stamp: Stamp)
    requires AboveGround(s.blocks)
    requires start.y >= 0 && end.y >= 0
    ensures AboveGround(s.blocks + [NewBlock(s, start, end, stamp)])
  {
    var b := NewBlock(s, start, end, stamp);
    forall p | Occupies(s.blocks + [b], p) ensures p.y >= 0 {
      OccupiesAppend(s.blocks, b, p);
    }
  }

  lemma StepPreservesConsistent(s: EditorState, e: Event)
    requires Consistent(s)
    ensures Consistent(Step(s, e))
  {
    var a := Dispatch(s, e);
    if a.Some? {
      ReducerPreservesNoOverlap(s, a.value);
      if e.PointerMove? || e.PointerDown? {
        PointerCellsAboveGround(s, e.hit, if e.PointerDown? then e.stamp else Stamp(0, ""));
      }
      match a.value
      case AddBlock(start, end, stamp) =>
        if !WouldCauseOverlap(start, end, s.blocks) {
          AppendAboveGround(s, start, end, stamp);
        }
      case ClearBlocks =>
        assert forall p :: !Occupies([], p);
      case _ =>
    }
  }

  lemma {:induction false} ReplayPreservesConsistent(s: EditorState, events: seq<Event>)
    requires Consistent(s)
    ensures Consistent(Replay(s, events))
    decreases |events|
  {
    if |events| > 0 {
      StepPreservesConsistent(s, events[0]);
      ReplayPreservesConsistent(Step(s, events[0]), events[1..]);
    }
  }

  /**
   * Whatever the user does from the initial state: blocks never overlap,
   * every placed cell has y >= 0, and the placing-first mode never appears.
   */
  lemma SessionInvariant(events: seq<Event>)
    ensures var s := Replay(INITIAL_STATE, events);
      && NoOverlap(s.blocks)
      && (forall p :: Occupies(s.blocks, p) ==> p.y >= 0)
      && s.interactionMode != PlacingFirst
      && (s.interactionMode == PlacingSecond <==> s.firstClickPosition.Some?)
  {
    InitialConsistent();
    ReplayPreservesConsistent(INITIAL_STATE, events);
  }
}
