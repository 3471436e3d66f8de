/**
 * The editor's world state and its reducer: a pure `(state, action) -> state`
 * function. Placement is refused silently on overlap, the block list is
 * append-only (or cleared as a whole), and cancelling, switching tool or
 * switching object type abandon any placement in progress.
 */
module Editor {
  import opened Optional
  import opened Grid
  import opened World

  datatype InteractionMode = NoInteraction | PlacingFirst | PlacingSecond

  /**
   * The selected tool. `None` is JavaScript's `undefined`, which is what the
   * move button hands over: the tool-mode table only defines "block".
   */
  type ToolMode = Option<string>

  const BLOCK_TOOL: ToolMode := Some("block")

  predicate IsBlockTool(t: ToolMode) {
    t == BLOCK_TOOL
  }

  datatype Vec3 = Vec3(x: real, y: real, z: real)

  /** A setting value; numbers are carried as exact reals and never computed on. */
  datatype Value = Num(n: real) | Flag(b: bool) | Text(t: string) | Vector(v: Vec3)

  /** An open record of named settings (fog parameters, camera telemetry). */
  type Settings = map<string, Value>

  /** A named camera framing from the fixed catalog. */
  datatype NamedView = NamedView(name: string, position: Vec3, target: Vec3)

  const CENTER_VIEW := NamedView("center", Vec3(22.44, 6.49, 11.62), Vec3(3.56, -2.45, 11.07))
  const LEFT_VIEW := NamedView("left", Vec3(9.49, 6.87, 22.86), Vec3(9.92, -0.88, 9.60))
  const RIGHT_VIEW := NamedView("right", Vec3(11.04, 7.99, -1.56), Vec3(11.18, -0.65, 9.74))

  const CAMERA_VIEWS: seq<NamedView> := [CENTER_VIEW, LEFT_VIEW, RIGHT_VIEW]

  /** The view the camera rests at, and the one it is travelling to while animating. */
  datatype CameraView = CameraView(current: string, isAnimating: bool, targetView: Option<string>)

  datatype DebugUI = DebugUI(showCameraInfo: bool)

  datatype EditorState = EditorState(
    blocks: seq<Block>,
    previewPosition: Option<Pos>,
    firstClickPosition: Option<Pos>,
    interactionMode: InteractionMode,
    selectedBlockId: Option<string>,
    toolMode: ToolMode,
    selectedObjectType: ObjectType,
    fogSettings: Settings,
    cameraData: Settings,
    debugUI: DebugUI,
    cameraView: CameraView)

  const INITIAL_FOG: Settings := map[
    "enabled" := Flag(true), "color" := Text("#ffffff"), "density" := Num(0.02),
    "near" := Num(20.0), "far" := Num(80.0), "affectSkybox" := Flag(true)]

  const INITIAL_CAMERA_DATA: Settings := map[
    "position" := Vector(CENTER_VIEW.position), "target" := Vector(CENTER_VIEW.target),
    "distance" := Num(0.0), "fov" := Num(60.0)]

  const INITIAL_STATE := EditorState(
    [], None, None, NoInteraction, None, BLOCK_TOOL, BLOCK,
    INITIAL_FOG, INITIAL_CAMERA_DATA, DebugUI(false), CameraView("center", false, None))

  /**
   * The reducer's actions. `AddBlock` carries the stamp the source draws from
   * the clock and the random source; `Unrecognized` is any other action type.
   */
  datatype Action =
    | SetPreviewPosition(preview: Option<Pos>)
    | SetFirstClick(anchor: Option<Pos>)
    | AddBlock(start: Pos, end: Pos, stamp: Stamp)
    | ClearBlocks
    | SetInteractionMode(mode: InteractionMode)
    | ClearInteraction
    | SetToolMode(tool: ToolMode)
    | SetObjectType(objectType: ObjectType)
    | UpdateFogSettings(fogPatch: Settings)
    | UpdateCameraData(cameraPatch: Settings)
    | ToggleDebugUI
    | AnimateToView(view: string)
    | SetCurrentView(view: string)
    | Unrecognized(tag: string)

  /** No anchor, no preview, no placement in progress. */
  predicate InteractionCleared(s: EditorState) {
    s.firstClickPosition.None? && s.interactionMode == NoInteraction && s.previewPosition.None?
  }

  /** Everything outside the block list and the three interaction fields is equal. */
  predicate SameContext(r: EditorState, s: EditorState) {
    && r.selectedBlockId == s.selectedBlockId
    && r.toolMode == s.toolMode
    && r.selectedObjectType == s.selectedObjectType
    && r.fogSettings == s.fogSettings
    && r.cameraData == s.cameraData
    && r.debugUI == s.debugUI
    && r.cameraView == s.cameraView
  }

  function ResetInteraction(s: EditorState): (r: EditorState)
    ensures InteractionCleared(r) && r.blocks == s.blocks && SameContext(r, s)
  {
    s.(firstClickPosition := None, interactionMode := NoInteraction, previewPosition := None)
  }

  /** The block a successful placement appends. */
  function NewBlock(s: EditorState, start: Pos, end: Pos, stamp: Stamp): (b: Block) {
    Block(GenerateBlockPositions(start, end), start, end, s.selectedObjectType, stamp)
  }

  function Reducer(s: EditorState, a: Action): (r: EditorState)
    // the world only ever grows by one block at its end, or is emptied
    ensures || r.blocks == s.blocks
            || (a.ClearBlocks? && r.blocks == [])
            || (a.AddBlock? && |r.blocks| == |s.blocks| + 1 && r.blocks[..|s.blocks|] == s.blocks)
  {
    match a
    case SetPreviewPosition(p) => s.(previewPosition := p)
    case SetFirstClick(p) => s.(firstClickPosition := p, interactionMode := PlacingSecond)
    case AddBlock(start, end, stamp) =>
      if WouldCauseOverlap(start, end, s.blocks) then s
      else ResetInteraction(s.(blocks := s.blocks + [NewBlock(s, start, end, stamp)]))
    case ClearBlocks => ResetInteraction(s.(blocks := []))
    case SetInteractionMode(m) => s.(interactionMode := m)
    case ClearInteraction => ResetInteraction(s)
    case SetToolMode(t) => ResetInteraction(s.(toolMode := t))
    case SetObjectType(o) => ResetInteraction(s.(selectedObjectType := o))
    case UpdateFogSettings(patch) => s.(fogSettings := s.fogSettings + patch)
    case UpdateCameraData(patch) => s.(cameraData := s.cameraData + patch)
    case ToggleDebugUI => s.(debugUI := s.debugUI.(showCameraInfo := !s.debugUI.showCameraInfo))
    case AnimateToView(v) => s.(cameraView := CameraView(s.cameraView.current, true, Some(v)))
    case SetCurrentView(v) => s.(cameraView := CameraView(v, false, None))
    case Unrecognized(_) => s
  }

  /**
   * The action a second click dispatches: the box from the anchor to the
   * click, or the single clicked cell when there is no anchor.
   */
  function HandleSecondClick(s: EditorState, click: Pos, stamp: Stamp): (a: Action)
    ensures a.AddBlock? && a.end == click && a.stamp == stamp
    ensures s.firstClickPosition.Some? ==> a.start == s.firstClickPosition.value
    ensures s.firstClickPosition.None? ==> a.start == click
  {
    AddBlock(s.firstClickPosition.GetOr(click), click, stamp)
  }

  /** The preview shows a whole box: a second click is pending and the cursor is on the grid. */
  predicate PreviewBoxActive(s: EditorState) {
    s.interactionMode == PlacingSecond && s.firstClickPosition.Some? && s.previewPosition.Some?
  }

  /** The cells the cursor preview highlights. */
  function GetPreviewPositions(s: EditorState): (r: seq<Pos>)
    ensures Distinct(r)
    ensures PreviewBoxActive(s) ==>
      forall p :: p in r <==> InBox(p, s.firstClickPosition.value, s.previewPosition.value)
    ensures !PreviewBoxActive(s) ==> |r| <= 1
    ensures s.previewPosition.Some? ==> s.previewPosition.value in r
    ensures s.previewPosition.None? ==> r == []
  {
    if PreviewBoxActive(s) then GenerateBlockPositions(s.firstClickPosition.value, s.previewPosition.value)
    else if s.previewPosition.Some? then [s.previewPosition.value]
    else []
  }

  // ---------------------------------------------------------------- placement

  /** A placement is refused, leaving the state identical, exactly when some cell of its box is taken. */
  lemma AddBlockRefused(s: EditorState, start: Pos, end: Pos, stamp: Stamp)
    ensures Reducer(s, AddBlock(start, end, stamp)) == s
        <==> exists p :: InBox(p, start, end) && Occupies(s.blocks, p)
  {
    var r := Reducer(s, AddBlock(start, end, stamp));
    if !WouldCauseOverlap(start, end, s.blocks) {
      assert |r.blocks| == |s.blocks| + 1;
    }
  }

  /**
   * A successful placement appends one block covering exactly the box, of
   * the selected type, leaves earlier blocks alone and ends the interaction.
   */
  lemma AddBlockAppends(s: EditorState, start: Pos, end: Pos, stamp: Stamp)
    requires forall p :: InBox(p, start, end) ==> !Occupies(s.blocks, p)
    ensures var r := Reducer(s, AddBlock(start, end, stamp));
      && |r.blocks| == |s.blocks| + 1
      && r.blocks[..|s.blocks|] == s.blocks
      && (forall p :: p in r.blocks[|s.blocks|].positions <==> InBox(p, start, end))
      && Distinct(r.blocks[|s.blocks|].positions)
      && r.blocks[|s.blocks|].start == start
      && r.blocks[|s.blocks|].end == end
      && r.blocks[|s.blocks|].objType == s.selectedObjectType
      && r.blocks[|s.blocks|].stamp == stamp
      && InteractionCleared(r)
      && SameContext(r, s)
  {
  }

  /** Clearing empties the world and abandons any placement; nothing else moves. */
  lemma ClearBlocksEmpties(s: EditorState)
    ensures var r := Reducer(s, ClearBlocks);
      r.blocks == [] && InteractionCleared(r) && SameContext(r, s)
  {
  }

  /**
   * Cancelling, switching tool and switching object type abandon the
   * placement in progress and keep the blocks, fog, camera and debug state.
   */
  lemma InteractionResets(s: EditorState, a: Action)
    requires a.ClearInteraction? || a.SetToolMode? || a.SetObjectType?
    ensures var r := Reducer(s, a);
      && InteractionCleared(r)
      && r.blocks == s.blocks
      && r.selectedBlockId == s.selectedBlockId
      && r.fogSettings == s.fogSettings
      && r.cameraData == s.cameraData
      && r.debugUI == s.debugUI
      && r.cameraView == s.cameraView
      && r.toolMode == (if a.SetToolMode? then a.tool else s.toolMode)
      && r.selectedObjectType == (if a.SetObjectType? then a.objectType else s.selectedObjectType)
  {
  }

  /** Cancelling twice is cancelling once, and cancelling when idle changes nothing. */
  lemma CancelIdempotent(s: EditorState)
    ensures Reducer(Reducer(s, ClearInteraction), ClearInteraction) == Reducer(s, ClearInteraction)
    ensures InteractionCleared(s) ==> Reducer(s, ClearInteraction) == s
  {
  }

  /** A first click records the anchor and waits for the second click. */
  lemma FirstClickAnchors(s: EditorState, p: Pos)
    ensures var r := Reducer(s, SetFirstClick(Some(p)));
      && r.firstClickPosition == Some(p)
      && r.interactionMode == PlacingSecond
      && r.previewPosition == s.previewPosition
      && r.blocks == s.blocks
      && SameContext(r, s)
  {
  }

  lemma SingleCellBox(p: Pos)
    ensures GenerateBlockPositions(p, p) == [p]
  {
    var r := GenerateBlockPositions(p, p);
    assert |r| == 1;
    assert p in r;
  }

  /**
   * The two-click workflow: anchor at `a`, then click `b`. The box between
   * them is placed if it is free; otherwise nothing changes and the anchor
   * stays, so the user may try another second point.
   */
  lemma TwoClickPlacement(s: EditorState, a: Pos, b: Pos, stamp: Stamp)
    ensures var s1 := Reducer(s, SetFirstClick(Some(a)));
      var r := Reducer(s1, HandleSecondClick(s1, b, stamp));
      && ((exists p :: InBox(p, a, b) && Occupies(s.blocks, p)) ==>
            r == s1 && r.interactionMode == PlacingSecond && r.firstClickPosition == Some(a))
      && (!(exists p :: InBox(p, a, b) && Occupies(s.blocks, p)) ==>
            && r.blocks == s.blocks + [Block(GenerateBlockPositions(a, b), a, b, s.selectedObjectType, stamp)]
            && InteractionCleared(r))
  {
  }

  /** A second click with no anchor places the single clicked cell, if it is free. */
  lemma SecondClickWithoutAnchor(s: EditorState, c: Pos, stamp: Stamp)
    requires s.firstClickPosition.None?
    requires !Occupies(s.blocks, c)
    ensures var r := Reducer(s, HandleSecondClick(s, c, stamp));
      r.blocks == s.blocks + [Block([c], c, c, s.selectedObjectType, stamp)]
  {
    SingleCellBox(c);
  }

  // ---------------------------------------------------------- other settings

  /** Fog and camera-data updates merge the patch over the old record; the patch wins. */
  lemma SettingsMerge(s: EditorState, patch: Settings)
    ensures var r := Reducer(s, UpdateFogSettings(patch));
      && r.fogSettings.Keys == s.fogSettings.Keys + patch.Keys
      && (forall k :: k in patch ==> r.fogSettings[k] == patch[k])
      && (forall k :: k in s.fogSettings && k !in patch ==> r.fogSettings[k] == s.fogSettings[k])
      && r == s.(fogSettings := r.fogSettings)
    ensures var r := Reducer(s, UpdateCameraData(patch));
      && r.cameraData.Keys == s.cameraData.Keys + patch.Keys
      && (forall k :: k in patch ==> r.cameraData[k] == patch[k])
      && (forall k :: k in s.cameraData && k !in patch ==> r.cameraData[k] == s.cameraData[k])
      && r == s.(cameraData := r.cameraData)
  {
  }

  /** The debug toggle flips one flag; toggling twice restores the state. */
  lemma ToggleDebugTwice(s: EditorState)
    ensures Reducer(s, ToggleDebugUI).debugUI.showCameraInfo == !s.debugUI.showCameraInfo
    ensures Reducer(Reducer(s, ToggleDebugUI), ToggleDebugUI) == s
  {
  }

  /** Starting an animation keeps the resting view and records the destination. */
  lemma AnimateToViewStarts(s: EditorState, v: string)
    ensures var r := Reducer(s, AnimateToView(v));
      && r.cameraView.current == s.cameraView.current
      && r.cameraView.isAnimating
      && r.cameraView.targetView == Some(v)
      && r == s.(cameraView := r.cameraView)
  {
  }

  /** Settling on a view makes it current and ends the animation. */
  lemma SetCurrentViewSettles(s: EditorState, v: string)
    ensures var r := Reducer(s, SetCurrentView(v));
      && r.cameraView.current == v
      && !r.cameraView.isAnimating
      && r.cameraView.targetView.None?
      && r == s.(cameraView := r.cameraView)
  {
  }

  /** Moving the preview changes the preview and nothing else. */
  lemma PreviewPositionSet(s: EditorState, p: Option<Pos>)
    ensures Reducer(s, SetPreviewPosition(p)).previewPosition == p
    ensures Reducer(s, SetPreviewPosition(p)) == s.(previewPosition := p)
  {
  }

  /** Setting the interaction mode writes the mode alone; the anchor is kept as it was. */
  lemma InteractionModeSet(s: EditorState, m: InteractionMode)
    ensures Reducer(s, SetInteractionMode(m)).interactionMode == m
    ensures Reducer(s, SetInteractionMode(m)) == s.(interactionMode := m)
  {
  }

  /** Actions of an unknown type leave the state as it was. */
  lemma UnrecognizedIsIdentity(s: EditorState, tag: string)
    ensures Reducer(s, Unrecognized(tag)) == s
  {
  }

  // ------------------------------------------------------ non-overlap invariant

  /** The state after dispatching `actions` in order. */
  function Run(s: EditorState, actions: seq<Action>): (r: EditorState)
    decreases |actions|
  {
    if |actions| == 0 then s else Run(Reducer(s, actions[0]), actions[1..])
  }

  lemma ReducerPreservesNoOverlap(s: EditorState, a: Action)
    requires NoOverlap(s.blocks)
    ensures NoOverlap(Reducer(s, a).blocks)
  {
    match a
    case AddBlock(start, end, stamp) =>
      if !WouldCauseOverlap(start, end, s.blocks) {
        AppendPreservesNoOverlap(s.blocks, NewBlock(s, start, end, stamp));
      }
    case ClearBlocks =>
      assert Flatten([]) == [];
    case _ =>
  }

  lemma {:induction false} RunPreservesNoOverlap(s: EditorState, actions: seq<Action>)
    requires NoOverlap(s.blocks)
    ensures NoOverlap(Run(s, actions).blocks)
    decreases |actions|
  {
    if |actions| > 0 {
      ReducerPreservesNoOverlap(s, actions[0]);
      RunPreservesNoOverlap(Reducer(s, actions[0]), actions[1..]);
    }
  }

  /**
   * From the initial (empty) world, whatever actions are dispatched, no cell
   * belongs to two blocks and no block lists a cell twice.
   */
  lemma ReachableNoOverlap(actions: seq<Action>, i: int, j: int)
    requires var bs := Run(INITIAL_STATE, actions).blocks; 0 <= i < |bs| && 0 <= j < |bs|
    ensures var bs := Run(INITIAL_STATE, actions).blocks;
      && Distinct(bs[i].positions)
      && (i != j ==> forall p :: p in bs[i].positions ==> p !in bs[j].positions)
  {
    assert Flatten(INITIAL_STATE.blocks) == [];
    RunPreservesNoOverlap(INITIAL_STATE, actions);
    NoOverlapPairwise(Run(INITIAL_STATE, actions).blocks, i, j);
  }
}
