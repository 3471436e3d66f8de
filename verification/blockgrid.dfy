/**
 * The pointer layer of the editor: snapping a world-space hit point to the
 * lattice, keeping it on or above the ground plane, and routing clicks by
 * the current interaction mode. Escape cancels.
 */
module BlockGrid {
  import opened Optional
  import opened Grid
  import opened World
  import opened Editor

  /** A finite world-space point where the pointer ray meets the interaction plane. */
  datatype WorldPoint = WorldPoint(x: real, y: real, z: real)

  /** The first intersection of a pointer event, or none when the ray misses. */
  type Hit = Option<WorldPoint>

  /** JavaScript's `Math.round`: the nearest integer, halves rounding toward +infinity. */
  function Round(r: real): (n: int)
    ensures n as real - 0.5 <= r < n as real + 0.5
  {
    (r + 0.5).Floor
  }

  /** The nearest-integer window identifies the rounded value uniquely. */
  lemma RoundIsNearest(r: real, m: int)
    requires m as real - 0.5 <= r < m as real + 0.5
    ensures Round(r) == m
  {
  }

  /** Halves go up, also for negative values: 2.5 to 3, -2.5 to -2. */
  lemma RoundHalvesUp(k: int)
    ensures Round(k as real + 0.5) == k + 1
  {
    RoundIsNearest(k as real + 0.5, k + 1);
  }

  /** Snap each coordinate independently to its nearest integer. */
  function WorldToGrid(w: WorldPoint): (p: Pos)
    ensures p.x as real - 0.5 <= w.x < p.x as real + 0.5
    ensures p.y as real - 0.5 <= w.y < p.y as real + 0.5
    ensures p.z as real - 0.5 <= w.z < p.z as real + 0.5
  {
    Pos(Round(w.x), Round(w.y), Round(w.z))
  }

  /** Nothing is placed below the ground plane: a negative y becomes 0. */
  function ClampToGround(p: Pos): (r: Pos)
    ensures r.x == p.x && r.z == p.z
    ensures r.y >= 0
    ensures p.y >= 0 ==> r == p
    ensures p.y < 0 ==> r.y == 0
  {
    if p.y < 0 then p.(y := 0) else p
  }

  /** The cell a pointer event designates. */
  function GridPoint(w: WorldPoint): (p: Pos) {
    ClampToGround(WorldToGrid(w))
  }

  /** Clamping twice is clamping once, and the clamp keeps the snapped x and z. */
  lemma GridPointStable(w: WorldPoint)
    ensures ClampToGround(GridPoint(w)) == GridPoint(w)
    ensures GridPoint(w).x == Round(w.x) && GridPoint(w).z == Round(w.z)
    ensures GridPoint(w).y == if Round(w.y) < 0 then 0 else Round(w.y)
  {
  }

  /** Pointer motion always sets the preview: the cell under the pointer, or none. */
  function HandlePointerMove(tool: ToolMode, hit: Hit): (a: Action)
    ensures a.SetPreviewPosition?
    ensures a.preview.None? <==> !IsBlockTool(tool) || hit.None?
    ensures a.preview.Some? ==> a.preview.value == GridPoint(hit.value) && a.preview.value.y >= 0
  {
    if !IsBlockTool(tool) then SetPreviewPosition(None)
    else if hit.None? then SetPreviewPosition(None)
    else SetPreviewPosition(Some(GridPoint(hit.value)))
  }

  /**
   * A click: ignored off the block tool or off the plane; otherwise a first
   * click when idle, a second click when placing, and nothing in any other mode.
   */
  function HandlePointerDown(s: EditorState, hit: Hit, stamp: Stamp): (a: Option<Action>)
    ensures a.Some? <==> IsBlockTool(s.toolMode) && hit.Some? && s.interactionMode != PlacingFirst
    ensures a.Some? && s.interactionMode == NoInteraction ==>
      a.value == SetFirstClick(Some(GridPoint(hit.value)))
    ensures a.Some? && s.interactionMode == PlacingSecond ==>
      a.value == HandleSecondClick(s, GridPoint(hit.value), stamp)
  {
    if !IsBlockTool(s.toolMode) then None
    else if hit.None? then None
    else
      var cell := GridPoint(hit.value);
      match s.interactionMode
      case NoInteraction => Some(SetFirstClick(Some(cell)))
      case PlacingSecond => Some(HandleSecondClick(s, cell, stamp))
      case PlacingFirst => None
  }

  /**
   * After a pointer move the preview is the cell under the pointer, or none
   * off the block tool or off the plane; nothing else in the state changes.
   */
  lemma PointerMoveTracksCursor(s: EditorState, hit: Hit)
    ensures var r := Reducer(s, HandlePointerMove(s.toolMode, hit));
      && (r.previewPosition.None? <==> !IsBlockTool(s.toolMode) || hit.None?)
      && (r.previewPosition.Some? ==> r.previewPosition.value == GridPoint(hit.value))
      && r == s.(previewPosition := r.previewPosition)
  {
  }

  /** Escape cancels; other keys are ignored. */
  function HandleKeyDown(key: string): (a: Option<Action>)
    ensures a.Some? <==> key == "Escape"
    ensures a.Some? ==> a.value == ClearInteraction
  {
    if key == "Escape" then Some(ClearInteraction) else None
  }

  /**
   * Every cell a pointer event hands to the reducer lies on or above the
   * ground plane; the start of a second click is the stored anchor.
   */
  lemma PointerCellsAboveGround(s: EditorState, hit: Hit, stamp: Stamp)
    requires s.firstClickPosition.Some? ==> s.firstClickPosition.value.y >= 0
    ensures var a := HandlePointerMove(s.toolMode, hit);
      a.preview.Some? ==> a.preview.value.y >= 0
    ensures var a := HandlePointerDown(s, hit, stamp);
      && (a.Some? && a.value.SetFirstClick? ==> a.value.anchor.Some? && a.value.anchor.value.y >= 0)
      && (a.Some? && a.value.AddBlock? ==> a.value.start.y >= 0 && a.value.end.y >= 0)
  {
  }

  /** Pressing Escape abandons any placement in progress and keeps every block. */
  lemma EscapeCancels(s: EditorState)
    ensures HandleKeyDown("Escape").Some?
    ensures var r := Reducer(s, HandleKeyDown("Escape").value);
      InteractionCleared(r) && r.blocks == s.blocks && SameContext(r, s)
  {
  }
}
