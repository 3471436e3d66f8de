/**
 * The cursor preview: which cells are highlighted, whether they collide with
 * placed blocks, and the colour and opacity that signal it.
 */
module CursorPreview {
  import opened Optional
  import opened Grid
  import opened World
  import opened Editor

  const RED := "#ff4444"
  const GREEN := "#44ff44"
  const ORANGE := "#ffaa44"

  /** Some highlighted cell is already covered by a placed block. */
  function HasOverlap(s: EditorState): (r: bool)
    ensures r <==> exists p :: p in GetPreviewPositions(s) && Occupies(s.blocks, p)
  {
    AnyOccupied(GetPreviewPositions(s), s.blocks)
  }

  /** Red on a collision, which wins; else green while a second click is pending; else orange. */
  function PreviewColor(hasOverlap: bool, mode: InteractionMode): (c: string)
    ensures c == RED <==> hasOverlap
    ensures c == GREEN <==> !hasOverlap && mode == PlacingSecond
    ensures c == ORANGE <==> !hasOverlap && mode != PlacingSecond
  {
    if hasOverlap then RED
    else if mode == PlacingSecond then GREEN
    else ORANGE
  }

  /** A colliding preview is drawn fainter. */
  function PreviewOpacity(hasOverlap: bool): (o: real)
    ensures o == 0.3 <==> hasOverlap
    ensures o == 0.3 || o == 0.6
  {
    if hasOverlap then 0.3 else 0.6
  }

  /** What the preview draws: the cells, their colour and opacity, and the anchor marker. */
  datatype PreviewRender = PreviewRender(cells: seq<Pos>, color: string, opacity: real, anchorMarker: Option<Pos>)

  /** Nothing is drawn when there are no cells to highlight, that is, when the cursor is off the plane. */
  function Render(s: EditorState): (r: Option<PreviewRender>)
    ensures r.None? <==> |GetPreviewPositions(s)| == 0
    ensures r.None? <==> s.previewPosition.None?
    ensures r.Some? ==>
      && r.value.cells == GetPreviewPositions(s)
      && r.value.color == PreviewColor(HasOverlap(s), s.interactionMode)
      && r.value.opacity == PreviewOpacity(HasOverlap(s))
      && r.value.anchorMarker == s.firstClickPosition
  {
    var cells := GetPreviewPositions(s);
    if |cells| == 0 then None
    else
      var overlap := HasOverlap(s);
      Some(PreviewRender(cells, PreviewColor(overlap, s.interactionMode), PreviewOpacity(overlap), s.firstClickPosition))
  }

  /**
   * While a second click is pending, the preview is red exactly when a click
   * at the cursor would be refused; otherwise it is green and shows exactly
   * the cells that click would place.
   */
  lemma PreviewPredictsPlacement(s: EditorState, stamp: Stamp)
    requires PreviewBoxActive(s)
    ensures var r := Reducer(s, HandleSecondClick(s, s.previewPosition.value, stamp));
      && (PreviewColor(HasOverlap(s), s.interactionMode) == RED <==> r == s)
      && (r != s ==>
            && PreviewColor(HasOverlap(s), s.interactionMode) == GREEN
            && r.blocks[|s.blocks|].positions == GetPreviewPositions(s))
  {
    AddBlockRefused(s, s.firstClickPosition.value, s.previewPosition.value, stamp);
  }

  /**
   * While a second click is pending, the dimmed opacity shows exactly when
   * a click at the cursor would be refused.
   */
  lemma OpacityPredictsPlacement(s: EditorState, stamp: Stamp)
    requires PreviewBoxActive(s)
    ensures PreviewOpacity(HasOverlap(s)) == 0.3 <==>
      Reducer(s, HandleSecondClick(s, s.previewPosition.value, stamp)) == s
  {
    PreviewPredictsPlacement(s, stamp);
  }

  /** With a single highlighted cell, the overlap flag is that cell's occupancy. */
  lemma SingleCellOverlap(s: EditorState)
    requires !PreviewBoxActive(s) && s.previewPosition.Some?
    ensures HasOverlap(s) <==> Occupies(s.blocks, s.previewPosition.value)
  {
    assert GetPreviewPositions(s) == [s.previewPosition.value];
  }
}
