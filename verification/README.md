# Block editor world-state engine, modelled in Dafny

This project models the core of a browser-based 3D block editor. In the editor, a user places axis-aligned,
multi-cell objects ("blocks") on an integer lattice by clicking two corners. The model covers:

- **Grid** (`grid.dfy`): lattice cells and the closed box of cells between two corners
  (`generateBlockPositions`). The box is given as a recursive definition and also as the nested loop the
  source runs, and the two are proved equal.
- **World** (`world.dfy`): the object-type catalog and placed blocks. It also holds the two linear scans
  that answer "is this cell taken?" (`vectorsEqual`, `isPositionOccupied`, `wouldCauseOverlap`) and the
  non-overlap invariant.
- **Editor** (`editor.dfy`): the editor state and the reducer, a pure `(state, action) -> state` function
  covering all thirteen action types plus the default case. It also has the second-click start-point
  choice, the preview cells, and lemmas for every reducer case. The main lemma: every state reachable
  from the initial one has no cell claimed twice.
- **BlockGrid** (`blockgrid.dfy`): snapping a pointer hit to the grid with `Math.round`, clamping `y` to
  at least 0, routing clicks by interaction mode, and Escape.
- **ViewPanel** (`viewpanel.dfy`): the guard on view requests and the active/disabled flags of the three
  view buttons. Together with the reducer's camera cases, this is the two-state camera machine.
- **CursorPreview** (`cursorpreview.dfy`): the overlap flag, colour, opacity and the empty-preview rule.
- **Session** (`session.dfy`): the events the user interface can produce, the action each one
  dispatches, and the invariants kept by every reachable session. These are: no overlap, nothing below
  ground, the placing-first mode is never entered, and the camera has a destination exactly while it
  animates. The event set is a superset of what the mounted application emits: it also contains the
  events of components that exist in the source but that `App.jsx`, `Scene.jsx` and `UI.jsx` never mount
  (the view panel, the camera animator and tracker, the object-type panel). The invariants are proved
  over this larger set, so they hold for the mounted application too.

In a few places the code departs from what its own comments or the product's documented intent say.
The model follows the code:

- **`unique` is ignored.** The catalog comment (`src/context/EditorContext.jsx:39`) says a `unique`
  object is placed with a single click, and the comment at `src/context/EditorContext.jsx:341` repeats
  it. The code at `src/context/EditorContext.jsx:342` never reads the flag: a second click always places
  the box between the anchor (or the click itself, when there is no anchor) and the click. Trees
  (`unique: true`, `src/context/EditorContext.jsx:57`) therefore do not collapse to a single cell.
- **Occupancy is a linear scan.** Every occupancy query scans every block's cells; no index of
  occupied cells is kept.
- **`PLACING_FIRST` is never entered.** The only writer is `SET_INTERACTION_MODE`, and no user-interface
  event dispatches that action. `Session.SessionInvariant` proves the mode never appears.
- **There is no move tool.** The tool-mode table defines only `block`, so the "move" button passes
  `undefined`. The model's `ToolMode` is `Option<string>`, with `None` for `undefined`. Every tool other
  than `Some("block")` behaves as "not the block tool".

Nondeterministic inputs are parameters:

- **Block stamp.** A block's creation time and random id suffix come from `Date.now()` and
  `Math.random()`. They arrive as an opaque `Stamp` inside the `AddBlock` action.
- **Pointer hit.** The pointer's hit point is a parameter of type `Hit`: an optional point with exact
  real coordinates.

## Model

| member | source | states |
|---|---|---|
| Grid.GenerateBlockPositions | src/context/EditorContext.jsx:162-179 | a cell is in the result iff it lies between the corners' min and max on x, y and z; no cell repeats; length is (\|dx\|+1)(\|dy\|+1)(\|dz\|+1); both corners are included |
| Grid.CollectBlockPositions | src/context/EditorContext.jsx:162-179 | the triple nested push loop (x outermost, z innermost) produces exactly the box sequence |
| Grid.GenerateBlockPositionsSymmetric | src/context/EditorContext.jsx:164-169 | swapping the two corners gives the same box, in the same order |
| World.VectorsEqual | src/context/EditorContext.jsx:151-154 | true iff both vectors are present and equal component-wise; a null vector equals nothing |
| World.BlockCovers | src/context/EditorContext.jsx:158 | the inner scan is true iff the cell is one of the block's cells |
| World.IsPositionOccupied | src/context/EditorContext.jsx:156-160 | the outer scan is true iff some placed block covers the cell |
| World.AnyOccupied | src/context/EditorContext.jsx:183 | true iff some cell of the list is covered by a placed block |
| World.WouldCauseOverlap | src/context/EditorContext.jsx:181-184 | true iff some cell of the box between the corners is already covered |
| World.NoOverlapPairwise | src/context/EditorContext.jsx:156-160 | under the world invariant, no cell is in two blocks and no block lists a cell twice |
| World.AppendPreservesNoOverlap | src/context/EditorContext.jsx:206-222 | appending a duplicate-free block whose cells are all free keeps the world invariant |
| Editor.Reducer | src/context/EditorContext.jsx:187-322 | the block list is unchanged, emptied (by CLEAR_BLOCKS only) or grown by one block at its end (by ADD_BLOCK only) |
| Editor.HandleSecondClick | src/context/EditorContext.jsx:340-351 | the second click dispatches ADD_BLOCK ending at the click, starting at the anchor, or at the click when there is no anchor |
| Editor.GetPreviewPositions | src/context/EditorContext.jsx:395-402 | while a second click is pending with anchor and cursor set: exactly the box between them; otherwise at most one cell; the cursor cell is always included; empty without a cursor |
| Editor.AddBlockRefused | src/context/EditorContext.jsx:202-208 | ADD_BLOCK returns the identical state iff some cell of its box is already occupied (blocks, anchor and mode all kept) |
| Editor.AddBlockAppends | src/context/EditorContext.jsx:210-226 | a free box appends exactly one block covering exactly the box, of the selected type, with the given corners and stamp; earlier blocks are untouched; anchor, preview and mode become null, null, NONE; nothing else changes |
| Editor.ClearBlocksEmpties | src/context/EditorContext.jsx:229-236 | CLEAR_BLOCKS empties the world and resets the interaction fields; tool, type, fog, camera and debug state are kept |
| Editor.InteractionResets | src/context/EditorContext.jsx:244-270 | CLEAR_INTERACTION, SET_TOOL_MODE and SET_OBJECT_TYPE reset the interaction fields, keep blocks, fog, camera and debug state, and set only their own field |
| Editor.CancelIdempotent | src/context/EditorContext.jsx:244-250 | cancelling twice equals cancelling once; cancelling an idle state changes nothing |
| Editor.FirstClickAnchors | src/context/EditorContext.jsx:195-200 | SET_FIRST_CLICK records the anchor, sets PLACING_SECOND and changes nothing else |
| Editor.TwoClickPlacement | src/context/EditorContext.jsx:195-226 | anchor then second click places the box between the clicks when it is free; otherwise the state stays as after the first click, still PLACING_SECOND with the same anchor |
| Editor.SingleCellBox | src/context/EditorContext.jsx:162-179 | the box from a cell to itself is that one cell |
| Editor.SecondClickWithoutAnchor | src/context/EditorContext.jsx:340-350 | with no anchor, a second click on a free cell places a one-cell block at the click |
| Editor.SettingsMerge | src/context/EditorContext.jsx:272-288 | fog and camera-data updates merge the patch over the old record (the patch wins, other keys kept) and change nothing else |
| Editor.ToggleDebugTwice | src/context/EditorContext.jsx:290-297 | the toggle flips showCameraInfo; toggling twice restores the state |
| Editor.AnimateToViewStarts | src/context/EditorContext.jsx:299-307 | ANIMATE_TO_VIEW keeps the current view, sets isAnimating and records the target; nothing else changes |
| Editor.SetCurrentViewSettles | src/context/EditorContext.jsx:309-317 | SET_CURRENT_VIEW sets the current view, clears isAnimating and the target; nothing else changes |
| Editor.PreviewPositionSet | src/context/EditorContext.jsx:189-193 | the preview becomes the payload, null included, and nothing else changes |
| Editor.InteractionModeSet | src/context/EditorContext.jsx:238-242 | the mode becomes the payload and nothing else changes; in particular the anchor is kept |
| Editor.UnrecognizedIsIdentity | src/context/EditorContext.jsx:319-320 | an unknown action returns the state unchanged |
| Editor.ReducerPreservesNoOverlap | src/context/EditorContext.jsx:202-236 | every action keeps the world invariant |
| Editor.RunPreservesNoOverlap | src/context/EditorContext.jsx:187-322 | any sequence of actions keeps the world invariant |
| Editor.ReachableNoOverlap | src/context/EditorContext.jsx:118-236 | from the initial empty world, after any actions, no cell belongs to two blocks or appears twice in one |
| BlockGrid.Round | src/components/BlockGrid.jsx:140-142 | the result is the integer within half a unit of the input: below by at most 0.5, above by strictly less than 0.5 |
| BlockGrid.RoundIsNearest | src/components/BlockGrid.jsx:140-142 | that half-open window determines the rounded value uniquely |
| BlockGrid.RoundHalvesUp | src/components/BlockGrid.jsx:140-142 | halves round toward +infinity, negative ones included |
| BlockGrid.WorldToGrid | src/components/BlockGrid.jsx:137-145 | each coordinate is snapped on its own to its nearest integer |
| BlockGrid.ClampToGround | src/components/BlockGrid.jsx:166-169 | a negative y becomes 0; x and z are kept; a non-negative y is kept |
| BlockGrid.GridPointStable | src/components/BlockGrid.jsx:164-169 | the designated cell is the rounded point with y floored at 0, and clamping it again changes nothing |
| BlockGrid.HandlePointerMove | src/components/BlockGrid.jsx:148-172 | the preview becomes null with a non-block tool or no intersection; otherwise it is the snapped, clamped cell, with y >= 0 |
| BlockGrid.HandlePointerDown | src/components/BlockGrid.jsx:175-205 | nothing is dispatched with a non-block tool, no intersection or mode PLACING_FIRST; mode NONE gives a first click and PLACING_SECOND a second click, at the snapped, clamped cell |
| BlockGrid.PointerMoveTracksCursor | src/components/BlockGrid.jsx:148-172 | after a pointer move the preview is null iff the tool is not the block tool or nothing was hit; otherwise it is the snapped, clamped cell; nothing else changes |
| BlockGrid.HandleKeyDown | src/components/BlockGrid.jsx:209-213 | Escape dispatches clearInteraction; any other key dispatches nothing |
| BlockGrid.PointerCellsAboveGround | src/components/BlockGrid.jsx:148-205 | every cell a pointer event dispatches has y >= 0, provided a stored anchor does |
| BlockGrid.EscapeCancels | src/components/BlockGrid.jsx:209-212 | Escape always ends any placement in progress and keeps every block and setting |
| ViewPanel.HandleViewChange | src/components/ViewPanel.jsx:58-63 | animateToView is dispatched iff no animation runs and the requested view differs from the current one |
| ViewPanel.ViewButtons | src/components/ViewPanel.jsx:137-165 | three buttons (left, center, right); each is disabled iff the camera is animating and active iff its view is the current one |
| ViewPanel.OneActiveButton | src/components/ViewPanel.jsx:137-165 | exactly one button is active when the current view has a button, and none otherwise |
| ViewPanel.ClickButton | src/components/ViewPanel.jsx:8-44 | a disabled button dispatches nothing; an enabled one only requests a view other than the current one |
| ViewPanel.ClickButtonIsGuard | src/components/ViewPanel.jsx:8-11 | pressing each of the three buttons dispatches exactly what the view-change guard dispatches for its view |
| ViewPanel.ViewRequestCycle | src/components/ViewPanel.jsx:58-63 | from rest, a request for another view starts an animation; during it every request is ignored; settling leaves the camera at rest on that view with nothing else changed |
| ViewPanel.IgnoredRequests | src/components/ViewPanel.jsx:60 | requesting the current view, or any view while animating, dispatches nothing |
| CursorPreview.HasOverlap | src/components/CursorPreview.jsx:20-22 | true iff some previewed cell is covered by a placed block |
| CursorPreview.PreviewColor | src/components/CursorPreview.jsx:25-29 | red iff there is overlap; green iff no overlap and PLACING_SECOND; orange otherwise |
| CursorPreview.PreviewOpacity | src/components/CursorPreview.jsx:31-34 | 0.3 iff there is overlap, else 0.6 |
| CursorPreview.Render | src/components/CursorPreview.jsx:36-88 | nothing is drawn iff there is no cursor cell; otherwise the preview cells with the chosen colour and opacity, plus the anchor marker |
| CursorPreview.PreviewPredictsPlacement | src/components/CursorPreview.jsx:15-29 | while a second click is pending, the preview is red exactly when a click at the cursor would be refused; otherwise it is green and shows exactly the cells that click would place |
| CursorPreview.OpacityPredictsPlacement | src/components/CursorPreview.jsx:31-34 | while a second click is pending, the preview is dimmed to 0.3 exactly when a click at the cursor would be refused |
| CursorPreview.SingleCellOverlap | src/components/CursorPreview.jsx:20-22 | with a single previewed cell, the overlap flag is that cell's occupancy |
| Session.FinishAnimation | src/components/CameraAnimator.jsx:73-82 | the end of an animation dispatches SET_CURRENT_VIEW with the target, iff the target is a catalog view |
| Session.Dispatch | src/context/EditorContext.jsx:332-388 | user-interface events never dispatch SET_INTERACTION_MODE or an unknown action; clear-all dispatches only when confirmed with blocks present |
| Session.StepPreservesConsistent | src/context/EditorContext.jsx:187-322 | each event keeps the session invariant |
| Session.SessionInvariant | src/context/EditorContext.jsx:118-148 | from the initial state, after any events: no overlap, every placed cell has y >= 0, PLACING_FIRST never appears, and an anchor exists exactly in PLACING_SECOND |

## Left out

- Camera interpolation and easing (`src/components/CameraAnimator.jsx`): floating-point linear
  interpolation of Three.js vectors, driven by the clock and the frame loop. Only the reducer-level view
  machine and the completion dispatch are modelled.
- Session.FinishAnimation: looks the target up by exact name. The source upper-cases the name first, so
  it also accepts names that differ only in case. Only the lower-case catalog names are ever requested.
- Block id string and `createdAt`: both are built from the clock and a random source. They are the opaque
  `Stamp` parameter, not computed.
- BlockGrid.Round: computes over exact reals, not IEEE doubles. Non-finite hit points are not modelled;
  the source does not check for them either.
- Fog settings and camera data: the values are carried as exact reals and strings and never computed on.
  Their display and their use by the renderer are not modelled.
- Rendering components (ground, grass, skybox, scene, per-object meshes, the object renderer registry)
  and the panels' layout and localisation: presentation only.
- The browser confirmation before clear-all is the `confirmed` flag of `Session.ClearAll`.
- `isPositionOccupied` with a null position: the source never passes one. The model takes a cell.
- The `name` and `description` fields of object types: display text that translations override.
- Object-type `unique` flag: kept in the catalog and, as in the code, never consulted.
- `UPDATE_FOG_SETTINGS`, `TOGGLE_DEBUG_UI` and `SET_INTERACTION_MODE`: modelled in the reducer, but no
  user-interface component in the source dispatches them, so they are not session events.
- The "Cancel (ESC)" button of the main panel (`src/components/UI.jsx:228-235`) has no event of its own:
  it dispatches the same `CLEAR_INTERACTION` as the Escape key, which is `Session.KeyDown("Escape")`.
- Which components are mounted: the session also accepts view-button, animation, camera-tracking and
  object-type events, although the mounted application renders none of the components that emit them.
  This only enlarges the set of sessions the invariants cover.
- React plumbing (`useReducer`, `useCallback`, `useMemo`): the model reads the current state directly.
  A callback captured with an older state is not modelled.
