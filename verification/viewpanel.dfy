/**
 * The view panel: three buttons that request a named camera view, and the
 * guard that keeps requests from interrupting a running animation.
 */
module ViewPanel {
  import opened Optional
  import opened Editor

  /** A view is requested only when the camera rests and the view is a different one. */
  function HandleViewChange(cv: CameraView, view: string): (a: Option<Action>)
    ensures a.Some? <==> !cv.isAnimating && cv.current != view
    ensures a.Some? ==> a.value == AnimateToView(view)
  {
    if !cv.isAnimating && cv.current != view then Some(AnimateToView(view)) else None
  }

  datatype ViewButton = ViewButton(view: string, isActive: bool, isDisabled: bool)

  const BUTTON_VIEWS: seq<string> := ["left", "center", "right"]

  /** The three buttons, top to bottom. */
  function ViewButtons(cv: CameraView): (r: seq<ViewButton>)
    ensures |r| == |BUTTON_VIEWS|
    ensures forall i :: 0 <= i < |r| ==> r[i].view == BUTTON_VIEWS[i]
    ensures forall i :: 0 <= i < |r| ==> (r[i].isDisabled <==> cv.isAnimating)
    ensures forall i :: 0 <= i < |r| ==> (r[i].isActive <==> r[i].view == cv.current)
  {
    seq(|BUTTON_VIEWS|, i requires 0 <= i < |BUTTON_VIEWS| =>
      ViewButton(BUTTON_VIEWS[i], BUTTON_VIEWS[i] == cv.current, cv.isAnimating))
  }

  /** The button of the current view is the only active one; none is, for a view without a button. */
  lemma OneActiveButton(cv: CameraView)
    ensures var r := ViewButtons(cv);
      cv.current in BUTTON_VIEWS ==>
        exists i :: 0 <= i < |r| && r[i].isActive && forall j :: 0 <= j < |r| && j != i ==> !r[j].isActive
    ensures var r := ViewButtons(cv);
      cv.current !in BUTTON_VIEWS ==> forall i :: 0 <= i < |r| ==> !r[i].isActive
  {
    var r := ViewButtons(cv);
    if cv.current in BUTTON_VIEWS {
      var i :| 0 <= i < |BUTTON_VIEWS| && BUTTON_VIEWS[i] == cv.current;
      assert r[i].isActive;
      forall j | 0 <= j < |r| && j != i
        ensures !r[j].isActive
      {
        // the three names have different lengths, so no two are equal
        assert |BUTTON_VIEWS[j]| != |BUTTON_VIEWS[i]|;
      }
    }
  }

  /** A disabled button delivers no click; an enabled one goes through the guard. */
  function ClickButton(cv: CameraView, b: ViewButton): (a: Option<Action>)
    ensures b.isDisabled ==> a.None?
    ensures a.Some? ==> a.value == AnimateToView(b.view) && b.view != cv.current
  {
    if b.isDisabled then None else HandleViewChange(cv, b.view)
  }

  /**
   * Pressing any of the three buttons dispatches exactly what the guard
   * dispatches for that button's view: the disabled flag never refuses a
   * request the guard would have let through.
   */
  lemma ClickButtonIsGuard(cv: CameraView, i: int)
    requires 0 <= i < |BUTTON_VIEWS|
    ensures ClickButton(cv, ViewButtons(cv)[i]) == HandleViewChange(cv, BUTTON_VIEWS[i])
  {
  }

  /**
   * The two-state camera machine: from rest, a request for another view
   * starts an animation; while it runs every request is ignored; settling
   * on the destination leaves the camera at rest on the requested view with
   * nothing else changed.
   */
  lemma ViewRequestCycle(s: EditorState, v: string, w: string)
    requires !s.cameraView.isAnimating && s.cameraView.current != v
    ensures var a := HandleViewChange(s.cameraView, v);
      a.Some? &&
      var s1 := Reducer(s, a.value);
      && s1.cameraView == CameraView(s.cameraView.current, true, Some(v))
      && HandleViewChange(s1.cameraView, w).None?
      && Reducer(s1, SetCurrentView(s1.cameraView.targetView.value)) ==
           s.(cameraView := CameraView(v, false, None))
  {
  }

  /** Requesting the view already shown changes nothing, and neither does any request while animating. */
  lemma IgnoredRequests(s: EditorState, v: string)
    requires s.cameraView.isAnimating || s.cameraView.current == v
    ensures HandleViewChange(s.cameraView, v).None?
  {
  }
}
