/** The window frame: a pure projection from a stored window to what the
    screen shows, and the handlers its pointer events call. */
module WindowFrame {
  import opened Types

  /** Height kept free for the floating Dock when a window is maximised. */
  const DockReserve := 96
  /** Corner radius of a window that is not maximised. */
  const CornerRadius := 8

  /** The browser viewport, in pixels. */
  datatype Viewport = Viewport(width: int, height: int)

  /** What is displayed for one window: nothing, or a panel. */
  datatype Frame =
    | Hidden
    | Shown(x: int, y: int, width: int, height: int, zIndex: int,
            cornerRadius: int, draggable: bool, highlighted: bool)

  function Display(w: WindowState, isActive: bool, vp: Viewport): (f: Frame)
    ensures f.Hidden? <==> w.isMinimized
    ensures f.Shown? ==> f.zIndex == w.zIndex && f.highlighted == isActive
    ensures f.Shown? ==> (f.draggable <==> !w.isMaximized)
    ensures f.Shown? && w.isMaximized ==>
      f.x == 0 && f.y == 0 && f.width == vp.width && f.height == vp.height - DockReserve
      && f.cornerRadius == 0
    ensures f.Shown? && !w.isMaximized ==>
      f.x == w.x && f.y == w.y && f.width == w.width && f.height == w.height
      && f.cornerRadius == CornerRadius
  {
    if w.isMinimized then Hidden
    else if w.isMaximized then
      Shown(0, 0, vp.width, vp.height - DockReserve, w.zIndex, 0, false, isActive)
    else
      Shown(w.x, w.y, w.width, w.height, w.zIndex, CornerRadius, true, isActive)
  }

  /** A minimised window shows nothing whatever its other fields hold. */
  lemma MinimizedShowsNothing(w: WindowState, isActive: bool, vp: Viewport)
    requires w.isMinimized
    ensures forall x, y, width, height, z, maximized ::
      Display(w.(x := x, y := y, width := width, height := height, zIndex := z, isMaximized := maximized),
              isActive, vp) == Hidden
  {
  }

  /** While maximised the stored geometry is superseded: two windows that
      differ only in geometry look the same. */
  lemma MaximizedIgnoresStoredGeometry(w: WindowState, x: int, y: int, width: int, height: int,
                                       isActive: bool, vp: Viewport)
    requires w.isMaximized
    ensures Display(w, isActive, vp) == Display(w.(x := x, y := y, width := width, height := height), isActive, vp)
  {
  }

  // ---------------------------------------------------------------------
  // Pointer events and the handlers they reach
  // ---------------------------------------------------------------------

  /** Where on the frame the pointer is: the content, the title bar, or one
      of the three buttons inside the title bar. */
  datatype Target = Body | TitleBar | MinimizeButton | MaximizeButton | CloseButton

  /** A call the frame makes back into the window manager. */
  datatype Intent =
    | Focus(id: WindowId)
    | Minimize(id: WindowId)
    | Maximize(id: WindowId)
    | Close(id: WindowId)

  /** Pointer-down bubbles from the innermost element outwards: anywhere in
      the title bar (buttons included) its handler focuses the window, and
      then the frame's own handler focuses it again. A minimised window
      renders no element and receives no events. */
  function OnPointerDown(w: WindowState, t: Target): (r: seq<Intent>)
    ensures w.isMinimized ==> r == []
    ensures !w.isMinimized ==> |r| == (if t == Body then 1 else 2)
    ensures forall i | 0 <= i < |r| :: r[i] == Focus(w.id)
  {
    if w.isMinimized then []
    else if t == Body then [Focus(w.id)]
    else [Focus(w.id), Focus(w.id)]
  }

  /** Clicks: each button calls its handler with this window's id and stops
      propagation; the content and the title bar have no click handler. */
  function OnClick(w: WindowState, t: Target): (r: seq<Intent>)
    ensures |r| <= 1
    ensures forall i | 0 <= i < |r| :: r[i].id == w.id && !r[i].Focus?
    ensures !w.isMinimized && t == MinimizeButton ==> r == [Minimize(w.id)]
    ensures !w.isMinimized && t == MaximizeButton ==> r == [Maximize(w.id)]
    ensures !w.isMinimized && t == CloseButton ==> r == [Close(w.id)]
    ensures t == Body || t == TitleBar ==> r == []
  {
    if w.isMinimized then []
    else match t
      case MinimizeButton => [Minimize(w.id)]
      case MaximizeButton => [Maximize(w.id)]
      case CloseButton => [Close(w.id)]
      case _ => []
  }
}
