/**
  The inventory panel controller: the panel's fields and the methods that update
  them, each proved against the value-level specifications of PanelLifecycle,
  BorderTiling and ItemHover.
 */
module D2Player {
  import opened Wrappers
  import PanelLifecycle
  import opened BorderTiling
  import opened ItemHover

  /** What one call of Render produced: nothing when the panel is closed; otherwise
      the border corners drawn, the border error that was logged, and the tooltip
      rendered after the grid. */
  datatype RenderPass =
    | NotRendered
    | Rendered(corners: seq<Placement>, loggedError: Option<string>, tooltip: Option<Tooltip>)

  class Inventory {
    var originX: int
    var originY: int
    var isOpen: bool
    /** The close button exists once it is loaded; before that Open and Close cannot run. */
    var closeButtonLoaded: bool
    var closeButtonVisible: bool
    /** A close callback is registered; Close cannot run without one. */
    var onCloseCbSet: bool
    /** How many times the close callback has fired. */
    var closeCbCalls: nat
    var hoverX: int
    var hoverY: int
    var lastMouseX: int
    var lastMouseY: int
    var hovering: bool

    function Panel(): PanelLifecycle.Panel
      reads this
    {
      PanelLifecycle.Panel(isOpen, closeButtonVisible, closeCbCalls)
    }

    function Hover(): HoverState
      reads this
    {
      HoverState(hovering, hoverX, hoverY)
    }

    /** A new panel: closed, not hovering, its left edge at `panelLeft` and its top at 0. */
    constructor (panelLeft: int)
      ensures originX == panelLeft && originY == 0
      ensures !isOpen && !hovering && hoverX == 0 && hoverY == 0
      ensures lastMouseX == 0 && lastMouseY == 0
      ensures !closeButtonLoaded && !closeButtonVisible && !onCloseCbSet && closeCbCalls == 0
    {
      originX, originY := panelLeft, 0;
      isOpen, hovering := false, false;
      hoverX, hoverY, lastMouseX, lastMouseY := 0, 0, 0, 0;
      closeButtonLoaded, closeButtonVisible := false, false;
      onCloseCbSet, closeCbCalls := false, 0;
    }

    /** Creates the close button, hidden. */
    method LoadCloseButton()
      modifies this`closeButtonLoaded, this`closeButtonVisible
      ensures closeButtonLoaded && !closeButtonVisible
    {
      closeButtonLoaded := true;
      closeButtonVisible := false;
    }

    method IsOpen() returns (open: bool)
      ensures open <==> isOpen
    {
      open := isOpen;
    }

    method SetOnCloseCb()
      modifies this`onCloseCbSet
      ensures onCloseCbSet
    {
      onCloseCbSet := true;
    }

    method Open()
      requires closeButtonLoaded
      modifies this`isOpen, this`closeButtonVisible
      ensures Panel() == PanelLifecycle.Open(old(Panel()))
    {
      isOpen := true;
      closeButtonVisible := true;
    }

    method Close()
      requires closeButtonLoaded && onCloseCbSet
      modifies this`isOpen, this`closeButtonVisible, this`closeCbCalls
      ensures Panel() == PanelLifecycle.Close(old(Panel()))
    {
      isOpen := false;
      closeButtonVisible := false;
      closeCbCalls := closeCbCalls + 1;
    }

    method Toggle()
      requires closeButtonLoaded && (isOpen ==> onCloseCbSet)
      modifies this`isOpen, this`closeButtonVisible, this`closeCbCalls
      ensures Panel() == PanelLifecycle.Toggle(old(Panel()))
    {
      if isOpen {
        Close();
      } else {
        Open();
      }
    }

    /** Records the latest pointer position (last write wins). */
    method SetLastMouse(x: int, y: int)
      modifies this`lastMouseX, this`lastMouseY
      ensures lastMouseX == x && lastMouseY == y
    {
      lastMouseX, lastMouseY := x, y;
    }

    /**
      Draws the base frame, then the four corners of the panel sprite from the
      cursor (originX + 1, originY + 64).  `frameErr` is the base frame's render
      outcome and `select` the sprite's answer for each frame id.
     */
    method RenderFrame(frameErr: Option<string>, select: int -> Selection)
      returns (placements: seq<Placement>, err: Option<string>)
      ensures (placements, err) == Compose(originX + 1, originY + TopChromeGap, frameErr, select)
    {
      if frameErr.Some? {
        return [], frameErr;
      }
      ghost var layout := Layout(originX + 1, originY + TopChromeGap, select);
      var x, y := originX + 1, originY;
      y := y + TopChromeGap;
      placements := [];
      for i := 0 to |CornerOrder|
        invariant placements == layout[..i]
        invariant forall j :: 0 <= j < i ==> select(CornerOrder[j]).Selected?
        invariant x == if i == 1 || i == 2 then originX + 1 + Width(select(FrameTopLeft)) else originX + 1
        invariant y == if i >= 2 then originY + TopChromeGap + Height(select(FrameTopRight)) else originY + TopChromeGap
      {
        var frame := CornerOrder[i];
        var selection := select(frame);
        if selection.SelectFailed? {
          return placements, Some(selection.err);
        }
        var w, h := selection.w, selection.h;
        placements := placements + [Placement(frame, x, y + h)];
        if frame == FrameTopLeft {
          x := x + w;
        } else if frame == FrameTopRight {
          y := y + h;
        } else if frame == FrameBottomRight {
          x := originX + 1;
        }
      }
      err := None;
    }

    /** The tooltip for `item`: its description lines, at (hoverX, the item's slot row). */
    method RenderItemDescription(item: GridItem) returns (tip: Tooltip)
      ensures tip == Describe(Hover(), item)
    {
      tip := Tooltip(item.id, item.description, hoverX, item.slotY);
    }

    /** Scans the items in order for the first one under the last pointer position. */
    method RenderItemHover(items: seq<GridItem>) returns (tip: Option<Tooltip>)
      modifies this`hovering, this`hoverX, this`hoverY
      ensures (Hover(), tip) == Pass(old(Hover()), items, lastMouseX, lastMouseY)
    {
      var found := false;
      tip := None;
      var i := 0;
      while i < |items|
        invariant 0 <= i <= |items|
        invariant !found && tip.None?
        invariant Hover() == old(Hover())
        invariant forall j :: 0 <= j < i ==> !Contains(items[j], lastMouseX, lastMouseY)
      {
        var item := items[i];
        var mx, my := lastMouseX, lastMouseY;
        found := found || (mx > item.slotX && mx < item.slotX + item.w && my > item.slotY && my < item.slotY + item.h);
        if found {
          if !hovering {
            hoverX, hoverY := mx, my;
          }
          var t := RenderItemDescription(item);
          tip := Some(t);
          assert FirstHit(items, mx, my) == Some(i);
          break;
        }
        i := i + 1;
      }
      hovering := found;
    }

    /**
      A render pass.  A closed panel draws nothing and keeps its hover state.  An
      open panel draws the border (a border error is only logged), then the grid,
      then runs hover detection.
     */
    method Render(frameErr: Option<string>, select: int -> Selection, items: seq<GridItem>)
      returns (pass: RenderPass)
      modifies this`hovering, this`hoverX, this`hoverY
      ensures !old(isOpen) ==> pass == NotRendered && Hover() == old(Hover())
      ensures old(isOpen) ==>
        var border := Compose(originX + 1, originY + TopChromeGap, frameErr, select);
        var hover := Pass(old(Hover()), items, lastMouseX, lastMouseY);
        pass == Rendered(border.0, border.1, hover.1) && Hover() == hover.0
    {
      if !isOpen {
        return NotRendered;
      }
      var corners, err := RenderFrame(frameErr, select);
      var tip := RenderItemHover(items);
      pass := Rendered(corners, err, tip);
    }
  }

}
