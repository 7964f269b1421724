/**
  Hover detection over the grid's items and the anchoring of the item tooltip.
  Items carry their slot's screen position and their sprite's size, as the grid
  reports them.
 */
module ItemHover {
  import opened Wrappers

  datatype GridItem = GridItem(id: int, slotX: int, slotY: int, w: int, h: int, description: seq<string>)

  /** A tooltip rendered for item `id` with its description lines at (x, y). */
  datatype Tooltip = Tooltip(id: int, lines: seq<string>, x: int, y: int)

  /** The panel's hover fields: whether the last pass hovered, and the anchor. */
  datatype HoverState = HoverState(hovering: bool, hoverX: int, hoverY: int)

  /** The pointer lies strictly inside the item's box, on all four sides. */
  predicate Contains(it: GridItem, mx: int, my: int)
    // with integer pixels, only an item at least two pixels wide and high can be hit
    ensures Contains(it, mx, my) ==> it.w >= 2 && it.h >= 2
  {
    it.slotX < mx < it.slotX + it.w && it.slotY < my < it.slotY + it.h
  }

  /** Index of the first item, in list order, whose box strictly contains the pointer. */
  function FirstHit(items: seq<GridItem>, mx: int, my: int): (r: Option<nat>)
    ensures r.Some? ==> r.value < |items| && Contains(items[r.value], mx, my)
    ensures r.Some? ==> forall j :: 0 <= j < r.value ==> !Contains(items[j], mx, my)
    ensures r.None? <==> forall j :: 0 <= j < |items| ==> !Contains(items[j], mx, my)
    decreases |items|
  {
    if items == [] then None
    else if Contains(items[0], mx, my) then Some(0)
    else match FirstHit(items[1..], mx, my)
      case None => None
      case Some(k) => Some(k + 1)
  }

  /** The tooltip for `it`: its lines, at the anchor's x and the item's slot row. */
  function Describe(s: HoverState, it: GridItem): Tooltip
  {
    Tooltip(it.id, it.description, s.hoverX, it.slotY)
  }

  /**
    One hover pass with the pointer at (mx, my): the new hover fields and the
    tooltip rendered, if any.  Only the first hit item gets a tooltip; the anchor is
    taken from the pointer only when the previous pass was not hovering; the
    hovering flag becomes this pass's result.
   */
  function Pass(s: HoverState, items: seq<GridItem>, mx: int, my: int): (r: (HoverState, Option<Tooltip>))
    ensures r.0.hovering <==> exists j :: 0 <= j < |items| && Contains(items[j], mx, my)
    ensures r.1.Some? <==> r.0.hovering
    ensures (r.0.hoverX, r.0.hoverY) == if r.0.hovering && !s.hovering then (mx, my) else (s.hoverX, s.hoverY)
    ensures r.1.Some? ==>
              exists k :: && 0 <= k < |items| && Contains(items[k], mx, my)
                          && (forall j :: 0 <= j < k ==> !Contains(items[j], mx, my))
                          && r.1.value == Tooltip(items[k].id, items[k].description, r.0.hoverX, items[k].slotY)
  {
    match FirstHit(items, mx, my)
    case None => (s.(hovering := false), None)
    case Some(k) =>
      var anchored := if s.hovering then s else HoverState(true, mx, my);
      (anchored.(hovering := true), Some(Describe(anchored, items[k])))
  }

  /** Successive passes, one per pointer position; the final state and each pass's tooltip. */
  function Passes(s: HoverState, items: seq<GridItem>, pointers: seq<(int, int)>): (r: (HoverState, seq<Option<Tooltip>>))
    ensures |r.1| == |pointers|
    decreases |pointers|
  {
    if pointers == [] then (s, [])
    else
      var first := Pass(s, items, pointers[0].0, pointers[0].1);
      var rest := Passes(first.0, items, pointers[1..]);
      (rest.0, [first.1] + rest.1)
  }

  /**
    The tooltip's row is the hovered item's slot row, which lies strictly above
    the pointer: the tooltip is never placed at the pointer's y.
   */
  lemma TooltipOnSlotRow(s: HoverState, items: seq<GridItem>, mx: int, my: int)
    requires FirstHit(items, mx, my).Some?
    ensures Pass(s, items, mx, my).1.Some?
    ensures Pass(s, items, mx, my).1.value.y == items[FirstHit(items, mx, my).value].slotY < my
  {
  }

  /**
    Anchor stability: over a run of passes that all find an item under the pointer,
    every tooltip sits at the same x, the pointer's x at the first pass when that
    pass started a hover, or the earlier anchor when the panel was already hovering;
    the anchor kept at the end is that same point.
   */
  lemma {:induction false} AnchorStableWhileHovering(s: HoverState, items: seq<GridItem>, pointers: seq<(int, int)>)
    requires pointers != []
    requires forall i :: 0 <= i < |pointers| ==> FirstHit(items, pointers[i].0, pointers[i].1).Some?
    ensures var ax := if s.hovering then s.hoverX else pointers[0].0;
            var ay := if s.hovering then s.hoverY else pointers[0].1;
            var r := Passes(s, items, pointers);
            && r.0 == HoverState(true, ax, ay)
            && forall i :: 0 <= i < |pointers| ==> r.1[i].Some? && r.1[i].value.x == ax
    decreases |pointers|
  {
    var first := Pass(s, items, pointers[0].0, pointers[0].1);
    assert FirstHit(items, pointers[0].0, pointers[0].1).Some?;
    if |pointers| > 1 {
      forall i | 0 <= i < |pointers[1..]|
        ensures FirstHit(items, pointers[1..][i].0, pointers[1..][i].1).Some?
      {
        assert pointers[1..][i] == pointers[i + 1];
      }
      AnchorStableWhileHovering(first.0, items, pointers[1..]);
    }
  }

  /**
    A pass that finds nothing ends the hover and renders no tooltip, so the next
    pass that finds an item anchors its tooltip at that pass's pointer.
   */
  lemma LeavingResetsAnchor(s: HoverState, items: seq<GridItem>, mx1: int, my1: int, mx2: int, my2: int)
    requires FirstHit(items, mx1, my1).None?
    requires FirstHit(items, mx2, my2).Some?
    ensures Pass(s, items, mx1, my1).1.None? && !Pass(s, items, mx1, my1).0.hovering
    ensures var t := Pass(Pass(s, items, mx1, my1).0, items, mx2, my2).1;
            t.Some? && t.value.x == mx2 && t.value.id == items[FirstHit(items, mx2, my2).value].id
  {
  }

  /**
    Hover starts at (50, 60) inside item A and the pointer moves to (55, 62), still
    inside A: the tooltip stays at x = 50, on A's slot row.
   */
  lemma AnchorExample()
    ensures var a := GridItem(1, 40, 50, 30, 30, ["A"]);
            var first := Pass(HoverState(false, 0, 0), [a], 50, 60);
            var second := Pass(first.0, [a], 55, 62);
            first.1 == Some(Tooltip(1, ["A"], 50, 50)) && second.1 == Some(Tooltip(1, ["A"], 50, 50))
  {
  }
}
