/**
  The inventory border: four corner frames of one panel sprite, tiled from a
  cursor that moves by each corner's own measured width or height.
 */
module BorderTiling {
  import opened Wrappers

  const FrameTopLeft: int := 4
  const FrameTopRight: int := 5
  const FrameBottomLeft: int := 6
  const FrameBottomRight: int := 7

  /** The order in which the corners are drawn. */
  const CornerOrder: seq<int> := [FrameTopLeft, FrameTopRight, FrameBottomRight, FrameBottomLeft]

  /** The gap between the panel origin and the top of the border. */
  const TopChromeGap: int := 64

  /** Outcome of selecting one frame of the panel sprite and asking its size. */
  datatype Selection = Selected(w: int, h: int) | SelectFailed(err: string)

  /** A corner frame drawn with its bottom-left pixel at (x, y). */
  datatype Placement = Placement(frame: int, x: int, y: int)

  /** The screen rectangle a drawn frame covers: [left, right) by [top, bottom). */
  datatype Box = Box(left: int, top: int, right: int, bottom: int)

  function Width(s: Selection): int { if s.Selected? then s.w else 0 }

  function Height(s: Selection): int { if s.Selected? then s.h else 0 }

  /** Position, in CornerOrder, of the first corner whose frame cannot be selected; 4 when none fails. */
  function FirstFailure(select: int -> Selection): (k: nat)
    ensures k <= |CornerOrder|
    ensures forall i :: 0 <= i < k ==> select(CornerOrder[i]).Selected?
    ensures k < |CornerOrder| ==> select(CornerOrder[k]).SelectFailed?
  {
    if select(FrameTopLeft).SelectFailed? then 0
    else if select(FrameTopRight).SelectFailed? then 1
    else if select(FrameBottomRight).SelectFailed? then 2
    else if select(FrameBottomLeft).SelectFailed? then 3
    else 4
  }

  /**
    Where the four corners land, in drawing order, when the cursor starts at
    (x0, y0): the top row shares the cursor's y, the top-right corner starts one
    top-left width to the right, the bottom row starts one top-right height lower,
    and the bottom-left corner is back at x0.  Entry i only uses the sizes of
    corners 0..i, so a prefix of it is meaningful even when a later corner fails.
   */
  function Layout(x0: int, y0: int, select: int -> Selection): (ps: seq<Placement>)
    ensures |ps| == |CornerOrder|
    ensures forall i :: 0 <= i < |ps| ==> ps[i].frame == CornerOrder[i]
  {
    var tl, tr, br, bl := select(FrameTopLeft), select(FrameTopRight), select(FrameBottomRight), select(FrameBottomLeft);
    [ Placement(FrameTopLeft, x0, y0 + Height(tl)),
      Placement(FrameTopRight, x0 + Width(tl), y0 + Height(tr)),
      Placement(FrameBottomRight, x0 + Width(tl), y0 + Height(tr) + Height(br)),
      Placement(FrameBottomLeft, x0, y0 + Height(tr) + Height(bl)) ]
  }

  /**
    One border pass from the cursor (x0, y0): the drawn corners and the error
    returned.  A failing base frame aborts before any corner; otherwise the corners
    before the first failing one are drawn and that failure's error is returned.
   */
  function Compose(x0: int, y0: int, frameErr: Option<string>, select: int -> Selection)
    : (r: (seq<Placement>, Option<string>))
    ensures frameErr.Some? ==> r == ([], frameErr)
    ensures |r.0| <= |CornerOrder|
    ensures forall i :: 0 <= i < |r.0| ==> r.0[i].frame == CornerOrder[i] && select(CornerOrder[i]).Selected?
    ensures frameErr.None? ==> (r.1.None? <==> |r.0| == |CornerOrder|)
    ensures frameErr.None? && |r.0| < |CornerOrder| ==>
              select(CornerOrder[|r.0|]).SelectFailed? && r.1 == Some(select(CornerOrder[|r.0|]).err)
  {
    if frameErr.Some? then ([], frameErr)
    else
      var k := FirstFailure(select);
      (Layout(x0, y0, select)[..k], if k < |CornerOrder| then Some(select(CornerOrder[k]).err) else None)
  }

  function BoxOf(p: Placement, s: Selection): Box
  {
    Box(p.x, p.y - Height(s), p.x + Width(s), p.y)
  }

  /** The rectangles of the four corners, in drawing order. */
  function Boxes(x0: int, y0: int, select: int -> Selection): (bs: seq<Box>)
    ensures |bs| == |CornerOrder|
  {
    var ps := Layout(x0, y0, select);
    seq(|CornerOrder|, i requires 0 <= i < |CornerOrder| => BoxOf(ps[i], select(CornerOrder[i])))
  }

  predicate Overlap(a: Box, b: Box)
  {
    a.left < b.right && b.left < a.right && a.top < b.bottom && b.top < a.bottom
  }

  /** The pixel (px, py) lies in the rectangle. */
  predicate Inside(b: Box, px: int, py: int)
  {
    b.left <= px < b.right && b.top <= py < b.bottom
  }

  /** Some rectangle of `bs` covers the pixel (px, py). */
  predicate Covered(bs: seq<Box>, px: int, py: int)
  {
    exists i :: 0 <= i < |bs| && Inside(bs[i], px, py)
  }

  predicate OverlapFree(bs: seq<Box>)
  {
    forall i, j :: 0 <= i < j < |bs| ==> !Overlap(bs[i], bs[j])
  }

  /**
    The corner edges meet: both top corners hang from the start cursor's row,
    the top-right corner begins where the top-left ends, the bottom-right corner
    begins exactly below the top-right one, and the bottom-left corner shares
    the bottom row and the left edge of the top-left corner, whatever the sizes.
    That these edges meet does not by itself close the border; see
    InnerSeamsClosedIff.
   */
  lemma CornerEdgesMeet(x0: int, y0: int, select: int -> Selection)
    ensures var bs := Boxes(x0, y0, select);
      && bs[0].left == x0 && bs[0].top == y0 && bs[1].top == y0
      && bs[1].left == bs[0].right
      && bs[2].left == bs[1].left && bs[2].top == bs[1].bottom
      && bs[3].left == bs[0].left && bs[3].top == bs[2].top
  {
  }

  /**
    With corners of positive size, no two corner rectangles overlap exactly when
    the top-left corner is no taller than the top-right one (the bottom row starts
    one top-right height down) and the bottom-left corner is no wider than the
    top-left one (the bottom-right corner starts one top-left width in).
   */
  lemma {:induction false} OverlapFreeIff(x0: int, y0: int, select: int -> Selection)
    requires forall i :: 0 <= i < |CornerOrder| ==> Width(select(CornerOrder[i])) > 0 && Height(select(CornerOrder[i])) > 0
    ensures OverlapFree(Boxes(x0, y0, select))
        <==> (Height(select(FrameTopLeft)) <= Height(select(FrameTopRight))
              && Width(select(FrameBottomLeft)) <= Width(select(FrameTopLeft)))
  {
    var bs := Boxes(x0, y0, select);
    assert Width(select(CornerOrder[0])) > 0 && Height(select(CornerOrder[0])) > 0;
    assert Width(select(CornerOrder[1])) > 0 && Height(select(CornerOrder[1])) > 0;
    assert Width(select(CornerOrder[2])) > 0 && Height(select(CornerOrder[2])) > 0;
    assert Width(select(CornerOrder[3])) > 0 && Height(select(CornerOrder[3])) > 0;
    if Height(select(FrameTopLeft)) <= Height(select(FrameTopRight))
       && Width(select(FrameBottomLeft)) <= Width(select(FrameTopLeft)) {
      forall i, j | 0 <= i < j < |CornerOrder| ensures !Overlap(bs[i], bs[j]) {
        assert i == 0 || i == 1 || i == 2;
        assert j == 1 || j == 2 || j == 3;
      }
    } else if Height(select(FrameTopLeft)) > Height(select(FrameTopRight)) {
      assert Overlap(bs[0], bs[3]);
    } else {
      assert Overlap(bs[2], bs[3]);
    }
  }

  /**
    The gap half of a closed border.  With corners of positive size, a top-left
    corner shorter than the top-right one leaves the pixel just below it, at
    (x0, y0 + h_TL), in no corner; a bottom-left corner narrower than the
    top-left one leaves the pixel just right of it, at (x0 + w_BL, y0 + h_TR), in
    no corner.  The inner seams close, with neither overlap nor these gaps,
    exactly when the top corners have equal heights and the left corners equal
    widths.
   */
  lemma {:induction false} InnerSeamsClosedIff(x0: int, y0: int, select: int -> Selection)
    requires forall i :: 0 <= i < |CornerOrder| ==> Width(select(CornerOrder[i])) > 0 && Height(select(CornerOrder[i])) > 0
    ensures var bs := Boxes(x0, y0, select);
            var hTL, hTR := Height(select(FrameTopLeft)), Height(select(FrameTopRight));
            var wTL, wBL := Width(select(FrameTopLeft)), Width(select(FrameBottomLeft));
            && (hTL < hTR ==> !Covered(bs, x0, y0 + hTL))
            && (hTL <= hTR && wBL < wTL ==> !Covered(bs, x0 + wBL, y0 + hTR))
            && (OverlapFree(bs) && Covered(bs, x0, y0 + hTL) && Covered(bs, x0 + wBL, y0 + hTR)
                <==> hTL == hTR && wBL == wTL)
  {
    var bs := Boxes(x0, y0, select);
    var hTL, hTR := Height(select(FrameTopLeft)), Height(select(FrameTopRight));
    var wTL, wBL := Width(select(FrameTopLeft)), Width(select(FrameBottomLeft));
    assert Width(select(CornerOrder[0])) > 0 && Height(select(CornerOrder[0])) > 0;
    assert Width(select(CornerOrder[1])) > 0 && Height(select(CornerOrder[1])) > 0;
    assert Width(select(CornerOrder[2])) > 0 && Height(select(CornerOrder[2])) > 0;
    assert Width(select(CornerOrder[3])) > 0 && Height(select(CornerOrder[3])) > 0;
    OverlapFreeIff(x0, y0, select);
    if hTL < hTR {
      forall i | 0 <= i < |bs| ensures !Inside(bs[i], x0, y0 + hTL) {
        assert i == 0 || i == 1 || i == 2 || i == 3;
      }
    }
    if hTL <= hTR && wBL < wTL {
      forall i | 0 <= i < |bs| ensures !Inside(bs[i], x0 + wBL, y0 + hTR) {
        assert i == 0 || i == 1 || i == 2 || i == 3;
      }
    }
    if hTL == hTR && wBL == wTL {
      assert Inside(bs[3], x0, y0 + hTL);
      assert Inside(bs[2], x0 + wBL, y0 + hTR);
    }
  }
}
