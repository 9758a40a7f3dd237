/** The status bar's part in layout: it is placed by its frame regardless of
    the frame's layout manager, takes a fixed-height strip at the bottom of
    the layout area, and hands the rest of the area on. */
module StatusBar {
  import opened Geometry

  /** The height of the strip, the status bar's preferred height. */
  const StripHeight: int := 24

  /** The status bar is laid out by its frame, not by the layout manager. */
  function IsLayoutFree(): (free: bool)
    ensures free
  {
    true
  }

  /** The preferred size: no width of its own, a 24-pixel strip. */
  function PreferredSize(): (s: Size)
    ensures s.w == 0 && s.h == StripHeight
  {
    Size(0, StripHeight)
  }

  /** The result of laying out: the status bar's bounds, and the area passed
      on to the rest of the frame. */
  datatype Split = Split(bar: Rect, rest: Rect)

  /** Carves the strip off the bottom of `area`. Nothing is clamped: an area
      lower than the strip leaves a negative height behind. */
  function OnLayout(area: Rect): (r: Split)
    ensures r.bar.x == area.x && r.bar.w == area.w
    ensures r.bar.h == PreferredSize().h
    ensures r.bar.Bottom() == area.Bottom()
    ensures r.rest.x == area.x && r.rest.y == area.y && r.rest.w == area.w
    ensures r.rest.Bottom() == r.bar.y
    ensures r.rest.h + r.bar.h == area.h
  {
    var pref := PreferredSize();
    Split(Rect(area.x, area.y + area.h - pref.h, area.w, pref.h),
          area.(h := area.h - pref.h))
  }

  /** Whether the pixel (px, py) lies inside `rc`. */
  predicate Contains(rc: Rect, px: int, py: int) {
    rc.x <= px < rc.Right() && rc.y <= py < rc.Bottom()
  }

  /** When the area is at least as high as the strip, the two rectangles
      tile it: every pixel of the area lies in exactly one of them, and no
      pixel outside the area lies in either. */
  lemma LayoutTilesArea(area: Rect, px: int, py: int)
    requires area.h >= StripHeight
    ensures Contains(area, px, py) <==>
              Contains(OnLayout(area).bar, px, py) || Contains(OnLayout(area).rest, px, py)
    ensures !(Contains(OnLayout(area).bar, px, py) && Contains(OnLayout(area).rest, px, py))
  {
  }

  /** An area lower than the strip is not clamped: the area handed on has a
      negative height, and the strip reaches above the area's top. */
  lemma NoClamping(area: Rect)
    requires area.h < StripHeight
    ensures OnLayout(area).rest.h < 0
    ensures OnLayout(area).bar.y < area.y
  {
  }
}
