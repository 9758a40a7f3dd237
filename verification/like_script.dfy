/** Two event handlers of the LikeScript example: a key filter that lets
    only digits (and control keys) into the age field, and a resize hook that
    lets the frame change its width but never its height. */
module LikeScript {
  import opened Geometry
  import opened WideChar

  /** A key press as the filter sees it: its character code and whether some
      handler has already consumed it. */
  datatype KeyEvent = KeyEvent(charCode: Char, consumed: bool)

  /** The edge or corner being dragged; the resize hook ignores it. */
  datatype CardinalDirection =
    North | South | East | West | NorthEast | NorthWest | SouthEast | SouthWest

  /** Consumes (swallows) every key whose character is non-null, not a digit
      and not below the space character; other events pass untouched. */
  function FilterNumKeys(ev: KeyEvent): (r: KeyEvent)
    ensures r.charCode == ev.charCode
    ensures ev.consumed ==> r.consumed
    ensures IsDigit(ev.charCode) || ev.charCode == Nul || ev.charCode < Space ==> r == ev
    ensures !ev.consumed && r.consumed ==> Space <= ev.charCode && !IsDigit(ev.charCode)
  {
    if ev.charCode != Nul && !IsDigit(ev.charCode) && ev.charCode >= Space
    then ev.(consumed := true)
    else ev
  }

  /** The filter's effect stated without its redundant null test: a fresh key
      is consumed exactly when it is printable (at least a space) and not a
      digit. */
  lemma FilterConsumesPrintableNonDigits(c: Char)
    ensures FilterNumKeys(KeyEvent(c, false)).consumed <==> c >= Space && !IsDigit(c)
  {
  }

  /** The resize hook: keeps the proposed horizontal position and width and
      replaces the vertical ones by the frame's current bounds. */
  function LimitFrameResizing(current: Rect, dir: CardinalDirection, proposed: Rect): (r: Rect)
    ensures r.x == proposed.x && r.w == proposed.w
    ensures r.y == current.y && r.h == current.h
  {
    Rect(proposed.x, current.y, proposed.w, current.h)
  }

  /** Applying the hook to its own result changes nothing. */
  lemma LimitFrameResizingIdempotent(current: Rect, d1: CardinalDirection,
                                     d2: CardinalDirection, proposed: Rect)
    ensures LimitFrameResizing(current, d2, LimitFrameResizing(current, d1, proposed))
         == LimitFrameResizing(current, d1, proposed)
  {
  }

  /** A purely horizontal resize passes unchanged; any vertical change is
      undone. */
  lemma HorizontalResizePasses(current: Rect, dir: CardinalDirection, proposed: Rect)
    ensures LimitFrameResizing(current, dir, proposed) == proposed
            <==> proposed.y == current.y && proposed.h == current.h
  {
  }
}
