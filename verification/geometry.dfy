/** Points, sizes and rectangles in window coordinates (y grows downwards).
    Coordinates are mathematical integers: overflow of the toolkit's 32-bit
    `int` is not modelled. */
module Geometry {

  datatype Size = Size(w: int, h: int)

  /** A rectangle given by its top-left corner and its extent. */
  datatype Rect = Rect(x: int, y: int, w: int, h: int) {

    /** The y coordinate just below the rectangle. */
    function Bottom(): int { y + h }

    /** The x coordinate just right of the rectangle. */
    function Right(): int { x + w }
  }
}
