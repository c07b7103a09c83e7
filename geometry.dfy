/** Screen constants and the rectangle test both games build on (pygame.Rect). */
module Geometry {

  const ScreenWidth: real := 800.0
  const ScreenHeight: real := 600.0

  /** An axis-aligned rectangle, stored as pygame.Rect stores it: top-left corner and size. */
  datatype Rect = Rect(left: real, top: real, width: real, height: real)
  {
    function Right(): real { left + width }
    function Bottom(): real { top + height }
  }

  /** pygame's Rect.colliderect: the open interiors overlap, so two rectangles
      that only share an edge do not collide. */
  predicate Collide(a: Rect, b: Rect) {
    a.left < b.Right() && b.left < a.Right() && a.top < b.Bottom() && b.top < a.Bottom()
  }

  function Min(a: real, b: real): real { if a <= b then a else b }
  function Max(a: real, b: real): real { if a >= b then a else b }
}
