/**
 * Placement of an opened menu (`positionX` / `positionY` in the gesture
 * handler): anchored at the pointer when the menu fits before the far edge of
 * the viewport, otherwise flush against that edge minus a fixed margin. There
 * is no clamp against the near (top or left) edge.
 */
module Positioning {

  /** Gap kept between a flipped menu and the far edge of the viewport, in pixels. */
  const Margin: int := 20

  /** The geometry written into the container's style variables. */
  datatype Geometry = Geometry(width: int, height: int, top: int, left: int)

  /**
   * One axis: `pointer` is the client coordinate of the gesture, `size` the
   * menu's measured extent and `viewport` the window's inner extent.
   */
  function ClampAxis(pointer: int, size: int, viewport: int): (pos: int)
    ensures pos <= pointer
    ensures pos + size < viewport
    ensures pointer + size < viewport ==> pos == pointer
    ensures pointer + size >= viewport ==> pos + size + Margin == viewport
  {
    if pointer + size >= viewport then viewport - size - Margin else pointer
  }

  /** Both axes: height against the inner height, width against the inner width. */
  function Place(clientX: int, clientY: int, scrollWidth: int, scrollHeight: int,
                 innerWidth: int, innerHeight: int): (g: Geometry)
    ensures g.width == scrollWidth && g.height == scrollHeight
    ensures g.top == ClampAxis(clientY, scrollHeight, innerHeight)
    ensures g.left == ClampAxis(clientX, scrollWidth, innerWidth)
    ensures g.top <= clientY && g.left <= clientX
    ensures g.top + g.height < innerHeight && g.left + g.width < innerWidth
  {
    Geometry(scrollWidth, scrollHeight,
             ClampAxis(clientY, scrollHeight, innerHeight),
             ClampAxis(clientX, scrollWidth, innerWidth))
  }

  /** Placing an already placed menu again leaves it where it is. */
  lemma ClampStable(pointer: int, size: int, viewport: int)
    ensures ClampAxis(ClampAxis(pointer, size, viewport), size, viewport) == ClampAxis(pointer, size, viewport)
  {
  }

  /** A menu larger than the viewport, opened at a non-negative pointer, is placed at a negative coordinate. */
  lemma NoNearEdgeClamp(pointer: int, size: int, viewport: int)
    requires 0 <= pointer && viewport < size
    ensures ClampAxis(pointer, size, viewport) < 0
  {
  }

  /** For instance a 700-pixel menu in a 600-pixel viewport, opened at 10. */
  lemma NoNearEdgeClampExample()
    ensures ClampAxis(10, 700, 600) == -120
  {
  }

  /** An 800x600 viewport and a 200x100 menu: flipped near the corner, at the pointer near the origin. */
  lemma PlacementExamples()
    ensures Place(750, 550, 200, 100, 800, 600) == Geometry(200, 100, 480, 580)
    ensures Place(10, 10, 200, 100, 800, 600) == Geometry(200, 100, 10, 10)
  {
  }
}
