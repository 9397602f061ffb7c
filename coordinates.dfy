/**
 * Coordinate spaces, pointer types and the per-pointer position record of
 * src/viewport.ts. JavaScript numbers are modelled as unbounded integers.
 */
module Coordinates {

  /** The closed set of pointer types the viewport tracks (mouse, pen, touch). */
  datatype PointerType = Mouse | Pen | Touch

  /** The value of `PointerEvent.pointerType` for each pointer type. */
  function PointerTypeName(t: PointerType): string
  {
    match t
    case Mouse => "mouse"
    case Pen => "pen"
    case Touch => "touch"
  }

  /** The two axes, written "x" and "y" in custom property names. */
  datatype Axis = X | Y

  function AxisName(a: Axis): string
  {
    match a
    case X => "x"
    case Y => "y"
  }

  /** Page coordinates, or coordinates relative to the layout viewport. */
  datatype CoordinateSpace = Page | LayoutViewport

  /** The off-screen value every coordinate starts with. */
  const SENTINEL: int := -1000

  /** One pointer's position in both coordinate spaces. */
  datatype PointerPosition = PointerPosition(
    pageX: int,
    pageY: int,
    layoutViewportX: int,
    layoutViewportY: int)

  /** The coordinate of `p` in `space` along `axis`. */
  function Coordinate(p: PointerPosition, space: CoordinateSpace, axis: Axis): int
  {
    match (space, axis)
    case (Page, X) => p.pageX
    case (Page, Y) => p.pageY
    case (LayoutViewport, X) => p.layoutViewportX
    case (LayoutViewport, Y) => p.layoutViewportY
  }

  /** A fresh record: every coordinate in every space is the off-screen sentinel. */
  function NewPointerPosition(): (p: PointerPosition)
    ensures forall space, axis :: Coordinate(p, space, axis) == SENTINEL
  {
    PointerPosition(-1000, -1000, -1000, -1000)
  }

  /**
   * The position of a pointer at page coordinates (pageX, pageY) when the
   * window is scrolled by (scrollX, scrollY): the layout viewport starts at
   * the scroll offset, so a layout-viewport coordinate plus the scroll
   * offset along that axis gives back the page coordinate.
   */
  function PositionAt(pageX: int, pageY: int, scrollX: int, scrollY: int): (p: PointerPosition)
    ensures Coordinate(p, Page, X) == pageX && Coordinate(p, Page, Y) == pageY
    ensures Coordinate(p, LayoutViewport, X) + scrollX == Coordinate(p, Page, X)
    ensures Coordinate(p, LayoutViewport, Y) + scrollY == Coordinate(p, Page, Y)
  {
    PointerPosition(pageX, pageY, pageX - scrollX, pageY - scrollY)
  }
}
