/**
 Shapes and anchors of the quiz areas. Only the enumerations are modelled: the
 geometry that draws a shape for a percentage is floating-point rendering.
 */
module Areas {
  import opened Wrappers

  /** The three fill components a question can be drawn with. */
  datatype Shape = Square | FillSquare | Circle

  /** The nine anchor positions a filled shape can be pinned to. */
  datatype Anchor =
    | TopLeft | TopCenter | TopRight
    | CenterLeft | Center | CenterRight
    | BottomLeft | BottomCenter | BottomRight

  /**
   The lookup `customQuestionToComponentMap[s]`: codes 1, 2, 3 name a shape,
   any other key yields `undefined`, modelled as `None`.
   */
  function ShapeForCode(s: int): (r: Option<Shape>)
    ensures r.Some? <==> 1 <= s <= 3
    ensures r == Some(Square) <==> s == 1
    ensures r == Some(FillSquare) <==> s == 2
    ensures r == Some(Circle) <==> s == 3
  {
    if s == 1 then Some(Square)
    else if s == 2 then Some(FillSquare)
    else if s == 3 then Some(Circle)
    else None
  }
}
