/** The wire unit shared by the client and the server (client/src/type.ts and
    the StrokeSegment type of client/src/App.tsx). */
module Segments {

  /** A canvas coordinate. The source uses floating-point pixels derived from
      DOM geometry; no arithmetic is done on them, so integers stand in. */
  datatype Point = Point(x: int, y: int)

  /** One straight line between two consecutive sample points of a stroke,
      with the style of the stroke it belongs to. */
  datatype Segment = Segment(
    strokeId: string,
    start: Point,
    end: Point,
    color: string,
    width: int,
    isEraser: bool)
}
