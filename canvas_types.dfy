// The value types shared by the canvas, the path cache and the backends
// (nona/src/context.rs).
module CanvasTypes {
  import opened Geometry

  /** A vertex handed to the renderer: a position and a texture coordinate. */
  datatype Vertex = Vertex(x: real, y: real, u: real, v: real)

  const ZeroVertex: Vertex := Vertex(0.0, 0.0, 0.0, 0.0)

  /** The winding a subpath is forced into: Solid is counter-clockwise
      (non-negative area), Hole clockwise. */
  datatype Solidity = Solid | Hole

  datatype LineJoin = Miter | Round | Bevel

  datatype LineCap = Butt | Round | Square

  /** One entry of the command buffer.  Points are stored already mapped
      through the transform that was current when the command was appended. */
  datatype Command =
    | MoveTo(p: Point)
    | LineTo(p: Point)
    | BezierTo(c1: Point, c2: Point, p: Point)
    | Close
    | SetSolidity(dir: Solidity)

  /** A flattened subpath.  `first`/`count` select its points in the cache's
      point buffer; `fill`/`numFill` and `stroke`/`numStroke` select its
      vertices in the cache's vertex arena (a null pointer is a length of 0). */
  datatype Path = Path(
    first: nat,
    count: nat,
    closed: bool,
    numBevel: nat,
    solidity: Solidity,
    fill: nat,
    numFill: nat,
    stroke: nat,
    numStroke: nat,
    convex: bool)
}
