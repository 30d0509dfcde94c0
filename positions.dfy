/** Points of the graph canvas, in exact real arithmetic. */
module Positions {
  /** An `{ x, y }` position. */
  datatype Pos = Pos(x: real, y: real)
}
