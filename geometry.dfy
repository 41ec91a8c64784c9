/** Coordinates of the simulation log and of the 3D world the viewer draws. */
module Geometry {

  /** A point as the log writes it: the three numbers of a `v` array or of a
      printed vertex, `[v0, v1, v2]`, with `v2` the height. */
  datatype RawPoint = RawPoint(v0: real, v1: real, v2: real)

  /** A point of the viewer's world, whose `y` axis points up. */
  datatype Point3 = Point3(x: real, y: real, z: real)

  /** The fixed transform applied to every log point:
      `x = v0 / -10`, `y = v2 / 10`, `z = v1 / 10`. */
  function ToWorld(v: RawPoint): Point3
  {
    Point3(v.v0 / -10.0, v.v2 / 10.0, v.v1 / 10.0)
  }

  /** The inverse transform, from the world back to log coordinates. */
  function ToLog(p: Point3): RawPoint
  {
    RawPoint(-10.0 * p.x, 10.0 * p.z, 10.0 * p.y)
  }

  /** The height a log point is drawn at (its world `y`). */
  function Height(v: RawPoint): real
  {
    v.v2 / 10.0
  }

  /** The transform loses nothing: a log point comes back from the world
      unchanged, and its world height is `Height`. */
  lemma WorldRoundTrip(v: RawPoint)
    ensures ToLog(ToWorld(v)) == v
    ensures ToWorld(v).y == Height(v)
  {
  }

  /** Every world point is the image of exactly one log point. */
  lemma LogRoundTrip(p: Point3)
    ensures ToWorld(ToLog(p)) == p
  {
  }

  /** The world image of a polyline, vertex by vertex, in order. */
  function WorldPath(points: seq<RawPoint>): (r: seq<Point3>)
    ensures |r| == |points|
    ensures forall i :: 0 <= i < |points| ==> ToLog(r[i]) == points[i]
  {
    seq(|points|, i requires 0 <= i < |points| => ToWorld(points[i]))
  }
}
