/** Plane geometry used by the snake: points, poses and the two helpers
    `point_collision` and `constrain_distance` of Procedural_Snake.py. */
module Geometry {

  /** A 2D vector (pygame's Vector2), with real coordinates. */
  datatype Vec = Vec(x: real, y: real) {
    function Plus(d: Vec): Vec { Vec(x + d.x, y + d.y) }
    function Minus(d: Vec): Vec { Vec(x - d.x, y - d.y) }
  }

  const Zero := Vec(0.0, 0.0)

  /** Position and orientation (in degrees) of one segment. */
  datatype Pose = Pose(pos: Vec, angle: real)

  /** Squared Euclidean distance; the model never takes a square root. */
  function SqDist(p: Vec, q: Vec): real
  {
    var d := p.Minus(q);
    d.x * d.x + d.y * d.y
  }

  /** `point_collision`: the distance from p to q is strictly below radius.
      A distance is never negative, so `dist < r` holds exactly when r is
      positive and the squared distance is below r squared. */
  predicate PointCollision(p: Vec, q: Vec, radius: real)
  {
    0.0 < radius && SqDist(p, q) < radius * radius
  }

  /** For the true distance d (the non-negative root of the squared
      distance), `PointCollision` holds exactly when d < radius, which is
      the test `distance_to(...) < radius` makes. */
  lemma PointCollisionIsDistance(p: Vec, q: Vec, radius: real, d: real)
    requires d >= 0.0 && d * d == SqDist(p, q)
    ensures PointCollision(p, q, radius) <==> d < radius
  {
    if d < radius {
      var e := radius - d;
      assert radius * radius == d * d + 2.0 * d * e + e * e;
    } else {
      var e := d - radius;
      assert d * d == radius * radius + 2.0 * radius * e + e * e;
      if 0.0 < radius {
        assert radius * e >= 0.0;
      }
    }
  }

  /** The non-degenerate branch of `constrain_distance` (normalise the
      difference, take its atan2 in degrees, place the point at `distance`
      from the anchor along it). It is floating-point trigonometry, so the
      model keeps it uninterpreted: any total function of point, anchor and
      distance. */
  type Placement = (Vec, Vec, real) -> Pose

  /** `constrain_distance`: when the difference between point and anchor has
      length 0 (it is the zero vector) the point is returned as it is, with
      angle 0; otherwise the placement decides. */
  function ConstrainDistance(point: Vec, anchor: Vec, distance: real, place: Placement): (r: Pose)
    ensures point == anchor ==> r == Pose(point, 0.0)
    ensures point != anchor ==> r == place(point, anchor, distance)
  {
    var diff := point.Minus(anchor);
    if diff == Zero then Pose(point, 0.0) else place(point, anchor, distance)
  }
}
