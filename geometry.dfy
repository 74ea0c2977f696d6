/** Points and collision circles (helpers.Vec2f, collision.Circle and collision.collide). */
module Geometry {

  /** A mutable point. Circles hold the very Vec2 object of their entity's position, so that
      moving the entity moves its circle. */
  class Vec2 {
    var x: real
    var y: real

    constructor (x: real, y: real)
      ensures this.x == x && this.y == y
    {
      this.x := x;
      this.y := y;
    }
  }

  /** A region inside which a collision may happen. */
  class Circle {
    var center: Vec2
    const radius: real

    constructor (center: Vec2, radius: real)
      ensures this.center == center && this.radius == radius
    {
      this.center := center;
      this.radius := radius;
    }
  }

  function SquaredDistance(x1: real, y1: real, x2: real, y2: real): (d: real)
    ensures d >= 0.0
  {
    (x2 - x1) * (x2 - x1) + (y2 - y1) * (y2 - y1)
  }

  /** collide: the distance between the centres is at most the sum of the radii. Floating-point
      square roots are not modelled; since a distance is never negative, `sqrt(d2) <= r` holds
      exactly when `r >= 0` and `d2 <= r * r`, which is what is compared here. */
  predicate Overlap(x1: real, y1: real, r1: real, x2: real, y2: real, r2: real)
  {
    r1 + r2 >= 0.0 && SquaredDistance(x1, y1, x2, y2) <= (r1 + r2) * (r1 + r2)
  }

  predicate Collide(c1: Circle, c2: Circle)
    reads c1`center, c2`center, c1.center`x, c1.center`y, c2.center`x, c2.center`y
  {
    Overlap(c1.center.x, c1.center.y, c1.radius, c2.center.x, c2.center.y, c2.radius)
  }

  /** The order of the two circles never matters. */
  lemma OverlapSymmetric(x1: real, y1: real, r1: real, x2: real, y2: real, r2: real)
    ensures Overlap(x1, y1, r1, x2, y2, r2) == Overlap(x2, y2, r2, x1, y1, r1)
  {
    assert (x2 - x1) * (x2 - x1) == (x1 - x2) * (x1 - x2);
    assert (y2 - y1) * (y2 - y1) == (y1 - y2) * (y1 - y2);
  }

  lemma CollideSymmetric(c1: Circle, c2: Circle)
    ensures Collide(c1, c2) == Collide(c2, c1)
  {
    OverlapSymmetric(c1.center.x, c1.center.y, c1.radius, c2.center.x, c2.center.y, c2.radius);
  }

  /** For non-negative s and r, s <= r exactly when s * s <= r * r. */
  lemma SquareMonotone(s: real, r: real)
    requires s >= 0.0 && r >= 0.0
    ensures s <= r <==> s * s <= r * r
  {
    if s <= r {
      assert s * s <= s * r <= r * r;
    } else {
      MulPositive(s - r, s + r);
      assert (s - r) * (s + r) == s * s - r * r;
    }
  }

  lemma MulPositive(a: real, b: real)
    requires a > 0.0 && b > 0.0
    ensures a * b > 0.0
  {
  }

  /** Overlap is the Euclidean test: for the distance `dist` between the centres (any non-negative
      number whose square is the squared distance), the circles overlap exactly when `dist` is at
      most the sum of the radii. In particular two circles that just touch collide. */
  lemma OverlapIsDistanceTest(x1: real, y1: real, r1: real, x2: real, y2: real, r2: real, dist: real)
    requires dist >= 0.0 && dist * dist == SquaredDistance(x1, y1, x2, y2)
    ensures Overlap(x1, y1, r1, x2, y2, r2) <==> dist <= r1 + r2
  {
    if r1 + r2 >= 0.0 {
      SquareMonotone(dist, r1 + r2);
    }
  }

  lemma CollideIsDistanceTest(c1: Circle, c2: Circle, dist: real)
    requires dist >= 0.0
    requires dist * dist == SquaredDistance(c1.center.x, c1.center.y, c2.center.x, c2.center.y)
    ensures Collide(c1, c2) <==> dist <= c1.radius + c2.radius
  {
    OverlapIsDistanceTest(c1.center.x, c1.center.y, c1.radius, c2.center.x, c2.center.y, c2.radius, dist);
  }
}
