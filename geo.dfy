/** Coordinates and the distance the backend measures between them. */
module Geo {

  /** A (latitude, longitude) pair in degrees. */
  type Coord = (real, real)

  /**
   * Great-circle distance in meters between two coordinates. The haversine
   * formula itself is not modelled: every operation that measures distance
   * takes one of these as a parameter and relies on nothing but its values.
   */
  type Distance = (Coord, Coord) -> real

  /** What a great-circle distance satisfies: it is never negative, and no detour is shorter than the direct way. */
  ghost predicate IsMetric(dist: Distance) {
    && (forall a, b :: dist(a, b) >= 0.0)
    && (forall a, b, c :: dist(a, c) <= dist(a, b) + dist(b, c))
  }

  /** The default start, the centre of Providence, RI. */
  const DefaultStart: Coord := (41.8240, -71.4128)
}
