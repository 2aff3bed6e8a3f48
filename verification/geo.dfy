/** Coordinates and the distance used to rank tows. */
module Geo {
  import opened Common

  datatype Location = Location(lat: real, lng: real)

  /** A distance in kilometres, or the Infinity that the distance helper returns when a location
      is missing. */
  datatype Distance = Finite(km: real) | Infinite

  /** `a` is no farther than `b`. This is the order that the sort comparator `d(a) - d(b)` induces:
      a finite value minus Infinity is negative, and Infinity minus Infinity is NaN, which the
      sort treats as 0, so two infinite distances tie. */
  predicate AtMost(a: Distance, b: Distance)
  {
    match a
    case Infinite => b.Infinite?
    case Finite(x) => b.Infinite? || x <= b.km
  }

  /** `AtMost` is a total order on distances, so the sort's comparator is consistent. */
  lemma AtMostIsTotalOrder(a: Distance, b: Distance, c: Distance)
    ensures AtMost(a, a)
    ensures AtMost(a, b) || AtMost(b, a)
    ensures AtMost(a, b) && AtMost(b, a) ==> a == b
    ensures AtMost(a, b) && AtMost(b, c) ==> AtMost(a, c)
  {
  }

  /** The distance helper: the great-circle distance when both locations are known, Infinity when
      either is missing. The spherical arithmetic is the uninterpreted `greatCircle`. */
  function Haversine(greatCircle: (Location, Location) -> real, a: Option<Location>, b: Option<Location>): (d: Distance)
    ensures d.Infinite? <==> a.None? || b.None?
    ensures d.Finite? ==> d.km == greatCircle(a.value, b.value)
  {
    if a.None? || b.None? then Infinite else Finite(greatCircle(a.value, b.value))
  }
}
