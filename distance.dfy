/**
 * The antimeridian correction applied before the great-circle distance is computed.
 * The haversine formula itself is trigonometry on floating point and is passed in as
 * an uninterpreted function `dist(lat1, lon1, lat2, lon2)`.
 */
module Distance {

  function AbsReal(x: real): real {
    if x < 0.0 then -x else x
  }

  datatype Longitudes = Longitudes(lon1: real, lon2: real)

  /**
   * The `lon1Normalized`, `lon2Normalized` of `calculateShortestDistance`: when the two
   * longitudes are more than 180 degrees apart, the negative first one, or else the second
   * one, is moved up by a full turn.
   */
  function NormalizeLongitudes(lon1: real, lon2: real): (r: Longitudes)
    ensures AbsReal(lon1 - lon2) <= 180.0 ==> r.lon1 == lon1 && r.lon2 == lon2
    ensures AbsReal(lon1 - lon2) > 180.0 && lon1 < 0.0 ==> r.lon1 == lon1 + 360.0 && r.lon2 == lon2
    ensures AbsReal(lon1 - lon2) > 180.0 && lon1 >= 0.0 ==> r.lon1 == lon1 && r.lon2 == lon2 + 360.0
  {
    if AbsReal(lon1 - lon2) > 180.0 then
      if lon1 < 0.0 then Longitudes(lon1 + 360.0, lon2) else Longitudes(lon1, lon2 + 360.0)
    else Longitudes(lon1, lon2)
  }

  /** For longitudes in [-180, 180] the corrected pair is at most half a turn apart: the shorter arc. */
  lemma NormalizedGapAtMostHalfTurn(lon1: real, lon2: real)
    requires -180.0 <= lon1 <= 180.0 && -180.0 <= lon2 <= 180.0
    ensures var r := NormalizeLongitudes(lon1, lon2);
            AbsReal(r.lon1 - r.lon2) <= 180.0
  {
  }

  /** Two points 0.2 degrees apart across the date line are compared 0.2 degrees apart, not 359.8. */
  lemma DateLineExample()
    ensures NormalizeLongitudes(179.9, -179.9) == Longitudes(179.9, 180.1)
    ensures AbsReal(179.9 - 180.1) == 0.2
  {
  }

  /** The correction moves at most one longitude, by exactly one turn: both still name the same meridians. */
  lemma NormalizedSameMeridians(lon1: real, lon2: real)
    ensures var r := NormalizeLongitudes(lon1, lon2);
            (r.lon1 - lon1 == 0.0 || r.lon1 - lon1 == 360.0)
            && (r.lon2 - lon2 == 0.0 || r.lon2 - lon2 == 360.0)
            && !(r.lon1 != lon1 && r.lon2 != lon2)
  {
  }

  /** `calculateShortestDistance(lat1, lon1, lat2, lon2)` with `calculateDistance` as `dist`. */
  function CalculateShortestDistance(dist: (real, real, real, real) -> real,
                                     lat1: real, lon1: real, lat2: real, lon2: real): (d: real)
    ensures exists n1, n2 :: (n1 == lon1 || n1 == lon1 + 360.0) && (n2 == lon2 || n2 == lon2 + 360.0)
                             && d == dist(lat1, n1, lat2, n2)
  {
    var n := NormalizeLongitudes(lon1, lon2);
    dist(lat1, n.lon1, lat2, n.lon2)
  }

  /** A distance function that does not change when either longitude moves by a full turn. */
  ghost predicate TurnInvariant(dist: (real, real, real, real) -> real) {
    (forall a, b, c, e :: dist(a, b, c, e) == dist(a, b + 360.0, c, e))
    && (forall a, b, c, e :: dist(a, b, c, e) == dist(a, b, c, e + 360.0))
  }

  /**
   * For a distance that depends on the longitudes only modulo a full turn, as the haversine
   * formula does through `sin(dLon / 2)` squared, the correction leaves the distance unchanged.
   */
  lemma ShortestDistanceOfPeriodic(dist: (real, real, real, real) -> real,
                                   lat1: real, lon1: real, lat2: real, lon2: real)
    requires TurnInvariant(dist)
    ensures CalculateShortestDistance(dist, lat1, lon1, lat2, lon2) == dist(lat1, lon1, lat2, lon2)
  {
    var n := NormalizeLongitudes(lon1, lon2);
    assert dist(lat1, lon1, lat2, lon2) == dist(lat1, lon1 + 360.0, lat2, lon2);
    assert dist(lat1, lon1, lat2, lon2) == dist(lat1, lon1, lat2, lon2 + 360.0);
  }
}
