/**
 * `get_comuna_from_coordinates`: the scraper names the comuna of a point
 * with a first-match decision list of seven latitude/longitude half-plane
 * pairs, falling back to the region's name. Coordinates are reals; the
 * source compares floats, and no comparison here depends on rounding.
 */
module Comunas {

  const LasCondes := "Las Condes"
  const Providencia := "Providencia"
  const LaFlorida := "La Florida"
  const PuenteAlto := "Puente Alto"
  const SanBernardo := "San Bernardo"
  const Maipu := "Maipú"
  const SantiagoCentro := "Santiago Centro"
  const Region := "Región Metropolitana"

  /** Every name the decision list can return. */
  const ComunaNames: set<string> :=
    {LasCondes, Providencia, LaFlorida, PuenteAlto, SanBernardo, Maipu, SantiagoCentro, Region}

  /** One strict comparison of a coordinate with a bound. */
  datatype Bound = Above(limit: real) | Below(limit: real)

  predicate Holds(b: Bound, x: real) {
    match b
    case Above(limit) => x > limit
    case Below(limit) => x < limit
  }

  /** A rule of the list: both comparisons must hold for its comuna to be chosen. */
  datatype Rule = Rule(lat: Bound, lon: Bound, name: string)

  predicate Applies(r: Rule, lat: real, lon: real) {
    Holds(r.lat, lat) && Holds(r.lon, lon)
  }

  /** The seven rules, in the order the code tries them. */
  function Rules(): seq<Rule> {
    [ Rule(Above(-33.42), Above(-70.58), LasCondes),
      Rule(Above(-33.45), Above(-70.60), Providencia),
      Rule(Above(-33.51), Above(-70.58), LaFlorida),
      Rule(Below(-33.55), Above(-70.60), PuenteAlto),
      Rule(Below(-33.60), Below(-70.70), SanBernardo),
      Rule(Below(-33.50), Below(-70.75), Maipu),
      Rule(Above(-33.45), Below(-70.68), SantiagoCentro) ]
  }

  /** `get_comuna_from_coordinates(lat, lon)`. */
  function ComunaFromCoordinates(lat: real, lon: real): (c: string)
    ensures c in ComunaNames
  {
    if lat > -33.42 && lon > -70.58 then LasCondes
    else if lat > -33.45 && lon > -70.60 then Providencia
    else if lat > -33.51 && lon > -70.58 then LaFlorida
    else if lat < -33.55 && lon > -70.60 then PuenteAlto
    else if lat < -33.60 && lon < -70.70 then SanBernardo
    else if lat < -33.50 && lon < -70.75 then Maipu
    else if lat > -33.45 && lon < -70.68 then SantiagoCentro
    else Region
  }

  /**
   * The code's if/elif chain is the rule list read in order: the result is
   * the name of the first rule that applies, and the region's name exactly
   * when none does.
   */
  lemma FirstApplicableRule(lat: real, lon: real)
    ensures var c := ComunaFromCoordinates(lat, lon);
      && (c == Region <==> forall k :: 0 <= k < |Rules()| ==> !Applies(Rules()[k], lat, lon))
      && (forall k :: 0 <= k < |Rules()| && c == Rules()[k].name ==>
            Applies(Rules()[k], lat, lon) && forall j :: 0 <= j < k ==> !Applies(Rules()[j], lat, lon))
  {
    var rs := Rules();
    var c := ComunaFromCoordinates(lat, lon);
    assert |rs| == 7;
    assert Applies(rs[0], lat, lon) <==> lat > -33.42 && lon > -70.58;
    assert Applies(rs[1], lat, lon) <==> lat > -33.45 && lon > -70.60;
    assert Applies(rs[2], lat, lon) <==> lat > -33.51 && lon > -70.58;
    assert Applies(rs[3], lat, lon) <==> lat < -33.55 && lon > -70.60;
    assert Applies(rs[4], lat, lon) <==> lat < -33.60 && lon < -70.70;
    assert Applies(rs[5], lat, lon) <==> lat < -33.50 && lon < -70.75;
    assert Applies(rs[6], lat, lon) <==> lat > -33.45 && lon < -70.68;
    if c != Region {
      var k :| 0 <= k < 7 && rs[k].name == c;
      assert Applies(rs[k], lat, lon);
    }
  }

  /** Each of the eight names is returned for some point. */
  lemma EveryComunaReachable()
    ensures forall c :: c in ComunaNames ==> exists lat: real, lon: real :: ComunaFromCoordinates(lat, lon) == c
  {
    assert ComunaFromCoordinates(-33.40, -70.50) == LasCondes;
    assert ComunaFromCoordinates(-33.43, -70.59) == Providencia;
    assert ComunaFromCoordinates(-33.50, -70.50) == LaFlorida;
    assert ComunaFromCoordinates(-33.70, -70.50) == PuenteAlto;
    assert ComunaFromCoordinates(-33.70, -70.80) == SanBernardo;
    assert ComunaFromCoordinates(-33.55, -70.80) == Maipu;
    assert ComunaFromCoordinates(-33.40, -70.70) == SantiagoCentro;
    assert ComunaFromCoordinates(-33.40, -70.65) == Region;
  }

  /**
   * The list leaves a band east of -70.58 between latitudes -33.55 and -33.51
   * unnamed: points there fall back to the region's name.
   */
  lemma EasternGap(lat: real, lon: real)
    requires -33.55 <= lat <= -33.51 && lon > -70.58
    ensures ComunaFromCoordinates(lat, lon) == Region
  {
  }

  /** The rules are tried in order: "Santiago Centro" is only reached west of -70.68 and north of -33.45. */
  lemma SantiagoCentroRegion(lat: real, lon: real)
    requires ComunaFromCoordinates(lat, lon) == SantiagoCentro
    ensures lat > -33.45 && lon < -70.68
  {
    assert Rules()[6].name == SantiagoCentro;
  }
}
