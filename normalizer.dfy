/**
 * `normalize_coordinate`: both longitude and latitude are reduced with
 * Python's floor modulus by 360 and then folded into (-180, 180].
 * Float rounding is not modelled: coordinates are reals.
 */
module Normalizer {

  /** `d` is a whole number of turns of 360 degrees. */
  predicate IsWholeTurns(d: real) {
    (d / 360.0).Floor as real == d / 360.0
  }

  /** The range every normalised component lies in. */
  predicate InCanonicalRange(y: real) {
    -180.0 < y <= 180.0
  }

  /** Python's `x % 360` on a float: the remainder has the sign of 360. */
  function PyMod360(x: real): (m: real)
    ensures 0.0 <= m < 360.0
    ensures IsWholeTurns(x - m)
  {
    var k := (x / 360.0).Floor;
    assert (x - (x - 360.0 * k as real)) / 360.0 == k as real;
    x - 360.0 * k as real
  }

  /** The conditional expression applied after the modulus, with both of its branches. */
  function Fold(m: real): (r: real)
    ensures r == m || r == m - 360.0 || r == m + 360.0
    ensures -540.0 < m <= 540.0 && m != -180.0 ==> InCanonicalRange(r)
    ensures m == -180.0 ==> r == -180.0
  {
    if m > 180.0 then -180.0 + (m - 180.0)
    else if m < -180.0 then 180.0 + (m + 180.0)
    else m
  }

  /** One component of `normalize_coordinate`. */
  function Normalize(x: real): (r: real)
    ensures InCanonicalRange(r)
    ensures IsWholeTurns(x - r)
  {
    var m := PyMod360(x);
    if m > 180.0 then
      WholeTurnsShift(x - m, 1);
      assert x - m + 360.0 * 1 as real == x - Fold(m);
      Fold(m)
    else
      Fold(m)
  }

  /** `normalize_coordinate(lon, lat)`: the same transform on each component. */
  function NormalizeCoordinate(lon: real, lat: real): (r: (real, real))
    ensures InCanonicalRange(r.0) && IsWholeTurns(lon - r.0)
    ensures InCanonicalRange(r.1) && IsWholeTurns(lat - r.1)
  {
    (Normalize(lon), Normalize(lat))
  }

  lemma FloorOfInt(n: int)
    ensures (n as real).Floor == n
  {
  }

  lemma WholeTurnsShift(d: real, k: int)
    requires IsWholeTurns(d)
    ensures IsWholeTurns(d + 360.0 * k as real)
  {
    var n := (d / 360.0).Floor;
    var x := (d + 360.0 * k as real) / 360.0;
    assert x == (n + k) as real;
    FloorOfInt(n + k);
  }

  lemma WholeTurnsDifference(a: real, b: real)
    requires IsWholeTurns(a) && IsWholeTurns(b)
    ensures IsWholeTurns(a - b)
  {
    var p, q := (a / 360.0).Floor, (b / 360.0).Floor;
    var x := (a - b) / 360.0;
    assert x == (p - q) as real;
    FloorOfInt(p - q);
  }

  /** Two canonical values a whole number of turns apart are equal. */
  lemma CanonicalUnique(a: real, b: real)
    requires InCanonicalRange(a) && InCanonicalRange(b)
    requires IsWholeTurns(a - b)
    ensures a == b
  {
    var n := ((a - b) / 360.0).Floor;
    assert -1.0 < (a - b) / 360.0 < 1.0;
    assert n == 0;
  }

  /**
   * Normalize(x) is THE value of (-180, 180] that differs from x by a whole
   * number of turns: an independent characterisation of the two-step code.
   */
  lemma NormalizeCharacterization(x: real, y: real)
    ensures Normalize(x) == y <==> InCanonicalRange(y) && IsWholeTurns(x - y)
  {
    var r := Normalize(x);
    if InCanonicalRange(y) && IsWholeTurns(x - y) {
      WholeTurnsDifference(x - y, x - r);
      assert (x - y) - (x - r) == r - y;
      CanonicalUnique(r, y);
    }
  }

  /** Identity on (-180, 180]. */
  lemma NormalizeIdentity(x: real)
    requires InCanonicalRange(x)
    ensures Normalize(x) == x
  {
    assert IsWholeTurns(x - x);
    NormalizeCharacterization(x, x);
  }

  /** The one point of [-180, 180] that moves: -180 becomes 180. */
  lemma NormalizeMinus180()
    ensures Normalize(-180.0) == 180.0
  {
    assert IsWholeTurns(-180.0 - 180.0);
    NormalizeCharacterization(-180.0, 180.0);
  }

  /** Adding whole turns does not change the result. */
  lemma NormalizePeriodic(x: real, k: int)
    ensures Normalize(x + 360.0 * k as real) == Normalize(x)
  {
    var r := Normalize(x);
    WholeTurnsShift(x - r, k);
    assert x - r + 360.0 * k as real == (x + 360.0 * k as real) - r;
    NormalizeCharacterization(x + 360.0 * k as real, r);
  }

  /** Normalising twice is normalising once. */
  lemma NormalizeIdempotent(x: real)
    ensures Normalize(Normalize(x)) == Normalize(x)
  {
    NormalizeIdentity(Normalize(x));
  }

  /**
   * The `< -180` branch of the fold is never taken, since the modulus is never
   * negative: the fold only ever subtracts 360 from values above 180.
   */
  lemma LowerFoldUnreachable(x: real)
    ensures !(PyMod360(x) < -180.0)
    ensures Normalize(x) == if PyMod360(x) > 180.0 then PyMod360(x) - 360.0 else PyMod360(x)
  {
  }

  /**
   * Both components lie in (-180, 180], each depends on its own input only,
   * and each differs from its input by whole turns.
   */
  lemma NormalizeCoordinateComponents(lon: real, lat: real, lon': real, lat': real)
    ensures InCanonicalRange(NormalizeCoordinate(lon, lat).0)
    ensures InCanonicalRange(NormalizeCoordinate(lon, lat).1)
    ensures IsWholeTurns(lon - NormalizeCoordinate(lon, lat).0)
    ensures IsWholeTurns(lat - NormalizeCoordinate(lon, lat).1)
    ensures NormalizeCoordinate(lon, lat).0 == NormalizeCoordinate(lon, lat').0
    ensures NormalizeCoordinate(lon, lat).1 == NormalizeCoordinate(lon', lat).1
  {
  }

  /**
   * Latitude goes through the longitude transform: 100 stays 100 although it
   * is outside [-90, 90], and 200 folds to -160 like a longitude would.
   */
  lemma LatitudeUsesLongitudeRange()
    ensures NormalizeCoordinate(0.0, 100.0) == (0.0, 100.0)
    ensures NormalizeCoordinate(0.0, 200.0) == (0.0, -160.0)
  {
    NormalizeIdentity(0.0);
    NormalizeIdentity(100.0);
    assert IsWholeTurns(200.0 - -160.0);
    NormalizeCharacterization(200.0, -160.0);
  }

  /** normalize(200, 10) == (-160, 10). */
  lemma NormalizeExample()
    ensures NormalizeCoordinate(200.0, 10.0) == (-160.0, 10.0)
  {
    assert IsWholeTurns(200.0 - -160.0);
    NormalizeCharacterization(200.0, -160.0);
    NormalizeIdentity(10.0);
  }
}
