/**
 * A model of FastLambertConformal: the forward Lambert Conformal Conic
 * projection on a spherical earth. The projection constants are derived once
 * from the projection parameters (the constructor) and then applied to each
 * point (latLonToProj); longitude differences are wrapped by lonNormal.
 *
 * Doubles are modelled by `real`. The transcendental functions of java.lang.Math
 * (sin, cos, tan, log, pow) are not given a meaning: they are passed in as a
 * `MathLib` record, and the few identities the proofs rely on are the predicate
 * `TrigIdentities`. A division by zero, which in IEEE arithmetic yields an
 * infinity or NaN, has no real value: the model reports it as `None`.
 */
module FastLambertConformal {

  datatype Option<T> = None | Some(value: T)

  // ---------------------------------------------------------------------------
  // Longitude wrapping (lonNormal)
  // ---------------------------------------------------------------------------

  /** `k` turns of 360 degrees. */
  function Turns(k: int): real {
    k as real * 360.0
  }

  /** `d` is a whole number of turns of 360 degrees. */
  ghost predicate IsWholeTurns(d: real) {
    exists k: int :: d == Turns(k)
  }

  /**
   * The interval lonNormal leaves a value of `v` in: inputs above 180 end in
   * (-180, 180], inputs below -180 end in [-180, 180), and inputs already in
   * [-180, 180] are not moved.
   */
  predicate InWrapInterval(v: real, r: real) {
    if v > 180.0 then -180.0 < r <= 180.0
    else if v < -180.0 then -180.0 <= r < 180.0
    else r == v
  }

  /**
   * Closed form of lonNormal: the number of 360-degree steps each loop performs
   * is written with a floor instead of being counted.
   */
  function NormalizedLon(v: real): (r: real)
    ensures -180.0 <= r <= 180.0
    ensures -180.0 <= v <= 180.0 ==> r == v
    ensures v > 180.0 ==> -180.0 < r <= 180.0
    ensures v < -180.0 ==> -180.0 <= r < 180.0
    ensures IsWholeTurns(r - v)
  {
    if v > 180.0 then
      var k := ((180.0 - v) / 360.0).Floor;
      assert (v + Turns(k)) - v == Turns(k);
      v + Turns(k)
    else if v < -180.0 then
      var k := ((v + 180.0) / 360.0).Floor;
      assert (v + Turns(-k)) - v == Turns(-k);
      v + Turns(-k)
    else
      assert v - v == Turns(0);
      v
  }

  /**
   * lonNormal: subtract 360 while the value is above 180, then add 360 while it
   * is below -180. Both comparisons are strict, so 180 and -180 stay put.
   */
  method LonNormal(v: real) returns (r: real)
    ensures r == NormalizedLon(v)
    ensures -180.0 <= r <= 180.0
    ensures -180.0 <= v <= 180.0 ==> r == v
    ensures InWrapInterval(v, r)
    ensures IsWholeTurns(r - v)
  {
    r := v;
    ghost var k: int := 0;
    while r > 180.0
      invariant r - v == Turns(k)
      invariant v <= 180.0 ==> r == v
      invariant v > 180.0 ==> r > -180.0
      decreases (r - 180.0).Floor
    {
      r := r - 360.0;
      k := k - 1;
    }
    ghost var mid := r;
    while r < -180.0
      invariant r - v == Turns(k)
      invariant r <= 180.0
      invariant mid >= -180.0 ==> r == mid
      invariant mid < -180.0 ==> r < 180.0
      decreases (-180.0 - r).Floor
    {
      r := r + 360.0;
      k := k + 1;
    }
    NormalizedLonCharacterized(v, r);
  }

  /**
   * Two values of the same wrap interval of `v` that both differ from `v` by
   * whole turns are equal.
   */
  lemma WrapUnique(v: real, a: real, b: real)
    requires InWrapInterval(v, a) && IsWholeTurns(a - v)
    requires InWrapInterval(v, b) && IsWholeTurns(b - v)
    ensures a == b
  {
    var i :| a - v == Turns(i);
    var j :| b - v == Turns(j);
    assert a - b == Turns(i - j);
  }

  /** The negation of a whole number of turns is one. */
  lemma TurnsNegate(d: real)
    requires IsWholeTurns(d)
    ensures IsWholeTurns(-d)
  {
    var k :| d == Turns(k);
    assert -d == Turns(-k);
  }

  /** One turn less than a whole number of turns is one. */
  lemma TurnsShift(d: real)
    requires IsWholeTurns(d)
    ensures IsWholeTurns(d - 360.0)
  {
    var k :| d == Turns(k);
    assert d - 360.0 == Turns(k - 1);
  }

  /**
   * The closed form is characterised without any loop or floor: `r` is the
   * wrapped value of `v` exactly when it lies in the wrap interval of `v` and
   * differs from `v` by whole turns.
   */
  lemma NormalizedLonCharacterized(v: real, r: real)
    ensures r == NormalizedLon(v) <==> InWrapInterval(v, r) && IsWholeTurns(r - v)
  {
    if InWrapInterval(v, r) && IsWholeTurns(r - v) {
      WrapUnique(v, r, NormalizedLon(v));
    }
  }

  /** Wrapping a wrapped value changes nothing. */
  lemma NormalizedLonIdempotent(v: real)
    ensures NormalizedLon(NormalizedLon(v)) == NormalizedLon(v)
  {
  }

  /** A value strictly inside (-180, 180) is the wrap of every value a whole number of turns away. */
  lemma NormalizedLonOfInterior(w: real, r: real)
    requires -180.0 < r < 180.0
    requires IsWholeTurns(r - w)
    ensures NormalizedLon(w) == r
  {
    if -180.0 <= w <= 180.0 {
      var k :| r - w == Turns(k);
      assert k == 0;
    }
    WrapUnique(w, r, NormalizedLon(w));
  }

  /**
   * Because the interval for inputs above 180 is the mirror image of the one
   * for inputs below -180, wrapping commutes with negation. The body records
   * that argument step by step: -r is a whole number of turns from -v
   * (TurnsNegate) and lies in the mirrored interval, so it is the wrap of -v
   * (WrapUnique). Dafny also finds the proof without these steps.
   */
  lemma NormalizedLonOdd(v: real)
    ensures NormalizedLon(-v) == -NormalizedLon(v)
  {
    var r := NormalizedLon(v);
    TurnsNegate(r - v);
    assert -r - -v == -(r - v);
    WrapUnique(-v, -r, NormalizedLon(-v));
  }

  /**
   * Adding a turn to the input does not change the result, unless the input is
   * -180: -180 is left at -180, but -180 + 360 is left at 180.
   */
  lemma NormalizedLonPeriodic(v: real)
    requires v != -180.0
    ensures NormalizedLon(v + 360.0) == NormalizedLon(v)
  {
    var r := NormalizedLon(v);
    TurnsShift(r - v);
    assert r - v - 360.0 == r - (v + 360.0);
    if -180.0 < r < 180.0 {
      NormalizedLonOfInterior(v + 360.0, r);
    } else {
      WrapUnique(v + 360.0, r, NormalizedLon(v + 360.0));
    }
  }

  /**
   * The boundary cases: -180 and 180 are both left alone though they are a
   * turn apart, and 540 and -540 land on opposite ends of the range.
   */
  lemma NormalizedLonSeam()
    ensures NormalizedLon(-180.0) == -180.0 && NormalizedLon(-180.0 + 360.0) == 180.0
    ensures NormalizedLon(540.0) == 180.0 && NormalizedLon(-540.0) == -180.0
  {
    assert ((180.0 - 540.0) / 360.0).Floor == -1;
    assert ((-540.0 + 180.0) / 360.0).Floor == -1;
  }

  // ---------------------------------------------------------------------------
  // Projection constants (the constructor)
  // ---------------------------------------------------------------------------

  /** Math.PI. */
  const Pi: real := 3.141592653589793

  /** Parallels closer than this (in degrees) count as a single standard parallel. */
  const Tolerance: real := 0.000001

  /** The spherical earth radius in kilometres, fixed by the projection library. */
  const EarthRadius: real := 6371.229

  /**
   * The functions of java.lang.Math that the projection calls and that the
   * model leaves uninterpreted.
   */
  datatype MathLib = MathLib(
    sin: real -> real,
    cos: real -> real,
    tan: real -> real,
    log: real -> real,
    pow: (real, real) -> real)

  /** The only facts about the trigonometric functions that the proofs use. */
  ghost predicate TrigIdentities(m: MathLib) {
    && m.sin(0.0) == 0.0
    && m.cos(0.0) == 1.0
    && (forall x: real :: m.sin(-x) == -m.sin(x))
    && (forall x: real :: m.cos(-x) == m.cos(x))
  }

  /** The parameters read from the LambertConformal object, in degrees and false-origin units. */
  datatype LambertParams = LambertParams(
    originLon: real,
    originLat: real,
    parallelOne: real,
    parallelTwo: real,
    falseEasting: real,
    falseNorthing: real)

  /** The final fields of a constructed FastLambertConformal. */
  datatype Projector = Projector(
    lon0Degrees: real,
    piOver4: real,
    earthRadiusTimesF: real,
    falseEasting: real,
    falseNorthing: real,
    rho: real,
    n: real,
    F: real)

  function Abs(x: real): (r: real)
    ensures r >= 0.0 && (r == x || r == -x)
  {
    if x < 0.0 then -x else x
  }

  /** Math.toRadians. */
  function ToRadians(deg: real): real {
    deg / 180.0 * Pi
  }

  /** tan(pi/4 + phi/2), with phi in radians. */
  function AuxTan(m: MathLib, phi: real): real {
    m.tan(Pi / 4.0 + phi / 2.0)
  }

  /**
   * The cone constant n: sin of the first parallel when the two parallels
   * coincide within the tolerance, else the ratio of logarithms. `None` when
   * one of the divisions of the log-ratio has a zero divisor.
   */
  function ConeConstant(m: MathLib, par1: real, par2: real): Option<real> {
    var par1r := ToRadians(par1);
    var par2r := ToRadians(par2);
    var t1 := AuxTan(m, par1r);
    var t2 := AuxTan(m, par2r);
    if Abs(par2 - par1) < Tolerance then
      Some(m.sin(par1r))
    else if m.cos(par2r) == 0.0 || t1 == 0.0 || m.log(t2 / t1) == 0.0 then
      None
    else
      Some(m.log(m.cos(par1r) / m.cos(par2r)) / m.log(t2 / t1))
  }

  /**
   * The constructor: derive n, F, earthRadiusTimesF and rho from the
   * parameters. `None` when a divisor (the cone constant or t0^n) is zero.
   */
  function Construct(m: MathLib, p: LambertParams): Option<Projector> {
    match ConeConstant(m, p.parallelOne, p.parallelTwo)
    case None => None
    case Some(n) =>
      var par1r := ToRadians(p.parallelOne);
      var t1n := m.pow(AuxTan(m, par1r), n);
      var t0n := m.pow(AuxTan(m, ToRadians(p.originLat)), n);
      if n == 0.0 || t0n == 0.0 then
        None
      else
        var F := m.cos(par1r) * t1n / n;
        var earthRadiusTimesF := EarthRadius * F;
        Some(Projector(p.originLon, Pi / 4.0, earthRadiusTimesF,
                       p.falseEasting, p.falseNorthing, earthRadiusTimesF / t0n, n, F))
  }

  // ---------------------------------------------------------------------------
  // The forward point transform (latLonToProj)
  // ---------------------------------------------------------------------------

  datatype ProjectionPoint = ProjectionPoint(x: real, y: real)

  /** The polar angle of a longitude: n times the wrapped longitude difference, in radians. */
  function Theta(pr: Projector, lon: real): real {
    pr.n * ToRadians(NormalizedLon(lon - pr.lon0Degrees))
  }

  /**
   * latLonToProj: the projected point of (lat, lon), in degrees, with the
   * false origin added. `None` when t^n, the divisor of the parallel radius, is zero.
   */
  function LatLonToProj(m: MathLib, pr: Projector, lat: real, lon: real): Option<ProjectionPoint> {
    PointAtAngle(m, pr, lat, Theta(pr, lon))
  }

  /** The second half of latLonToProj: the point of latitude `lat` (degrees) at polar angle `theta`. */
  function PointAtAngle(m: MathLib, pr: Projector, lat: real, theta: real): Option<ProjectionPoint> {
    var fromLat := ToRadians(lat);
    var tn := m.pow(m.tan(pr.piOver4 + fromLat / 2.0), pr.n);
    if tn == 0.0 then
      None
    else
      var r := pr.earthRadiusTimesF / tn;
      Some(ProjectionPoint(r * m.sin(theta) + pr.falseEasting,
                           pr.rho - r * m.cos(theta) + pr.falseNorthing))
  }

  // ---------------------------------------------------------------------------
  // Properties of the constructor
  // ---------------------------------------------------------------------------

  /**
   * The tolerance test alone selects the branch of the cone constant: within
   * the tolerance it is the sine of the first parallel, outside it the
   * log-ratio (or no value when that ratio divides by zero).
   */
  lemma ConeConstantBranch(m: MathLib, par1: real, par2: real)
    ensures Abs(par2 - par1) < Tolerance ==> ConeConstant(m, par1, par2) == Some(m.sin(ToRadians(par1)))
    ensures !(Abs(par2 - par1) < Tolerance) && ConeConstant(m, par1, par2).Some? ==>
      var t1 := AuxTan(m, ToRadians(par1));
      var t2 := AuxTan(m, ToRadians(par2));
      m.cos(ToRadians(par2)) != 0.0 && t1 != 0.0 && m.log(t2 / t1) != 0.0 &&
      ConeConstant(m, par1, par2).value ==
        m.log(m.cos(ToRadians(par1)) / m.cos(ToRadians(par2))) / m.log(t2 / t1)
    ensures !(Abs(par2 - par1) < Tolerance) ==>
      var t1 := AuxTan(m, ToRadians(par1));
      var t2 := AuxTan(m, ToRadians(par2));
      (ConeConstant(m, par1, par2).Some? <==>
        m.cos(ToRadians(par2)) != 0.0 && t1 != 0.0 && m.log(t2 / t1) != 0.0)
  {
  }

  /** One standard parallel given twice takes the single-parallel branch, so nothing is divided by log 1. */
  lemma SingleParallel(m: MathLib, p: LambertParams, pr: Projector)
    requires p.parallelOne == p.parallelTwo
    requires Construct(m, p) == Some(pr)
    ensures pr.n == m.sin(ToRadians(p.parallelOne))
  {
  }

  /** The origin longitude and the false origin are carried into the projector unchanged. */
  lemma ConstructKeepsOrigin(m: MathLib, p: LambertParams, pr: Projector)
    requires Construct(m, p) == Some(pr)
    ensures pr.lon0Degrees == p.originLon
    ensures pr.falseEasting == p.falseEasting && pr.falseNorthing == p.falseNorthing
    ensures pr.piOver4 == Pi / 4.0
    ensures pr.n != 0.0
    ensures pr.earthRadiusTimesF == EarthRadius * pr.F
    ensures pr.F == m.cos(ToRadians(p.parallelOne)) * m.pow(AuxTan(m, ToRadians(p.parallelOne)), pr.n) / pr.n
  {
  }

  /**
   * The constructor has a value exactly when the cone constant has one, is
   * nonzero (the divisor of F) and t0^n (the divisor of rho) is nonzero.
   */
  lemma ConstructDefined(m: MathLib, p: LambertParams)
    ensures Construct(m, p).Some? <==>
      var n := ConeConstant(m, p.parallelOne, p.parallelTwo);
      n.Some? && n.value != 0.0 && m.pow(AuxTan(m, ToRadians(p.originLat)), n.value) != 0.0
  {
  }

  /** The cone constant and the origin radius rho = earthRadiusTimesF / t0^n of a constructed projector. */
  lemma ConstructConeAndRho(m: MathLib, p: LambertParams, pr: Projector)
    requires Construct(m, p) == Some(pr)
    ensures ConeConstant(m, p.parallelOne, p.parallelTwo) == Some(pr.n)
    ensures
      var t0n := m.pow(AuxTan(m, ToRadians(p.originLat)), pr.n);
      t0n != 0.0 && pr.rho == pr.earthRadiusTimesF / t0n
  {
  }

  /**
   * F is chosen so that the first standard parallel is drawn at true scale:
   * its parallel radius r satisfies n * r == EarthRadius * cos(par1). On the
   * origin meridian r is the distance from the apex, rho - (y - falseNorthing).
   */
  lemma FirstParallelTrueScale(m: MathLib, p: LambertParams, pr: Projector, pt: ProjectionPoint)
    requires TrigIdentities(m)
    requires Construct(m, p) == Some(pr)
    requires LatLonToProj(m, pr, p.parallelOne, p.originLon) == Some(pt)
    ensures pt.x == p.falseEasting
    ensures pr.n * (pr.rho - (pt.y - p.falseNorthing)) == EarthRadius * m.cos(ToRadians(p.parallelOne))
  {
    var par1r := ToRadians(p.parallelOne);
    var t1n := m.pow(AuxTan(m, par1r), pr.n);
    ConstructKeepsOrigin(m, p, pr);
    assert Theta(pr, p.originLon) == 0.0;
    assert pt.y == pr.rho - pr.earthRadiusTimesF / t1n + p.falseNorthing;
  }

  // ---------------------------------------------------------------------------
  // Properties of the point transform
  // ---------------------------------------------------------------------------

  /** latLonToProj has a value exactly when t^n, the divisor of the parallel radius, is nonzero. */
  lemma ProjectDefined(m: MathLib, pr: Projector, lat: real, lon: real)
    ensures LatLonToProj(m, pr, lat, lon).Some? <==>
      m.pow(m.tan(pr.piOver4 + ToRadians(lat) / 2.0), pr.n) != 0.0
  {
  }

  /** The projection origin maps exactly to the false origin. */
  lemma OriginProjectsToFalseOrigin(m: MathLib, p: LambertParams, pr: Projector)
    requires TrigIdentities(m)
    requires Construct(m, p) == Some(pr)
    ensures LatLonToProj(m, pr, p.originLat, p.originLon) == Some(ProjectionPoint(p.falseEasting, p.falseNorthing))
  {
    ConstructKeepsOrigin(m, p, pr);
    var lat0 := ToRadians(p.originLat);
    var t0n := m.pow(AuxTan(m, lat0), pr.n);
    assert t0n != 0.0 && pr.rho == pr.earthRadiusTimesF / t0n;
    assert m.pow(m.tan(pr.piOver4 + lat0 / 2.0), pr.n) == t0n;
    assert Theta(pr, p.originLon) == 0.0;
    assert pr.rho * m.sin(0.0) == 0.0 && pr.rho * m.cos(0.0) == pr.rho;
  }

  /**
   * East/west symmetry about the origin meridian: longitudes lon0 + d and
   * lon0 - d at one latitude are both projected or neither, with equal y and
   * opposite offsets from the false easting. It holds for every real d,
   * because wrapping commutes with negation.
   */
  lemma EastWestSymmetry(m: MathLib, pr: Projector, lat: real, d: real)
    requires TrigIdentities(m)
    ensures LatLonToProj(m, pr, lat, pr.lon0Degrees + d).Some? <==> LatLonToProj(m, pr, lat, pr.lon0Degrees - d).Some?
    ensures LatLonToProj(m, pr, lat, pr.lon0Degrees + d).Some? ==>
      var east := LatLonToProj(m, pr, lat, pr.lon0Degrees + d).value;
      var west := LatLonToProj(m, pr, lat, pr.lon0Degrees - d).value;
      east.y == west.y && east.x - pr.falseEasting == -(west.x - pr.falseEasting)
  {
    ThetaOpposite(pr, d);
    MirrorAngle(m, pr, lat, Theta(pr, pr.lon0Degrees + d));
  }

  /** Longitudes d east and d west of the origin meridian have opposite polar angles. */
  lemma ThetaOpposite(pr: Projector, d: real)
    ensures Theta(pr, pr.lon0Degrees - d) == -Theta(pr, pr.lon0Degrees + d)
  {
    assert pr.lon0Degrees + d - pr.lon0Degrees == d;
    assert pr.lon0Degrees - d - pr.lon0Degrees == -d;
    NormalizedLonOdd(d);
    assert pr.n * ToRadians(-NormalizedLon(d)) == -(pr.n * ToRadians(NormalizedLon(d)));
  }

  /** Opposite polar angles give mirror-image points about the origin meridian. */
  lemma MirrorAngle(m: MathLib, pr: Projector, lat: real, theta: real)
    requires TrigIdentities(m)
    ensures PointAtAngle(m, pr, lat, theta).Some? <==> PointAtAngle(m, pr, lat, -theta).Some?
    ensures PointAtAngle(m, pr, lat, theta).Some? ==>
      var east := PointAtAngle(m, pr, lat, theta).value;
      var west := PointAtAngle(m, pr, lat, -theta).value;
      east.y == west.y && east.x - pr.falseEasting == -(west.x - pr.falseEasting)
  {
    var tn := m.pow(m.tan(pr.piOver4 + ToRadians(lat) / 2.0), pr.n);
    if tn != 0.0 {
      var r := pr.earthRadiusTimesF / tn;
      assert m.sin(-theta) == -m.sin(theta) && m.cos(-theta) == m.cos(theta);
      assert r * m.sin(-theta) == -(r * m.sin(theta));
    }
  }

  /**
   * Within one turn that does not cross the seam behind the origin meridian,
   * theta grows with the longitude when n > 0 and shrinks when n < 0.
   */
  lemma ThetaMonotone(pr: Projector, lon1: real, lon2: real)
    requires pr.lon0Degrees - 180.0 <= lon1 < lon2 <= pr.lon0Degrees + 180.0
    ensures pr.n > 0.0 ==> Theta(pr, lon1) < Theta(pr, lon2)
    ensures pr.n < 0.0 ==> Theta(pr, lon1) > Theta(pr, lon2)
  {
    var a := ToRadians(lon1 - pr.lon0Degrees);
    var b := ToRadians(lon2 - pr.lon0Degrees);
    assert a < b;
    assert pr.n * b - pr.n * a == pr.n * (b - a);
  }

  /** sin^2 + cos^2 == 1, used only for the shape of the parallels. */
  ghost predicate PythagoreanIdentity(m: MathLib) {
    forall x: real :: m.sin(x) * m.sin(x) + m.cos(x) * m.cos(x) == 1.0
  }

  /**
   * Every point of one latitude lies on the circle about the apex of the cone,
   * (falseEasting, falseNorthing + rho), whose radius depends on the latitude alone.
   */
  lemma ParallelsAreCircles(m: MathLib, pr: Projector, lat: real, lon: real)
    requires PythagoreanIdentity(m)
    requires LatLonToProj(m, pr, lat, lon).Some?
    ensures
      var pt := LatLonToProj(m, pr, lat, lon).value;
      var tn := m.pow(m.tan(pr.piOver4 + ToRadians(lat) / 2.0), pr.n);
      var dx := pt.x - pr.falseEasting;
      var dy := pr.falseNorthing + pr.rho - pt.y;
      tn != 0.0 &&
      dx * dx + dy * dy == (pr.earthRadiusTimesF / tn) * (pr.earthRadiusTimesF / tn)
  {
    var theta := Theta(pr, lon);
    var s, c := m.sin(theta), m.cos(theta);
    var tn := m.pow(m.tan(pr.piOver4 + ToRadians(lat) / 2.0), pr.n);
    var r := pr.earthRadiusTimesF / tn;
    assert s * s + c * c == 1.0;
    calc {
      (r * s) * (r * s) + (r * c) * (r * c);
      r * r * (s * s + c * c);
      r * r;
    }
  }
}
