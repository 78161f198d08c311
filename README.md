# FastLambertConformal in Dafny

This project models `FastLambertConformal`. It is the forward Lambert Conformal
Conic projection on a spherical earth. The model has three parts:

- The constructor derives the cone constant `n`, the scale factor `F`,
  `earthRadiusTimesF` and the origin radius `rho`. It reads them from the
  standard parallels, the origin and the false origin.
- `latLonToProj` maps a latitude and longitude in degrees to planar `(x, y)`.
- `lonNormal` wraps the longitude difference into `[-180, 180]`.

Everything is in one module, `FastLambertConformal`, in
`fast_lambert_conformal.dfy`.

How the source is modelled:

- Doubles are `real`.
- `lonNormal` is a method with the two `while` loops of the source. It is
  proved equal to a closed-form function, `NormalizedLon`. The projection
  function uses that function.
- The constructor is straight-line code that assigns the `final` fields. It
  becomes the pure function `Construct`, which builds a `Projector` record.
- `latLonToProj` is straight-line code over local variables (`fromLat`,
  `dlon`, `theta`, `tn`, `r`, `toX`, `toY`). It then fills the caller's
  `result` through `setLocation`. It becomes the pure function
  `LatLonToProj`, which returns a `ProjectionPoint`.
- `Math.sin`, `cos`, `tan`, `log` and `pow` are not given a meaning. They are
  fields of a `MathLib` record that every operation takes as a parameter.
- The facts the proofs assume about them are hypotheses of the lemmas:
  - `TrigIdentities`: `sin 0 = 0`, `cos 0 = 1`, sine is odd, cosine is even.
  - `PythagoreanIdentity`: `sin² + cos² = 1`. Only `ParallelsAreCircles`
    uses it.
- `Math.toRadians` is written out as `deg / 180 * PI`. So it is linear and
  odd, and that needs no assumption.
- IEEE division by zero gives an infinity or NaN, which has no real value.
  The model returns `None` at the first division whose divisor is zero. The
  constructor's divisors are `cos(par2)`, `t1`, `log(t2/t1)`, `n` and
  `t0^n`; the point transform's divisor is `t^n`. `ConeConstantBranch`,
  `ConstructDefined` and `ProjectDefined` state exactly when a value exists.
- `EARTH_RADIUS` comes from the projection library, which is not part of
  this model. It is the constant `EarthRadius`: 6371.229 km, the library's
  canonical spherical radius. No proof depends on its value.

Three consequences of the code that are worth stating:

- The earth radius is the library constant `EARTH_RADIUS`
  (FastLambertConformal.java:46). It is not a parameter.
- The east/west symmetry holds for every longitude offset `d`
  (`EastWestSymmetry`). For inputs above 180, `lonNormal` lands in
  `(-180, 180]`; for inputs below -180 it lands in `[-180, 180)`. Those
  intervals mirror each other, so wrapping commutes with negation
  (`NormalizedLonOdd`).
- `540` wraps to `180` and `-540` to `-180` (`NormalizedLonSeam`).

## Model

| member | source | states |
|---|---|---|
| `FastLambertConformal.LonNormal` | java/tech/netcdf/FastLambertConformal.java:52-59 | The two loops return the closed form `NormalizedLon(v)`. The result is in `[-180, 180]`. Inputs in `[-180, 180]`, including both ends, come back unchanged. Inputs above 180 land in `(-180, 180]` and inputs below -180 in `[-180, 180)`. The result differs from the input by a whole number of 360s. |
| `FastLambertConformal.NormalizedLon` | java/tech/netcdf/FastLambertConformal.java:52-59 | The closed form of the wrap satisfies the same range, fixed-point, interval and whole-turn guarantees as the loops. |
| `FastLambertConformal.NormalizedLonCharacterized` | java/tech/netcdf/FastLambertConformal.java:54-57 | `r` is the wrap of `v` exactly when `r` lies in the wrap interval of `v` and differs from `v` by whole turns. This holds in both directions. |
| `FastLambertConformal.WrapUnique` | java/tech/netcdf/FastLambertConformal.java:54-57 | At most one value lies in a given wrap interval and is a whole number of turns from `v`. |
| `FastLambertConformal.NormalizedLonIdempotent` | java/tech/netcdf/FastLambertConformal.java:52-59 | Wrapping twice gives the same result as wrapping once. |
| `FastLambertConformal.NormalizedLonOfInterior` | java/tech/netcdf/FastLambertConformal.java:54-57 | A value strictly inside `(-180, 180)` is the wrap of every input a whole number of turns away from it. |
| `FastLambertConformal.NormalizedLonOdd` | java/tech/netcdf/FastLambertConformal.java:54-57 | `lonNormal(-v) == -lonNormal(v)` for every `v`. |
| `FastLambertConformal.NormalizedLonPeriodic` | java/tech/netcdf/FastLambertConformal.java:54-57 | Adding 360 to the input leaves the result alone, unless the input is -180 (which stays at -180, while 180 stays at 180). |
| `FastLambertConformal.NormalizedLonSeam` | java/tech/netcdf/FastLambertConformal.java:54-57 | -180 and 180 are both fixed points. `540 → 180` and `-540 → -180`. |
| `FastLambertConformal.ConeConstant` | java/tech/netcdf/FastLambertConformal.java:37-42 | The cone constant `n`: the single-parallel branch or the log-ratio, `None` at a zero divisor. It has no `ensures` of its own; `ConeConstantBranch` states its behaviour. |
| `FastLambertConformal.Construct` | java/tech/netcdf/FastLambertConformal.java:22-50 | The constructor, building the `final` fields as a `Projector`, `None` at a zero divisor. It has no `ensures` of its own; `ConstructDefined`, `ConstructConeAndRho`, `ConstructKeepsOrigin` and `SingleParallel` state its behaviour. |
| `FastLambertConformal.ConeConstantBranch` | java/tech/netcdf/FastLambertConformal.java:37-42 | If `abs(par2 - par1) < 1e-6`, the cone constant is `sin(toRadians(par1))`. Otherwise it has a value exactly when `cos(par2r)`, `t1` and `log(t2 / t1)` are all nonzero, and that value is the log-ratio `log(cos par1r / cos par2r) / log(t2 / t1)`. |
| `FastLambertConformal.SingleParallel` | java/tech/netcdf/FastLambertConformal.java:37-38 | Equal parallels take the single-parallel branch: `n == sin(toRadians(par1))`. |
| `FastLambertConformal.ConstructKeepsOrigin` | java/tech/netcdf/FastLambertConformal.java:22-50 | A constructed projector keeps three inputs unchanged: the origin longitude, the false easting and the false northing. It sets `piOver4` to `PI/4`. Its `n` is nonzero. `earthRadiusTimesF` is `EARTH_RADIUS * F`, and `F` is `cos(par1r) * t1^n / n`. |
| `FastLambertConformal.ConstructDefined` | java/tech/netcdf/FastLambertConformal.java:37-49 | The constructor has a value exactly when three things hold: the cone constant has a value, it is nonzero (the divisor of `F`), and `t0^n` (the divisor of `rho`) is nonzero. |
| `FastLambertConformal.ConstructConeAndRho` | java/tech/netcdf/FastLambertConformal.java:47-49 | A constructed projector's `n` is the cone constant. Its `rho` is `earthRadiusTimesF / t0^n`, with `t0^n = pow(tan(PI/4 + lat0/2), n)` nonzero. |
| `FastLambertConformal.FirstParallelTrueScale` | java/tech/netcdf/FastLambertConformal.java:44-46 | Take a point on the first standard parallel and the origin meridian. Its `x` is the false easting. Its distance from the apex `r` satisfies `n * r == EARTH_RADIUS * cos(par1)`. So that parallel is drawn at true scale. |
| `FastLambertConformal.Theta` | java/tech/netcdf/FastLambertConformal.java:70-71 | The polar angle `n * toRadians(lonNormal(lon - lon0))`. It has no `ensures` of its own; `ThetaOpposite` and `ThetaMonotone` state its behaviour. |
| `FastLambertConformal.PointAtAngle` | java/tech/netcdf/FastLambertConformal.java:72-75 | The point of a latitude at a given polar angle, with the false origin added, `None` when `tn` is zero. It has no `ensures` of its own; `MirrorAngle` states its behaviour. |
| `FastLambertConformal.LatLonToProj` | java/tech/netcdf/FastLambertConformal.java:69-77 | `latLonToProj`, as `PointAtAngle` at angle `Theta`. It has no `ensures` of its own; `ProjectDefined`, `OriginProjectsToFalseOrigin`, `FirstParallelTrueScale`, `EastWestSymmetry` and `ParallelsAreCircles` state its behaviour. |
| `FastLambertConformal.ProjectDefined` | java/tech/netcdf/FastLambertConformal.java:72-73 | `latLonToProj` has a value exactly when `tn = pow(tan(PI_OVER_4 + fromLat/2), n)`, the divisor of `r`, is nonzero. |
| `FastLambertConformal.OriginProjectsToFalseOrigin` | java/tech/netcdf/FastLambertConformal.java:69-77 | `(originLat, originLon)` projects to exactly `(falseEasting, falseNorthing)`. |
| `FastLambertConformal.ThetaOpposite` | java/tech/netcdf/FastLambertConformal.java:70-71 | Longitudes `d` east and `d` west of the origin meridian get opposite polar angles `theta`, for every `d`. |
| `FastLambertConformal.MirrorAngle` | java/tech/netcdf/FastLambertConformal.java:72-75 | Assume sine is odd and cosine is even. Then angles `theta` and `-theta` at one latitude give points with equal `y` and opposite `x - falseEasting`. Either both have a value or neither does. |
| `FastLambertConformal.EastWestSymmetry` | java/tech/netcdf/FastLambertConformal.java:70-75 | Take `lon0 + d` and `lon0 - d` at one latitude. Either both project or neither does. They have equal `y`, and their `x - falseEasting` values are negatives of each other. This holds for every `d`. |
| `FastLambertConformal.ThetaMonotone` | java/tech/netcdf/FastLambertConformal.java:70-71 | Take longitudes within 180 of the origin meridian. `theta` strictly increases with longitude when `n > 0` and strictly decreases when `n < 0`. |
| `FastLambertConformal.ParallelsAreCircles` | java/tech/netcdf/FastLambertConformal.java:72-75 | Assume `sin² + cos² = 1`. Then every projected point of one latitude lies on the circle centred on the apex `(falseEasting, falseNorthing + rho)`, with radius `earthRadiusTimesF / t^n`. |

## Left out

- IEEE-754 rounding and floating-point accuracy. Doubles are `real`.
- `LonNormal` is proved to terminate on every real. The Java loops do not always terminate, and the model does not capture that. For `±Infinity`, and for any `|val|` of about 2^62 or more, `val - 360.0 == val` in doubles, so the first loop (or the second) never exits.
- The values of `Math.sin`, `cos`, `tan`, `log` and `pow`. They are uninterpreted, and nothing is checked against a reference projection.
- `Math.toRadians`: the model uses the real-number formula. The rounding of the library constant it multiplies by is not modelled.
- Infinities and NaN. A zero divisor yields `None`. Whatever IEEE arithmetic would do with the infinity or NaN afterwards is not modelled. That covers the poles (`lat = ±90`) and a zero cone constant. The log of a non-positive ratio is NaN in Java; here `log` is uninterpreted and is given some real value.
- No theorem says when the result is finite. The model has no notion of a finite double.
- The library types `LambertConformal`, `LatLonPoint`, `ProjectionPointImpl` and `ProjectionImpl` are not part of this model. They are replaced by the `LambertParams` record, the `EarthRadius` constant and the returned `ProjectionPoint`.
- Filling the caller's `result` object through `setLocation`. The point is returned as a value instead.
- Scaling with the earth radius. The radius is a fixed constant, not a parameter, so the code offers no such property.
- True scale on the second standard parallel. Proving it needs `pow(t, n) = exp(n log t)`, which the model does not assume.
- Continuity of `(x, y)` in longitude. The trigonometric functions are uninterpreted, so only the ordering of `theta` is proved (`ThetaMonotone`).
