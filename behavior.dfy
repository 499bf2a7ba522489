/** The ego vehicle's set-based behaviour over-approximation
 *  (cpp/src/ego_behavior/behavior_overapproximation.cpp and its header):
 *  a box of longitudinal/lateral positions and velocities per time step,
 *  propagated by a constant-velocity model with bounded accelerations and
 *  cut by the admissible states; from it the occupancy (outer) and the
 *  guaranteed-occupancy (inner) position boxes. The state vector is
 *  (p_lon, v_lon, p_lat, v_lat). */
module Behavior {
  import opened Wrappers
  import opened Boxes
  import World

  /** time_step_t is a 64-bit unsigned integer. */
  const TimeStepModulus: nat := 0x1_0000_0000_0000_0000

  /** std::numeric_limits<double>::max() and ::min(), the latter being the
   *  smallest POSITIVE normal double 2^-1022, written out exactly. */
  const DoubleMax: real := 179769313486231570814527423731704356798070567525844996598917476803157260780028538760589558632766878171540458953514382464234321326889464182768467546703537516986049910576551282076245490090389328944075868508455133942304583236903222948165808559332123348274797826204144723168738177180919299881250404026184124858368.0
  const DoubleMinPositive: real := 1.0 / 44942328371557897693232629769725618340449424473557664318357520289433168951375240783177119330601884005280028469967848339414697442203604155623211857659868531094441973356216371319075554900311523529863270738021251442209537670585615720368478277635206809290837627671146574559986811484619929076208839082406056034304.0

  /** The initial state in curvilinear coordinates; the velocity
   *  components are velocity·cos(orientation) and velocity·sin(orientation). */
  datatype InitialState = InitialState(timeStep: nat, lonPosition: real, latPosition: real,
                                       lonVelocity: real, latVelocity: real)

  datatype EgoParameters = EgoParameters(
    aLonMin: real, aLonMax: real, aLatMin: real, aLatMax: real,
    vLonMin: real, vLonMax: real, vLatMin: real, vLatMax: real,
    initialState: InitialState,
    uncertaintyPLon: real, uncertaintyPLat: real, uncertaintyVLon: real, uncertaintyVLat: real,
    length: real, width: real, tReact: real)

  /** The defaults of ego_params.hpp. */
  function DefaultEgoParameters(): EgoParameters
  {
    EgoParameters(-11.5, 11.5, -2.0, 2.0, -13.9, 50.8, -4.0, 4.0,
                  InitialState(0, 0.0, 0.0, 0.0, 0.0),
                  0.01, 0.01, 0.01, 0.01, 4.5, 1.8, 0.3)
  }

  /** What the box constructor's assertions demand of the parameters:
   *  ordered bounds and non-negative uncertainties. */
  predicate ValidParameters(p: EgoParameters)
  {
    p.aLonMin <= p.aLonMax && p.aLatMin <= p.aLatMax &&
    p.vLonMin <= p.vLonMax && p.vLatMin <= p.vLatMax &&
    0.0 <= p.uncertaintyPLon && 0.0 <= p.uncertaintyPLat &&
    0.0 <= p.uncertaintyVLon && 0.0 <= p.uncertaintyVLat
  }

  lemma DefaultParametersValid()
    ensures ValidParameters(DefaultEgoParameters())
  {
  }

  /** make_system_matrix(dt): the 4x4 constant-velocity transition. */
  function SystemMatrix(dt: real): (a: seq<seq<real>>)
    ensures |a| == 4 && |a[0]| == 4 && |a[1]| == 4 && |a[2]| == 4 && |a[3]| == 4
    ensures 0.0 <= dt ==> PositiveMatrix(a, 4)
  {
    [[1.0, dt, 0.0, 0.0], [0.0, 1.0, 0.0, 0.0], [0.0, 0.0, 1.0, dt], [0.0, 0.0, 0.0, 1.0]]
  }

  /** The transition adds dt times each velocity to its position and
   *  keeps the velocities. */
  lemma SystemMatrixTransition(dt: real, x: seq<real>)
    requires |x| == 4
    ensures MatVec(SystemMatrix(dt), x) == [x[0] + dt * x[1], x[1], x[2] + dt * x[3], x[3]]
  {
    var a := SystemMatrix(dt);
    DotUnfold4(a[0], x);
    DotUnfold4(a[1], x);
    DotUnfold4(a[2], x);
    DotUnfold4(a[3], x);
    assert MatVec(a, x)[0] == x[0] + dt * x[1];
    assert MatVec(a, x)[1] == x[1];
    assert MatVec(a, x)[2] == x[2] + dt * x[3];
    assert MatVec(a, x)[3] == x[3];
  }

  /** The 4x2 input matrix of make_input_state_update. */
  function InputMatrix(dt: real): (b: seq<seq<real>>)
    ensures |b| == 4 && |b[0]| == 2 && |b[1]| == 2 && |b[2]| == 2 && |b[3]| == 2
    ensures 0.0 <= dt ==> PositiveMatrix(b, 2)
  {
    var half := dt * dt / 2.0;
    assert 0.0 <= dt ==> 0.0 <= half by {
      if 0.0 <= dt { MulNonNegative(dt, dt); }
    }
    [[half, 0.0], [dt, 0.0], [0.0, half], [0.0, dt]]
  }

  /** An acceleration a held for dt moves each position by dt²/2·a and
   *  each velocity by dt·a. */
  lemma InputMatrixEffect(dt: real, u: seq<real>)
    requires |u| == 2
    ensures MatVec(InputMatrix(dt), u) == [dt * dt / 2.0 * u[0], dt * u[0], dt * dt / 2.0 * u[1], dt * u[1]]
  {
    var b := InputMatrix(dt);
    DotUnfold2(b[0], u);
    DotUnfold2(b[1], u);
    DotUnfold2(b[2], u);
    DotUnfold2(b[3], u);
    assert MatVec(b, u)[0] == dt * dt / 2.0 * u[0];
    assert MatVec(b, u)[1] == dt * u[0];
    assert MatVec(b, u)[2] == dt * dt / 2.0 * u[1];
    assert MatVec(b, u)[3] == dt * u[1];
  }

  /** The effect on the state of an acceleration (lon, lat) held for dt. */
  function InputEffect(dt: real, acceleration: seq<real>): seq<real>
    requires |acceleration| == 2
  {
    MatVec(InputMatrix(dt), acceleration)
  }

  /** make_input_state_update(dt, params): the box of input effects over
   *  the admissible accelerations. */
  function InputStateUpdate(dt: real, p: EgoParameters): (u: Box)
    requires 0.0 <= dt && p.aLonMin <= p.aLonMax && p.aLatMin <= p.aLatMax
    ensures ValidDim(u, 4)
  {
    LinearMapPositive(InputMatrix(dt), FromBounds([p.aLonMin, p.aLatMin], [p.aLonMax, p.aLatMax]))
  }

  /** The input box holds the effect of every admissible acceleration. */
  lemma InputStateUpdateCoversAccelerations(dt: real, p: EgoParameters, acceleration: seq<real>)
    requires 0.0 <= dt && p.aLonMin <= p.aLonMax && p.aLatMin <= p.aLatMax
    requires |acceleration| == 2
    requires p.aLonMin <= acceleration[0] <= p.aLonMax && p.aLatMin <= acceleration[1] <= p.aLatMax
    ensures Contains(InputStateUpdate(dt, p), InputEffect(dt, acceleration))
  {
    var inputSet := FromBounds([p.aLonMin, p.aLatMin], [p.aLonMax, p.aLatMax]);
    assert Contains(inputSet, acceleration);
    LinearMapContains(InputMatrix(dt), inputSet, acceleration);
  }

  /** make_admissible_states as written: the position axes are bounded
   *  below by the smallest positive double, not by the most negative one. */
  function AdmissibleStatesAsWritten(p: EgoParameters): (r: Box)
    requires p.vLonMin <= p.vLonMax && p.vLatMin <= p.vLatMax
    ensures ValidDim(r, 4)
  {
    FromBounds([DoubleMinPositive, p.vLonMin, DoubleMinPositive, p.vLatMin],
               [DoubleMax, p.vLonMax, DoubleMax, p.vLatMax])
  }

  lemma AdmissibleAsWrittenMembership(p: EgoParameters, x: seq<real>)
    requires p.vLonMin <= p.vLonMax && p.vLatMin <= p.vLatMax && |x| == 4
    ensures Contains(AdmissibleStatesAsWritten(p), x) <==>
              DoubleMinPositive <= x[0] <= DoubleMax && p.vLonMin <= x[1] <= p.vLonMax &&
              DoubleMinPositive <= x[2] <= DoubleMax && p.vLatMin <= x[3] <= p.vLatMax
  {
    var r := AdmissibleStatesAsWritten(p);
    assert Lower(r) == [DoubleMinPositive, p.vLonMin, DoubleMinPositive, p.vLatMin];
    assert Upper(r) == [DoubleMax, p.vLonMax, DoubleMax, p.vLatMax];
  }

  /** make_admissible_states as evidently intended: velocities within the
   *  configured bounds and no bound on the positions. Over the reals the
   *  bound -DoubleMax serves; doubles would need another one, since
   *  from_bounds of lowest() and max() overflows. */
  function AdmissibleStates(p: EgoParameters): (r: Box)
    requires p.vLonMin <= p.vLonMax && p.vLatMin <= p.vLatMax
    ensures ValidDim(r, 4)
  {
    FromBounds([-DoubleMax, p.vLonMin, -DoubleMax, p.vLatMin], [DoubleMax, p.vLonMax, DoubleMax, p.vLatMax])
  }

  lemma AdmissibleMembership(p: EgoParameters, x: seq<real>)
    requires p.vLonMin <= p.vLonMax && p.vLatMin <= p.vLatMax && |x| == 4
    ensures Contains(AdmissibleStates(p), x) <==>
              -DoubleMax <= x[0] <= DoubleMax && p.vLonMin <= x[1] <= p.vLonMax &&
              -DoubleMax <= x[2] <= DoubleMax && p.vLatMin <= x[3] <= p.vLatMax
  {
    var r := AdmissibleStates(p);
    assert Lower(r) == [-DoubleMax, p.vLonMin, -DoubleMax, p.vLatMin];
    assert Upper(r) == [DoubleMax, p.vLonMax, DoubleMax, p.vLatMax];
  }

  /** As written, no state at or behind the origin of either curvilinear
   *  axis is admissible, whatever the parameters; the intended set keeps it. */
  lemma AdmissibleAsWrittenExcludesNonPositivePositions(p: EgoParameters, x: seq<real>)
    requires p.vLonMin <= p.vLonMax && p.vLatMin <= p.vLatMax
    requires |x| == 4 && p.vLonMin <= x[1] <= p.vLonMax && p.vLatMin <= x[3] <= p.vLatMax
    requires x[0] <= 0.0 || x[2] <= 0.0
    requires -DoubleMax <= x[0] <= DoubleMax && -DoubleMax <= x[2] <= DoubleMax
    ensures !Contains(AdmissibleStatesAsWritten(p), x)
    ensures Contains(AdmissibleStates(p), x)
  {
    AdmissibleAsWrittenMembership(p, x);
    AdmissibleMembership(p, x);
  }

  /** A concrete consequence: with the default parameters, an ego state box
   *  around p_lon = -10 has no admissible point as written, so the step
   *  that produces it throws; the intended admissible set keeps all of it. */
  lemma AdmissibleAsWrittenRejectsRearState()
    ensures Intersect(Box([-10.0, 0.0, 0.0, 0.0], [0.01, 0.01, 0.01, 0.01]),
                      AdmissibleStatesAsWritten(DefaultEgoParameters())).Err?
    ensures Intersect(Box([-10.0, 0.0, 0.0, 0.0], [0.01, 0.01, 0.01, 0.01]),
                      AdmissibleStates(DefaultEgoParameters())).Ok?
  {
    var b := Box([-10.0, 0.0, 0.0, 0.0], [0.01, 0.01, 0.01, 0.01]);
    var p := DefaultEgoParameters();
    var adm := AdmissibleStatesAsWritten(p);
    assert Lower(adm)[0] == DoubleMinPositive;
    assert IntersectionLower(b, adm)[0] == DoubleMinPositive;
    assert IntersectionUpper(b, adm)[0] == -9.99;
    var _ := Bounds(b);
    AdmissibleMembership(p, b.center);
    assert Contains(AdmissibleStates(p), b.center);
  }

  /** The inner radius: half the smaller of length and width. */
  function InnerRadius(length: real, width: real): real
  {
    if length > width then width / 2.0 else length / 2.0
  }

  /** compute_shrink_delta(length, width), with sqrt2 the square root of 2. */
  function ComputeShrinkDelta(length: real, width: real, sqrt2: real): real
  {
    sqrt2 * InnerRadius(length, width)
  }

  /** make_outer_shape_box: a square of half-side sideHalf around the
   *  origin, sideHalf being the half diagonal of the vehicle; it holds
   *  every point within that distance of the reference point, so the
   *  vehicle in any orientation. */
  function MakeOuterShapeBox(sideHalf: real): (r: Box)
    requires 0.0 <= sideHalf
    ensures ValidDim(r, 2)
    ensures forall x :: |x| == 2 && x[0] * x[0] + x[1] * x[1] <= sideHalf * sideHalf ==> Contains(r, x)
  {
    var r := Box([0.0, 0.0], [sideHalf, sideHalf]);
    assert forall x :: |x| == 2 && x[0] * x[0] + x[1] * x[1] <= sideHalf * sideHalf ==> Contains(r, x) by {
      forall x | |x| == 2 && x[0] * x[0] + x[1] * x[1] <= sideHalf * sideHalf ensures Contains(r, x) {
        SquareBound(x[0], x[1], sideHalf);
        SquareBound(x[1], x[0], sideHalf);
      }
    }
    r
  }

  lemma SquareNonNegative(a: real)
    ensures 0.0 <= a * a
  {
    if a < 0.0 {
      MulNonNegative(-a, -a);
      assert (-a) * (-a) == a * a;
    }
  }

  /** A number whose square is at most s² (s non-negative) lies in [-s, s]. */
  lemma SquareMonotone(a: real, s: real)
    requires 0.0 <= s && a * a <= s * s
    ensures -s <= a <= s
  {
    if a > s {
      SquareGrows(a, s);
      assert false;
    }
    if a < -s {
      SquareGrows(-a, s);
      assert false;
    }
  }

  lemma SquareGrows(a: real, s: real)
    requires 0.0 <= s < a
    ensures s * s < a * a
  {
    MulPositive(a - s, a + s);
    assert (a - s) * (a + s) == a * a - s * s;
  }

  lemma SquareBound(a: real, b: real, s: real)
    requires 0.0 <= s && a * a + b * b <= s * s
    ensures -s <= a <= s
  {
    SquareNonNegative(b);
    SquareMonotone(a, s);
  }

  /** The guaranteed (inner) radius never exceeds the occupancy (outer)
   *  radius: 2·(min(l, w)/2)² ≤ (l/2)² + (w/2)². */
  lemma InnerRadiusWithinOuterRadius(length: real, width: real, sqrt2: real, sideHalf: real)
    requires 0.0 <= length && 0.0 <= width
    requires 0.0 < sqrt2 && sqrt2 * sqrt2 == 2.0
    requires 0.0 <= sideHalf && sideHalf * sideHalf == (length / 2.0) * (length / 2.0) + (width / 2.0) * (width / 2.0)
    ensures 0.0 <= ComputeShrinkDelta(length, width, sqrt2) <= sideHalf
  {
    var inner := InnerRadius(length, width);
    var d := ComputeShrinkDelta(length, width, sqrt2);
    MulNonNegative(sqrt2, inner);
    assert d * d == 2.0 * (inner * inner) by {
      assert d * d == (sqrt2 * sqrt2) * (inner * inner);
    }
    assert inner * inner <= (length / 2.0) * (length / 2.0) by {
      MulMonotone(inner, inner, length / 2.0);
      MulMonotone(length / 2.0, inner, length / 2.0);
    }
    assert inner * inner <= (width / 2.0) * (width / 2.0) by {
      MulMonotone(inner, inner, width / 2.0);
      MulMonotone(width / 2.0, inner, width / 2.0);
    }
    SquareMonotone(d, sideHalf);
  }

  /** make_initial_center_approximation: the initial state as centre and
   *  the configured uncertainties as radii. */
  function InitialCenterApproximation(p: EgoParameters): (r: Box)
    requires ValidParameters(p)
    ensures ValidDim(r, 4)
    ensures Contains(r, [p.initialState.lonPosition, p.initialState.lonVelocity,
                         p.initialState.latPosition, p.initialState.latVelocity])
  {
    var s := p.initialState;
    var r := Box([s.lonPosition, s.lonVelocity, s.latPosition, s.latVelocity],
                 [p.uncertaintyPLon, p.uncertaintyVLon, p.uncertaintyPLat, p.uncertaintyVLat]);
    var _ := Bounds(r);
    r
  }

  /** The recursion of get_occupancy_approximation and
   *  get_occupancy_intersection_approximation as written, over 64-bit
   *  time steps: the call for t recurses on t - 1 (wrapping below zero)
   *  as long as the cache holds no more than (t - offset) mod 2^64
   *  entries. The result is the number of nested calls before the
   *  innermost one returns, or None when that exceeds fuel. */
  function OccupancyCallDepthAsWritten(cacheSize: nat, t: nat, offset: nat, fuel: nat): Option<nat>
    requires t < TimeStepModulus && offset < TimeStepModulus
    decreases fuel
  {
    var idx := (t - offset) % TimeStepModulus;
    if cacheSize > idx then Some(0)
    else if fuel == 0 then None
    else match OccupancyCallDepthAsWritten(cacheSize, (t - 1) % TimeStepModulus, offset, fuel - 1)
      case None => None
      case Some(d) => Some(d + 1)
  }

  /** Both occupancy caches start empty, so the first call never reaches
   *  a returning call, whatever the time step and however deep one looks. */
  lemma {:induction false} OccupancyRecursionNeverReturns(t: nat, offset: nat, fuel: nat)
    requires t < TimeStepModulus && offset < TimeStepModulus
    ensures OccupancyCallDepthAsWritten(0, t, offset, fuel) == None
    decreases fuel
  {
    if fuel > 0 {
      OccupancyRecursionNeverReturns((t - 1) % TimeStepModulus, offset, fuel - 1);
    }
  }

  class BehaviorOverapproximation {
    const systemMatrix: seq<seq<real>>
    const inputStateUpdate: Box
    const admissibleStates: Box
    const shrinkDelta: real
    const outerShapeBox: Box
    const offset: nat
    /** The step length and parameters the constants were made from. */
    ghost const dt: real
    ghost const params: EgoParameters
    var centerApproximation: seq<Box>
    var occupancyApproximation: seq<Box>
    var occupancyIntersectionApproximation: seq<Box>

    ghost predicate ConstantsValid()
    {
      0.0 <= dt && ValidParameters(params) &&
      systemMatrix == SystemMatrix(dt) &&
      inputStateUpdate == InputStateUpdate(dt, params) &&
      admissibleStates == AdmissibleStates(params) &&
      ValidDim(outerShapeBox, 2) && outerShapeBox.center == [0.0, 0.0] &&
      0.0 <= shrinkDelta <= outerShapeBox.radius[0] &&
      offset == params.initialState.timeStep
    }

    /** One propagation step: map, add the input effects, cut by the
     *  admissible states (which throws when nothing is left). */
    function Successor(prev: Box): (r: Result<Box, BoxError>)
      requires ConstantsValid() && ValidDim(prev, 4)
      ensures r.Ok? ==> ValidDim(r.value, 4)
    {
      Intersect(Sum(LinearMapPositive(systemMatrix, prev), inputStateUpdate), admissibleStates)
    }

    /** The state approximation k steps after the initial time step. */
    ghost function StateAt(k: nat): (r: Result<Box, BoxError>)
      requires ConstantsValid()
      ensures r.Ok? ==> ValidDim(r.value, 4)
      decreases k
    {
      if k == 0 then Ok(InitialCenterApproximation(params))
      else match StateAt(k - 1)
        case Err(e) => Err(e)
        case Ok(prev) => Successor(prev)
    }

    function Occupancy(center: Box): (r: Box)
      requires ConstantsValid() && ValidDim(center, 4)
      ensures ValidDim(r, 2)
    {
      Sum(ProjectToPositions(center), outerShapeBox)
    }

    function OccupancyIntersection(center: Box): (r: Box)
      requires ConstantsValid() && ValidDim(center, 4)
      ensures ValidDim(r, 2)
    {
      Shrink(ProjectToPositions(center), shrinkDelta)
    }

    /** The cached state boxes are those of the first steps. */
    ghost predicate CentersValid(centers: seq<Box>)
      requires ConstantsValid()
    {
      1 <= |centers| && forall k {:trigger centers[k]} :: 0 <= k < |centers| ==> StateAt(k) == Ok(centers[k])
    }

    /** A derived cache holds the occupancy (or guaranteed-occupancy) box of
     *  the first cached states. */
    ghost predicate DerivedValid(derived: seq<Box>, centers: seq<Box>, outer: bool)
      requires ConstantsValid() && CentersValid(centers)
    {
      |derived| <= |centers| &&
      forall k :: 0 <= k < |derived| ==>
        derived[k] == if outer then Occupancy(centers[k]) else OccupancyIntersection(centers[k])
    }

    ghost predicate Valid()
      reads this
    {
      ConstantsValid() && CentersValid(centerApproximation) &&
      DerivedValid(occupancyApproximation, centerApproximation, true) &&
      DerivedValid(occupancyIntersectionApproximation, centerApproximation, false)
    }

    lemma CentersExtend(centers: seq<Box>, next: Box)
      requires ConstantsValid() && CentersValid(centers)
      requires Successor(centers[|centers| - 1]) == Ok(next)
      ensures CentersValid(centers + [next])
    {
      assert StateAt(|centers|) == Ok(next);
    }

    lemma DerivedExtend(derived: seq<Box>, centers: seq<Box>, outer: bool)
      requires ConstantsValid() && CentersValid(centers) && DerivedValid(derived, centers, outer)
      requires |derived| < |centers|
      ensures DerivedValid(derived + [if outer then Occupancy(centers[|derived|])
                                      else OccupancyIntersection(centers[|derived|])], centers, outer)
    {
    }

    lemma DerivedExtendCenters(derived: seq<Box>, centers: seq<Box>, longer: seq<Box>, outer: bool)
      requires ConstantsValid() && CentersValid(centers) && CentersValid(longer) && centers <= longer
      requires DerivedValid(derived, centers, outer)
      ensures DerivedValid(derived, longer, outer)
    {
    }

    /** Appending the successor of the last cached state keeps every cache valid. */
    lemma ValidExtend(centers: seq<Box>, next: Box)
      requires ConstantsValid() && CentersValid(centers)
      requires DerivedValid(occupancyApproximation, centers, true)
      requires DerivedValid(occupancyIntersectionApproximation, centers, false)
      requires Successor(centers[|centers| - 1]) == Ok(next)
      ensures CentersValid(centers + [next])
      ensures DerivedValid(occupancyApproximation, centers + [next], true)
      ensures DerivedValid(occupancyIntersectionApproximation, centers + [next], false)
    {
      CentersExtend(centers, next);
      DerivedExtendCenters(occupancyApproximation, centers, centers + [next], true);
      DerivedExtendCenters(occupancyIntersectionApproximation, centers, centers + [next], false);
    }

    /** The constructor; sqrt2 is the square root of 2 and sideHalf the
     *  square root of (length/2)² + (width/2)², both taken as given and
     *  pinned down by their squares. The admissible states are the corrected
     *  box (AdmissibleStates), not the one written with DBL_MIN. */
    constructor (dt: real, p: EgoParameters, sqrt2: real, sideHalf: real)
      requires 0.0 <= dt && ValidParameters(p)
      requires 0.0 <= p.length && 0.0 <= p.width
      requires 0.0 < sqrt2 && sqrt2 * sqrt2 == 2.0
      requires 0.0 <= sideHalf && sideHalf * sideHalf == (p.length / 2.0) * (p.length / 2.0) + (p.width / 2.0) * (p.width / 2.0)
      ensures Valid()
      ensures systemMatrix == SystemMatrix(dt) && inputStateUpdate == InputStateUpdate(dt, p)
      ensures admissibleStates == AdmissibleStates(p)
      ensures 0.0 <= shrinkDelta <= outerShapeBox.radius[0]
      ensures this.dt == dt && params == p && offset == p.initialState.timeStep
      ensures shrinkDelta == ComputeShrinkDelta(p.length, p.width, sqrt2)
      ensures outerShapeBox == MakeOuterShapeBox(sideHalf)
      ensures centerApproximation == [InitialCenterApproximation(p)]
      ensures occupancyApproximation == [] && occupancyIntersectionApproximation == []
    {
      InnerRadiusWithinOuterRadius(p.length, p.width, sqrt2, sideHalf);
      this.dt := dt;
      params := p;
      systemMatrix := SystemMatrix(dt);
      inputStateUpdate := InputStateUpdate(dt, p);
      admissibleStates := AdmissibleStates(p);
      shrinkDelta := ComputeShrinkDelta(p.length, p.width, sqrt2);
      outerShapeBox := MakeOuterShapeBox(sideHalf);
      offset := p.initialState.timeStep;
      centerApproximation := [InitialCenterApproximation(p)];
      occupancyApproximation := [];
      occupancyIntersectionApproximation := [];
    }

    /** One round of the loop in get_center_approximation: propagates the
     *  last cached state box one step and appends the result, or reports
     *  the failure of the intersection and leaves the cache as it was. */
    method AppendNextCenter() returns (r: Result<Box, BoxError>)
      requires Valid()
      modifies this`centerApproximation
      ensures Valid()
      ensures r == StateAt(|old(centerApproximation)|)
      ensures r.Ok? ==> centerApproximation == old(centerApproximation) + [r.value]
      ensures r.Err? ==> centerApproximation == old(centerApproximation)
    {
      var centers := centerApproximation;
      var k := |centers|;
      assert StateAt(k - 1) == Ok(centers[k - 1]);
      r := Successor(centers[k - 1]);
      if r.Ok? {
        ValidExtend(centers, r.value);
        centerApproximation := centers + [r.value];
      }
    }

    /** get_center_approximation(t): fills the cache up to step t, one
     *  step after the other, and returns the state box for t; a step whose
     *  box has no admissible point throws, leaving the steps before it
     *  cached. */
    method GetCenterApproximation(t: nat) returns (r: Result<Box, BoxError>)
      requires Valid() && offset <= t
      modifies this`centerApproximation
      ensures Valid()
      ensures r == StateAt(t - offset)
      ensures old(centerApproximation) <= centerApproximation
      ensures r.Ok? ==> t - offset < |centerApproximation|
      ensures |centerApproximation| <= if t - offset < |old(centerApproximation)| then |old(centerApproximation)| else t - offset + 1
    {
      var idx := t - offset;
      while |centerApproximation| <= idx
        invariant Valid()
        invariant old(centerApproximation) <= centerApproximation
        invariant |centerApproximation| <= if idx < |old(centerApproximation)| then |old(centerApproximation)| else idx + 1
        decreases idx - |centerApproximation|
      {
        var k := |centerApproximation|;
        var next := AppendNextCenter();
        if next.Err? {
          StateErrPersists(k, idx);
          return next;
        }
      }
      r := Ok(centerApproximation[idx]);
    }

    /** Once a step has no admissible state, no later step has one. */
    lemma {:induction false} StateErrPersists(k: nat, m: nat)
      requires ConstantsValid() && k <= m && StateAt(k).Err?
      ensures StateAt(m) == StateAt(k)
      decreases m - k
    {
      if k < m {
        StateErrPersists(k, m - 1);
      }
    }

    /** Over-approximation: a state inside the box for step k that is
     *  driven by an admissible acceleration for one step into an admissible
     *  state lies inside the box for step k + 1. */
    lemma ReachableStateCovered(k: nat, x: seq<real>, acceleration: seq<real>)
      requires ConstantsValid() && StateAt(k).Ok? && Contains(StateAt(k).value, x)
      requires |acceleration| == 2
      requires params.aLonMin <= acceleration[0] <= params.aLonMax
      requires params.aLatMin <= acceleration[1] <= params.aLatMax
      requires Contains(admissibleStates, Add(MatVec(systemMatrix, x), InputEffect(dt, acceleration)))
      ensures StateAt(k + 1).Ok?
      ensures Contains(StateAt(k + 1).value, Add(MatVec(systemMatrix, x), InputEffect(dt, acceleration)))
    {
      var mapped := LinearMapPositive(systemMatrix, StateAt(k).value);
      LinearMapContains(systemMatrix, StateAt(k).value, x);
      InputStateUpdateCoversAccelerations(dt, params, acceleration);
      var summed := Sum(mapped, inputStateUpdate);
      var next := Add(MatVec(systemMatrix, x), InputEffect(dt, acceleration));
      SumContains(mapped, inputStateUpdate, MatVec(systemMatrix, x), InputEffect(dt, acceleration));
      IntersectExact(summed, admissibleStates, next);
    }

    /** Every state box after the initial one lies inside the admissible states. */
    lemma LaterStatesAdmissible(k: nat)
      requires ConstantsValid() && 0 < k && StateAt(k).Ok?
      ensures SubBox(StateAt(k).value, admissibleStates)
    {
    }

    /** Positions guaranteed to be occupied lie within the projected
     *  state box, and that within the occupancy box. */
    lemma OccupancyNesting(center: Box, x: seq<real>)
      requires ConstantsValid() && ValidDim(center, 4)
      requires Contains(OccupancyIntersection(center), x)
      ensures Contains(ProjectToPositions(center), x)
      ensures Contains(Occupancy(center), x)
    {
      var zero := [0.0, 0.0];
      assert Contains(outerShapeBox, zero);
      assert Add(x, zero) == x;
    }

    /** get_occupancy_approximation(t), filling its cache step by step
     *  from the first missing step up to t. */
    method GetOccupancyApproximation(t: nat) returns (r: Result<Box, BoxError>)
      requires Valid() && offset <= t
      modifies this`centerApproximation, this`occupancyApproximation
      ensures Valid()
      ensures r.Ok? <==> StateAt(t - offset).Ok?
      ensures r.Ok? ==> r.value == Occupancy(StateAt(t - offset).value)
      ensures old(occupancyApproximation) <= occupancyApproximation
      ensures r.Ok? ==> t - offset < |occupancyApproximation|
    {
      var idx := t - offset;
      while |occupancyApproximation| <= idx
        invariant Valid()
        invariant old(occupancyApproximation) <= occupancyApproximation
        decreases idx - |occupancyApproximation|
      {
        var k := |occupancyApproximation|;
        var center := GetCenterApproximation(offset + k);
        if center.Err? {
          StateErrPersists(k, idx);
          return Err(center.error);
        }
        DerivedExtend(occupancyApproximation, centerApproximation, true);
        occupancyApproximation := occupancyApproximation + [Occupancy(center.value)];
      }
      assert StateAt(idx) == Ok(centerApproximation[idx]);
      r := Ok(occupancyApproximation[idx]);
    }

    /** get_occupancy_intersection_approximation(t), filled like the above. */
    method GetOccupancyIntersectionApproximation(t: nat) returns (r: Result<Box, BoxError>)
      requires Valid() && offset <= t
      modifies this`centerApproximation, this`occupancyIntersectionApproximation
      ensures Valid()
      ensures r.Ok? <==> StateAt(t - offset).Ok?
      ensures r.Ok? ==> r.value == OccupancyIntersection(StateAt(t - offset).value)
      ensures old(occupancyIntersectionApproximation) <= occupancyIntersectionApproximation
      ensures r.Ok? ==> t - offset < |occupancyIntersectionApproximation|
    {
      var idx := t - offset;
      while |occupancyIntersectionApproximation| <= idx
        invariant Valid()
        invariant old(occupancyIntersectionApproximation) <= occupancyIntersectionApproximation
        decreases idx - |occupancyIntersectionApproximation|
      {
        var k := |occupancyIntersectionApproximation|;
        var center := GetCenterApproximation(offset + k);
        if center.Err? {
          StateErrPersists(k, idx);
          return Err(center.error);
        }
        DerivedExtend(occupancyIntersectionApproximation, centerApproximation, false);
        occupancyIntersectionApproximation := occupancyIntersectionApproximation + [OccupancyIntersection(center.value)];
      }
      assert StateAt(idx) == Ok(centerApproximation[idx]);
      r := Ok(occupancyIntersectionApproximation[idx]);
    }

    /** The bound accessors p_lon_min … v_lat_max: one bound of one axis
     *  of the state box for t (axis 0 p_lon, 1 v_lon, 2 p_lat, 3 v_lat). */
    method StateBound(t: nat, axis: nat, upper: bool) returns (r: Result<real, BoxError>)
      requires Valid() && offset <= t && axis < 4
      modifies this`centerApproximation
      ensures Valid()
      ensures r.Ok? <==> StateAt(t - offset).Ok?
      ensures r.Ok? && !upper ==> r.value == Lower(StateAt(t - offset).value)[axis]
      ensures r.Ok? && upper ==> r.value == Upper(StateAt(t - offset).value)[axis]
      ensures r.Ok? ==> forall x :: Contains(StateAt(t - offset).value, x) ==>
                          if upper then x[axis] <= r.value else r.value <= x[axis]
    {
      var box := GetCenterApproximation(t);
      if box.Err? {
        return Err(box.error);
      }
      var (lo, hi) := Bounds(box.value);
      r := Ok(if upper then hi[axis] else lo[axis]);
    }

    method PLonMin(t: nat) returns (r: Result<real, BoxError>)
      requires Valid() && offset <= t
      modifies this`centerApproximation
      ensures Valid()
      ensures r.Ok? <==> StateAt(t - offset).Ok?
      ensures r.Ok? ==> r.value == Lower(StateAt(t - offset).value)[0]
    {
      r := StateBound(t, 0, false);
    }

    method PLonMax(t: nat) returns (r: Result<real, BoxError>)
      requires Valid() && offset <= t
      modifies this`centerApproximation
      ensures Valid()
      ensures r.Ok? <==> StateAt(t - offset).Ok?
      ensures r.Ok? ==> r.value == Upper(StateAt(t - offset).value)[0]
    {
      r := StateBound(t, 0, true);
    }

    method PLatMin(t: nat) returns (r: Result<real, BoxError>)
      requires Valid() && offset <= t
      modifies this`centerApproximation
      ensures Valid()
      ensures r.Ok? <==> StateAt(t - offset).Ok?
      ensures r.Ok? ==> r.value == Lower(StateAt(t - offset).value)[2]
    {
      r := StateBound(t, 2, false);
    }

    method PLatMax(t: nat) returns (r: Result<real, BoxError>)
      requires Valid() && offset <= t
      modifies this`centerApproximation
      ensures Valid()
      ensures r.Ok? <==> StateAt(t - offset).Ok?
      ensures r.Ok? ==> r.value == Upper(StateAt(t - offset).value)[2]
    {
      r := StateBound(t, 2, true);
    }

    method VLonMin(t: nat) returns (r: Result<real, BoxError>)
      requires Valid() && offset <= t
      modifies this`centerApproximation
      ensures Valid()
      ensures r.Ok? <==> StateAt(t - offset).Ok?
      ensures r.Ok? ==> r.value == Lower(StateAt(t - offset).value)[1]
    {
      r := StateBound(t, 1, false);
    }

    method VLonMax(t: nat) returns (r: Result<real, BoxError>)
      requires Valid() && offset <= t
      modifies this`centerApproximation
      ensures Valid()
      ensures r.Ok? <==> StateAt(t - offset).Ok?
      ensures r.Ok? ==> r.value == Upper(StateAt(t - offset).value)[1]
    {
      r := StateBound(t, 1, true);
    }

    method VLatMin(t: nat) returns (r: Result<real, BoxError>)
      requires Valid() && offset <= t
      modifies this`centerApproximation
      ensures Valid()
      ensures r.Ok? <==> StateAt(t - offset).Ok?
      ensures r.Ok? ==> r.value == Lower(StateAt(t - offset).value)[3]
    {
      r := StateBound(t, 3, false);
    }

    method VLatMax(t: nat) returns (r: Result<real, BoxError>)
      requires Valid() && offset <= t
      modifies this`centerApproximation
      ensures Valid()
      ensures r.Ok? <==> StateAt(t - offset).Ok?
      ensures r.Ok? ==> r.value == Upper(StateAt(t - offset).value)[3]
    {
      r := StateBound(t, 3, true);
    }

    /** What the extractors read from the ego's over-approximation is this
     *  object's: from the initial step on, a step raises exactly when its
     *  state box is empty, and otherwise p_lon_min/p_lon_max are the box's
     *  longitudinal bounds; the inner and outer radii are get_inner_radius()
     *  and get_outer_radius(). */
    ghost predicate ViewedBy(ego: World.EgoView)
    {
      ConstantsValid() &&
      ego.innerRadius == shrinkDelta && ego.outerRadius == outerShapeBox.radius[0] &&
      forall t {:trigger ego.stateRaises(t)} :: offset <= t ==>
        (ego.stateRaises(t) <==> StateAt(t - offset).Err?) &&
        (StateAt(t - offset).Ok? ==>
           ego.pLonMin(t) == Lower(StateAt(t - offset).value)[0] &&
           ego.pLonMax(t) == Upper(StateAt(t - offset).value)[0])
    }

    /** Under that view the radii are ordered, and for every state in the box
     *  of a step the step does not raise and its bounds enclose the state's
     *  longitudinal position. */
    lemma ViewBoundsEnclose(ego: World.EgoView, t: nat, x: seq<real>)
      requires ViewedBy(ego) && offset <= t
      requires StateAt(t - offset).Ok? && Contains(StateAt(t - offset).value, x)
      ensures 0.0 <= ego.innerRadius <= ego.outerRadius
      ensures !ego.stateRaises(t)
      ensures ego.pLonMin(t) <= x[0] <= ego.pLonMax(t)
    {
      assert ego.stateRaises(t) <==> StateAt(t - offset).Err?;
    }
  }
}
