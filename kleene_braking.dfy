/**
 * Keeping a safe distance to a preceding obstacle: the ego keeps it when, braking after
 * its reaction time, it stops before the point where the obstacle would stop when
 * braking as hard as it can.
 */
module Braking {
  import opened Wrappers
  import opened World
  import opened EnvModel
  import opened Kleene
  import Boxes
  import Behavior

  /** The ego's stopping distance from velocity v: braking distance at |a_lon_min| plus the
   *  distance covered during the reaction time, with negative velocities counted as zero. */
  function EgoStoppingDistance(ego: EgoView, v: real): (d: real)
    ensures v <= 0.0 ==> d == 0.0
    ensures v > 0.0 ==> d == StopAfter(0.0, v, ego.aLonMin) + ego.tReact * v
  {
    var clamped := if v < 0.0 then 0.0 else v;
    StopAfter(0.0, clamped, ego.aLonMin) + ego.tReact * clamped
  }

  /** With a non-negative reaction time the stopping distance is never negative. */
  lemma StoppingDistanceNonNegative(ego: EgoView, v: real)
    requires ego.tReact >= 0.0
    ensures EgoStoppingDistance(ego, v) >= 0.0
  {
  }

  /** The braking part grows with the velocity. */
  lemma BrakingMonotone(v: real, w: real, a: NonZeroReal)
    requires 0.0 <= v <= w
    ensures StopAfter(0.0, v, a) <= StopAfter(0.0, w, a)
  {
    var k := 2.0 * Abs(a);
    var bv, bw := StopAfter(0.0, v, a), StopAfter(0.0, w, a);
    assert k > 0.0;
    assert bv * k == v * v && bw * k == w * w;
    assert v * v <= w * w by {
      assert v * v <= v * w <= w * w;
    }
    assert (bw - bv) * k == w * w - v * v;
    NonNegativeFactor(bw - bv, k);
  }

  /** A product with a positive factor is non-negative only if the other factor is. */
  lemma NonNegativeFactor(x: real, k: real)
    requires k > 0.0 && x * k >= 0.0
    ensures x >= 0.0
  {
  }

  /** With a non-negative reaction time the stopping distance is monotone in the velocity. */
  lemma StoppingDistanceMonotone(ego: EgoView, v: real, w: real)
    requires ego.tReact >= 0.0 && v <= w
    ensures EgoStoppingDistance(ego, v) <= EgoStoppingDistance(ego, w)
  {
    var cv := if v < 0.0 then 0.0 else v;
    var cw := if w < 0.0 then 0.0 else w;
    BrakingMonotone(cv, cw, ego.aLonMin);
    assert ego.tReact * cv <= ego.tReact * cw;
  }

  /** The largest and smallest point where the ego may come to rest at step t. */
  function EgoStoppingMax(ego: EgoView, t: nat): real
  {
    ego.pLonMax(t) + EgoStoppingDistance(ego, ego.vMax(t)) + ego.outerRadius
  }

  function EgoStoppingMin(ego: EgoView, t: nat): real
  {
    ego.pLonMin(t) + EgoStoppingDistance(ego, ego.vMin(t)) + ego.innerRadius
  }

  /** True when the obstacle stops beyond the ego's largest stopping point, false when it
   *  stops at or before the smallest one, unknown in between or without a stopping point. */
  function SafeDistanceVerdict(ego: EgoView, t: nat, o: Obstacle): (r: Option<bool>)
    ensures r == Some(true) <==> StoppingS(o, t).Some? && EgoStoppingMax(ego, t) < StoppingS(o, t).value
    ensures r == Some(false) <==> StoppingS(o, t).Some? && !(EgoStoppingMax(ego, t) < StoppingS(o, t).value) &&
                                  EgoStoppingMin(ego, t) >= StoppingS(o, t).value
  {
    match StoppingS(o, t)
    case None => None
    case Some(s) =>
      if EgoStoppingMax(ego, t) < s then Some(true)
      else if EgoStoppingMin(ego, t) >= s then Some(false)
      else None
  }

  /**
   * Soundness: take any position p in [p_lon_min, p_lon_max], velocity v in [v_min, v_max]
   * and front offset f in [inner, outer] the ego may have.  With a non-negative reaction
   * time a definite verdict agrees with "the ego's stopping point lies before the
   * obstacle's".
   */
  lemma SafeDistanceSound(ego: EgoView, t: nat, o: Obstacle, p: real, v: real, f: real)
    requires ego.tReact >= 0.0
    requires ego.pLonMin(t) <= p <= ego.pLonMax(t) && ego.vMin(t) <= v <= ego.vMax(t)
    requires ego.innerRadius <= f <= ego.outerRadius
    ensures SafeDistanceVerdict(ego, t, o) == Some(true) ==> p + EgoStoppingDistance(ego, v) + f < StoppingS(o, t).value
    ensures SafeDistanceVerdict(ego, t, o) == Some(false) ==> !(p + EgoStoppingDistance(ego, v) + f < StoppingS(o, t).value)
  {
    StoppingDistanceMonotone(ego, v, ego.vMax(t));
    StoppingDistanceMonotone(ego, ego.vMin(t), v);
  }

  /** Against the behaviour over-approximation itself: for every state in the ego's box at
   *  step t, every velocity within the velocity bounds and every front offset between the
   *  inner and the outer radius, a definite verdict agrees with "the ego's stopping point
   *  lies before the obstacle's". */
  lemma SafeDistanceSoundForBehavior(b: Behavior.BehaviorOverapproximation, ego: EgoView, t: nat, o: Obstacle,
                                     x: seq<real>, v: real, f: real)
    requires ego.tReact >= 0.0
    requires b.ViewedBy(ego) && b.offset <= t
    requires b.StateAt(t - b.offset).Ok? && Boxes.Contains(b.StateAt(t - b.offset).value, x)
    requires ego.vMin(t) <= v <= ego.vMax(t)
    requires b.shrinkDelta <= f <= b.outerShapeBox.radius[0]
    ensures SafeDistanceVerdict(ego, t, o) == Some(true) ==> x[0] + EgoStoppingDistance(ego, v) + f < StoppingS(o, t).value
    ensures SafeDistanceVerdict(ego, t, o) == Some(false) ==> !(x[0] + EgoStoppingDistance(ego, v) + f < StoppingS(o, t).value)
  {
    b.ViewBoundsEnclose(ego, t, x);
    SafeDistanceSound(ego, t, o, x[0], v, f);
  }

  /** The per-step work reads the ego's position bounds, so a step raises when the ego's
   *  state box cannot be computed. */
  function SafeDistanceClassifier(ego: EgoView): Classifier
  {
    Classifier(ego.stateRaises, (t: nat, o: Obstacle) => Ok(SafeDistanceVerdict(ego, t, o)))
  }

  /** The safe-distance extraction raises exactly when the ego's state box of a requested
   *  step cannot be computed; otherwise a requested obstacle is true (false) at a step
   *  exactly when it has a stopping point beyond the ego's largest (at or before the ego's
   *  smallest, and not beyond its largest); without one it gets no entry. */
  lemma SafeDistanceExtraction(ego: EgoView, scene: Scene, requests: Requests, t: nat, o: Obstacle)
    requires UniqueIds(scene.obstacles) && o in scene.obstacles
    ensures AnyRaises(requests, scene.obstacles, SafeDistanceClassifier(ego)) <==>
      exists s :: s in requests && ego.stateRaises(s)
    ensures !AnyRaises(requests, scene.obstacles, SafeDistanceClassifier(ego)) ==>
      var tab := Table(requests, scene.obstacles, SafeDistanceClassifier(ego));
      ((t in tab && Some(o.id) in tab[t].trues) <==>
        t in requests && Some(o.id) in requests[t] && StoppingS(o, t).Some? &&
        EgoStoppingMax(ego, t) < StoppingS(o, t).value) &&
      ((t in tab && Some(o.id) in tab[t].falses) <==>
        t in requests && Some(o.id) in requests[t] && StoppingS(o, t).Some? &&
        StoppingS(o, t).value <= EgoStoppingMax(ego, t) && StoppingS(o, t).value <= EgoStoppingMin(ego, t))
  {
    var c := SafeDistanceClassifier(ego);
    RaisesMeaning(requests, scene.obstacles, c);
    if !AnyRaises(requests, scene.obstacles, c) {
      TableAt(requests, scene.obstacles, c, t, o);
    }
  }
}
