/**
 * Position propositions: in front of, in the same lane, on a lanelet of a type, at a
 * traffic sign, on the right or left lane of the main carriageway, and whether a
 * traffic light is relevant.
 */
module Position {
  import opened Wrappers
  import opened World
  import opened EnvModel
  import opened Kleene
  import Boxes
  import Behavior

  // ---------------------------------------------------------------------------
  // In front of: the obstacle's rear against the ego's front.

  /** True when the rear lies beyond the ego's largest possible front, false when it lies at
   *  or behind its smallest possible front, unknown in between or without a rear. */
  function InFrontOfVerdict(ego: EgoView, t: nat, o: Obstacle): (r: Option<bool>)
    ensures r == Some(true) <==> Rear(o, t).Some? && ego.pLonMax(t) + ego.outerRadius < Rear(o, t).value
    ensures r == Some(false) <==> Rear(o, t).Some? && !(ego.pLonMax(t) + ego.outerRadius < Rear(o, t).value) &&
                                  ego.pLonMin(t) + ego.innerRadius >= Rear(o, t).value
  {
    match Rear(o, t)
    case None => None
    case Some(rear) =>
      if ego.pLonMax(t) + ego.outerRadius < rear then Some(true)
      else if ego.pLonMin(t) + ego.innerRadius >= rear then Some(false)
      else None
  }

  /** For every front position the ego may have, a definite verdict agrees with
   *  "the obstacle's rear lies ahead of the ego's front". */
  lemma InFrontOfSound(ego: EgoView, t: nat, o: Obstacle, front: real)
    requires ego.pLonMin(t) + ego.innerRadius <= front <= ego.pLonMax(t) + ego.outerRadius
    ensures InFrontOfVerdict(ego, t, o) == Some(true) ==> front < Rear(o, t).value
    ensures InFrontOfVerdict(ego, t, o) == Some(false) ==> !(front < Rear(o, t).value)
  {
  }

  /** With a rear coordinate the verdict is unknown exactly in the band front_min < rear <= front_max. */
  lemma InFrontOfUnknownBand(ego: EgoView, t: nat, o: Obstacle)
    requires Rear(o, t).Some?
    ensures InFrontOfVerdict(ego, t, o).None? <==>
      ego.pLonMin(t) + ego.innerRadius < Rear(o, t).value <= ego.pLonMax(t) + ego.outerRadius
  {
  }

  /** Against the behaviour over-approximation itself: for every state in the ego's box
   *  at step t and every front offset between the inner and the outer radius, a
   *  definite verdict agrees with "the rear lies ahead of the ego's front". */
  lemma InFrontOfSoundForBehavior(b: Behavior.BehaviorOverapproximation, ego: EgoView, t: nat, o: Obstacle,
                                  x: seq<real>, f: real)
    requires b.ViewedBy(ego) && b.offset <= t
    requires b.StateAt(t - b.offset).Ok? && Boxes.Contains(b.StateAt(t - b.offset).value, x)
    requires b.shrinkDelta <= f <= b.outerShapeBox.radius[0]
    ensures InFrontOfVerdict(ego, t, o) == Some(true) ==> x[0] + f < Rear(o, t).value
    ensures InFrontOfVerdict(ego, t, o) == Some(false) ==> !(x[0] + f < Rear(o, t).value)
  {
    b.ViewBoundsEnclose(ego, t, x);
    InFrontOfSound(ego, t, o, x[0] + f);
  }

  /** The per-step work reads the ego's position bounds, so a step raises when the ego's
   *  state box cannot be computed. */
  function InFrontOfClassifier(ego: EgoView): Classifier
  {
    Classifier(ego.stateRaises, (t: nat, o: Obstacle) => Ok(InFrontOfVerdict(ego, t, o)))
  }

  /** The in-front-of extraction raises exactly when the ego's state box of a requested
   *  step cannot be computed; otherwise an obstacle is true (false) at a step exactly
   *  when it is requested there and has a rear beyond the ego's largest front (at or behind
   *  its smallest front); obstacles without a rear get no entry. */
  lemma InFrontOfExtraction(ego: EgoView, scene: Scene, requests: Requests, t: nat, o: Obstacle)
    requires UniqueIds(scene.obstacles) && o in scene.obstacles
    ensures AnyRaises(requests, scene.obstacles, InFrontOfClassifier(ego)) <==>
      exists s :: s in requests && ego.stateRaises(s)
    ensures !AnyRaises(requests, scene.obstacles, InFrontOfClassifier(ego)) ==>
      var tab := Table(requests, scene.obstacles, InFrontOfClassifier(ego));
      ((t in tab && Some(o.id) in tab[t].trues) <==>
        t in requests && Some(o.id) in requests[t] && Rear(o, t).Some? &&
        ego.pLonMax(t) + ego.outerRadius < Rear(o, t).value) &&
      ((t in tab && Some(o.id) in tab[t].falses) <==>
        t in requests && Some(o.id) in requests[t] && Rear(o, t).Some? &&
        Rear(o, t).value <= ego.pLonMax(t) + ego.outerRadius && Rear(o, t).value <= ego.pLonMin(t) + ego.innerRadius)
  {
    var c := InFrontOfClassifier(ego);
    RaisesMeaning(requests, scene.obstacles, c);
    if !AnyRaises(requests, scene.obstacles, c) {
      TableAt(requests, scene.obstacles, c, t, o);
    }
  }

  // ---------------------------------------------------------------------------
  // In the same lane: the obstacle's lane ids against the ego's lanelets.

  function InSameLaneVerdict(ego: EgoView, t: nat, o: Obstacle): Option<bool>
  {
    match LaneIds(o, t)
    case None => None
    case Some(ids) => LaneletVerdict(ego.covered(t), ego.intersected(t), (l: Lanelet) => l.id in ids, (l: Lanelet) => l.id in ids)
  }

  function InSameLaneClassifier(ego: EgoView): Classifier
  {
    Classifier((t: nat) => false, (t: nat, o: Obstacle) => Ok(InSameLaneVerdict(ego, t, o)))
  }

  /** The in-same-lane extraction never raises; a requested obstacle with lane ids is false
   *  exactly when no covered ego lanelet is among them, and true exactly when it is not false
   *  and every intersected ego lanelet is among them; without lane ids it gets no entry. */
  lemma InSameLaneExtraction(ego: EgoView, scene: Scene, requests: Requests, t: nat, o: Obstacle)
    requires UniqueIds(scene.obstacles) && o in scene.obstacles
    ensures !AnyRaises(requests, scene.obstacles, InSameLaneClassifier(ego))
    ensures var tab := Table(requests, scene.obstacles, InSameLaneClassifier(ego));
      var covered, intersected := ego.covered(t), ego.intersected(t);
      ((t in tab && Some(o.id) in tab[t].falses) <==>
        t in requests && Some(o.id) in requests[t] && LaneIds(o, t).Some? &&
        forall i :: 0 <= i < |covered| ==> covered[i].id !in LaneIds(o, t).value) &&
      ((t in tab && Some(o.id) in tab[t].trues) <==>
        t in requests && Some(o.id) in requests[t] && LaneIds(o, t).Some? &&
        (exists i :: 0 <= i < |covered| && covered[i].id in LaneIds(o, t).value) &&
        forall i :: 0 <= i < |intersected| ==> intersected[i].id in LaneIds(o, t).value)
  {
    var c := InSameLaneClassifier(ego);
    NeverRaises(requests, scene.obstacles, c);
    TableAt(requests, scene.obstacles, c, t, o);
  }

  /** With no intersected ego lanelet, one shared covered lanelet already makes the obstacle
   *  true: the must-be-true test holds vacuously. */
  lemma InSameLaneVacuous(ego: EgoView, t: nat, o: Obstacle, k: nat)
    requires ego.intersected(t) == [] && LaneIds(o, t).Some?
    requires k < |ego.covered(t)| && ego.covered(t)[k].id in LaneIds(o, t).value
    ensures InSameLaneVerdict(ego, t, o) == Some(true)
  {
    var ids := LaneIds(o, t).value;
    LaneletVerdictVacuous(ego.covered(t), (l: Lanelet) => l.id in ids, (l: Lanelet) => l.id in ids, k);
  }

  // ---------------------------------------------------------------------------
  // Ego-only lanelet propositions.

  /** On a lanelet of type `ty`: no covered lanelet has it (false), or every intersected one does (true). */
  function OnLaneletWithTypeVerdicts(ego: EgoView, ty: LaneletType): nat -> Option<bool>
  {
    (t: nat) => LaneletVerdict(ego.covered(t), ego.intersected(t), (l: Lanelet) => ty in l.types, (l: Lanelet) => ty in l.types)
  }

  /** The ego is false at a requested step exactly when no covered lanelet has the type, and
   *  true exactly when some covered lanelet and every intersected lanelet has it. */
  lemma OnLaneletWithTypeExtraction(ego: EgoView, ty: LaneletType, requests: Requests, t: nat)
    ensures var tab := EgoTable(requests, OnLaneletWithTypeVerdicts(ego, ty));
      var covered, intersected := ego.covered(t), ego.intersected(t);
      ((t in tab && tab[t] == EgoEntry(false)) <==>
        t in requests && forall i :: 0 <= i < |covered| ==> ty !in covered[i].types) &&
      ((t in tab && tab[t] == EgoEntry(true)) <==>
        t in requests && (exists i :: 0 <= i < |covered| && ty in covered[i].types) &&
        forall i :: 0 <= i < |intersected| ==> ty in intersected[i].types)
  {
  }

  predicate HasSignOfType(l: Lanelet, ty: TrafficSignType)
  {
    exists k :: 0 <= k < |l.signs| && ty in l.signs[k].elements
  }

  /** The ids of the lanelets carrying a sign with an element of type `ty`. */
  function RelevantLaneletIds(lanelets: seq<Lanelet>, ty: TrafficSignType): (r: set<nat>)
    ensures forall id :: id in r <==> exists i :: 0 <= i < |lanelets| && lanelets[i].id == id && HasSignOfType(lanelets[i], ty)
  {
    set i | 0 <= i < |lanelets| && HasSignOfType(lanelets[i], ty) :: lanelets[i].id
  }

  /** At a traffic sign of type `ty`: false when no lanelet of the network has one, else the
   *  covered/intersected test on the relevant lanelets. */
  function AtTrafficSignVerdicts(ego: EgoView, scene: Scene, ty: TrafficSignType): nat -> Option<bool>
  {
    var relevant := RelevantLaneletIds(scene.lanelets, ty);
    (t: nat) =>
      if relevant == {} then Some(false)
      else LaneletVerdict(ego.covered(t), ego.intersected(t), (l: Lanelet) => l.id in relevant, (l: Lanelet) => l.id in relevant)
  }

  /** Without a relevant lanelet the ego is false at every requested step; otherwise it is
   *  false exactly when no covered lanelet is relevant and true exactly when some covered and
   *  every intersected lanelet is. */
  lemma AtTrafficSignExtraction(ego: EgoView, scene: Scene, ty: TrafficSignType, requests: Requests, t: nat)
    ensures var tab := EgoTable(requests, AtTrafficSignVerdicts(ego, scene, ty));
      var relevant := RelevantLaneletIds(scene.lanelets, ty);
      var covered, intersected := ego.covered(t), ego.intersected(t);
      (relevant == {} ==> (t in tab <==> t in requests) && (t in tab ==> tab[t] == EgoEntry(false))) &&
      (relevant != {} ==>
        ((t in tab && tab[t] == EgoEntry(false)) <==>
          t in requests && forall i :: 0 <= i < |covered| ==> covered[i].id !in relevant) &&
        ((t in tab && tab[t] == EgoEntry(true)) <==>
          t in requests && (exists i :: 0 <= i < |covered| && covered[i].id in relevant) &&
          forall i :: 0 <= i < |intersected| ==> intersected[i].id in relevant))
  {
  }

  /** A right lane of the main carriageway: a main-carriageway lanelet with no right
   *  neighbour, or whose right neighbour runs the same way and is not main carriageway. */
  predicate IsMcwRightLane(l: Lanelet)
  {
    (l.right.adj.None? ||
     (l.right.adj.Some? && !l.right.oppositeDir && MainCarriageway !in l.right.adj.value.types)) &&
    MainCarriageway in l.types
  }

  /** Which neighbours make a main-carriageway lanelet a right lane. */
  lemma McwRightLaneNeighbours(l: Lanelet)
    requires MainCarriageway in l.types
    ensures l.right.adj.None? ==> IsMcwRightLane(l)
    ensures l.right.adj.Some? && l.right.oppositeDir ==> !IsMcwRightLane(l)
    ensures l.right.adj.Some? && MainCarriageway in l.right.adj.value.types ==> !IsMcwRightLane(l)
    ensures l.right.adj.Some? && !l.right.oppositeDir && MainCarriageway !in l.right.adj.value.types ==> IsMcwRightLane(l)
  {
  }

  function McwRightLaneVerdicts(ego: EgoView): nat -> Option<bool>
  {
    (t: nat) => LaneletVerdict(ego.covered(t), ego.intersected(t), IsMcwRightLane, IsMcwRightLane)
  }

  lemma McwRightLaneExtraction(ego: EgoView, requests: Requests, t: nat)
    ensures var tab := EgoTable(requests, McwRightLaneVerdicts(ego));
      var covered, intersected := ego.covered(t), ego.intersected(t);
      ((t in tab && tab[t] == EgoEntry(false)) <==>
        t in requests && forall i :: 0 <= i < |covered| ==> !IsMcwRightLane(covered[i])) &&
      ((t in tab && tab[t] == EgoEntry(true)) <==>
        t in requests && (exists i :: 0 <= i < |covered| && IsMcwRightLane(covered[i])) &&
        forall i :: 0 <= i < |intersected| ==> IsMcwRightLane(intersected[i]))
  {
  }

  predicate IsMcw(l: Lanelet)
  {
    MainCarriageway in l.types
  }

  /** No left neighbour, or direction flags on the two sides of the shared border that disagree. */
  predicate IsLeftmost(l: Lanelet)
  {
    l.left.adj.None? || l.left.oppositeDir != l.left.adj.value.right.oppositeDir
  }

  predicate IsNeighbourOpposite(l: Lanelet)
  {
    l.left.oppositeDir
  }

  predicate McwLeftLaneMust(l: Lanelet)
  {
    IsMcw(l) && (IsLeftmost(l) || IsNeighbourOpposite(l))
  }

  /** Where the two lanelets agree on the direction flag of their shared border, the
   *  must-be-true test is: main carriageway and no left neighbour or an opposite one. */
  lemma McwLeftLaneConsistentFlags(l: Lanelet)
    requires l.left.adj.Some? ==> l.left.adj.value.right.oppositeDir == l.left.oppositeDir
    ensures McwLeftLaneMust(l) <==> IsMcw(l) && (l.left.adj.None? || l.left.oppositeDir)
  {
  }

  /** The false test asks only for the main carriageway; leftmost-ness is not examined there. */
  function McwLeftLaneVerdicts(ego: EgoView): nat -> Option<bool>
  {
    (t: nat) => LaneletVerdict(ego.covered(t), ego.intersected(t), IsMcw, McwLeftLaneMust)
  }

  lemma McwLeftLaneExtraction(ego: EgoView, requests: Requests, t: nat)
    ensures var tab := EgoTable(requests, McwLeftLaneVerdicts(ego));
      var covered, intersected := ego.covered(t), ego.intersected(t);
      ((t in tab && tab[t] == EgoEntry(false)) <==>
        t in requests && forall i :: 0 <= i < |covered| ==> !IsMcw(covered[i])) &&
      ((t in tab && tab[t] == EgoEntry(true)) <==>
        t in requests && (exists i :: 0 <= i < |covered| && IsMcw(covered[i])) &&
        forall i :: 0 <= i < |intersected| ==> McwLeftLaneMust(intersected[i]))
  {
  }

  /** A relevant traffic light: false when the network has none, unknown otherwise. */
  function RelevantTrafficLightVerdicts(scene: Scene): nat -> Option<bool>
  {
    (t: nat) => if scene.trafficLights == 0 then Some(false) else None
  }

  /** Never true; false at every requested step without traffic lights; nothing with them. */
  lemma RelevantTrafficLightExtraction(scene: Scene, requests: Requests)
    ensures var tab := EgoTable(requests, RelevantTrafficLightVerdicts(scene));
      (scene.trafficLights == 0 ==> tab.Keys == requests.Keys && forall t :: t in tab ==> tab[t] == EgoEntry(false)) &&
      (scene.trafficLights != 0 ==> tab == map[])
  {
  }
}
