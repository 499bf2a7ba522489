/**
 * Priority propositions at intersections.  The ego vehicle's priority for its turning
 * direction is only known as a range [ego_min, ego_max]; an obstacle's priority for its
 * turning direction is a single number.  The smallest `int` is a sentinel for "no
 * priority", under which neither party has priority.
 */
module Regulatory {
  import opened Wrappers
  import opened World
  import opened EnvModel
  import opened Kleene

  datatype PriorityMode = EgoHasPriority | OtherHasPriority | SamePriority

  function EgoHasPrio(egoMin: Int32, egoMax: Int32, obs: Int32): (r: Option<bool>)
    ensures r == Some(true) <==> egoMin > obs && egoMin != IntMin && obs != IntMin
    ensures r == Some(false) <==> !(egoMin > obs && egoMin != IntMin && obs != IntMin) &&
                                  (egoMax <= obs || egoMax == IntMin || obs == IntMin)
  {
    if egoMin > obs && egoMin != IntMin && obs != IntMin then Some(true)
    else if egoMax <= obs || egoMax == IntMin || obs == IntMin then Some(false)
    else None
  }

  function OtherHasPrio(egoMin: Int32, egoMax: Int32, obs: Int32): (r: Option<bool>)
    ensures r == Some(true) <==> obs > egoMax && egoMin != IntMin && obs != IntMin
    ensures r == Some(false) <==> !(obs > egoMax && egoMin != IntMin && obs != IntMin) &&
                                  (obs <= egoMin || egoMax == IntMin || obs == IntMin)
  {
    if obs > egoMax && egoMin != IntMin && obs != IntMin then Some(true)
    else if obs <= egoMin || egoMax == IntMin || obs == IntMin then Some(false)
    else None
  }

  /** Equal priority: false once either party definitely has priority, true once neither can. */
  function SamePrio(egoMin: Int32, egoMax: Int32, obs: Int32): (r: Option<bool>)
    ensures r == Some(false) <==> EgoHasPrio(egoMin, egoMax, obs) == Some(true) || OtherHasPrio(egoMin, egoMax, obs) == Some(true)
    ensures r == Some(true) <==> EgoHasPrio(egoMin, egoMax, obs) == Some(false) && OtherHasPrio(egoMin, egoMax, obs) == Some(false)
  {
    var ego := EgoHasPrio(egoMin, egoMax, obs);
    if ego == Some(true) then Some(false)
    else
      var other := OtherHasPrio(egoMin, egoMax, obs);
      if other == Some(true) then Some(false)
      else if ego == Some(false) && other == Some(false) then Some(true)
      else None
  }

  function PrioVerdict(mode: PriorityMode, egoMin: Int32, egoMax: Int32, obs: Int32): Option<bool>
  {
    match mode
    case EgoHasPriority => EgoHasPrio(egoMin, egoMax, obs)
    case OtherHasPriority => OtherHasPrio(egoMin, egoMax, obs)
    case SamePriority => SamePrio(egoMin, egoMax, obs)
  }

  /**
   * Soundness against the exact comparison: when neither side is the sentinel and the
   * ego's actual priority p lies in its range, a definite verdict agrees with comparing
   * p with the obstacle's priority.
   */
  lemma PrioVerdictSound(egoMin: Int32, egoMax: Int32, obs: Int32, p: int)
    requires egoMin <= p <= egoMax
    requires egoMin != IntMin && egoMax != IntMin && obs != IntMin
    ensures EgoHasPrio(egoMin, egoMax, obs).Some? ==> EgoHasPrio(egoMin, egoMax, obs).value == (p > obs)
    ensures OtherHasPrio(egoMin, egoMax, obs).Some? ==> OtherHasPrio(egoMin, egoMax, obs).value == (obs > p)
    ensures SamePrio(egoMin, egoMax, obs).Some? ==> SamePrio(egoMin, egoMax, obs).value == (p == obs)
  {
    var ego, other := EgoHasPrio(egoMin, egoMax, obs), OtherHasPrio(egoMin, egoMax, obs);
    assert ego.Some? ==> ego == Some(true) || ego == Some(false);
    assert other.Some? ==> other == Some(true) || other == Some(false);
    var same := SamePrio(egoMin, egoMax, obs);
    assert same.Some? ==> same == Some(true) || same == Some(false);
  }

  /** For an ordered range the two parties never both have priority. */
  lemma NeverBothHavePriority(egoMin: Int32, egoMax: Int32, obs: Int32)
    requires egoMin <= egoMax
    ensures !(EgoHasPrio(egoMin, egoMax, obs) == Some(true) && OtherHasPrio(egoMin, egoMax, obs) == Some(true))
  {
  }

  /** The sentinel on the obstacle or on the maximum of an ordered ego range: nobody has
   *  priority, so the priorities count as the same. */
  lemma SentinelMeansSame(egoMin: Int32, egoMax: Int32, obs: Int32)
    requires egoMin <= egoMax
    requires obs == IntMin || egoMax == IntMin
    ensures EgoHasPrio(egoMin, egoMax, obs) == Some(false)
    ensures OtherHasPrio(egoMin, egoMax, obs) == Some(false)
    ensures SamePrio(egoMin, egoMax, obs) == Some(true)
  {
  }

  /** An obstacle's verdict: unknown without a priority prediction, else the mode's test
   *  against the ego's range for the ego's direction at that step. */
  function PriorityVerdict(ego: EgoView, mode: PriorityMode, egoTurn: Direction, otherTurn: Direction,
                           t: nat, o: Obstacle): Option<bool>
  {
    match Priority(o, t, otherTurn)
    case None => None
    case Some(p) => PrioVerdict(mode, ego.priorityRange(t, egoTurn).0, ego.priorityRange(t, egoTurn).1, p)
  }

  function PriorityClassifier(ego: EgoView, mode: PriorityMode, egoTurn: Direction, otherTurn: Direction): Classifier
  {
    Classifier((t: nat) => false, (t: nat, o: Obstacle) => Ok(PriorityVerdict(ego, mode, egoTurn, otherTurn, t, o)))
  }

  /**
   * The priority extraction: it never raises; a requested obstacle is true (false) at a
   * step exactly when it has a priority prediction for the extractor's other direction and
   * the mode's test against the ego's range for the ego direction says true (false);
   * without a prediction it gets no entry.
   */
  lemma PriorityExtraction(ego: EgoView, mode: PriorityMode, egoTurn: Direction, otherTurn: Direction,
                           scene: Scene, requests: Requests, t: nat, o: Obstacle)
    requires UniqueIds(scene.obstacles) && o in scene.obstacles
    ensures !AnyRaises(requests, scene.obstacles, PriorityClassifier(ego, mode, egoTurn, otherTurn))
    ensures var tab := Table(requests, scene.obstacles, PriorityClassifier(ego, mode, egoTurn, otherTurn));
      var range := ego.priorityRange(t, egoTurn);
      ((t in tab && Some(o.id) in tab[t].trues) <==>
        t in requests && Some(o.id) in requests[t] && (t, otherTurn) in o.priorities &&
        PrioVerdict(mode, range.0, range.1, o.priorities[(t, otherTurn)]) == Some(true)) &&
      ((t in tab && Some(o.id) in tab[t].falses) <==>
        t in requests && Some(o.id) in requests[t] && (t, otherTurn) in o.priorities &&
        PrioVerdict(mode, range.0, range.1, o.priorities[(t, otherTurn)]) == Some(false))
  {
    var c := PriorityClassifier(ego, mode, egoTurn, otherTurn);
    NeverRaises(requests, scene.obstacles, c);
    TableAt(requests, scene.obstacles, c, t, o);
    PriorityClassified(ego, mode, egoTurn, otherTurn, t, o);
  }

  /** The priority classifier's answer for one obstacle at one step. */
  lemma PriorityClassified(ego: EgoView, mode: PriorityMode, egoTurn: Direction, otherTurn: Direction,
                           t: nat, o: Obstacle)
    ensures var range := ego.priorityRange(t, egoTurn);
      PriorityClassifier(ego, mode, egoTurn, otherTurn).classify(t, o) ==
        Ok(if (t, otherTurn) in o.priorities then PrioVerdict(mode, range.0, range.1, o.priorities[(t, otherTurn)]) else None)
  {
  }
}
