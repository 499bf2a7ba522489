/**
 * Cut-in: an obstacle cannot cut into the ego's lane when it occupies a single lane or
 * shares no lanelet with the lanelets the ego may cover.  The extractor only ever
 * reports false.
 */
module General {
  import opened Wrappers
  import opened World
  import opened EnvModel
  import opened Kleene

  /**
   * The cut-in classification of one obstacle.  A failing single-lane evaluation gives
   * no knowledge; a single lane gives false.  Otherwise the lane ids are read without a
   * check, so their absence raises; no shared covered lanelet gives false, anything else
   * no knowledge.
   */
  function CutInVerdict(ego: EgoView, t: nat, o: Obstacle): (r: Verdict)
    ensures r != Ok(Some(true))
    ensures r == Ok(Some(false)) <==>
      t in o.inSingleLane && (o.inSingleLane[t] ||
        (LaneIds(o, t).Some? && forall i :: 0 <= i < |ego.covered(t)| ==> ego.covered(t)[i].id !in LaneIds(o, t).value))
    ensures r.Err? <==> t in o.inSingleLane && !o.inSingleLane[t] && LaneIds(o, t).None?
  {
    if t !in o.inSingleLane then Ok(None)
    else if o.inSingleLane[t] then Ok(Some(false))
    else match LaneIds(o, t)
      case None => Err(Raised)
      case Some(ids) =>
        var covered := ego.covered(t);
        if forall i :: 0 <= i < |covered| ==> covered[i].id !in ids then Ok(Some(false)) else Ok(None)
  }

  function CutInClassifier(ego: EgoView): Classifier
  {
    Classifier((t: nat) => false, (t: nat, o: Obstacle) => CutInVerdict(ego, t, o))
  }

  /**
   * The cut-in extraction raises exactly when some requested obstacle is not in a single
   * lane but has no lane ids.  Otherwise no obstacle is ever true, and a requested obstacle
   * is false exactly when it is in a single lane or shares no lanelet with the ego's
   * covered lanelets.
   */
  lemma CutInExtraction(ego: EgoView, scene: Scene, requests: Requests, t: nat, o: Obstacle)
    requires UniqueIds(scene.obstacles) && o in scene.obstacles
    ensures AnyRaises(requests, scene.obstacles, CutInClassifier(ego)) <==>
      exists s, i :: s in requests && 0 <= i < |scene.obstacles| && Some(scene.obstacles[i].id) in requests[s] &&
        s in scene.obstacles[i].inSingleLane && !scene.obstacles[i].inSingleLane[s] && LaneIds(scene.obstacles[i], s).None?
    ensures !AnyRaises(requests, scene.obstacles, CutInClassifier(ego)) ==>
      var tab := Table(requests, scene.obstacles, CutInClassifier(ego));
      !(t in tab && Some(o.id) in tab[t].trues) &&
      ((t in tab && Some(o.id) in tab[t].falses) <==>
        t in requests && Some(o.id) in requests[t] && t in o.inSingleLane &&
        (o.inSingleLane[t] ||
         (LaneIds(o, t).Some? && forall i :: 0 <= i < |ego.covered(t)| ==> ego.covered(t)[i].id !in LaneIds(o, t).value)))
  {
    var c := CutInClassifier(ego);
    RaisesMeaning(requests, scene.obstacles, c);
    if !AnyRaises(requests, scene.obstacles, c) {
      TableAt(requests, scene.obstacles, c, t, o);
    }
  }
}
