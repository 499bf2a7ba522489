/**
 * Propositions about an obstacle alone, such as another vehicle being on an access ramp
 * or on the main carriageway: a boolean predicate of the obstacle at a step decides
 * true or false, and a failing evaluation is not caught.
 */
module EgoIndependent {
  import opened Wrappers
  import opened World
  import opened Kleene

  /** The inner predicate, on a lanelet of type `ty`; an evaluation that fails raises. */
  function OnLaneletWithTypeVerdict(ty: LaneletType, t: nat, o: Obstacle): (r: Verdict)
    ensures r.Err? <==> (t, ty) !in o.onLaneletWithType
    ensures r.Ok? ==> r.value == Some(o.onLaneletWithType[(t, ty)])
  {
    if (t, ty) in o.onLaneletWithType then Ok(Some(o.onLaneletWithType[(t, ty)])) else Err(Raised)
  }

  function EgoIndependentClassifier(ty: LaneletType): Classifier
  {
    Classifier((t: nat) => false, (t: nat, o: Obstacle) => OnLaneletWithTypeVerdict(ty, t, o))
  }

  /**
   * The extraction raises exactly when the predicate cannot be evaluated for some obstacle
   * requested at some step.  Otherwise every requested world obstacle lands in exactly one
   * of the two sets, true exactly when the predicate holds for it; a step has an entry
   * exactly when a world obstacle is requested there.
   */
  lemma EgoIndependentExtraction(ty: LaneletType, scene: Scene, requests: Requests, t: nat, o: Obstacle)
    requires UniqueIds(scene.obstacles) && o in scene.obstacles
    ensures AnyRaises(requests, scene.obstacles, EgoIndependentClassifier(ty)) <==>
      exists s, i :: s in requests && 0 <= i < |scene.obstacles| && Some(scene.obstacles[i].id) in requests[s] &&
        (s, ty) !in scene.obstacles[i].onLaneletWithType
    ensures !AnyRaises(requests, scene.obstacles, EgoIndependentClassifier(ty)) ==>
      var tab := Table(requests, scene.obstacles, EgoIndependentClassifier(ty));
      (t in requests && Some(o.id) in requests[t] <==> t in tab && Some(o.id) in tab[t].trues + tab[t].falses) &&
      (t in tab && Some(o.id) in tab[t].trues ==> o.onLaneletWithType[(t, ty)]) &&
      (t in tab && Some(o.id) in tab[t].falses ==> !o.onLaneletWithType[(t, ty)]) &&
      (t in tab ==> tab[t].trues !! tab[t].falses)
  {
    var c := EgoIndependentClassifier(ty);
    RaisesMeaning(requests, scene.obstacles, c);
    if !AnyRaises(requests, scene.obstacles, c) {
      TableAt(requests, scene.obstacles, c, t, o);
      TableMeaning(requests, scene.obstacles, c, t, Some(o.id));
      if t in requests && Some(o.id) in requests[t] {
        var k :| 0 <= k < |scene.obstacles| && scene.obstacles[k] == o;
        assert (t, ty) in o.onLaneletWithType;
        var tab := Table(requests, scene.obstacles, c);
        if o.onLaneletWithType[(t, ty)] {
          assert t in tab && Some(o.id) in tab[t].trues;
        } else {
          assert t in tab && Some(o.id) in tab[t].falses;
        }
      }
    }
  }
}
