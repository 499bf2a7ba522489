/**
 * Intersection propositions: being on an incoming left of the ego's incoming, and another
 * vehicle turning in a given direction.
 */
module Intersection {
  import opened Wrappers
  import opened World
  import opened EnvModel
  import opened Kleene

  // ---------------------------------------------------------------------------
  // On an incoming left of the ego.

  /** An incoming-type lanelet for which the road network knows no incoming group, or whose
   *  group has no incoming to its left. */
  predicate LeftOfMissing(l: Lanelet, groups: map<nat, IncomingGroup>)
  {
    Incoming in l.types && (l.id !in groups || groups[l.id].isLeftOf.None?)
  }

  /** The ids of the incomings left of the incomings of the given lanelets; only
   *  incoming-type lanelets count, and a missing incoming or left-of incoming raises. */
  function LeftOfIds(lanelets: seq<Lanelet>, groups: map<nat, IncomingGroup>): (r: Result<set<nat>, Raise>)
    ensures r.Err? <==> exists i :: 0 <= i < |lanelets| && LeftOfMissing(lanelets[i], groups)
    ensures r.Ok? ==> forall g :: g in r.value <==>
      exists i :: 0 <= i < |lanelets| && Incoming in lanelets[i].types && groups[lanelets[i].id].isLeftOf == Some(g)
  {
    if lanelets == [] then Ok({})
    else
      var l := lanelets[0];
      match LeftOfIds(lanelets[1..], groups)
      case Err(_) => Err(Raised)
      case Ok(rest) =>
        if Incoming !in l.types then Ok(rest)
        else if l.id !in groups || groups[l.id].isLeftOf.None? then Err(Raised)
        else Ok({groups[l.id].isLeftOf.value} + rest)
  }

  /** An incoming-type lanelet for which the road network knows no incoming group. */
  predicate GroupMissing(l: Lanelet, groups: map<nat, IncomingGroup>)
  {
    Incoming in l.types && l.id !in groups
  }

  /** The ids of the incoming groups of the given lanelets' incoming-type lanelets; a missing
   *  incoming group raises. */
  function GroupIds(lanelets: seq<Lanelet>, groups: map<nat, IncomingGroup>): (r: Result<set<nat>, Raise>)
    ensures r.Err? <==> exists i :: 0 <= i < |lanelets| && GroupMissing(lanelets[i], groups)
    ensures r.Ok? ==> forall g :: g in r.value <==>
      exists i :: 0 <= i < |lanelets| && Incoming in lanelets[i].types && groups[lanelets[i].id].id == g
  {
    if lanelets == [] then Ok({})
    else
      var l := lanelets[0];
      match GroupIds(lanelets[1..], groups)
      case Err(_) => Err(Raised)
      case Ok(rest) =>
        if Incoming !in l.types then Ok(rest)
        else if l.id !in groups then Err(Raised)
        else Ok({groups[l.id].id} + rest)
  }

  predicate HasIncoming(lanelets: seq<Lanelet>)
  {
    exists i :: 0 <= i < |lanelets| && Incoming in lanelets[i].types
  }

  /** The incoming groups on the obstacle's reference lane; the reference-lane query raises
   *  when it fails. */
  function ObstacleIncomings(o: Obstacle, t: nat, groups: map<nat, IncomingGroup>): (r: Result<set<nat>, Raise>)
    ensures t !in o.referenceLane ==> r.Err?
    ensures t in o.referenceLane ==> r == GroupIds(o.referenceLane[t], groups)
  {
    if t !in o.referenceLane then Err(Raised) else GroupIds(o.referenceLane[t], groups)
  }

  /**
   * Whether the obstacle is on an incoming left of the ego's.  With no left-of incoming the
   * ego could be on, false.  A failing shape query gives no knowledge; an obstacle on no
   * incoming-type lanelet is false.  Otherwise its incomings decide: none of those the ego
   * could be left of gives false, all of those it must be left of gives true.
   */
  function IsOnIncomingLeftOf(t: nat, o: Obstacle, could: set<nat>, must: set<nat>, groups: map<nat, IncomingGroup>): (r: Verdict)
    ensures could == {} ==> r == Ok(Some(false))
    ensures r.Err? <==> could != {} && t in o.shapeLanelets && HasIncoming(o.shapeLanelets[t]) &&
                        ObstacleIncomings(o, t, groups).Err?
    ensures r == Ok(Some(false)) <==>
      (could == {} ||
       (t in o.shapeLanelets && (!HasIncoming(o.shapeLanelets[t]) ||
         (ObstacleIncomings(o, t, groups).Ok? && could !! ObstacleIncomings(o, t, groups).value))))
    ensures r == Ok(Some(true)) <==>
      (could != {} && t in o.shapeLanelets && HasIncoming(o.shapeLanelets[t]) &&
       ObstacleIncomings(o, t, groups).Ok? && !(could !! ObstacleIncomings(o, t, groups).value) &&
       must <= ObstacleIncomings(o, t, groups).value)
  {
    if could == {} then Ok(Some(false))
    else if t !in o.shapeLanelets then Ok(None)
    else if !HasIncoming(o.shapeLanelets[t]) then Ok(Some(false))
    else match ObstacleIncomings(o, t, groups)
      case Err(_) => Err(Raised)
      case Ok(incomings) =>
        if could !! incomings then Ok(Some(false))
        else if must <= incomings then Ok(Some(true))
        else Ok(None)
  }

  /** Once the obstacle shares an incoming with those the ego could be left of, the
   *  must-be-true test holds vacuously when there is no incoming it must be left of. */
  lemma IncomingLeftOfVacuous(t: nat, o: Obstacle, could: set<nat>, groups: map<nat, IncomingGroup>, g: nat)
    requires t in o.shapeLanelets && HasIncoming(o.shapeLanelets[t])
    requires ObstacleIncomings(o, t, groups).Ok? && g in could && g in ObstacleIncomings(o, t, groups).value
    ensures IsOnIncomingLeftOf(t, o, could, {}, groups) == Ok(Some(true))
  {
  }

  /** The per-step left-of sets, from the covered (could) and intersected (must) lanelets. */
  function Could(ego: EgoView, groups: map<nat, IncomingGroup>, t: nat): Result<set<nat>, Raise>
  {
    LeftOfIds(ego.covered(t), groups)
  }

  function Must(ego: EgoView, groups: map<nat, IncomingGroup>, t: nat): Result<set<nat>, Raise>
  {
    LeftOfIds(ego.intersected(t), groups)
  }

  function OnIncomingLeftOfClassifier(ego: EgoView, scene: Scene): Classifier
  {
    var groups := scene.incomingGroups;
    Classifier(
      (t: nat) => Could(ego, groups, t).Err? || Must(ego, groups, t).Err?,
      (t: nat, o: Obstacle) =>
        if Could(ego, groups, t).Err? || Must(ego, groups, t).Err? then Err(Raised)
        else IsOnIncomingLeftOf(t, o, Could(ego, groups, t).value, Must(ego, groups, t).value, groups))
  }

  /**
   * A requested step raises when one of the ego's covered or intersected incoming-type
   * lanelets lacks an incoming or a left-of incoming, whether or not an obstacle is
   * requested there.  Without a raise, a requested obstacle is true (false) at a step
   * exactly when `IsOnIncomingLeftOf` says so for the step's left-of sets.
   */
  lemma OnIncomingLeftOfExtraction(ego: EgoView, scene: Scene, requests: Requests, t: nat, o: Obstacle)
    requires UniqueIds(scene.obstacles) && o in scene.obstacles
    ensures t in requests && ((exists i :: 0 <= i < |ego.covered(t)| && LeftOfMissing(ego.covered(t)[i], scene.incomingGroups)) ||
                              (exists i :: 0 <= i < |ego.intersected(t)| && LeftOfMissing(ego.intersected(t)[i], scene.incomingGroups)))
            ==> AnyRaises(requests, scene.obstacles, OnIncomingLeftOfClassifier(ego, scene))
    ensures !AnyRaises(requests, scene.obstacles, OnIncomingLeftOfClassifier(ego, scene)) ==>
      var tab := Table(requests, scene.obstacles, OnIncomingLeftOfClassifier(ego, scene));
      var groups := scene.incomingGroups;
      (t in requests ==> Could(ego, groups, t).Ok? && Must(ego, groups, t).Ok?) &&
      ((t in tab && Some(o.id) in tab[t].trues) <==>
        t in requests && Some(o.id) in requests[t] &&
        IsOnIncomingLeftOf(t, o, Could(ego, groups, t).value, Must(ego, groups, t).value, groups) == Ok(Some(true))) &&
      ((t in tab && Some(o.id) in tab[t].falses) <==>
        t in requests && Some(o.id) in requests[t] &&
        IsOnIncomingLeftOf(t, o, Could(ego, groups, t).value, Must(ego, groups, t).value, groups) == Ok(Some(false)))
  {
    var c := OnIncomingLeftOfClassifier(ego, scene);
    if t in requests && c.stepRaises(t) {
      assert StepResult(t, requests[t], scene.obstacles, c).Err?;
    }
    if !AnyRaises(requests, scene.obstacles, c) {
      TableAt(requests, scene.obstacles, c, t, o);
    }
  }

  // ---------------------------------------------------------------------------
  // Another vehicle turning in a direction.

  /** The obstacle identifiers requested at any step, with the ego marker dropped. */
  function RequestedIds(requests: Requests): (r: set<nat>)
    ensures forall n :: n in r <==> exists t :: t in requests && Some(n) in requests[t]
  {
    set t, x | t in requests && x in requests[t] && x.Some? :: x.value
  }

  /** The partition of the world obstacles named in `ids`: true when `dir` is among the
   *  obstacle's turning directions, false otherwise. */
  function TurningPartition(obstacles: seq<Obstacle>, ids: set<nat>, dir: Direction): TrueFalse
  {
    TrueFalse(
      set i | 0 <= i < |obstacles| && obstacles[i].id in ids && dir in TurningDirections(obstacles[i]) :: Some(obstacles[i].id),
      set i | 0 <= i < |obstacles| && obstacles[i].id in ids && dir !in TurningDirections(obstacles[i]) :: Some(obstacles[i].id))
  }

  /** The identifiers requested at any step, read as obstacle ids: a requested ego marker raises. */
  method CollectRequestedIds(requests: Requests) returns (r: Result<set<nat>, Raise>)
    ensures r.Err? <==> exists t :: t in requests && None in requests[t]
    ensures r.Ok? ==> r.value == RequestedIds(requests)
  {
    var relevant: set<nat> := {};
    var pending := requests.Keys;
    while pending != {}
      invariant pending <= requests.Keys
      invariant forall t :: t in requests && t !in pending ==> None !in requests[t]
      invariant relevant == set t, x | t in requests && t !in pending && x in requests[t] && x.Some? :: x.value
      decreases pending
    {
      var t :| t in pending;
      if None in requests[t] {
        return Err(Raised);
      }
      relevant := relevant + set x | x in requests[t] && x.Some? :: x.value;
      pending := pending - {t};
    }
    return Ok(relevant);
  }

  /** One pass over the world's obstacles, asking each named one for its turning directions. */
  method PartitionObstacles(obstacles: seq<Obstacle>, ids: set<nat>, dir: Direction) returns (p: TrueFalse)
    ensures p == TurningPartition(obstacles, ids, dir)
  {
    var trues: set<Id> := {};
    var falses: set<Id> := {};
    var i := 0;
    while i < |obstacles|
      invariant 0 <= i <= |obstacles|
      invariant trues == set j | 0 <= j < i && obstacles[j].id in ids && dir in TurningDirections(obstacles[j]) :: Some(obstacles[j].id)
      invariant falses == set j | 0 <= j < i && obstacles[j].id in ids && dir !in TurningDirections(obstacles[j]) :: Some(obstacles[j].id)
    {
      var o := obstacles[i];
      if o.id in ids {
        var directions := ComputeTurningDirections(o.trajectory);
        if dir in directions {
          trues := trues + {Some(o.id)};
        } else {
          falses := falses + {Some(o.id)};
        }
      }
      i := i + 1;
    }
    return TrueFalse(trues, falses);
  }

  /**
   * The other-turning extraction.  Every requested identifier is read as an obstacle id,
   * so a requested ego marker raises.  Otherwise one partition of the world obstacles
   * requested at any step is computed once and given to every requested step.
   */
  method ExtractOtherTurning(requests: Requests, obstacles: seq<Obstacle>, dir: Direction)
    returns (r: Result<map<nat, TrueFalse>, Raise>)
    ensures r.Err? <==> exists t :: t in requests && None in requests[t]
    ensures r.Ok? ==> r.value.Keys == requests.Keys
    ensures r.Ok? ==> forall t :: t in r.value ==> r.value[t] == TurningPartition(obstacles, RequestedIds(requests), dir)
  {
    var relevant := CollectRequestedIds(requests);
    if relevant.Err? {
      return Err(Raised);
    }
    var partition := PartitionObstacles(obstacles, relevant.value, dir);
    var result: map<nat, TrueFalse> := map[];
    var pending := requests.Keys;
    while pending != {}
      invariant pending <= requests.Keys
      invariant result.Keys == requests.Keys - pending
      invariant forall t :: t in result ==> result[t] == partition
      decreases pending
    {
      var t :| t in pending;
      result := result[t := partition];
      pending := pending - {t};
    }
    return Ok(result);
  }

  /**
   * The partition's meaning: an identifier is true (false) exactly when it names a world
   * obstacle requested at some step whose turning directions contain (do not contain)
   * `dir`; with unique identifiers every such obstacle is in exactly one of the two sets,
   * and identifiers that name no world obstacle never appear.
   */
  lemma TurningPartitionMeaning(obstacles: seq<Obstacle>, requests: Requests, dir: Direction, o: Obstacle, id: Id)
    requires UniqueIds(obstacles) && o in obstacles
    ensures var p := TurningPartition(obstacles, RequestedIds(requests), dir);
      (Some(o.id) in p.trues <==> o.id in RequestedIds(requests) && dir in TurningDirections(o)) &&
      (Some(o.id) in p.falses <==> o.id in RequestedIds(requests) && dir !in TurningDirections(o)) &&
      p.trues !! p.falses &&
      (id in p.trues + p.falses ==> id.Some? && exists i :: 0 <= i < |obstacles| && obstacles[i].id == id.value)
  {
    var p := TurningPartition(obstacles, RequestedIds(requests), dir);
    var k :| 0 <= k < |obstacles| && obstacles[k] == o;
    if Some(o.id) in p.trues {
      var i :| 0 <= i < |obstacles| && obstacles[i].id in RequestedIds(requests) && dir in TurningDirections(obstacles[i]) &&
               Some(obstacles[i].id) == Some(o.id);
      assert i == k;
    }
    if Some(o.id) in p.falses {
      var i :| 0 <= i < |obstacles| && obstacles[i].id in RequestedIds(requests) && dir !in TurningDirections(obstacles[i]) &&
               Some(obstacles[i].id) == Some(o.id);
      assert i == k;
    }
  }
}
