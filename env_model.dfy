/**
 * The environment model: per-obstacle queries (rear coordinate, occupied lane ids,
 * stopping position, turning directions, priority), each computed by a pure
 * function and served through a read-through memo table that also stores absent
 * results.
 */
module EnvModel {
  import opened Wrappers
  import opened World

  /** Rear coordinate of an obstacle in the ego's curvilinear frame; absent when the
   *  obstacle has no state at the step or its position lies outside the projection domain. */
  function Rear(o: Obstacle, t: nat): (r: Option<real>)
    ensures r.Some? <==> t in o.states && o.states[t].inProjectionDomain
    ensures r.Some? ==> r.value == o.states[t].rearS
  {
    if t !in o.states then None
    else if !o.states[t].inProjectionDomain then None
    else Some(o.states[t].rearS)
  }

  /** Union of the lanelet ids of a list of lanes. */
  function UnionAll(lanes: seq<set<nat>>): (r: set<nat>)
    ensures forall id :: id in r <==> exists i :: 0 <= i < |lanes| && id in lanes[i]
  {
    if lanes == [] then {} else lanes[0] + UnionAll(lanes[1..])
  }

  /** The ids of all lanelets of the lanes the obstacle occupies in driving direction;
   *  absent when the occupied-lane query raises. */
  function LaneIds(o: Obstacle, t: nat): (r: Option<set<nat>>)
    ensures r.None? <==> t !in o.occupiedLanes
    ensures r.Some? ==> forall id :: id in r.value <==> exists i :: 0 <= i < |o.occupiedLanes[t]| && id in o.occupiedLanes[t][i]
  {
    if t !in o.occupiedLanes then None else Some(UnionAll(o.occupiedLanes[t]))
  }

  /** Where the obstacle comes to rest when it brakes with its minimum longitudinal
   *  acceleration from its current velocity: rear + v^2 / (2 |a_min|). */
  function StoppingS(o: Obstacle, t: nat): (r: Option<real>)
    ensures r.Some? <==> Rear(o, t).Some?
    ensures r.Some? ==> r.value == StopAfter(Rear(o, t).value, o.states[t].velocity, o.aMinLong)
  {
    match Rear(o, t)
    case None => None
    case Some(rear) => Some(StopAfter(rear, o.states[t].velocity, o.aMinLong))
  }

  /** Position reached when braking from velocity v at deceleration |a| starting at s. */
  function StopAfter(s: real, v: real, a: NonZeroReal): (r: real)
    ensures r >= s && (r - s) * (2.0 * Abs(a)) == v * v
  {
    s + (v * v) / (2.0 * Abs(a))
  }

  /** Priority of the obstacle for a turning direction; absent when there is no prediction. */
  function Priority(o: Obstacle, t: nat, dir: Direction): (r: Option<Int32>)
    ensures r.Some? <==> (t, dir) in o.priorities
  {
    if (t, dir) in o.priorities then Some(o.priorities[(t, dir)]) else None
  }

  // ---------------------------------------------------------------------------
  // Turning directions: a four-mode machine over the obstacle's time steps.

  datatype Mode = BeforeIncoming | OnIncoming | InIntersection | Done

  function Rank(m: Mode): nat
  {
    match m
    case BeforeIncoming => 0
    case OnIncoming => 1
    case InIntersection => 2
    case Done => 3
  }

  /** The mode and whether left, straight and right are still possible. */
  datatype TurningState = TurningState(mode: Mode, left: bool, straight: bool, right: bool)

  const InitialTurning := TurningState(BeforeIncoming, true, true, true)

  /** One step inside the intersection: leaving it ends the run; otherwise each direction
   *  whose lanelet the obstacle is not on becomes impossible, and the run ends when no
   *  direction is left. */
  function IntersectionStep(s: TurningState, ob: TurningObservation): TurningState
  {
    if ob.notOnIntersection then s.(mode := Done)
    else
      var right := s.right && ob.onRight;
      var straight := s.straight && ob.onStraight;
      var left := s.left && ob.onLeft;
      TurningState(if !left && !straight && !right then Done else s.mode, left, straight, right)
  }

  /** One time step of the machine; leaving the incoming falls through into the
   *  intersection case for the same step. */
  function TurningStep(s: TurningState, ob: TurningObservation): TurningState
  {
    match s.mode
    case BeforeIncoming => if ob.onIncoming then s.(mode := OnIncoming) else s
    case OnIncoming => if ob.onIncoming then s else IntersectionStep(s.(mode := InIntersection), ob)
    case InIntersection => IntersectionStep(s, ob)
    case Done => s
  }

  /** The machine run over a sequence of observations, stopping once it is done. */
  function Run(s: TurningState, obs: seq<TurningObservation>): TurningState
    decreases |obs|
  {
    if obs == [] || s.mode == Done then s else Run(TurningStep(s, obs[0]), obs[1..])
  }

  /** The directions reported for a final state: none before the intersection was entered,
   *  otherwise those still possible. */
  function Reported(s: TurningState): (r: set<Direction>)
    ensures Left in r <==> Rank(s.mode) >= 2 && s.left
    ensures Straight in r <==> Rank(s.mode) >= 2 && s.straight
    ensures Right in r <==> Rank(s.mode) >= 2 && s.right
  {
    if Rank(s.mode) >= 2 then
      (if s.left then {Left} else {}) + (if s.straight then {Straight} else {}) + (if s.right then {Right} else {})
    else {}
  }

  function TurningDirections(o: Obstacle): set<Direction>
  {
    Reported(Run(InitialTurning, o.trajectory))
  }

  /** The machine as a loop over the time steps, updating the mode and the three flags. */
  method ComputeTurningDirections(trajectory: seq<TurningObservation>) returns (directions: set<Direction>)
    ensures directions == Reported(Run(InitialTurning, trajectory))
  {
    var mode := BeforeIncoming;
    var left, straight, right := true, true, true;
    var i := 0;
    while i < |trajectory|
      invariant 0 <= i <= |trajectory|
      invariant Run(TurningState(mode, left, straight, right), trajectory[i..]) == Run(InitialTurning, trajectory)
    {
      if mode == Done {
        break;
      }
      var ob := trajectory[i];
      assert trajectory[i..][1..] == trajectory[i + 1..];
      match mode {
        case BeforeIncoming =>
          if ob.onIncoming {
            mode := OnIncoming;
          }
        case OnIncoming =>
          if !ob.onIncoming {
            mode := InIntersection;
            if ob.notOnIntersection {
              mode := Done;
            } else {
              right := right && ob.onRight;
              straight := straight && ob.onStraight;
              left := left && ob.onLeft;
              if !left && !straight && !right {
                mode := Done;
              }
            }
          }
        case InIntersection =>
          if ob.notOnIntersection {
            mode := Done;
          } else {
            right := right && ob.onRight;
            straight := straight && ob.onStraight;
            left := left && ob.onLeft;
            if !left && !straight && !right {
              mode := Done;
            }
          }
      }
      i := i + 1;
    }
    directions := {};
    if Rank(mode) >= 2 {
      if left {
        directions := directions + {Left};
      }
      if straight {
        directions := directions + {Straight};
      }
      if right {
        directions := directions + {Right};
      }
    }
  }

  /** A direction flag only ever goes from possible to impossible, and the mode never goes back. */
  lemma {:induction false} RunMonotone(s: TurningState, obs: seq<TurningObservation>)
    ensures Run(s, obs).left ==> s.left
    ensures Run(s, obs).straight ==> s.straight
    ensures Run(s, obs).right ==> s.right
    ensures Rank(Run(s, obs).mode) >= Rank(s.mode)
    decreases |obs|
  {
    if obs != [] && s.mode != Done {
      RunMonotone(TurningStep(s, obs[0]), obs[1..]);
    }
  }

  /** Running over a concatenation is running over each part in turn. */
  lemma {:induction false} RunAppend(s: TurningState, a: seq<TurningObservation>, b: seq<TurningObservation>)
    ensures Run(s, a + b) == Run(Run(s, a), b)
    decreases |a|
  {
    if a == [] {
      assert a + b == b;
    } else if s.mode == Done {
      assert Run(s, a) == s;
      DoneStays(s, b);
      DoneStays(s, a + b);
    } else {
      assert (a + b)[1..] == a[1..] + b;
      RunAppend(TurningStep(s, a[0]), a[1..], b);
    }
  }

  lemma DoneStays(s: TurningState, obs: seq<TurningObservation>)
    requires s.mode == Done
    ensures Run(s, obs) == s
  {
  }

  /** Observations after the machine is done are ignored. */
  lemma StopsWhenDone(a: seq<TurningObservation>, b: seq<TurningObservation>)
    requires Run(InitialTurning, a).mode == Done
    ensures Run(InitialTurning, a + b) == Run(InitialTurning, a)
  {
    RunAppend(InitialTurning, a, b);
  }

  /** Before the intersection is entered all three directions are still possible, and
   *  inside it at least one is. */
  ghost predicate Consistent(s: TurningState)
  {
    (Rank(s.mode) < 2 ==> s.left && s.straight && s.right) &&
    (s.mode == InIntersection ==> s.left || s.straight || s.right)
  }

  lemma {:induction false} RunConsistent(s: TurningState, obs: seq<TurningObservation>)
    requires Consistent(s)
    ensures Consistent(Run(s, obs))
    decreases |obs|
  {
    if obs != [] && s.mode != Done {
      RunConsistent(TurningStep(s, obs[0]), obs[1..]);
    }
  }

  /** An obstacle that never leaves an incoming has no turning direction. */
  lemma NothingBeforeIntersection(o: Obstacle)
    requires Rank(Run(InitialTurning, o.trajectory).mode) < 2
    ensures TurningDirections(o) == {}
  {
  }

  /** An obstacle still inside the intersection at its last step keeps at least one direction. */
  lemma InsideIntersectionReportsSome(o: Obstacle)
    requires Run(InitialTurning, o.trajectory).mode == InIntersection
    ensures TurningDirections(o) != {}
  {
    RunConsistent(InitialTurning, o.trajectory);
  }

  /** Leaving the incoming straight out of the intersection (the fall-through step sees the
   *  obstacle off the intersection) ends the run with all three directions reported. */
  lemma FallThroughReportsAll(a: seq<TurningObservation>, exit: TurningObservation, b: seq<TurningObservation>)
    requires Run(InitialTurning, a).mode == OnIncoming
    requires !exit.onIncoming && exit.notOnIntersection
    ensures Reported(Run(InitialTurning, a + [exit] + b)) == {Left, Straight, Right}
  {
    var s := Run(InitialTurning, a);
    RunConsistent(InitialTurning, a);
    RunAppend(InitialTurning, a, [exit]);
    assert Run(s, [exit]) == TurningState(Done, true, true, true);
    StopsWhenDone(a + [exit], b);
  }

  // ---------------------------------------------------------------------------
  // The memo tables.

  class EnvironmentModel {
    const scene: Scene
    var rearCache: map<(nat, nat), Option<real>>
    var laneIdsCache: map<(nat, nat), Option<set<nat>>>
    var stoppingCache: map<(nat, nat), Option<real>>
    var turningCache: map<nat, set<Direction>>
    var priorityCache: map<(nat, nat, Direction), Option<Int32>>

    /** The obstacle of the scene that a cache key's identifier names. */
    function Named(id: nat): Option<Obstacle>
    {
      Lookup(scene.obstacles, id)
    }

    /** Every cached value is the value its query computes for the named obstacle. */
    ghost predicate Valid()
      reads this
    {
      RearValid() && LaneIdsValid() && StoppingValid() && TurningValid() && PriorityValid()
    }

    ghost predicate RearValid()
      reads this`rearCache
    {
      forall k :: k in rearCache ==> Named(k.1).Some? && rearCache[k] == Rear(Named(k.1).value, k.0)
    }

    ghost predicate LaneIdsValid()
      reads this`laneIdsCache
    {
      forall k :: k in laneIdsCache ==> Named(k.1).Some? && laneIdsCache[k] == LaneIds(Named(k.1).value, k.0)
    }

    ghost predicate StoppingValid()
      reads this`stoppingCache
    {
      forall k :: k in stoppingCache ==> Named(k.1).Some? && stoppingCache[k] == StoppingS(Named(k.1).value, k.0)
    }

    ghost predicate TurningValid()
      reads this`turningCache
    {
      forall id :: id in turningCache ==> Named(id).Some? && turningCache[id] == TurningDirections(Named(id).value)
    }

    ghost predicate PriorityValid()
      reads this`priorityCache
    {
      forall k :: k in priorityCache ==> Named(k.1).Some? && priorityCache[k] == Priority(Named(k.1).value, k.0, k.2)
    }

    constructor(scene: Scene)
      ensures this.scene == scene && Valid()
      ensures rearCache == map[] && laneIdsCache == map[] && stoppingCache == map[]
      ensures turningCache == map[] && priorityCache == map[]
    {
      this.scene := scene;
      rearCache, laneIdsCache, stoppingCache := map[], map[], map[];
      turningCache, priorityCache := map[], map[];
    }

    method GetObstacleRear(t: nat, o: Obstacle) returns (r: Option<real>)
      requires Valid() && Named(o.id) == Some(o)
      modifies this`rearCache
      ensures Valid()
      ensures r == Rear(o, t)
      ensures rearCache == old(rearCache)[(t, o.id) := r]
    {
      var key := (t, o.id);
      if key in rearCache {
        return rearCache[key];
      }
      r := Rear(o, t);
      rearCache := rearCache[key := r];
    }

    method GetObstacleLaneIds(t: nat, o: Obstacle) returns (r: Option<set<nat>>)
      requires Valid() && Named(o.id) == Some(o)
      modifies this`laneIdsCache
      ensures Valid()
      ensures r == LaneIds(o, t)
      ensures laneIdsCache == old(laneIdsCache)[(t, o.id) := r]
    {
      var key := (t, o.id);
      if key in laneIdsCache {
        return laneIdsCache[key];
      }
      r := LaneIds(o, t);
      laneIdsCache := laneIdsCache[key := r];
    }

    /** The stopping position reads the rear coordinate through its own memo table. */
    method GetStoppingS(t: nat, o: Obstacle) returns (r: Option<real>)
      requires Valid() && Named(o.id) == Some(o)
      modifies this`stoppingCache, this`rearCache
      ensures Valid()
      ensures r == StoppingS(o, t)
      ensures stoppingCache == old(stoppingCache)[(t, o.id) := r]
      ensures (t, o.id) in old(stoppingCache) ==> rearCache == old(rearCache)
      ensures (t, o.id) !in old(stoppingCache) ==> rearCache == old(rearCache)[(t, o.id) := Rear(o, t)]
    {
      var key := (t, o.id);
      if key in stoppingCache {
        return stoppingCache[key];
      }
      var rear := GetObstacleRear(t, o);
      r := if rear.None? then None else Some(StopAfter(rear.value, o.states[t].velocity, o.aMinLong));
      assert r == StoppingS(o, t);
      stoppingCache := stoppingCache[key := r];
    }

    method GetTurningDirections(o: Obstacle) returns (r: set<Direction>)
      requires Valid() && Named(o.id) == Some(o)
      modifies this`turningCache
      ensures Valid()
      ensures r == TurningDirections(o)
      ensures turningCache == old(turningCache)[o.id := r]
    {
      if o.id in turningCache {
        return turningCache[o.id];
      }
      r := ComputeTurningDirections(o.trajectory);
      turningCache := turningCache[o.id := r];
    }

    method GetPriority(t: nat, o: Obstacle, dir: Direction) returns (r: Option<Int32>)
      requires Valid() && Named(o.id) == Some(o)
      modifies this`priorityCache
      ensures Valid()
      ensures r == Priority(o, t, dir)
      ensures priorityCache == old(priorityCache)[(t, o.id, dir) := r]
    {
      var key := (t, o.id, dir);
      if key in priorityCache {
        return priorityCache[key];
      }
      r := Priority(o, t, dir);
      priorityCache := priorityCache[key := r];
    }
  }

  /** Two queries with the same key give the same answer: a second call is a cache hit
   *  that leaves the table as the first call left it. */
  method RearTwice(m: EnvironmentModel, t: nat, o: Obstacle) returns (first: Option<real>, second: Option<real>)
    requires m.Valid() && m.Named(o.id) == Some(o)
    modifies m`rearCache
    ensures first == second == Rear(o, t)
    ensures m.rearCache == old(m.rearCache)[(t, o.id) := first]
  {
    first := m.GetObstacleRear(t, o);
    var afterFirst := m.rearCache;
    second := m.GetObstacleRear(t, o);
    assert m.rearCache == afterFirst;
  }
}
