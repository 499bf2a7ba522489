/**
 * The scenario the extractors read: obstacles, lanelets, incoming groups and
 * the ego vehicle's per-step over-approximation.  Everything here is supplied
 * by the CommonRoad world, the road network and the curvilinear coordinate
 * system, which are outside this model; each query those libraries answer
 * (or fail to answer with a logic_error) is recorded as data.
 */
module World {
  import opened Wrappers

  /** Obstacle identifiers as the extractors use them: `None` is the ego vehicle. */
  type Id = Option<nat>

  /** A non-zero acceleration bound; stopping distances divide by its magnitude. */
  type NonZeroReal = a: real | a != 0.0 witness -1.0

  /** The range of a 32-bit C++ `int`, whose smallest value std::numeric_limits<int>::min()
   *  priorities use as a sentinel. */
  const IntMin: int := -0x8000_0000
  type Int32 = x: int | IntMin <= x < 0x8000_0000

  function Abs(x: real): (r: real)
    ensures r >= 0.0 && (r == x || r == -x)
  {
    if x < 0.0 then -x else x
  }

  datatype Direction = Left | Straight | Right

  datatype LaneletType = MainCarriageway | Intersection | Incoming | AccessRamp | OtherLaneletType(code: nat)

  datatype TrafficSignType = Stop | OtherSignType(code: nat)

  /** A traffic sign, by the types of its elements. */
  datatype TrafficSign = TrafficSign(elements: seq<TrafficSignType>)

  /** A lanelet's left or right adjacency: the neighbour, if any, and the direction flag,
   *  which the road network stores whether or not there is a neighbour. */
  datatype Adjacency = Adjacency(adj: Option<Lanelet>, oppositeDir: bool)

  datatype Lanelet = Lanelet(id: nat, types: set<LaneletType>, left: Adjacency, right: Adjacency,
                             signs: seq<TrafficSign>)

  /** An obstacle's state at one step: whether its position lies in the projection domain of
   *  the ego's curvilinear coordinate system, its rear coordinate there, and its velocity. */
  datatype State = State(inProjectionDomain: bool, rearS: real, velocity: real)

  /** The lanelet predicates the turning-direction machine evaluates at one step. */
  datatype TurningObservation = TurningObservation(onIncoming: bool, notOnIntersection: bool,
                                                   onRight: bool, onStraight: bool, onLeft: bool)

  /**
   * An obstacle.  A step missing from `states`, `occupiedLanes`, `inSingleLane`,
   * `shapeLanelets`, `referenceLane` or `onLaneletWithType` is a query that raises a
   * logic_error; a key missing from `priorities` is an absent priority.
   * `trajectory` holds the turning observations of the obstacle's time steps, in order.
   */
  datatype Obstacle = Obstacle(
    id: nat,
    aMinLong: NonZeroReal,
    states: map<nat, State>,
    occupiedLanes: map<nat, seq<set<nat>>>,
    inSingleLane: map<nat, bool>,
    shapeLanelets: map<nat, seq<Lanelet>>,
    referenceLane: map<nat, seq<Lanelet>>,
    onLaneletWithType: map<(nat, LaneletType), bool>,
    trajectory: seq<TurningObservation>,
    priorities: map<(nat, Direction), Int32>)

  /** An incoming group of an intersection and the id of the incoming left of it, if any. */
  datatype IncomingGroup = IncomingGroup(id: nat, isLeftOf: Option<nat>)

  /** The world: its obstacles in order, its lanelet network, its number of traffic lights,
   *  and the incoming group of each lanelet that belongs to one (keyed by lanelet id). */
  datatype Scene = Scene(obstacles: seq<Obstacle>, lanelets: seq<Lanelet>, trafficLights: nat,
                         incomingGroups: map<nat, IncomingGroup>)

  /**
   * The ego vehicle's over-approximation as the extractors read it: per step the covered
   * and intersected lanelets, whether the state box of the step cannot be computed (the
   * propagation throws), the longitudinal position bounds of that box and the velocity
   * bounds, and the priority range for a turning direction; the inner and outer radius;
   * and the ego parameters a_lon_min and t_react.
   */
  datatype EgoView = EgoView(
    covered: nat -> seq<Lanelet>,
    intersected: nat -> seq<Lanelet>,
    stateRaises: nat -> bool,
    pLonMin: nat -> real,
    pLonMax: nat -> real,
    vMin: nat -> real,
    vMax: nat -> real,
    priorityRange: (nat, Direction) -> (Int32, Int32),
    innerRadius: real,
    outerRadius: real,
    aLonMin: NonZeroReal,
    tReact: real)

  /** The first obstacle of `obstacles` with identifier `id`. */
  function Lookup(obstacles: seq<Obstacle>, id: nat): (r: Option<Obstacle>)
    ensures r.None? <==> forall i :: 0 <= i < |obstacles| ==> obstacles[i].id != id
    ensures r.Some? ==> r.value in obstacles && r.value.id == id
  {
    if obstacles == [] then None
    else if obstacles[0].id == id then Some(obstacles[0])
    else Lookup(obstacles[1..], id)
  }

  predicate UniqueIds(obstacles: seq<Obstacle>)
  {
    forall i, j :: 0 <= i < |obstacles| && 0 <= j < |obstacles| && obstacles[i].id == obstacles[j].id ==> i == j
  }

  lemma {:induction false} LookupUnique(obstacles: seq<Obstacle>, o: Obstacle)
    requires UniqueIds(obstacles) && o in obstacles
    ensures Lookup(obstacles, o.id) == Some(o)
  {
    if obstacles[0] != o {
      assert obstacles[0].id != o.id by {
        var k :| 0 <= k < |obstacles| && obstacles[k] == o;
        assert k != 0;
      }
      assert UniqueIds(obstacles[1..]) by {
        forall i, j | 0 <= i < |obstacles| - 1 && 0 <= j < |obstacles| - 1 && obstacles[1..][i].id == obstacles[1..][j].id
          ensures i == j
        {
          assert obstacles[i + 1].id == obstacles[j + 1].id;
        }
      }
      LookupUnique(obstacles[1..], o);
    }
  }
}
