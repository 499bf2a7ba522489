/**
 * The extraction interface: request strings are parsed into identifiers per proposition
 * and step; each proposition is dispatched to its Kleene extractor and its relationship
 * extractor, if it has one; and their outputs are rendered back into proposition strings
 * collected per time step.
 */
module Extraction {
  import opened Wrappers
  import opened World
  import opened Propositions
  import opened PropositionCodec
  import opened Kleene
  import opened Relationships
  import opened Regulatory
  import Position
  import Braking
  import General
  import EgoIndependent
  import Turning = Intersection
  import Eq = Equivalence
  import Impl = Implication
  import Formatting

  /** What the extractors read besides the requests.  The safe-distance implication
   *  extractor is not part of this model: its output for given requests is an input. */
  datatype Environment = Environment(ego: EgoView, scene: Scene, safeDistanceImplications: Requests -> RelationshipTable)

  /** The requested identifiers per proposition and step. */
  type RelevantObstacles = map<Proposition, Requests>

  /** The knowledge collected for one time step.  The source collects vectors in hash-map
   *  iteration order; only their contents are modelled. */
  datatype ExtractionResult = ExtractionResult(
    positives: set<string>,
    negatives: set<string>,
    implications: set<(string, string)>,
    equivalences: set<(string, string)>)

  const NoKnowledge := ExtractionResult({}, {}, {}, {})

  // ---------------------------------------------------------------------------
  // Parsing the requests.

  /** Request string s parses to proposition p with parameter id. */
  predicate Parses(s: string, p: Proposition, id: Id)
  {
    FromString(s).Ok? && FromString(s).value.0 == p && var parameter: Id := FromString(s).value.1; parameter == id
  }

  /** Some request string of step t parses to proposition p with parameter id. */
  ghost predicate Requested(requests: map<nat, seq<string>>, p: Proposition, t: nat, id: Id)
  {
    t in requests && exists k :: 0 <= k < |requests[t]| && Parses(requests[t][k], p, id)
  }

  ghost predicate InRelevant(r: RelevantObstacles, p: Proposition, t: nat, id: Id)
  {
    p in r && t in r[p] && id in r[p][t]
  }

  /** Entries exist only for what was inserted: no empty step map, no empty id set. */
  ghost predicate NoEmptyEntries(r: RelevantObstacles)
  {
    (forall p :: p in r ==> r[p] != map[]) && (forall p, t :: p in r && t in r[p] ==> r[p][t] != {})
  }

  /** Two tables without empty entries that hold the same triples are equal. */
  lemma SameTriplesSameTable(r1: RelevantObstacles, r2: RelevantObstacles)
    requires NoEmptyEntries(r1) && NoEmptyEntries(r2)
    requires forall p, t, id :: InRelevant(r1, p, t, id) <==> InRelevant(r2, p, t, id)
    ensures r1 == r2
  {
    forall p | p in r1
      ensures p in r2 && r1[p] == r2[p]
    {
      var t :| t in r1[p];
      var id :| id in r1[p][t];
      assert InRelevant(r1, p, t, id);
      forall u | u in r1[p]
        ensures u in r2[p] && r1[p][u] == r2[p][u]
      {
        var x :| x in r1[p][u];
        assert InRelevant(r1, p, u, x);
        assert forall y :: y in r1[p][u] ==> InRelevant(r1, p, u, y);
        assert forall y :: y in r2[p][u] ==> InRelevant(r2, p, u, y);
      }
      forall u | u in r2[p]
        ensures u in r1[p]
      {
        var x :| x in r2[p][u];
        assert InRelevant(r2, p, u, x);
      }
    }
    forall p | p in r2
      ensures p in r1
    {
      var t :| t in r2[p];
      var id :| id in r2[p][t];
      assert InRelevant(r2, p, t, id);
    }
  }

  /** One parsed request added to the table. */
  function AddRequest(r: RelevantObstacles, p: Proposition, t: nat, id: Id): (r': RelevantObstacles)
    ensures forall q, u, x :: InRelevant(r', q, u, x) <==> InRelevant(r, q, u, x) || (q == p && u == t && x == id)
    ensures NoEmptyEntries(r) ==> NoEmptyEntries(r')
  {
    var steps := if p in r then r[p] else map[];
    var ids := if t in steps then steps[t] else {};
    r[p := steps[t := ids + {id}]]
  }

  /** One of the first i request strings parses to proposition q with parameter x. */
  ghost predicate ParsedAmong(props: seq<string>, i: nat, q: Proposition, x: Id)
  {
    exists k :: 0 <= k < i && k < |props| && Parses(props[k], q, x)
  }

  /** `r'` is `r` with the parsed requests of the first i strings of step t. */
  ghost predicate StepPartlyAdded(r: RelevantObstacles, r': RelevantObstacles, t: nat, props: seq<string>, i: nat)
  {
    forall q, u, x :: InRelevant(r', q, u, x) <==> InRelevant(r, q, u, x) || (u == t && ParsedAmong(props, i, q, x))
  }

  lemma StepRequestsStep(r: RelevantObstacles, r': RelevantObstacles, t: nat, props: seq<string>, i: nat)
    requires i < |props| && StepPartlyAdded(r, r', t, props, i)
    ensures var parsed := FromString(props[i]);
      StepPartlyAdded(r, if parsed.Ok? then AddRequest(r', parsed.value.0, t, parsed.value.1) else r', t, props, i + 1)
  {
    var parsed := FromString(props[i]);
    var r'' := if parsed.Ok? then AddRequest(r', parsed.value.0, t, parsed.value.1) else r';
    forall q, u, x
      ensures InRelevant(r'', q, u, x) <==> InRelevant(r, q, u, x) || (u == t && ParsedAmong(props, i + 1, q, x))
    {
      assert ParsedAmong(props, i + 1, q, x) <==> ParsedAmong(props, i, q, x) || Parses(props[i], q, x) by {
        if ParsedAmong(props, i + 1, q, x) {
          var k :| 0 <= k < i + 1 && k < |props| && Parses(props[k], q, x);
          if k < i {
            assert ParsedAmong(props, i, q, x);
          }
        }
        if Parses(props[i], q, x) {
          assert 0 <= i < i + 1 && i < |props|;
        }
        if ParsedAmong(props, i, q, x) {
          var k :| 0 <= k < i && k < |props| && Parses(props[k], q, x);
          assert 0 <= k < i + 1;
        }
      }
    }
  }

  /** The requests of one step: each string that parses adds its parameter under its
   *  proposition; a string that does not parse is skipped. */
  method AddStepRequests(r: RelevantObstacles, t: nat, props: seq<string>) returns (r': RelevantObstacles)
    requires NoEmptyEntries(r)
    ensures NoEmptyEntries(r')
    ensures forall q, u, x :: InRelevant(r', q, u, x) <==>
      InRelevant(r, q, u, x) || (u == t && exists k :: 0 <= k < |props| && Parses(props[k], q, x))
  {
    r' := r;
    var i := 0;
    while i < |props|
      invariant 0 <= i <= |props|
      invariant NoEmptyEntries(r')
      invariant StepPartlyAdded(r, r', t, props, i)
    {
      StepRequestsStep(r, r', t, props, i);
      var parsed := FromString(props[i]);
      if parsed.Ok? {
        r' := AddRequest(r', parsed.value.0, t, parsed.value.1);
      }
      i := i + 1;
    }
  }

  /** The parsed requests of every step, collected per proposition and step. */
  method ComputeRelevantObstacles(requests: map<nat, seq<string>>) returns (r: RelevantObstacles)
    ensures NoEmptyEntries(r)
    ensures forall p, t, id :: InRelevant(r, p, t, id) <==> Requested(requests, p, t, id)
  {
    r := map[];
    var pending := requests.Keys;
    while pending != {}
      invariant pending <= requests.Keys
      invariant NoEmptyEntries(r)
      invariant forall p, t, id :: InRelevant(r, p, t, id) <==> t !in pending && Requested(requests, p, t, id)
      decreases pending
    {
      var t :| t in pending;
      r := AddStepRequests(r, t, requests[t]);
      pending := pending - {t};
    }
  }

  // ---------------------------------------------------------------------------
  // The Kleene extractor of each proposition.

  /** How a Kleene extractor treats the requests: it classifies every requested obstacle,
   *  it classifies the ego vehicle at every requested step, or it partitions the
   *  requested obstacles by a turning direction. */
  datatype KleeneExtractor =
    | ObstacleExtractor(c: Classifier)
    | EgoExtractor(verdict: nat -> Option<bool>)
    | TurningExtractor(dir: Direction)

  /** The mode and the two directions a priority proposition's name spells, in order. */
  datatype PriorityName = PriorityName(mode: PriorityMode, first: Direction, second: Direction)

  function PriorityNameOf(p: Proposition): Option<PriorityName>
  {
    match p
    case SameLeftLeftPriority => Some(PriorityName(SamePriority, Left, Left))
    case SameLeftRightPriority => Some(PriorityName(SamePriority, Left, Right))
    case SameLeftStraightPriority => Some(PriorityName(SamePriority, Left, Straight))
    case SameRightLeftPriority => Some(PriorityName(SamePriority, Right, Left))
    case SameRightRightPriority => Some(PriorityName(SamePriority, Right, Right))
    case SameRightStraightPriority => Some(PriorityName(SamePriority, Right, Straight))
    case SameStraightLeftPriority => Some(PriorityName(SamePriority, Straight, Left))
    case SameStraightRightPriority => Some(PriorityName(SamePriority, Straight, Right))
    case SameStraightStraightPriority => Some(PriorityName(SamePriority, Straight, Straight))

    case HasLeftLeftPriority => Some(PriorityName(EgoHasPriority, Left, Left))
    case HasLeftRightPriority => Some(PriorityName(EgoHasPriority, Left, Right))
    case HasLeftStraightPriority => Some(PriorityName(EgoHasPriority, Left, Straight))
    case HasRightLeftPriority => Some(PriorityName(EgoHasPriority, Right, Left))
    case HasRightRightPriority => Some(PriorityName(EgoHasPriority, Right, Right))
    case HasRightStraightPriority => Some(PriorityName(EgoHasPriority, Right, Straight))
    case HasStraightLeftPriority => Some(PriorityName(EgoHasPriority, Straight, Left))
    case HasStraightRightPriority => Some(PriorityName(EgoHasPriority, Straight, Right))
    case HasStraightStraightPriority => Some(PriorityName(EgoHasPriority, Straight, Straight))

    case OtherHasLeftLeftPriority => Some(PriorityName(OtherHasPriority, Left, Left))
    case OtherHasLeftRightPriority => Some(PriorityName(OtherHasPriority, Left, Right))
    case OtherHasLeftStraightPriority => Some(PriorityName(OtherHasPriority, Left, Straight))
    case OtherHasRightLeftPriority => Some(PriorityName(OtherHasPriority, Right, Left))
    case OtherHasRightRightPriority => Some(PriorityName(OtherHasPriority, Right, Right))
    case OtherHasRightStraightPriority => Some(PriorityName(OtherHasPriority, Right, Straight))
    case OtherHasStraightLeftPriority => Some(PriorityName(OtherHasPriority, Straight, Left))
    case OtherHasStraightRightPriority => Some(PriorityName(OtherHasPriority, Straight, Right))
    case OtherHasStraightStraightPriority => Some(PriorityName(OtherHasPriority, Straight, Straight))

    case _ => None
  }

  /** What a priority extractor is built with: its mode, the direction whose priority range
   *  the ego vehicle is given, and the direction whose priority the obstacle is given. */
  datatype PrioritySetting = PrioritySetting(mode: PriorityMode, egoTurn: Direction, otherTurn: Direction)

  /** The settings as the extractor factory writes them: the first direction of the name is
   *  the ego vehicle's, also when the other vehicle has priority. */
  function AsWrittenPrioritySetting(p: Proposition): (r: Option<PrioritySetting>)
    ensures r.Some? <==> PriorityNameOf(p).Some?
    ensures r.Some? ==> r.value.egoTurn == PriorityNameOf(p).value.first
  {
    match PriorityNameOf(p)
    case None => None
    case Some(n) => Some(PrioritySetting(n.mode, n.first, n.second))
  }

  /** The settings as the rules read the names: the first direction belongs to the vehicle
   *  named first, which is the obstacle when the other vehicle has priority. */
  function PrioritySettingOf(p: Proposition): Option<PrioritySetting>
  {
    match PriorityNameOf(p)
    case None => None
    case Some(n) =>
      if n.mode == OtherHasPriority then Some(PrioritySetting(n.mode, n.second, n.first))
      else Some(PrioritySetting(n.mode, n.first, n.second))
  }

  /** The corrected settings give each vehicle the direction the monitor literal gives it,
   *  and the mode that matches the literal's relation and vehicle order. */
  lemma PrioritySettingMatchesMonitor(p: Proposition)
    ensures PrioritySettingOf(p).Some? <==> Formatting.PriorityLiteralOf(p).Some?
    ensures PrioritySettingOf(p).Some? ==>
      var s, l := PrioritySettingOf(p).value, Formatting.PriorityLiteralOf(p).value;
      && s.egoTurn == Formatting.EgoTurn(l)
      && s.otherTurn == Formatting.OtherTurn(l)
      && (s.mode == OtherHasPriority <==> l.obstacleFirst)
      && (s.mode == SamePriority <==> l.relation == "same_priority")
  {
  }

  /** The settings as written agree with the monitor literal exactly where the swap makes no
   *  difference: unless the other vehicle has priority, or when both directions are equal. */
  lemma AsWrittenAgreement(p: Proposition)
    requires PriorityNameOf(p).Some?
    ensures AsWrittenPrioritySetting(p) == PrioritySettingOf(p) <==>
      PriorityNameOf(p).value.mode != OtherHasPriority || PriorityNameOf(p).value.first == PriorityNameOf(p).value.second
  {
  }

  /** The witness: when the other vehicle turning left has priority over the ego vehicle
   *  turning right, the factory looks up the ego vehicle's range for turning left. */
  lemma AsWrittenPrioritySwapped()
    ensures AsWrittenPrioritySetting(OtherHasLeftRightPriority) == Some(PrioritySetting(OtherHasPriority, Left, Right))
    ensures Formatting.EgoTurn(Formatting.PriorityLiteralOf(OtherHasLeftRightPriority).value) == Right
    ensures Formatting.OtherTurn(Formatting.PriorityLiteralOf(OtherHasLeftRightPriority).value) == Left
  {
  }

  /** The propositions the factory has no Kleene extractor for. */
  predicate WithoutKleeneExtractor(p: Proposition)
  {
    match p
    case StopLineInFront | InStandstill | OnOncomingOf | InIntersectionConflictArea | OtherInIntersectionConflictArea
       | CausesBrakingIntersection | TurningLeft | TurningRight | GoingStraight => true
    case _ => false
  }

  /** The Kleene extractor the factory creates for a proposition, if any. */
  function CreateKleeneExtractor(p: Proposition, env: Environment): (r: Option<KleeneExtractor>)
    ensures r.None? <==> WithoutKleeneExtractor(p)
    ensures PriorityNameOf(p).Some? ==> r == Some(ObstacleExtractor(PriorityClassifier(env.ego,
      PrioritySettingOf(p).value.mode, PrioritySettingOf(p).value.egoTurn, PrioritySettingOf(p).value.otherTurn)))
  {
    if PriorityNameOf(p).Some? then
      var s := PrioritySettingOf(p).value;
      Some(ObstacleExtractor(PriorityClassifier(env.ego, s.mode, s.egoTurn, s.otherTurn)))
    else match p
      case OnMainCarriageway => Some(EgoExtractor(Position.OnLaneletWithTypeVerdicts(env.ego, MainCarriageway)))
      case InIntersection => Some(EgoExtractor(Position.OnLaneletWithTypeVerdicts(env.ego, World.Intersection)))
      case OnMainCarriagewayRightLane => Some(EgoExtractor(Position.McwRightLaneVerdicts(env.ego)))
      case InFrontOf => Some(ObstacleExtractor(Position.InFrontOfClassifier(env.ego)))
      case InSameLane => Some(ObstacleExtractor(Position.InSameLaneClassifier(env.ego)))
      case CutIn => Some(ObstacleExtractor(General.CutInClassifier(env.ego)))
      case KeepsSafeDistancePrec => Some(ObstacleExtractor(Braking.SafeDistanceClassifier(env.ego)))
      case OtherOnAccessRamp => Some(ObstacleExtractor(EgoIndependent.EgoIndependentClassifier(AccessRamp)))
      case OtherOnMainCarriageway => Some(ObstacleExtractor(EgoIndependent.EgoIndependentClassifier(MainCarriageway)))
      case RelevantTrafficLight => Some(EgoExtractor(Position.RelevantTrafficLightVerdicts(env.scene)))
      case AtStopSign => Some(EgoExtractor(Position.AtTrafficSignVerdicts(env.ego, env.scene, Stop)))
      case OnIncomingLeftOf => Some(ObstacleExtractor(Turning.OnIncomingLeftOfClassifier(env.ego, env.scene)))
      case OtherTurningLeft => Some(TurningExtractor(Left))
      case OtherGoingStraight => Some(TurningExtractor(Straight))
      case OtherTurningRight => Some(TurningExtractor(Right))
      case _ => None
  }

  // ---------------------------------------------------------------------------
  // Running the Kleene extractors.

  /** A requested ego marker makes a turning extractor raise. */
  ghost predicate EgoRequested(requests: Requests)
  {
    exists t :: t in requests && None in requests[t]
  }

  /** What an extractor yields for one proposition's requests: a raise, or the true and
   *  false identifiers per step. */
  ghost function KleeneOutcome(k: KleeneExtractor, requests: Requests, obstacles: seq<Obstacle>): Result<map<nat, TrueFalse>, Raise>
  {
    match k
    case ObstacleExtractor(c) =>
      if AnyRaises(requests, obstacles, c) then Err(Raised) else Ok(Table(requests, obstacles, c))
    case EgoExtractor(v) => Ok(EgoTable(requests, v))
    case TurningExtractor(d) =>
      if EgoRequested(requests) then Err(Raised)
      else Ok(TurningTable(requests, obstacles, d))
  }

  /** Every requested step gets the same partition of all the requested obstacles. */
  ghost function TurningTable(requests: Requests, obstacles: seq<Obstacle>, d: Direction): map<nat, TrueFalse>
  {
    map t | t in requests :: Turning.TurningPartition(obstacles, Turning.RequestedIds(requests), d)
  }

  method RunKleene(k: KleeneExtractor, requests: Requests, obstacles: seq<Obstacle>)
    returns (r: Result<map<nat, TrueFalse>, Raise>)
    ensures r == KleeneOutcome(k, requests, obstacles)
  {
    match k
    case ObstacleExtractor(c) =>
      r := ExtractObstacles(requests, obstacles, c);
      if r.Err? {
        assert r.error.Raised?;
      }
    case EgoExtractor(v) =>
      var tab := ExtractEgo(requests, v);
      r := Ok(tab);
    case TurningExtractor(d) =>
      r := Turning.ExtractOtherTurning(requests, obstacles, d);
      if r.Ok? {
        assert r.value == TurningTable(requests, obstacles, d);
      } else {
        assert r.error.Raised?;
      }
  }

  /** A step's knowledge so far; a step without an entry has none. */
  function Base(result: map<nat, ExtractionResult>, t: nat): ExtractionResult
  {
    if t in result then result[t] else NoKnowledge
  }

  /** How a proposition and an identifier are written; the extraction writes them with
   *  ToString, and the folds below are stated for any rendering. */
  type Render = (Proposition, Id) -> string

  /** The proposition strings of a proposition for a set of identifiers. */
  function Rendered(render: Render, p: Proposition, ids: set<Id>): (r: set<string>)
    ensures forall s :: s in r <==> exists id :: id in ids && s == render(p, id)
  {
    set id | id in ids :: render(p, id)
  }

  /** One extractor's table added to the result: each of its steps gets an entry, and the
   *  proposition strings of its true and false identifiers. */
  function AddKleene(render: Render, result: map<nat, ExtractionResult>, p: Proposition, table: map<nat, TrueFalse>): (r: map<nat, ExtractionResult>)
    ensures r.Keys == result.Keys + table.Keys
    ensures forall t :: t in r && t !in table ==> r[t] == result[t]
    ensures forall t :: t in table ==>
      r[t] == Base(result, t).(positives := Base(result, t).positives + Rendered(render, p, table[t].trues),
                               negatives := Base(result, t).negatives + Rendered(render, p, table[t].falses))
  {
    map t | t in result.Keys + table.Keys ::
      if t in table then
        Base(result, t).(positives := Base(result, t).positives + Rendered(render, p, table[t].trues),
                         negatives := Base(result, t).negatives + Rendered(render, p, table[t].falses))
      else result[t]
  }

  ghost predicate HasKleene(relevant: RelevantObstacles, env: Environment, p: Proposition)
  {
    p in relevant && CreateKleeneExtractor(p, env).Some?
  }

  ghost function Outcome(relevant: RelevantObstacles, env: Environment, p: Proposition): Result<map<nat, TrueFalse>, Raise>
    requires HasKleene(relevant, env, p)
  {
    KleeneOutcome(CreateKleeneExtractor(p, env).value, relevant[p], env.scene.obstacles)
  }

  /** Some requested proposition's extractor raises. */
  ghost predicate KleeneRaises(relevant: RelevantObstacles, env: Environment)
  {
    exists p :: HasKleene(relevant, env, p) && Outcome(relevant, env, p).Err?
  }

  /** The table of every requested proposition whose extractor does not raise. */
  ghost function KleeneTables(relevant: RelevantObstacles, env: Environment): map<Proposition, map<nat, TrueFalse>>
  {
    map p | p in relevant && HasKleene(relevant, env, p) && Outcome(relevant, env, p).Ok? :: Outcome(relevant, env, p).value
  }

  /** Among the propositions `ps`, p has a table with an entry for step t. */
  ghost predicate Found(tables: map<Proposition, map<nat, TrueFalse>>, ps: set<Proposition>, p: Proposition, t: nat)
  {
    p in ps && p in tables && t in tables[p]
  }

  function Side(tf: TrueFalse, positive: bool): set<Id>
  {
    if positive then tf.trues else tf.falses
  }

  /** Proposition string s is asserted positively (negatively) at step t by one of `ps`. */
  ghost predicate Asserted(render: Render, tables: map<Proposition, map<nat, TrueFalse>>, ps: set<Proposition>, t: nat, s: string, positive: bool)
  {
    exists p :: Found(tables, ps, p, t) && s in Rendered(render, p, Side(tables[p][t], positive))
  }

  function Literals(e: ExtractionResult, positive: bool): set<string>
  {
    if positive then e.positives else e.negatives
  }

  /** `r` has an entry for every step of `result0` and every step one of `ps` has. */
  ghost predicate StepsAdded(tables: map<Proposition, map<nat, TrueFalse>>, ps: set<Proposition>,
                             result0: map<nat, ExtractionResult>, r: map<nat, ExtractionResult>)
  {
    forall t :: t in r <==> t in result0 || exists p :: Found(tables, ps, p, t)
  }

  /** The relationships of each step are those of `result0`. */
  ghost predicate RelationsKept(result0: map<nat, ExtractionResult>, r: map<nat, ExtractionResult>)
  {
    forall t :: t in r ==>
      r[t].implications == Base(result0, t).implications && r[t].equivalences == Base(result0, t).equivalences
  }

  /** The positive (negative) literals of each step are those of `result0` and those `ps` assert. */
  ghost predicate LiteralsAdded(render: Render, tables: map<Proposition, map<nat, TrueFalse>>, ps: set<Proposition>,
                                result0: map<nat, ExtractionResult>, r: map<nat, ExtractionResult>, positive: bool)
  {
    forall t, s :: t in r ==>
      (s in Literals(r[t], positive) <==> s in Literals(Base(result0, t), positive) || Asserted(render, tables, ps, t, s, positive))
  }

  /** `r` is `result0` with the tables of `ps` added: an entry for every step one of them
   *  has, the proposition strings of their true and false identifiers, and the
   *  relationships as they were. */
  ghost predicate KleeneAdded(render: Render, tables: map<Proposition, map<nat, TrueFalse>>, ps: set<Proposition>,
                              result0: map<nat, ExtractionResult>, r: map<nat, ExtractionResult>)
  {
    && StepsAdded(tables, ps, result0, r)
    && RelationsKept(result0, r)
    && LiteralsAdded(render, tables, ps, result0, r, true)
    && LiteralsAdded(render, tables, ps, result0, r, false)
  }

  lemma KleeneNone(render: Render, tables: map<Proposition, map<nat, TrueFalse>>, result0: map<nat, ExtractionResult>)
    ensures KleeneAdded(render, tables, {}, result0, result0)
  {
  }

  lemma FoundStep(tables: map<Proposition, map<nat, TrueFalse>>, ps: set<Proposition>, p: Proposition, t: nat)
    ensures (exists q :: Found(tables, ps + {p}, q, t)) <==> (exists q :: Found(tables, ps, q, t)) || Found(tables, {p}, p, t)
  {
    if exists q :: Found(tables, ps + {p}, q, t) {
      var q :| Found(tables, ps + {p}, q, t);
      if q != p {
        assert Found(tables, ps, q, t);
      }
    }
    if exists q :: Found(tables, ps, q, t) {
      var q :| Found(tables, ps, q, t);
      assert Found(tables, ps + {p}, q, t);
    }
    if Found(tables, {p}, p, t) {
      assert Found(tables, ps + {p}, p, t);
    }
  }

  lemma AssertedStep(render: Render, tables: map<Proposition, map<nat, TrueFalse>>, ps: set<Proposition>, p: Proposition,
                     t: nat, s: string, positive: bool)
    ensures Asserted(render, tables, ps + {p}, t, s, positive) <==>
      Asserted(render, tables, ps, t, s, positive) || (Found(tables, {p}, p, t) && s in Rendered(render, p, Side(tables[p][t], positive)))
  {
    AssertedGrows(render, tables, ps, p, t, s, positive);
    if Asserted(render, tables, ps + {p}, t, s, positive) {
      AssertedShrinks(render, tables, ps, p, t, s, positive);
    }
  }

  lemma AssertedGrows(render: Render, tables: map<Proposition, map<nat, TrueFalse>>, ps: set<Proposition>, p: Proposition,
                      t: nat, s: string, positive: bool)
    ensures Asserted(render, tables, ps, t, s, positive) ==> Asserted(render, tables, ps + {p}, t, s, positive)
    ensures Found(tables, {p}, p, t) && s in Rendered(render, p, Side(tables[p][t], positive)) ==>
      Asserted(render, tables, ps + {p}, t, s, positive)
  {
    if Asserted(render, tables, ps, t, s, positive) {
      var q :| Found(tables, ps, q, t) && s in Rendered(render, q, Side(tables[q][t], positive));
      assert Found(tables, ps + {p}, q, t);
    }
    if Found(tables, {p}, p, t) && s in Rendered(render, p, Side(tables[p][t], positive)) {
      assert Found(tables, ps + {p}, p, t);
    }
  }

  lemma AssertedShrinks(render: Render, tables: map<Proposition, map<nat, TrueFalse>>, ps: set<Proposition>, p: Proposition,
                        t: nat, s: string, positive: bool)
    requires Asserted(render, tables, ps + {p}, t, s, positive)
    ensures Asserted(render, tables, ps, t, s, positive) || (Found(tables, {p}, p, t) && s in Rendered(render, p, Side(tables[p][t], positive)))
  {
    var q :| Found(tables, ps + {p}, q, t) && s in Rendered(render, q, Side(tables[q][t], positive));
    if q != p {
      assert Found(tables, ps, q, t);
    }
  }

  /** A step none of `ps` has gets no literal from them. */
  lemma NotFoundNotAsserted(render: Render, tables: map<Proposition, map<nat, TrueFalse>>, ps: set<Proposition>, t: nat, s: string, positive: bool)
    requires !exists q :: Found(tables, ps, q, t)
    ensures !Asserted(render, tables, ps, t, s, positive)
  {
  }

  /** The literals of a step after one more table is added. */
  lemma AddKleeneLiterals(render: Render, result: map<nat, ExtractionResult>, p: Proposition, table: map<nat, TrueFalse>, t: nat, positive: bool)
    requires t in table
    ensures Literals(AddKleene(render, result, p, table)[t], positive) == Literals(Base(result, t), positive) + Rendered(render, p, Side(table[t], positive))
  {
  }

  /** One literal of one step after one more table is added. */
  lemma LiteralsPoint(render: Render, tables: map<Proposition, map<nat, TrueFalse>>, ps: set<Proposition>, p: Proposition,
                      result0: map<nat, ExtractionResult>, r: map<nat, ExtractionResult>, positive: bool, t: nat, s: string)
    requires p !in ps && p in tables
    requires StepsAdded(tables, ps, result0, r) && LiteralsAdded(render, tables, ps, result0, r, positive)
    requires t in AddKleene(render, r, p, tables[p])
    ensures s in Literals(AddKleene(render, r, p, tables[p])[t], positive) <==>
      s in Literals(Base(result0, t), positive) || Asserted(render, tables, ps + {p}, t, s, positive)
  {
    AssertedStep(render, tables, ps, p, t, s, positive);
    if t in tables[p] {
      AddKleeneLiterals(render, r, p, tables[p], t, positive);
      assert Found(tables, {p}, p, t);
      if t !in r {
        NotFoundNotAsserted(render, tables, ps, t, s, positive);
      }
    } else {
      assert !Found(tables, {p}, p, t);
    }
  }

  lemma LiteralsStep(render: Render, tables: map<Proposition, map<nat, TrueFalse>>, ps: set<Proposition>, p: Proposition,
                     result0: map<nat, ExtractionResult>, r: map<nat, ExtractionResult>, positive: bool)
    requires p !in ps && p in tables
    requires StepsAdded(tables, ps, result0, r) && LiteralsAdded(render, tables, ps, result0, r, positive)
    ensures LiteralsAdded(render, tables, ps + {p}, result0, AddKleene(render, r, p, tables[p]), positive)
  {
    forall t, s | t in AddKleene(render, r, p, tables[p])
      ensures s in Literals(AddKleene(render, r, p, tables[p])[t], positive) <==>
        s in Literals(Base(result0, t), positive) || Asserted(render, tables, ps + {p}, t, s, positive)
    {
      LiteralsPoint(render, tables, ps, p, result0, r, positive, t, s);
    }
  }

  lemma StepsStep(tables: map<Proposition, map<nat, TrueFalse>>, ps: set<Proposition>, p: Proposition,
                  result0: map<nat, ExtractionResult>, r: map<nat, ExtractionResult>, r': map<nat, ExtractionResult>)
    requires StepsAdded(tables, ps, result0, r)
    requires r'.Keys == r.Keys + (if p in tables then tables[p].Keys else {})
    ensures StepsAdded(tables, ps + {p}, result0, r')
  {
    forall t
      ensures t in r' <==> t in result0 || exists q :: Found(tables, ps + {p}, q, t)
    {
      FoundStep(tables, ps, p, t);
    }
  }

  lemma RelationsKeptStep(render: Render, p: Proposition, table: map<nat, TrueFalse>,
                      result0: map<nat, ExtractionResult>, r: map<nat, ExtractionResult>)
    requires result0.Keys <= r.Keys && RelationsKept(result0, r)
    ensures RelationsKept(result0, AddKleene(render, r, p, table))
  {
    forall t | t in AddKleene(render, r, p, table) && t in table && t !in r
      ensures t !in result0
    {
    }
  }

  /** Adding the table of one more proposition keeps the description. */
  lemma KleeneStep(render: Render, tables: map<Proposition, map<nat, TrueFalse>>, ps: set<Proposition>, p: Proposition,
                   result0: map<nat, ExtractionResult>, r: map<nat, ExtractionResult>)
    requires p !in ps && p in tables
    requires KleeneAdded(render, tables, ps, result0, r)
    ensures KleeneAdded(render, tables, ps + {p}, result0, AddKleene(render, r, p, tables[p]))
  {
    StepsStep(tables, ps, p, result0, r, AddKleene(render, r, p, tables[p]));
    RelationsKeptStep(render, p, tables[p], result0, r);
    LiteralsStep(render, tables, ps, p, result0, r, true);
    LiteralsStep(render, tables, ps, p, result0, r, false);
  }

  /** A proposition without a table adds nothing. */
  lemma KleeneSkip(render: Render, tables: map<Proposition, map<nat, TrueFalse>>, ps: set<Proposition>, p: Proposition,
                   result0: map<nat, ExtractionResult>, r: map<nat, ExtractionResult>)
    requires p !in tables
    requires KleeneAdded(render, tables, ps, result0, r)
    ensures KleeneAdded(render, tables, ps + {p}, result0, r)
  {
    StepsStep(tables, ps, p, result0, r, r);
    forall t, s, positive: bool
      ensures Asserted(render, tables, ps + {p}, t, s, positive) <==> Asserted(render, tables, ps, t, s, positive)
    {
      AssertedStep(render, tables, ps, p, t, s, positive);
    }
  }

  /** The Kleene extraction: every requested proposition with an extractor is extracted, and
   *  its true and false identifiers are rendered into the entries of their steps.  A raise
   *  in any extractor ends the extraction. */
  method ExtractKleene(relevant: RelevantObstacles, env: Environment, result0: map<nat, ExtractionResult>)
    returns (r: Result<map<nat, ExtractionResult>, Raise>)
    ensures r.Err? <==> KleeneRaises(relevant, env)
    ensures r.Ok? ==> KleeneAdded(ToString, KleeneTables(relevant, env), relevant.Keys, result0, r.value)
  {
    ghost var tables := KleeneTables(relevant, env);
    var result := result0;
    var pending := relevant.Keys;
    KleeneNone(ToString, tables, result0);
    while pending != {}
      invariant pending <= relevant.Keys
      invariant forall p :: p in relevant.Keys - pending && HasKleene(relevant, env, p) ==> Outcome(relevant, env, p).Ok?
      invariant KleeneAdded(ToString, tables, relevant.Keys - pending, result0, result)
      decreases pending
    {
      var p :| p in pending;
      var x := CreateKleeneExtractor(p, env);
      if x.Some? {
        var out := RunKleene(x.value, relevant[p], env.scene.obstacles);
        if out.Err? {
          assert HasKleene(relevant, env, p) && Outcome(relevant, env, p).Err?;
          return Err(Raised);
        }
        assert p in tables && tables[p] == out.value;
        KleeneStep(ToString, tables, relevant.Keys - pending, p, result0, result);
        result := AddKleene(ToString, result, p, out.value);
      } else {
        KleeneSkip(ToString, tables, relevant.Keys - pending, p, result0, result);
      }
      assert relevant.Keys - (pending - {p}) == (relevant.Keys - pending) + {p};
      pending := pending - {p};
    }
    assert relevant.Keys - pending == relevant.Keys;
    return Ok(result);
  }

  // ---------------------------------------------------------------------------
  // The relationship extractor of each proposition.

  /** The four relationship extractors: two group obstacles into equivalences, two chain
   *  them with implications. */
  datatype RelationKind = SameLaneEquivalence | ConflictAreaEquivalence | InFrontOfImplication | SafeDistanceImplication

  /** An extractor, the propositions its relationships relate and the kind of
   *  relationship it mostly finds. */
  datatype RelationshipExtractor = RelationshipExtractor(kind: RelationKind, lhs: Proposition, rhs: Proposition, dominant: RelationshipType)

  function CreateRelationshipExtractor(p: Proposition): (r: Option<RelationshipExtractor>)
    ensures r.Some? <==> p == InSameLane || p == InIntersectionConflictArea || p == InFrontOf || p == KeepsSafeDistancePrec
    ensures r.Some? ==> r.value.lhs == p && r.value.rhs == p
    ensures r.Some? ==> (r.value.dominant == Equivalence <==> p == InSameLane || p == InIntersectionConflictArea)
  {
    match p
    case InSameLane => Some(RelationshipExtractor(SameLaneEquivalence, InSameLane, InSameLane, Equivalence))
    case InIntersectionConflictArea =>
      Some(RelationshipExtractor(ConflictAreaEquivalence, InIntersectionConflictArea, InIntersectionConflictArea, Equivalence))
    case InFrontOf => Some(RelationshipExtractor(InFrontOfImplication, InFrontOf, InFrontOf, Implication))
    case KeepsSafeDistancePrec =>
      Some(RelationshipExtractor(SafeDistanceImplication, KeepsSafeDistancePrec, KeepsSafeDistancePrec, Implication))
    case _ => None
  }

  /** The equivalences of a grouping extractor: at every requested step, the chains of the
   *  requested obstacles that share a key. */
  ghost function EquivalenceTable(requests: Requests, obstacles: seq<Obstacle>, key: (nat, Obstacle) -> Option<set<nat>>): RelationshipTable
  {
    map t | t in requests :: Eq.Chain(Eq.Keyed(t, requests[t], obstacles, key))
  }

  /** What an extractor may yield.  The in-front-of extractor sorts with an unstable sort,
   *  so its chain order among equal rear positions is not fixed. */
  ghost predicate Produces(x: RelationshipExtractor, env: Environment, requests: Requests, table: RelationshipTable)
  {
    match x.kind
    case SameLaneEquivalence => table == EquivalenceTable(requests, env.scene.obstacles, Eq.SameLaneKey)
    case ConflictAreaEquivalence => table == EquivalenceTable(requests, env.scene.obstacles, Eq.ConflictAreaKey)
    case InFrontOfImplication =>
      && (forall t :: t in table <==> t in requests && |Impl.Placements(t, requests[t], env.scene.obstacles)| >= 2)
      && (forall t :: t in table ==> Impl.ChainsSortedPermutation(Impl.Placements(t, requests[t], env.scene.obstacles), table[t]))
    case SafeDistanceImplication => table == env.safeDistanceImplications(requests)
  }

  method RunRelationship(x: RelationshipExtractor, env: Environment, requests: Requests) returns (table: RelationshipTable)
    ensures Produces(x, env, requests, table)
  {
    match x.kind
    case SameLaneEquivalence =>
      table := Eq.ExtractEquivalences(requests, env.scene.obstacles, Eq.SameLaneKey);
    case ConflictAreaEquivalence =>
      table := Eq.ExtractEquivalences(requests, env.scene.obstacles, Eq.ConflictAreaKey);
    case InFrontOfImplication =>
      table := Impl.ExtractImplications(requests, env.scene.obstacles);
    case SafeDistanceImplication =>
      table := env.safeDistanceImplications(requests);
  }

  /** Every relationship a grouping extractor yields is an equivalence. */
  lemma EquivalenceExtractorsOnlyEquate(x: RelationshipExtractor, env: Environment, requests: Requests, table: RelationshipTable,
                                        t: nat, rel: Relationship)
    requires x.kind == SameLaneEquivalence || x.kind == ConflictAreaEquivalence
    requires Produces(x, env, requests, table) && t in table && rel in table[t]
    ensures rel.kind == Equivalence
  {
    if x.kind == SameLaneEquivalence {
      Eq.ChainSameKey(Eq.Keyed(t, requests[t], env.scene.obstacles, Eq.SameLaneKey), rel);
    } else {
      Eq.ChainSameKey(Eq.Keyed(t, requests[t], env.scene.obstacles, Eq.ConflictAreaKey), rel);
    }
  }

  /** Every relationship the in-front-of extractor yields is an implication. */
  lemma InFrontOfOnlyImplies(x: RelationshipExtractor, env: Environment, requests: Requests, table: RelationshipTable,
                             t: nat, rel: Relationship)
    requires x.kind == InFrontOfImplication
    requires Produces(x, env, requests, table) && t in table && rel in table[t]
    ensures rel.kind == Implication
  {
    var s :| Impl.SortedByRear(s) && multiset(s) == multiset(Impl.Placements(t, requests[t], env.scene.obstacles)) &&
      table[t] == ChainPairs(Implication, Impl.Ids(s));
    ChainPairsMembers(Implication, Impl.Ids(s), rel);
  }

  // ---------------------------------------------------------------------------
  // Folding relationships into the result.

  /** A relationship written as a pair of proposition strings. */
  function RenderPair(render: Render, lhs: Proposition, rhs: Proposition, rel: Relationship): (string, string)
  {
    (render(lhs, Some(rel.lhs)), render(rhs, Some(rel.rhs)))
  }

  /** The rendered relationships of one kind. */
  function Pairs(render: Render, lhs: Proposition, rhs: Proposition, rels: seq<Relationship>, kind: RelationshipType): (r: set<(string, string)>)
    ensures forall pair :: pair in r <==> exists rel :: rel in rels && rel.kind == kind && pair == RenderPair(render, lhs, rhs, rel)
  {
    set rel | rel in rels && rel.kind == kind :: RenderPair(render, lhs, rhs, rel)
  }

  function Relations(e: ExtractionResult, kind: RelationshipType): set<(string, string)>
  {
    if kind == Implication then e.implications else e.equivalences
  }

  /** A step's knowledge with a step's relationships added, each to the list of its kind. */
  function WithRelations(render: Render, e: ExtractionResult, lhs: Proposition, rhs: Proposition, rels: seq<Relationship>): (r: ExtractionResult)
    ensures r.positives == e.positives && r.negatives == e.negatives
    ensures forall kind :: Relations(r, kind) == Relations(e, kind) + Pairs(render, lhs, rhs, rels, kind)
  {
    e.(implications := e.implications + Pairs(render, lhs, rhs, rels, Implication),
       equivalences := e.equivalences + Pairs(render, lhs, rhs, rels, Equivalence))
  }

  lemma PairsSnoc(render: Render, lhs: Proposition, rhs: Proposition, rels: seq<Relationship>, rel: Relationship, kind: RelationshipType)
    ensures Pairs(render, lhs, rhs, rels + [rel], kind) ==
      Pairs(render, lhs, rhs, rels, kind) + (if rel.kind == kind then {RenderPair(render, lhs, rhs, rel)} else {})
  {
    var longer, shorter := Pairs(render, lhs, rhs, rels + [rel], kind), Pairs(render, lhs, rhs, rels, kind);
    forall pair | pair in longer
      ensures pair in shorter || (rel.kind == kind && pair == RenderPair(render, lhs, rhs, rel))
    {
      var x :| x in rels + [rel] && x.kind == kind && pair == RenderPair(render, lhs, rhs, x);
      if x != rel {
        assert x in rels;
      }
    }
    forall pair | pair in shorter
      ensures pair in longer
    {
      var x :| x in rels && x.kind == kind && pair == RenderPair(render, lhs, rhs, x);
      assert x in rels + [rel];
    }
    if rel.kind == kind {
      assert rel in rels + [rel];
    }
  }

  /** Routing one more relationship adds it to the list of its kind. */
  lemma WithRelationsSnoc(render: Render, e: ExtractionResult, lhs: Proposition, rhs: Proposition, rels: seq<Relationship>, rel: Relationship)
    ensures WithRelations(render, e, lhs, rhs, rels + [rel]) ==
      var before := WithRelations(render, e, lhs, rhs, rels);
      if rel.kind == Implication then before.(implications := before.implications + {RenderPair(render, lhs, rhs, rel)})
      else before.(equivalences := before.equivalences + {RenderPair(render, lhs, rhs, rel)})
  {
    PairsSnoc(render, lhs, rhs, rels, rel, Implication);
    PairsSnoc(render, lhs, rhs, rels, rel, Equivalence);
  }

  /** One step's relationships, routed one by one by their kind. */
  method AddRelations(render: Render, e: ExtractionResult, lhs: Proposition, rhs: Proposition, rels: seq<Relationship>)
    returns (e': ExtractionResult)
    ensures e' == WithRelations(render, e, lhs, rhs, rels)
  {
    e' := e;
    for i := 0 to |rels|
      invariant e' == WithRelations(render, e, lhs, rhs, rels[..i])
    {
      WithRelationsSnoc(render, e, lhs, rhs, rels[..i], rels[i]);
      assert rels[..i + 1] == rels[..i] + [rels[i]];
      match rels[i].kind
      case Implication =>
        e' := e'.(implications := e'.implications + {RenderPair(render, lhs, rhs, rels[i])});
      case Equivalence =>
        e' := e'.(equivalences := e'.equivalences + {RenderPair(render, lhs, rhs, rels[i])});
    }
    assert rels[..|rels|] == rels;
  }

  /** The steps of a table that hold at least one relationship. */
  function RelatedSteps(table: RelationshipTable): set<nat>
  {
    set t | t in table && table[t] != []
  }

  /** One extractor's table added to the result: each step with a relationship gets an
   *  entry with its relationships added; a step whose list is empty is not touched, as
   *  the entry is only created while routing a relationship. */
  function AddRelationshipTable(render: Render, result: map<nat, ExtractionResult>, lhs: Proposition, rhs: Proposition,
                                table: RelationshipTable): (r: map<nat, ExtractionResult>)
    ensures r.Keys == result.Keys + (set t | t in table && table[t] != [])
    ensures forall t :: t in r && (t !in table || table[t] == []) ==> r[t] == result[t]
    ensures forall t :: t in table && table[t] != [] ==> r[t] == WithRelations(render, Base(result, t), lhs, rhs, table[t])
  {
    map t | t in result.Keys + RelatedSteps(table) ::
      if t in RelatedSteps(table) then WithRelations(render, Base(result, t), lhs, rhs, table[t]) else result[t]
  }

  /** A table whose steps hold no relationship, such as an equivalence extractor's with
   *  every requested step reserved but no class of two, leaves the result as it was. */
  lemma EmptyStepsAddNothing(render: Render, result: map<nat, ExtractionResult>, lhs: Proposition, rhs: Proposition,
                             table: RelationshipTable)
    requires forall t :: t in table ==> table[t] == []
    ensures AddRelationshipTable(render, result, lhs, rhs, table) == result
  {
    assert RelatedSteps(table) == {};
  }

  /** `r` is `result` with the relationships of the steps `done` of the table added. */
  ghost predicate PartlyAdded(render: Render, result: map<nat, ExtractionResult>, lhs: Proposition, rhs: Proposition,
                              table: RelationshipTable, done: set<nat>, r: map<nat, ExtractionResult>)
  {
    && done <= table.Keys
    && r.Keys == result.Keys + (done * RelatedSteps(table))
    && (forall t :: t in r && t in done * RelatedSteps(table) ==> r[t] == WithRelations(render, Base(result, t), lhs, rhs, table[t]))
    && (forall t :: t in r && t !in done * RelatedSteps(table) ==> r[t] == result[t])
  }

  lemma PartlyAddedStep(render: Render, result: map<nat, ExtractionResult>, lhs: Proposition, rhs: Proposition,
                        table: RelationshipTable, done: set<nat>, r: map<nat, ExtractionResult>, t: nat)
    requires PartlyAdded(render, result, lhs, rhs, table, done, r)
    requires t in table && t !in done
    ensures Base(r, t) == Base(result, t)
    ensures table[t] != [] ==>
      PartlyAdded(render, result, lhs, rhs, table, done + {t}, r[t := WithRelations(render, Base(r, t), lhs, rhs, table[t])])
    ensures table[t] == [] ==> PartlyAdded(render, result, lhs, rhs, table, done + {t}, r)
  {
    assert (done + {t}) * RelatedSteps(table) == done * RelatedSteps(table) + (if table[t] != [] then {t} else {});
  }

  lemma PartlyAddedAll(render: Render, result: map<nat, ExtractionResult>, lhs: Proposition, rhs: Proposition,
                       table: RelationshipTable, r: map<nat, ExtractionResult>)
    requires PartlyAdded(render, result, lhs, rhs, table, table.Keys, r)
    ensures r == AddRelationshipTable(render, result, lhs, rhs, table)
  {
    assert table.Keys * RelatedSteps(table) == RelatedSteps(table);
  }

  method AddTable(render: Render, result: map<nat, ExtractionResult>, lhs: Proposition, rhs: Proposition, table: RelationshipTable)
    returns (r: map<nat, ExtractionResult>)
    ensures r == AddRelationshipTable(render, result, lhs, rhs, table)
  {
    r := result;
    var pending := table.Keys;
    while pending != {}
      invariant pending <= table.Keys
      invariant PartlyAdded(render, result, lhs, rhs, table, table.Keys - pending, r)
      decreases pending
    {
      var t :| t in pending;
      PartlyAddedStep(render, result, lhs, rhs, table, table.Keys - pending, r, t);
      if table[t] != [] {
        var e := AddRelations(render, Base(r, t), lhs, rhs, table[t]);
        r := r[t := e];
      }
      assert table.Keys - (pending - {t}) == (table.Keys - pending) + {t};
      pending := pending - {t};
    }
    PartlyAddedAll(render, result, lhs, rhs, table, r);
  }

  /** Step t has relationships from one of the tables. */
  ghost predicate RelFound(tables: map<Proposition, RelationshipTable>, p: Proposition, t: nat)
  {
    p in tables && t in tables[p] && tables[p][t] != []
  }

  /** The pair is one of the tables' relationships of the given kind at step t, written
   *  with the table's proposition on both sides. */
  ghost predicate Related(render: Render, tables: map<Proposition, RelationshipTable>, t: nat, pair: (string, string), kind: RelationshipType)
  {
    exists p :: RelFound(tables, p, t) && pair in Pairs(render, p, p, tables[p][t], kind)
  }

  ghost predicate RelStepsAdded(tables: map<Proposition, RelationshipTable>, result0: map<nat, ExtractionResult>, r: map<nat, ExtractionResult>)
  {
    forall t :: t in r <==> t in result0 || exists p :: RelFound(tables, p, t)
  }

  /** The literals of each step are those of `result0`. */
  ghost predicate LiteralsKept(result0: map<nat, ExtractionResult>, r: map<nat, ExtractionResult>)
  {
    forall t :: t in r ==> r[t].positives == Base(result0, t).positives && r[t].negatives == Base(result0, t).negatives
  }

  ghost predicate PairsAdded(render: Render, tables: map<Proposition, RelationshipTable>, result0: map<nat, ExtractionResult>,
                             r: map<nat, ExtractionResult>, kind: RelationshipType)
  {
    forall t, pair :: t in r ==>
      (pair in Relations(r[t], kind) <==> pair in Relations(Base(result0, t), kind) || Related(render, tables, t, pair, kind))
  }

  /** `r` is `result0` with the tables added: an entry for every step one of them has, each
   *  relationship rendered into the list of its kind, and the literals as they were. */
  ghost predicate RelationsAdded(render: Render, tables: map<Proposition, RelationshipTable>,
                                 result0: map<nat, ExtractionResult>, r: map<nat, ExtractionResult>)
  {
    && RelStepsAdded(tables, result0, r)
    && LiteralsKept(result0, r)
    && PairsAdded(render, tables, result0, r, Implication)
    && PairsAdded(render, tables, result0, r, Equivalence)
  }

  lemma RelationsNone(render: Render, result0: map<nat, ExtractionResult>)
    ensures RelationsAdded(render, map[], result0, result0)
  {
  }

  lemma RelFoundStep(tables: map<Proposition, RelationshipTable>, tables': map<Proposition, RelationshipTable>,
                     p: Proposition, table: RelationshipTable, t: nat)
    requires p !in tables && tables' == tables[p := table]
    ensures (exists q :: RelFound(tables', q, t)) <==> (exists q :: RelFound(tables, q, t)) || (t in table && table[t] != [])
  {
    if exists q :: RelFound(tables', q, t) {
      var q :| RelFound(tables', q, t);
      if q != p {
        assert RelFound(tables, q, t);
      }
    }
    if exists q :: RelFound(tables, q, t) {
      var q :| RelFound(tables, q, t);
      assert RelFound(tables', q, t);
    }
    if t in table && table[t] != [] {
      assert RelFound(tables', p, t);
    }
  }

  lemma RelatedStep(render: Render, tables: map<Proposition, RelationshipTable>, p: Proposition, table: RelationshipTable,
                    t: nat, pair: (string, string), kind: RelationshipType)
    requires p !in tables
    ensures Related(render, tables[p := table], t, pair, kind) <==>
      Related(render, tables, t, pair, kind) || (t in table && pair in Pairs(render, p, p, table[t], kind))
  {
    RelatedGrows(render, tables, p, table, t, pair, kind);
    if Related(render, tables[p := table], t, pair, kind) {
      RelatedShrinks(render, tables, p, table, t, pair, kind);
    }
  }

  lemma RelatedGrows(render: Render, tables: map<Proposition, RelationshipTable>, p: Proposition, table: RelationshipTable,
                     t: nat, pair: (string, string), kind: RelationshipType)
    requires p !in tables
    ensures Related(render, tables, t, pair, kind) ==> Related(render, tables[p := table], t, pair, kind)
    ensures t in table && pair in Pairs(render, p, p, table[t], kind) ==> Related(render, tables[p := table], t, pair, kind)
  {
    RelatedKept(render, tables, tables[p := table], p, t, pair, kind);
    RelatedNew(render, tables[p := table], p, t, pair, kind);
  }

  lemma RelatedKept(render: Render, tables: map<Proposition, RelationshipTable>, tables': map<Proposition, RelationshipTable>,
                    p: Proposition, t: nat, pair: (string, string), kind: RelationshipType)
    requires p !in tables && tables.Keys <= tables'.Keys && forall q :: q in tables ==> tables'[q] == tables[q]
    ensures Related(render, tables, t, pair, kind) ==> Related(render, tables', t, pair, kind)
  {
    if Related(render, tables, t, pair, kind) {
      var q :| RelFound(tables, q, t) && pair in Pairs(render, q, q, tables[q][t], kind);
      assert RelFound(tables', q, t);
    }
  }

  lemma RelatedNew(render: Render, tables': map<Proposition, RelationshipTable>, p: Proposition,
                   t: nat, pair: (string, string), kind: RelationshipType)
    requires p in tables'
    ensures t in tables'[p] && pair in Pairs(render, p, p, tables'[p][t], kind) ==> Related(render, tables', t, pair, kind)
  {
    if t in tables'[p] && pair in Pairs(render, p, p, tables'[p][t], kind) {
      assert RelFound(tables', p, t);
    }
  }

  lemma RelatedShrinks(render: Render, tables: map<Proposition, RelationshipTable>, p: Proposition, table: RelationshipTable,
                       t: nat, pair: (string, string), kind: RelationshipType)
    requires p !in tables
    requires Related(render, tables[p := table], t, pair, kind)
    ensures Related(render, tables, t, pair, kind) || (t in table && pair in Pairs(render, p, p, table[t], kind))
  {
    var tables' := tables[p := table];
    var q :| RelFound(tables', q, t) && pair in Pairs(render, q, q, tables'[q][t], kind);
    if q != p {
      assert RelFound(tables, q, t);
    }
  }

  lemma PairsPoint(render: Render, tables: map<Proposition, RelationshipTable>, p: Proposition, table: RelationshipTable,
                   result0: map<nat, ExtractionResult>, r: map<nat, ExtractionResult>, kind: RelationshipType, t: nat, pair: (string, string))
    requires p !in tables
    requires RelStepsAdded(tables, result0, r) && PairsAdded(render, tables, result0, r, kind)
    requires t in AddRelationshipTable(render, r, p, p, table)
    ensures pair in Relations(AddRelationshipTable(render, r, p, p, table)[t], kind) <==>
      pair in Relations(Base(result0, t), kind) || Related(render, tables[p := table], t, pair, kind)
  {
    RelatedStep(render, tables, p, table, t, pair, kind);
    if t in table && table[t] != [] {
      PairsPointAdded(render, tables, p, table, result0, r, kind, t, pair);
    } else {
      assert AddRelationshipTable(render, r, p, p, table)[t] == r[t];
      assert t in table ==> pair !in Pairs(render, p, p, table[t], kind);
    }
  }

  lemma PairsPointAdded(render: Render, tables: map<Proposition, RelationshipTable>, p: Proposition, table: RelationshipTable,
                        result0: map<nat, ExtractionResult>, r: map<nat, ExtractionResult>, kind: RelationshipType, t: nat, pair: (string, string))
    requires p !in tables
    requires RelStepsAdded(tables, result0, r) && PairsAdded(render, tables, result0, r, kind)
    requires t in table && table[t] != []
    ensures pair in Relations(AddRelationshipTable(render, r, p, p, table)[t], kind) <==>
      pair in Relations(Base(result0, t), kind) || Related(render, tables, t, pair, kind) || pair in Pairs(render, p, p, table[t], kind)
  {
    if t !in r {
      assert !exists q :: RelFound(tables, q, t);
    }
  }

  lemma PairsStep(render: Render, tables: map<Proposition, RelationshipTable>, p: Proposition, table: RelationshipTable,
                  result0: map<nat, ExtractionResult>, r: map<nat, ExtractionResult>, kind: RelationshipType)
    requires p !in tables
    requires RelStepsAdded(tables, result0, r) && PairsAdded(render, tables, result0, r, kind)
    ensures PairsAdded(render, tables[p := table], result0, AddRelationshipTable(render, r, p, p, table), kind)
  {
    forall t, pair | t in AddRelationshipTable(render, r, p, p, table)
      ensures pair in Relations(AddRelationshipTable(render, r, p, p, table)[t], kind) <==>
        pair in Relations(Base(result0, t), kind) || Related(render, tables[p := table], t, pair, kind)
    {
      PairsPoint(render, tables, p, table, result0, r, kind, t, pair);
    }
  }

  lemma RelStepsStep(tables: map<Proposition, RelationshipTable>, p: Proposition, table: RelationshipTable,
                     result0: map<nat, ExtractionResult>, r: map<nat, ExtractionResult>, r': map<nat, ExtractionResult>)
    requires p !in tables
    requires RelStepsAdded(tables, result0, r)
    requires r'.Keys == r.Keys + RelatedSteps(table)
    ensures RelStepsAdded(tables[p := table], result0, r')
  {
    var tables' := tables[p := table];
    forall t
      ensures t in r' <==> t in result0 || exists q :: RelFound(tables', q, t)
    {
      RelFoundStep(tables, tables', p, table, t);
    }
  }

  lemma LiteralsKeptStep(render: Render, p: Proposition, table: RelationshipTable,
                         result0: map<nat, ExtractionResult>, r: map<nat, ExtractionResult>)
    requires result0.Keys <= r.Keys && LiteralsKept(result0, r)
    ensures LiteralsKept(result0, AddRelationshipTable(render, r, p, p, table))
  {
    forall t | t in AddRelationshipTable(render, r, p, p, table) && t in table && t !in r
      ensures t !in result0
    {
    }
  }

  /** Adding one more extractor's table keeps the description. */
  lemma RelationsStep(render: Render, tables: map<Proposition, RelationshipTable>, p: Proposition, table: RelationshipTable,
                      result0: map<nat, ExtractionResult>, r: map<nat, ExtractionResult>)
    requires p !in tables
    requires RelationsAdded(render, tables, result0, r)
    ensures RelationsAdded(render, tables[p := table], result0, AddRelationshipTable(render, r, p, p, table))
  {
    RelStepsStep(tables, p, table, result0, r, AddRelationshipTable(render, r, p, p, table));
    LiteralsKeptStep(render, p, table, result0, r);
    PairsStep(render, tables, p, table, result0, r, Implication);
    PairsStep(render, tables, p, table, result0, r, Equivalence);
  }

  /** The extractor of p runs under the filter: it exists, and the filter, if any, names
   *  its dominant relationship. */
  predicate Selected(p: Proposition, filter: Option<RelationshipType>)
  {
    CreateRelationshipExtractor(p).Some? && (filter.None? || CreateRelationshipExtractor(p).value.dominant == filter.value)
  }

  /** `tables` holds one table for each requested proposition the filter selects, one that
   *  its extractor may yield. */
  ghost predicate RelationshipsOf(relevant: RelevantObstacles, env: Environment, filter: Option<RelationshipType>,
                                  tables: map<Proposition, RelationshipTable>)
  {
    && (forall p :: p in tables <==> p in relevant && Selected(p, filter))
    && (forall p :: p in tables ==>
          CreateRelationshipExtractor(p).Some? && Produces(CreateRelationshipExtractor(p).value, env, relevant[p], tables[p]))
  }

  /** The relationship extraction: every requested proposition whose extractor the filter
   *  selects is extracted, and the relationships it finds are rendered into the entries
   *  of their steps.  `tables` holds what each extractor yielded. */
  method ExtractRelationships(relevant: RelevantObstacles, env: Environment, result0: map<nat, ExtractionResult>,
                              filter: Option<RelationshipType>)
    returns (r: map<nat, ExtractionResult>, ghost tables: map<Proposition, RelationshipTable>)
    ensures RelationshipsOf(relevant, env, filter, tables)
    ensures RelationsAdded(ToString, tables, result0, r)
  {
    r := result0;
    tables := map[];
    var pending := relevant.Keys;
    RelationsNone(ToString, result0);
    while pending != {}
      invariant pending <= relevant.Keys
      invariant forall p :: p in tables <==> p in relevant.Keys - pending && Selected(p, filter)
      invariant forall p :: p in tables ==>
        CreateRelationshipExtractor(p).Some? && Produces(CreateRelationshipExtractor(p).value, env, relevant[p], tables[p])
      invariant RelationsAdded(ToString, tables, result0, r)
      decreases pending
    {
      var p :| p in pending;
      var x := CreateRelationshipExtractor(p);
      if x.Some? && (filter.None? || x.value.dominant == filter.value) {
        var table := RunRelationship(x.value, env, relevant[p]);
        RelationsStep(ToString, tables, p, table, result0, r);
        r := AddTable(ToString, r, x.value.lhs, x.value.rhs, table);
        tables := tables[p := table];
      }
      pending := pending - {p};
    }
  }

  // ---------------------------------------------------------------------------
  // The entry points.

  /** `relevant` holds exactly the parsed requests. */
  ghost predicate ParsedFrom(requests: map<nat, seq<string>>, relevant: RelevantObstacles)
  {
    NoEmptyEntries(relevant) && forall p, t, id :: InRelevant(relevant, p, t, id) <==> Requested(requests, p, t, id)
  }

  /** All relationships of the tables have the given kind. */
  ghost predicate OnlyOfKind(tables: map<Proposition, RelationshipTable>, kind: RelationshipType)
  {
    forall p, t, rel :: p in tables && t in tables[p] && rel in tables[p][t] ==> rel.kind == kind
  }

  /** The safe-distance extractor yields only implications. */
  ghost predicate SafeDistanceOnlyImplies(env: Environment)
  {
    forall requests, t, rel :: t in env.safeDistanceImplications(requests) && rel in env.safeDistanceImplications(requests)[t] ==>
      rel.kind == Implication
  }

  /** With the equivalence filter only the grouping extractors run, and they only equate. */
  lemma EquivalenceFilterOnlyEquates(relevant: RelevantObstacles, env: Environment, tables: map<Proposition, RelationshipTable>)
    requires RelationshipsOf(relevant, env, Some(Equivalence), tables)
    ensures OnlyOfKind(tables, Equivalence)
  {
    forall p, t, rel | p in tables && t in tables[p] && rel in tables[p][t]
      ensures rel.kind == Equivalence
    {
      EquivalenceExtractorsOnlyEquate(CreateRelationshipExtractor(p).value, env, relevant[p], tables[p], t, rel);
    }
  }

  /** With the implication filter only the in-front-of and safe-distance extractors run; the
   *  first only implies, so when the second does too, no equivalence is found. */
  lemma ImplicationFilterOnlyImplies(relevant: RelevantObstacles, env: Environment, tables: map<Proposition, RelationshipTable>)
    requires RelationshipsOf(relevant, env, Some(Implication), tables)
    requires SafeDistanceOnlyImplies(env)
    ensures OnlyOfKind(tables, Implication)
  {
    forall p, t, rel | p in tables && t in tables[p] && rel in tables[p][t]
      ensures rel.kind == Implication
    {
      if p == InFrontOf {
        InFrontOfOnlyImplies(CreateRelationshipExtractor(p).value, env, relevant[p], tables[p], t, rel);
      }
    }
  }

  /** Tables without relationships of one kind add no pair to that kind's list. */
  lemma NothingOfOtherKind(render: Render, tables: map<Proposition, RelationshipTable>, result0: map<nat, ExtractionResult>,
                           r: map<nat, ExtractionResult>, kind: RelationshipType, other: RelationshipType)
    requires kind != other && OnlyOfKind(tables, kind)
    requires PairsAdded(render, tables, result0, r, other)
    ensures forall t :: t in r ==> Relations(r[t], other) == Relations(Base(result0, t), other)
  {
    forall t, pair | t in r
      ensures !Related(render, tables, t, pair, other)
    {
      forall p | RelFound(tables, p, t)
        ensures pair !in Pairs(render, p, p, tables[p][t], other)
      {
      }
    }
  }

  /** A fresh result gets no relationship from the Kleene extraction. */
  lemma KleeneAddsNoRelations(tables: map<Proposition, map<nat, TrueFalse>>, ps: set<Proposition>, r: map<nat, ExtractionResult>)
    requires KleeneAdded(ToString, tables, ps, map[], r)
    ensures forall t :: t in r ==> r[t].implications == {} && r[t].equivalences == {}
  {
  }

  /** extract_all: the requests are parsed, every Kleene extractor runs, then every
   *  relationship extractor, into one result per step. */
  method ExtractAll(requests: map<nat, seq<string>>, env: Environment)
    returns (r: Result<map<nat, ExtractionResult>, Raise>, ghost relevant: RelevantObstacles,
             ghost kleene: map<nat, ExtractionResult>, ghost tables: map<Proposition, RelationshipTable>)
    ensures ParsedFrom(requests, relevant)
    ensures r.Err? <==> KleeneRaises(relevant, env)
    ensures r.Ok? ==> KleeneAdded(ToString, KleeneTables(relevant, env), relevant.Keys, map[], kleene)
    ensures r.Ok? ==> RelationshipsOf(relevant, env, None, tables) && RelationsAdded(ToString, tables, kleene, r.value)
  {
    var parsed := ComputeRelevantObstacles(requests);
    relevant := parsed;
    var k := ExtractKleene(parsed, env, map[]);
    if k.Err? {
      return Err(Raised), relevant, map[], map[];
    }
    var mid := k.value;
    kleene := mid;
    var done;
    done, tables := ExtractRelationships(parsed, env, mid, None);
    r := Ok(done);
  }

  /** extract_all_but_implications: as extract_all, with only the equivalence extractors;
   *  no step gets an implication. */
  method ExtractAllButImplications(requests: map<nat, seq<string>>, env: Environment)
    returns (r: Result<map<nat, ExtractionResult>, Raise>, ghost relevant: RelevantObstacles,
             ghost kleene: map<nat, ExtractionResult>, ghost tables: map<Proposition, RelationshipTable>)
    ensures ParsedFrom(requests, relevant)
    ensures r.Err? <==> KleeneRaises(relevant, env)
    ensures r.Ok? ==> KleeneAdded(ToString, KleeneTables(relevant, env), relevant.Keys, map[], kleene)
    ensures r.Ok? ==> RelationshipsOf(relevant, env, Some(Equivalence), tables) && RelationsAdded(ToString, tables, kleene, r.value)
    ensures r.Ok? ==> forall t :: t in r.value ==> r.value[t].implications == {}
  {
    var parsed := ComputeRelevantObstacles(requests);
    relevant := parsed;
    var k := ExtractKleene(parsed, env, map[]);
    if k.Err? {
      return Err(Raised), relevant, map[], map[];
    }
    var mid := k.value;
    kleene := mid;
    var done;
    done, tables := ExtractRelationships(parsed, env, mid, Some(Equivalence));
    EquivalenceFilterOnlyEquates(relevant, env, tables);
    NothingOfOtherKind(ToString, tables, kleene, done, Equivalence, Implication);
    KleeneAddsNoRelations(KleeneTables(relevant, env), relevant.Keys, kleene);
    r := Ok(done);
  }

  /** extract_kleene: only the Kleene extractors run; no step gets a relationship. */
  method ExtractKleeneOnly(requests: map<nat, seq<string>>, env: Environment)
    returns (r: Result<map<nat, ExtractionResult>, Raise>, ghost relevant: RelevantObstacles)
    ensures ParsedFrom(requests, relevant)
    ensures r.Err? <==> KleeneRaises(relevant, env)
    ensures r.Ok? ==> KleeneAdded(ToString, KleeneTables(relevant, env), relevant.Keys, map[], r.value)
    ensures r.Ok? ==> forall t :: t in r.value ==> r.value[t].implications == {} && r.value[t].equivalences == {}
  {
    var parsed := ComputeRelevantObstacles(requests);
    relevant := parsed;
    r := ExtractKleene(parsed, env, map[]);
    if r.Ok? {
      KleeneAddsNoRelations(KleeneTables(relevant, env), relevant.Keys, r.value);
    }
  }

  /** The relationship entry points: only the relationship extractors the filter selects
   *  run; no step gets a positive or negative literal. */
  method ExtractRelationshipsOnly(requests: map<nat, seq<string>>, env: Environment, filter: Option<RelationshipType>)
    returns (r: map<nat, ExtractionResult>, ghost relevant: RelevantObstacles, ghost tables: map<Proposition, RelationshipTable>)
    ensures ParsedFrom(requests, relevant)
    ensures RelationshipsOf(relevant, env, filter, tables) && RelationsAdded(ToString, tables, map[], r)
    ensures forall t :: t in r ==> r[t].positives == {} && r[t].negatives == {}
  {
    var parsed := ComputeRelevantObstacles(requests);
    relevant := parsed;
    r, tables := ExtractRelationships(parsed, env, map[], filter);
  }

  /** extract_equivalences: no step gets an implication. */
  method ExtractEquivalences(requests: map<nat, seq<string>>, env: Environment)
    returns (r: map<nat, ExtractionResult>, ghost relevant: RelevantObstacles, ghost tables: map<Proposition, RelationshipTable>)
    ensures ParsedFrom(requests, relevant)
    ensures RelationshipsOf(relevant, env, Some(Equivalence), tables) && RelationsAdded(ToString, tables, map[], r)
    ensures forall t :: t in r ==> r[t].positives == {} && r[t].negatives == {} && r[t].implications == {}
  {
    r, relevant, tables := ExtractRelationshipsOnly(requests, env, Some(Equivalence));
    EquivalenceFilterOnlyEquates(relevant, env, tables);
    NothingOfOtherKind(ToString, tables, map[], r, Equivalence, Implication);
  }

  /** extract_implications: no step gets an equivalence as long as the safe-distance
   *  extractor only implies. */
  method ExtractImplications(requests: map<nat, seq<string>>, env: Environment)
    returns (r: map<nat, ExtractionResult>, ghost relevant: RelevantObstacles, ghost tables: map<Proposition, RelationshipTable>)
    ensures ParsedFrom(requests, relevant)
    ensures RelationshipsOf(relevant, env, Some(Implication), tables) && RelationsAdded(ToString, tables, map[], r)
    ensures forall t :: t in r ==> r[t].positives == {} && r[t].negatives == {}
    ensures SafeDistanceOnlyImplies(env) ==> forall t :: t in r ==> r[t].equivalences == {}
  {
    r, relevant, tables := ExtractRelationshipsOnly(requests, env, Some(Implication));
    if SafeDistanceOnlyImplies(env) {
      ImplicationFilterOnlyImplies(relevant, env, tables);
      NothingOfOtherKind(ToString, tables, map[], r, Implication, Equivalence);
    }
  }
}
