/**
 * The literal formatters of the rule front end: a proposition literal, given as a name and
 * an optional parameter text, rendered for the reachability tool and for the monitor.  The
 * newer formatters (rule simplification) and the older ones (knowledge extraction) are
 * both modelled; the formula traversal that calls them is not.
 */
module Formatting {
  import opened Wrappers
  import opened World
  import opened Propositions

  // ---------------------------------------------------------------------------
  // Snake case.

  predicate IsUpper(c: char)
  {
    'A' <= c <= 'Z'
  }

  function Lower(c: char): (l: char)
    requires IsUpper(c)
    ensures 'a' <= l <= 'z'
  {
    (c as int - 'A' as int + 'a' as int) as char
  }

  predicate NoUpper(s: string)
  {
    forall i :: 0 <= i < |s| ==> !IsUpper(s[i])
  }

  /** Every upper-case letter replaced by an underscore and its lower-case letter. */
  function Underscored(s: string): (r: string)
    ensures NoUpper(r)
  {
    if s == [] then []
    else (if IsUpper(s[0]) then ['_', Lower(s[0])] else [s[0]]) + Underscored(s[1..])
  }

  /** The string with its leading occurrences of `c` removed. */
  function StripLeading(s: string, c: char): (r: string)
    ensures |r| <= |s| && r == s[|s| - |r|..]
    ensures r == [] || r[0] != c
    ensures forall i :: 0 <= i < |s| - |r| ==> s[i] == c
  {
    if s != [] && s[0] == c then StripLeading(s[1..], c) else s
  }

  /** Camel case to snake case: underscores before the former capitals, none leading. */
  function ToSnake(s: string): (r: string)
    ensures NoUpper(r)
    ensures r == [] || r[0] != '_'
  {
    StripLeading(Underscored(s), '_')
  }

  lemma {:induction false} UnderscoredKeepsLower(s: string)
    requires NoUpper(s)
    ensures Underscored(s) == s
  {
    if s != [] {
      UnderscoredKeepsLower(s[1..]);
    }
  }

  /** A string already in snake case is left as it is; in particular ToSnake is idempotent. */
  lemma ToSnakeKeepsSnake(s: string)
    requires NoUpper(s) && (s == [] || s[0] != '_')
    ensures ToSnake(s) == s
  {
    UnderscoredKeepsLower(s);
  }

  lemma ToSnakeIdempotent(s: string)
    ensures ToSnake(ToSnake(s)) == ToSnake(s)
  {
    ToSnakeKeepsSnake(ToSnake(s));
  }

  lemma UnderscoredFrontOf()
    ensures Underscored("FrontOf") == "_front_of"
  {
    assert Underscored("f") == "f";
    assert Underscored("Of") == "_of";
    assert Underscored("tOf") == "t_of";
    assert Underscored("ntOf") == "nt_of";
    assert Underscored("ontOf") == "ont_of";
    assert Underscored("rontOf") == "ront_of";
  }

  lemma ToSnakeInFrontOf()
    ensures ToSnake("InFrontOf") == "in_front_of"
  {
    UnderscoredFrontOf();
    assert Underscored("nFrontOf") == "n_front_of";
    assert Underscored("InFrontOf") == "_in_front_of";
    assert StripLeading("in_front_of", '_') == "in_front_of";
  }

  // ---------------------------------------------------------------------------
  // The reachability tool's literals.

  /** A parameter counts when it is present and not empty. */
  predicate Given(parameter: Option<string>)
  {
    parameter.Some? && parameter.value != ""
  }

  /** The reachability tool names three propositions from the other vehicle's side. */
  function ReachName(name: string): string
  {
    if name == Name(OtherOnAccessRamp) then "OnAccessRamp"
    else if name == Name(OtherOnMainCarriageway) then "OnMainCarriageway"
    else if name == Name(InFrontOf) then "Behind"
    else name
  }

  /** The older formatter also renames the right-lane proposition. */
  function LegacyReachName(name: string): string
  {
    if name == Name(OtherOnAccessRamp) then "OnAccessRamp"
    else if name == Name(OtherOnMainCarriageway) then "OnMainCarriageway"
    else if name == Name(OnMainCarriagewayRightLane) then "OnRightLane"
    else if name == Name(InFrontOf) then "Behind"
    else name
  }

  function WithParameter(name: string, parameter: Option<string>): string
  {
    if Given(parameter) then name + "_V" + parameter.value else name
  }

  function FormatReach(name: string, parameter: Option<string>): string
  {
    WithParameter(ReachName(name), parameter)
  }

  function LegacyFormatReach(name: string, parameter: Option<string>): string
  {
    WithParameter(LegacyReachName(name), parameter)
  }

  /** The parameter part of a reachability literal tells its parameter. */
  lemma WithParameterDistinct(name: string, a: Option<string>, b: Option<string>)
    requires WithParameter(name, a) == WithParameter(name, b)
    ensures Given(a) == Given(b) && (Given(a) ==> a.value == b.value)
  {
    var r := WithParameter(name, a);
    if Given(a) && Given(b) {
      assert a.value == r[|name| + 2..] == b.value;
    }
  }

  /** The propositions the newer formatter renames, with their new names. */
  function ReachRename(p: Proposition): Option<string>
  {
    match p
    case OtherOnAccessRamp => Some("OnAccessRamp")
    case OtherOnMainCarriageway => Some("OnMainCarriageway")
    case InFrontOf => Some("Behind")
    case _ => None
  }

  /** The older formatter's renames: one more. */
  function LegacyReachRename(p: Proposition): Option<string>
  {
    if p == OnMainCarriagewayRightLane then Some("OnRightLane") else ReachRename(p)
  }

  function Renamed(p: Proposition, rename: Option<string>): string
  {
    if rename.Some? then rename.value else Name(p)
  }

  lemma ReachNameOf(p: Proposition)
    ensures ReachName(Name(p)) == Renamed(p, ReachRename(p))
  {
    NamesDistinct(p, OtherOnAccessRamp);
    NamesDistinct(p, OtherOnMainCarriageway);
    NamesDistinct(p, InFrontOf);
  }

  lemma LegacyReachNameOf(p: Proposition)
    ensures LegacyReachName(Name(p)) == Renamed(p, LegacyReachRename(p))
  {
    NamesDistinct(p, OtherOnAccessRamp);
    NamesDistinct(p, OtherOnMainCarriageway);
    NamesDistinct(p, OnMainCarriagewayRightLane);
    NamesDistinct(p, InFrontOf);
  }

  lemma AccessRampUnregistered(p: Proposition)
    ensures Name(p) != "OnAccessRamp"
  {
    FromNameExact("OnAccessRamp", p);
  }

  lemma BehindUnregistered(p: Proposition)
    ensures Name(p) != "Behind"
  {
    FromNameExact("Behind", p);
  }

  lemma RightLaneUnregistered(p: Proposition)
    ensures Name(p) != "OnRightLane"
  {
    FromNameExact("OnRightLane", p);
  }

  /** Of the new names, only the main carriageway's is a registered name, the ego vehicle's. */
  lemma NewNameRegistered(target: Option<string>, q: Proposition)
    ensures (target.Some? && target.value in {"OnAccessRamp", "OnMainCarriageway", "Behind", "OnRightLane"}
      && target.value == Name(q)) ==> q == OnMainCarriageway
  {
    AccessRampUnregistered(q);
    BehindUnregistered(q);
    RightLaneUnregistered(q);
    NamesDistinct(q, OnMainCarriageway);
  }

  /** The renames of the newer or of the older formatter. */
  function Rename(legacy: bool, p: Proposition): Option<string>
  {
    if legacy then LegacyReachRename(p) else ReachRename(p)
  }

  lemma RenameInjective(p: Proposition, q: Proposition, legacy: bool)
    ensures Rename(legacy, p).Some? ==> Rename(legacy, p).value in {"OnAccessRamp", "OnMainCarriageway", "Behind", "OnRightLane"}
    ensures Rename(legacy, p).Some? && Rename(legacy, p) == Rename(legacy, q) ==> p == q
  {
  }

  /** Renaming keeps registered names apart, except the other vehicle's main carriageway
   *  from the ego vehicle's. */
  lemma RenamedInjective(p: Proposition, q: Proposition, legacy: bool)
    requires {p, q} != {OnMainCarriageway, OtherOnMainCarriageway}
    requires Renamed(p, Rename(legacy, p)) == Renamed(q, Rename(legacy, q))
    ensures p == q
  {
    RenameInjective(p, q, legacy);
    RenameInjective(q, p, legacy);
    NewNameRegistered(Rename(legacy, p), q);
    NewNameRegistered(Rename(legacy, q), p);
    NamesDistinct(p, q);
  }

  lemma WithParameterCancels(n1: string, n2: string, a: Option<string>)
    requires WithParameter(n1, a) == WithParameter(n2, a)
    ensures n1 == n2
  {
    var r := WithParameter(n1, a);
    assert n1 == r[..|n1|] == n2;
  }

  /** With equal parameters, a reachability literal names its proposition, except that
   *  the other vehicle on the main carriageway reads like the ego vehicle on it. */
  lemma ReachLiteralsDistinct(p: Proposition, q: Proposition, a: Option<string>)
    requires {p, q} != {OnMainCarriageway, OtherOnMainCarriageway}
    requires FormatReach(Name(p), a) == FormatReach(Name(q), a)
    ensures p == q
  {
    ReachNameOf(p);
    ReachNameOf(q);
    WithParameterCancels(ReachName(Name(p)), ReachName(Name(q)), a);
    RenamedInjective(p, q, false);
  }

  lemma LegacyReachLiteralsDistinct(p: Proposition, q: Proposition, a: Option<string>)
    requires {p, q} != {OnMainCarriageway, OtherOnMainCarriageway}
    requires LegacyFormatReach(Name(p), a) == LegacyFormatReach(Name(q), a)
    ensures p == q
  {
    LegacyReachNameOf(p);
    LegacyReachNameOf(q);
    WithParameterCancels(LegacyReachName(Name(p)), LegacyReachName(Name(q)), a);
    RenamedInjective(p, q, true);
  }

  /** The one collision: both formatters give the two main-carriageway propositions the same literal. */
  lemma ReachCollision(a: Option<string>)
    ensures FormatReach(Name(OnMainCarriageway), a) == FormatReach(Name(OtherOnMainCarriageway), a)
    ensures LegacyFormatReach(Name(OnMainCarriageway), a) == LegacyFormatReach(Name(OtherOnMainCarriageway), a)
  {
    ReachNameOf(OnMainCarriageway);
    LegacyReachNameOf(OnMainCarriageway);
  }

  // ---------------------------------------------------------------------------
  // The monitor's literals.

  /** The parameter as the formatter interpolates it; an absent one reads "None". */
  function ParameterText(parameter: Option<string>): string
  {
    if parameter.Some? then parameter.value else "None"
  }

  const Ego: string := "'x_ego'"

  function Obstacle(parameter: Option<string>): string
  {
    "'obsid_" + ParameterText(parameter) + "'"
  }

  /** The name of the left-lane proposition, which the proposition table modelled here lacks. */
  const LeftLaneName: string := "OnMainCarriagewayLeftLane"

  function DirectionWord(d: Direction): string
  {
    match d
    case Left => "left"
    case Straight => "straight"
    case Right => "right"
  }

  /** A priority literal: the monitor relation, whether the obstacle is its first vehicle
   *  (else the ego vehicle is), and the directions of its first and second vehicle. */
  datatype PriorityLiteral = PriorityLiteral(relation: string, obstacleFirst: bool, firstTurn: Direction, secondTurn: Direction)

  function PriorityLiteralOf(p: Proposition): Option<PriorityLiteral>
  {
    match p
    case SameLeftLeftPriority => Some(PriorityLiteral("same_priority", false, Left, Left))
    case SameLeftRightPriority => Some(PriorityLiteral("same_priority", false, Left, Right))
    case SameLeftStraightPriority => Some(PriorityLiteral("same_priority", false, Left, Straight))
    case SameRightLeftPriority => Some(PriorityLiteral("same_priority", false, Right, Left))
    case SameRightRightPriority => Some(PriorityLiteral("same_priority", false, Right, Right))
    case SameRightStraightPriority => Some(PriorityLiteral("same_priority", false, Right, Straight))
    case SameStraightLeftPriority => Some(PriorityLiteral("same_priority", false, Straight, Left))
    case SameStraightRightPriority => Some(PriorityLiteral("same_priority", false, Straight, Right))
    case SameStraightStraightPriority => Some(PriorityLiteral("same_priority", false, Straight, Straight))

    case HasLeftLeftPriority => Some(PriorityLiteral("has_priority", false, Left, Left))
    case HasLeftRightPriority => Some(PriorityLiteral("has_priority", false, Left, Right))
    case HasLeftStraightPriority => Some(PriorityLiteral("has_priority", false, Left, Straight))
    case HasRightLeftPriority => Some(PriorityLiteral("has_priority", false, Right, Left))
    case HasRightRightPriority => Some(PriorityLiteral("has_priority", false, Right, Right))
    case HasRightStraightPriority => Some(PriorityLiteral("has_priority", false, Right, Straight))
    case HasStraightLeftPriority => Some(PriorityLiteral("has_priority", false, Straight, Left))
    case HasStraightRightPriority => Some(PriorityLiteral("has_priority", false, Straight, Right))
    case HasStraightStraightPriority => Some(PriorityLiteral("has_priority", false, Straight, Straight))

    case OtherHasLeftLeftPriority => Some(PriorityLiteral("has_priority", true, Left, Left))
    case OtherHasLeftRightPriority => Some(PriorityLiteral("has_priority", true, Left, Right))
    case OtherHasLeftStraightPriority => Some(PriorityLiteral("has_priority", true, Left, Straight))
    case OtherHasRightLeftPriority => Some(PriorityLiteral("has_priority", true, Right, Left))
    case OtherHasRightRightPriority => Some(PriorityLiteral("has_priority", true, Right, Right))
    case OtherHasRightStraightPriority => Some(PriorityLiteral("has_priority", true, Right, Straight))
    case OtherHasStraightLeftPriority => Some(PriorityLiteral("has_priority", true, Straight, Left))
    case OtherHasStraightRightPriority => Some(PriorityLiteral("has_priority", true, Straight, Right))
    case OtherHasStraightStraightPriority => Some(PriorityLiteral("has_priority", true, Straight, Straight))

    case _ => None
  }

  /** The ego vehicle's and the obstacle's direction in a priority literal. */
  function EgoTurn(l: PriorityLiteral): Direction
  {
    if l.obstacleFirst then l.secondTurn else l.firstTurn
  }

  function OtherTurn(l: PriorityLiteral): Direction
  {
    if l.obstacleFirst then l.firstTurn else l.secondTurn
  }

  function RenderPriority(l: PriorityLiteral, parameter: Option<string>): string
  {
    var first := if l.obstacleFirst then Obstacle(parameter) else Ego;
    var second := if l.obstacleFirst then Ego else Obstacle(parameter);
    l.relation + "(" + first + ", " + second + ", '" + DirectionWord(l.firstTurn) + "', '"
      + DirectionWord(l.secondTurn) + "')"
  }

  /** The monitor literal a registered proposition has a case of its own for, if any. */
  function MonitorCase(p: Proposition, parameter: Option<string>): Option<string>
  {
    var o := Obstacle(parameter);
    match p
    case OtherOnAccessRamp => Some("on_lanelet_with_type(" + o + ", 'accessramp')")
    case OtherOnMainCarriageway => Some("on_lanelet_with_type(" + o + ", 'maincarriageway')")
    case OnMainCarriageway => Some("on_lanelet_with_type('x_ego', 'maincarriageway')")
    case OnMainCarriagewayRightLane => Some("rightmost_lane_with_type('x_ego', 'maincarriageway')")
    case InSameLane => Some("in_same_lane(" + o + ", 'x_ego')")
    case CutIn => Some("(in_same_lane(" + o + ", 'x_ego') & !(in_single_lane(" + o + "))"
      + " & orientation_towards(" + o + ", 'x_ego'))")
    case KeepsSafeDistancePrec => Some("(in_front_of('x_ego', " + o + ") & keeps_safe_distance_prec('x_ego', " + o + "))")
    case AtStopSign => Some("at_traffic_sign('x_ego', 'stop')")
    case OtherInIntersectionConflictArea => Some("in_intersection_conflict_area(" + o + ", 'x_ego')")
    case OnOncomingOf => Some("on_oncoming_of(" + o + ", 'x_ego')")
    case InIntersection => Some("on_lanelet_with_type('x_ego', 'intersection')")
    case TurningLeft => Some("turning('x_ego', 'left')")
    case TurningRight => Some("turning('x_ego', 'right')")
    case GoingStraight => Some("turning('x_ego', 'straight')")
    case OtherTurningLeft => Some("turning(" + o + ", 'left')")
    case OtherTurningRight => Some("turning(" + o + ", 'right')")
    case OtherGoingStraight => Some("turning(" + o + ", 'straight')")
    case _ => if PriorityLiteralOf(p).Some? then Some(RenderPriority(PriorityLiteralOf(p).value, parameter)) else None
  }

  /** The older formatter's own cases: those of the newer one up to the stop sign. */
  function LegacyMonitorCase(p: Proposition, parameter: Option<string>): Option<string>
  {
    var o := Obstacle(parameter);
    match p
    case OtherOnAccessRamp => Some("on_lanelet_with_type(" + o + ", 'accessramp')")
    case OtherOnMainCarriageway => Some("on_lanelet_with_type(" + o + ", 'maincarriageway')")
    case OnMainCarriageway => Some("on_lanelet_with_type('x_ego', 'maincarriageway')")
    case OnMainCarriagewayRightLane => Some("rightmost_lane_with_type('x_ego', 'maincarriageway')")
    case InSameLane => Some("in_same_lane(" + o + ", 'x_ego')")
    case CutIn => Some("(in_same_lane(" + o + ", 'x_ego') & !(in_single_lane(" + o + "))"
      + " & orientation_towards(" + o + ", 'x_ego'))")
    case KeepsSafeDistancePrec => Some("(in_front_of('x_ego', " + o + ") & keeps_safe_distance_prec('x_ego', " + o + "))")
    case AtStopSign => Some("at_traffic_sign('x_ego', 'stop')")
    case _ => None
  }

  /** A literal without a case of its own: the snake-case predicate on the ego vehicle and,
   *  with a parameter, the obstacle. */
  function SnakeCall(name: string, parameter: Option<string>): string
  {
    if Given(parameter) then ToSnake(name) + "(" + Ego + ", " + Obstacle(parameter) + ")"
    else ToSnake(name) + "(" + Ego + ")"
  }

  predicate IsConstant(name: string)
  {
    name == "true" || name == "false"
  }

  /**
   * The monitor literal.  The formatter compares the name with each proposition's name in
   * turn; registered names are distinct, so looking the name up once selects the same case.
   */
  function FormatMonitor(name: string, parameter: Option<string>): (r: string)
    ensures IsConstant(name) ==> r == name
  {
    if IsConstant(name) then name
    else if name == LeftLaneName then "leftmost_lane_with_type('x_ego', 'maincarriageway')"
    else match FromName(name)
      case Some(p) => if MonitorCase(p, parameter).Some? then MonitorCase(p, parameter).value else SnakeCall(name, parameter)
      case None => SnakeCall(name, parameter)
  }

  function LegacyFormatMonitor(name: string, parameter: Option<string>): (r: string)
    ensures IsConstant(name) ==> r == name
  {
    if IsConstant(name) then name
    else match FromName(name)
      case Some(p) => if LegacyMonitorCase(p, parameter).Some? then LegacyMonitorCase(p, parameter).value else SnakeCall(name, parameter)
      case None => SnakeCall(name, parameter)
  }

  lemma NameNotTrue(p: Proposition)
    ensures Name(p) != "true"
  {
    FromNameExact("true", p);
  }

  lemma NameNotFalse(p: Proposition)
    ensures Name(p) != "false"
  {
    FromNameExact("false", p);
  }

  lemma NameNotLeftLane(p: Proposition)
    ensures Name(p) != LeftLaneName
  {
    FromNameExact(LeftLaneName, p);
  }

  /** No registered name is a constant or the left-lane name. */
  lemma NameNotSpecial(p: Proposition)
    ensures !IsConstant(Name(p)) && Name(p) != LeftLaneName
  {
    NameNotTrue(p);
    NameNotFalse(p);
    NameNotLeftLane(p);
  }

  /** A registered proposition's monitor literal is its own case, when it has one. */
  lemma MonitorOwnCase(p: Proposition, parameter: Option<string>)
    requires MonitorCase(p, parameter).Some?
    ensures FormatMonitor(Name(p), parameter) == MonitorCase(p, parameter).value
  {
    NameNotSpecial(p);
    TableEntry(p);
  }

  /** Each priority proposition's monitor literal is its priority literal rendered. */
  lemma MonitorPriority(p: Proposition, parameter: Option<string>)
    requires PriorityLiteralOf(p).Some?
    ensures FormatMonitor(Name(p), parameter) == RenderPriority(PriorityLiteralOf(p).value, parameter)
  {
    MonitorOwnCase(p, parameter);
  }

  /** In a literal where another vehicle has priority, the obstacle is the first vehicle
   *  and its direction is the first one given; the ego vehicle comes first otherwise. */
  lemma OtherHasObstacleFirst(p: Proposition, parameter: Option<string>)
    requires PriorityLiteralOf(p).Some?
    ensures var l := PriorityLiteralOf(p).value;
      l.obstacleFirst ==> (l.relation == "has_priority" &&
        FormatMonitor(Name(p), parameter) == l.relation + "(" + Obstacle(parameter) + ", " + Ego + ", '"
          + DirectionWord(OtherTurn(l)) + "', '" + DirectionWord(EgoTurn(l)) + "')")
    ensures var l := PriorityLiteralOf(p).value;
      !l.obstacleFirst ==> (
        FormatMonitor(Name(p), parameter) == l.relation + "(" + Ego + ", " + Obstacle(parameter) + ", '"
          + DirectionWord(EgoTurn(l)) + "', '" + DirectionWord(OtherTurn(l)) + "')")
  {
    MonitorPriority(p, parameter);
  }

  /** A name without a case of its own falls back to the snake-case call, in both formatters. */
  lemma MonitorFallback(name: string, parameter: Option<string>)
    requires !IsConstant(name) && name != LeftLaneName
    requires FromName(name).None? || MonitorCase(FromName(name).value, parameter).None?
    ensures FormatMonitor(name, parameter) == SnakeCall(name, parameter)
    ensures LegacyFormatMonitor(name, parameter) == SnakeCall(name, parameter)
  {
  }

  /** The newer monitor formatter agrees with the older one wherever the older one has a
   *  case of its own, and wherever neither has. */
  lemma MonitorExtendsLegacy(name: string, parameter: Option<string>)
    requires name != LeftLaneName
    requires FromName(name).Some? ==>
      LegacyMonitorCase(FromName(name).value, parameter).Some? || MonitorCase(FromName(name).value, parameter).None?
    ensures FormatMonitor(name, parameter) == LegacyFormatMonitor(name, parameter)
  {
  }
}
