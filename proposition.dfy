/** The propositions the knowledge extraction evaluates, and the two
 *  constant tables between each proposition and its registered name. */
module Propositions {
  import opened Wrappers

  /** One constructor per enumerator of the proposition enum, in the
   *  enum's order; each is spelled like its registered name. */
  datatype Proposition =
    InSameLane
    | KeepsSafeDistancePrec
    | CutIn
    | InFrontOf
    | OnMainCarriageway
    | OnMainCarriagewayRightLane
    | OtherOnAccessRamp
    | OtherOnMainCarriageway
    | InIntersection
    | AtStopSign
    | StopLineInFront
    | RelevantTrafficLight
    | InStandstill
    | OnIncomingLeftOf
    | OnOncomingOf
    | InIntersectionConflictArea
    | OtherInIntersectionConflictArea
    | CausesBrakingIntersection

    | TurningLeft
    | TurningRight
    | GoingStraight
    | OtherTurningLeft
    | OtherTurningRight
    | OtherGoingStraight

    | SameLeftLeftPriority
    | SameLeftRightPriority
    | SameLeftStraightPriority
    | SameRightLeftPriority
    | SameRightRightPriority
    | SameRightStraightPriority
    | SameStraightLeftPriority
    | SameStraightRightPriority
    | SameStraightStraightPriority

    | HasLeftLeftPriority
    | HasLeftRightPriority
    | HasLeftStraightPriority
    | HasRightLeftPriority
    | HasRightRightPriority
    | HasRightStraightPriority
    | HasStraightLeftPriority
    | HasStraightRightPriority
    | HasStraightStraightPriority

    | OtherHasLeftLeftPriority
    | OtherHasLeftRightPriority
    | OtherHasLeftStraightPriority
    | OtherHasRightLeftPriority
    | OtherHasRightRightPriority
    | OtherHasRightStraightPriority
    | OtherHasStraightLeftPriority
    | OtherHasStraightRightPriority
    | OtherHasStraightStraightPriority

  /** The table from each proposition to its registered name; a match
   *  has exactly one entry for every enumerator. */
  function Name(p: Proposition): string
  {
    match p
    case InSameLane => "InSameLane"
    case KeepsSafeDistancePrec => "KeepsSafeDistancePrec"
    case CutIn => "CutIn"
    case InFrontOf => "InFrontOf"
    case OnMainCarriageway => "OnMainCarriageway"
    case OnMainCarriagewayRightLane => "OnMainCarriagewayRightLane"
    case OtherOnAccessRamp => "OtherOnAccessRamp"
    case OtherOnMainCarriageway => "OtherOnMainCarriageway"
    case InIntersection => "InIntersection"
    case AtStopSign => "AtStopSign"
    case StopLineInFront => "StopLineInFront"
    case RelevantTrafficLight => "RelevantTrafficLight"
    case InStandstill => "InStandstill"
    case OnIncomingLeftOf => "OnIncomingLeftOf"
    case OnOncomingOf => "OnOncomingOf"
    case InIntersectionConflictArea => "InIntersectionConflictArea"
    case OtherInIntersectionConflictArea => "OtherInIntersectionConflictArea"
    case CausesBrakingIntersection => "CausesBrakingIntersection"

    case TurningLeft => "TurningLeft"
    case TurningRight => "TurningRight"
    case GoingStraight => "GoingStraight"
    case OtherTurningLeft => "OtherTurningLeft"
    case OtherTurningRight => "OtherTurningRight"
    case OtherGoingStraight => "OtherGoingStraight"

    case SameLeftLeftPriority => "SameLeftLeftPriority"
    case SameLeftRightPriority => "SameLeftRightPriority"
    case SameLeftStraightPriority => "SameLeftStraightPriority"
    case SameRightLeftPriority => "SameRightLeftPriority"
    case SameRightRightPriority => "SameRightRightPriority"
    case SameRightStraightPriority => "SameRightStraightPriority"
    case SameStraightLeftPriority => "SameStraightLeftPriority"
    case SameStraightRightPriority => "SameStraightRightPriority"
    case SameStraightStraightPriority => "SameStraightStraightPriority"

    case HasLeftLeftPriority => "HasLeftLeftPriority"
    case HasLeftRightPriority => "HasLeftRightPriority"
    case HasLeftStraightPriority => "HasLeftStraightPriority"
    case HasRightLeftPriority => "HasRightLeftPriority"
    case HasRightRightPriority => "HasRightRightPriority"
    case HasRightStraightPriority => "HasRightStraightPriority"
    case HasStraightLeftPriority => "HasStraightLeftPriority"
    case HasStraightRightPriority => "HasStraightRightPriority"
    case HasStraightStraightPriority => "HasStraightStraightPriority"

    case OtherHasLeftLeftPriority => "OtherHasLeftLeftPriority"
    case OtherHasLeftRightPriority => "OtherHasLeftRightPriority"
    case OtherHasLeftStraightPriority => "OtherHasLeftStraightPriority"
    case OtherHasRightLeftPriority => "OtherHasRightLeftPriority"
    case OtherHasRightRightPriority => "OtherHasRightRightPriority"
    case OtherHasRightStraightPriority => "OtherHasRightStraightPriority"
    case OtherHasStraightLeftPriority => "OtherHasStraightLeftPriority"
    case OtherHasStraightRightPriority => "OtherHasStraightRightPriority"
    case OtherHasStraightStraightPriority => "OtherHasStraightStraightPriority"
  }

  /** Where the table from names to propositions looks for a key: the
   *  candidate entry is picked by the key's length and, among names of
   *  equal length, by one or two characters, as a hash table picks a
   *  bucket; the lookup then compares the key with the entry's name.
   *  The source has no such step: string_to_proposition is a plain map.
   *  The buckets only keep each proof obligation about the lookup small
   *  (one candidate name per key instead of all of them), and
   *  FromNameExact shows the lookup is exactly the inverse of Name. */
  function Bucket(s: string): Option<Proposition>
  {
    match |s|
      case 5 => Some(CutIn)
      case 9 => Some(InFrontOf)
      case 10 =>
        (match s[0]
          case 'A' => Some(AtStopSign)
          case 'I' => Some(InSameLane)
          case _ => None)
      case 11 => Some(TurningLeft)
      case 12 =>
        (match s[0]
          case 'I' => Some(InStandstill)
          case 'O' => Some(OnOncomingOf)
          case 'T' => Some(TurningRight)
          case _ => None)
      case 13 => Some(GoingStraight)
      case 14 => Some(InIntersection)
      case 15 => Some(StopLineInFront)
      case 16 =>
        (match s[1]
          case 'n' => Some(OnIncomingLeftOf)
          case 't' => Some(OtherTurningLeft)
          case _ => None)
      case 17 =>
        (match s[5]
          case 'O' => Some(OtherOnAccessRamp)
          case 'T' => Some(OtherTurningRight)
          case 'n' => Some(OnMainCarriageway)
          case _ => None)
      case 18 => Some(OtherGoingStraight)
      case 19 => Some(HasLeftLeftPriority)
      case 20 =>
        (match s[4]
          case 'L' => Some(SameLeftLeftPriority)
          case 'e' => Some(HasLeftRightPriority)
          case 'i' => Some(HasRightLeftPriority)
          case 'v' => Some(RelevantTrafficLight)
          case _ => None)
      case 21 =>
        (match s[4]
          case 'L' => Some(SameLeftRightPriority)
          case 'R' => Some(SameRightLeftPriority)
          case 'i' => Some(HasRightRightPriority)
          case 's' => Some(KeepsSafeDistancePrec)
          case _ => None)
      case 22 =>
        (match s[0]
          case 'O' => Some(OtherOnMainCarriageway)
          case 'S' => Some(SameRightRightPriority)
          case _ => None)
      case 23 =>
        (match s[3]
          case 'L' => Some(HasLeftStraightPriority)
          case 'S' => Some(HasStraightLeftPriority)
          case _ => None)
      case 24 =>
        (match s[4]
          case 'L' => Some(SameLeftStraightPriority)
          case 'S' => Some(SameStraightLeftPriority)
          case 'i' => Some(HasRightStraightPriority)
          case 'r' => Some(OtherHasLeftLeftPriority)
          case 't' => Some(HasStraightRightPriority)
          case _ => None)
      case 25 =>
        (match s[8]
          case 'L' => Some(OtherHasLeftRightPriority)
          case 'R' => Some(OtherHasRightLeftPriority)
          case 'a' => Some(CausesBrakingIntersection)
          case 'i' => Some(SameStraightRightPriority)
          case 't' => Some(SameRightStraightPriority)
          case _ => None)
      case 26 =>
        (match s[2]
          case 'I' => Some(InIntersectionConflictArea)
          case 'M' => Some(OnMainCarriagewayRightLane)
          case 'h' => Some(OtherHasRightRightPriority)
          case _ => None)
      case 27 => Some(HasStraightStraightPriority)
      case 28 =>
        (match s[8]
          case 'L' => Some(OtherHasLeftStraightPriority)
          case 'S' => Some(OtherHasStraightLeftPriority)
          case 'i' => Some(SameStraightStraightPriority)
          case _ => None)
      case 29 =>
        (match s[8]
          case 'R' => Some(OtherHasRightStraightPriority)
          case 'S' => Some(OtherHasStraightRightPriority)
          case _ => None)
      case 31 => Some(OtherInIntersectionConflictArea)
      case 32 => Some(OtherHasStraightStraightPriority)
      case _ => None
    
  }

  /** The table from registered names back to propositions: the entry
   *  whose name is the key, or nothing for an unregistered key. */
  function FromName(s: string): (r: Option<Proposition>)
    ensures r.Some? ==> Name(r.value) == s
  {
    var candidate := Bucket(s);
    if candidate.Some? && Name(candidate.value) == s then candidate else None
  }

  /** No character of the string is a bracket. */
  predicate Unbracketed(s: string)
  {
    forall i :: 0 <= i < |s| ==> s[i] != '(' && s[i] != ')'
  }

  /** The facts about one table entry: its name is non-empty, has no
   *  bracket, and is registered in the reverse table under it. */
  predicate Registered(p: Proposition)
  {
    FromName(Name(p)) == Some(p) && Name(p) != [] && Unbracketed(Name(p))
  }

  lemma RegisteredInSameLane() ensures Registered(InSameLane) {}
  lemma RegisteredKeepsSafeDistancePrec() ensures Registered(KeepsSafeDistancePrec) {}
  lemma RegisteredCutIn() ensures Registered(CutIn) {}
  lemma RegisteredInFrontOf() ensures Registered(InFrontOf) {}
  lemma RegisteredOnMainCarriageway() ensures Registered(OnMainCarriageway) {}
  lemma RegisteredOnMainCarriagewayRightLane() ensures Registered(OnMainCarriagewayRightLane) {}
  lemma RegisteredOtherOnAccessRamp() ensures Registered(OtherOnAccessRamp) {}
  lemma RegisteredOtherOnMainCarriageway() ensures Registered(OtherOnMainCarriageway) {}
  lemma RegisteredInIntersection() ensures Registered(InIntersection) {}
  lemma RegisteredAtStopSign() ensures Registered(AtStopSign) {}
  lemma RegisteredStopLineInFront() ensures Registered(StopLineInFront) {}
  lemma RegisteredRelevantTrafficLight() ensures Registered(RelevantTrafficLight) {}
  lemma RegisteredInStandstill() ensures Registered(InStandstill) {}
  lemma RegisteredOnIncomingLeftOf() ensures Registered(OnIncomingLeftOf) {}
  lemma RegisteredOnOncomingOf() ensures Registered(OnOncomingOf) {}
  lemma RegisteredInIntersectionConflictArea() ensures Registered(InIntersectionConflictArea) {}
  lemma RegisteredOtherInIntersectionConflictArea() ensures Registered(OtherInIntersectionConflictArea) {}
  lemma RegisteredCausesBrakingIntersection() ensures Registered(CausesBrakingIntersection) {}
  lemma RegisteredTurningLeft() ensures Registered(TurningLeft) {}
  lemma RegisteredTurningRight() ensures Registered(TurningRight) {}
  lemma RegisteredGoingStraight() ensures Registered(GoingStraight) {}
  lemma RegisteredOtherTurningLeft() ensures Registered(OtherTurningLeft) {}
  lemma RegisteredOtherTurningRight() ensures Registered(OtherTurningRight) {}
  lemma RegisteredOtherGoingStraight() ensures Registered(OtherGoingStraight) {}
  lemma RegisteredSameLeftLeftPriority() ensures Registered(SameLeftLeftPriority) {}
  lemma RegisteredSameLeftRightPriority() ensures Registered(SameLeftRightPriority) {}
  lemma RegisteredSameLeftStraightPriority() ensures Registered(SameLeftStraightPriority) {}
  lemma RegisteredSameRightLeftPriority() ensures Registered(SameRightLeftPriority) {}
  lemma RegisteredSameRightRightPriority() ensures Registered(SameRightRightPriority) {}
  lemma RegisteredSameRightStraightPriority() ensures Registered(SameRightStraightPriority) {}
  lemma RegisteredSameStraightLeftPriority() ensures Registered(SameStraightLeftPriority) {}
  lemma RegisteredSameStraightRightPriority() ensures Registered(SameStraightRightPriority) {}
  lemma RegisteredSameStraightStraightPriority() ensures Registered(SameStraightStraightPriority) {}
  lemma RegisteredHasLeftLeftPriority() ensures Registered(HasLeftLeftPriority) {}
  lemma RegisteredHasLeftRightPriority() ensures Registered(HasLeftRightPriority) {}
  lemma RegisteredHasLeftStraightPriority() ensures Registered(HasLeftStraightPriority) {}
  lemma RegisteredHasRightLeftPriority() ensures Registered(HasRightLeftPriority) {}
  lemma RegisteredHasRightRightPriority() ensures Registered(HasRightRightPriority) {}
  lemma RegisteredHasRightStraightPriority() ensures Registered(HasRightStraightPriority) {}
  lemma RegisteredHasStraightLeftPriority() ensures Registered(HasStraightLeftPriority) {}
  lemma RegisteredHasStraightRightPriority() ensures Registered(HasStraightRightPriority) {}
  lemma RegisteredHasStraightStraightPriority() ensures Registered(HasStraightStraightPriority) {}
  lemma RegisteredOtherHasLeftLeftPriority() ensures Registered(OtherHasLeftLeftPriority) {}
  lemma RegisteredOtherHasLeftRightPriority() ensures Registered(OtherHasLeftRightPriority) {}
  lemma RegisteredOtherHasLeftStraightPriority() ensures Registered(OtherHasLeftStraightPriority) {}
  lemma RegisteredOtherHasRightLeftPriority() ensures Registered(OtherHasRightLeftPriority) {}
  lemma RegisteredOtherHasRightRightPriority() ensures Registered(OtherHasRightRightPriority) {}
  lemma RegisteredOtherHasRightStraightPriority() ensures Registered(OtherHasRightStraightPriority) {}
  lemma RegisteredOtherHasStraightLeftPriority() ensures Registered(OtherHasStraightLeftPriority) {}
  lemma RegisteredOtherHasStraightRightPriority() ensures Registered(OtherHasStraightRightPriority) {}
  lemma RegisteredOtherHasStraightStraightPriority() ensures Registered(OtherHasStraightStraightPriority) {}

  /** Every enumerator's name is non-empty, free of brackets, and mapped
   *  back to the enumerator by the reverse table. */
  lemma TableEntry(p: Proposition)
    ensures FromName(Name(p)) == Some(p)
    ensures Name(p) != [] && Unbracketed(Name(p))
  {
    match p
    case InSameLane => RegisteredInSameLane();
    case KeepsSafeDistancePrec => RegisteredKeepsSafeDistancePrec();
    case CutIn => RegisteredCutIn();
    case InFrontOf => RegisteredInFrontOf();
    case OnMainCarriageway => RegisteredOnMainCarriageway();
    case OnMainCarriagewayRightLane => RegisteredOnMainCarriagewayRightLane();
    case OtherOnAccessRamp => RegisteredOtherOnAccessRamp();
    case OtherOnMainCarriageway => RegisteredOtherOnMainCarriageway();
    case InIntersection => RegisteredInIntersection();
    case AtStopSign => RegisteredAtStopSign();
    case StopLineInFront => RegisteredStopLineInFront();
    case RelevantTrafficLight => RegisteredRelevantTrafficLight();
    case InStandstill => RegisteredInStandstill();
    case OnIncomingLeftOf => RegisteredOnIncomingLeftOf();
    case OnOncomingOf => RegisteredOnOncomingOf();
    case InIntersectionConflictArea => RegisteredInIntersectionConflictArea();
    case OtherInIntersectionConflictArea => RegisteredOtherInIntersectionConflictArea();
    case CausesBrakingIntersection => RegisteredCausesBrakingIntersection();

    case TurningLeft => RegisteredTurningLeft();
    case TurningRight => RegisteredTurningRight();
    case GoingStraight => RegisteredGoingStraight();
    case OtherTurningLeft => RegisteredOtherTurningLeft();
    case OtherTurningRight => RegisteredOtherTurningRight();
    case OtherGoingStraight => RegisteredOtherGoingStraight();

    case SameLeftLeftPriority => RegisteredSameLeftLeftPriority();
    case SameLeftRightPriority => RegisteredSameLeftRightPriority();
    case SameLeftStraightPriority => RegisteredSameLeftStraightPriority();
    case SameRightLeftPriority => RegisteredSameRightLeftPriority();
    case SameRightRightPriority => RegisteredSameRightRightPriority();
    case SameRightStraightPriority => RegisteredSameRightStraightPriority();
    case SameStraightLeftPriority => RegisteredSameStraightLeftPriority();
    case SameStraightRightPriority => RegisteredSameStraightRightPriority();
    case SameStraightStraightPriority => RegisteredSameStraightStraightPriority();

    case HasLeftLeftPriority => RegisteredHasLeftLeftPriority();
    case HasLeftRightPriority => RegisteredHasLeftRightPriority();
    case HasLeftStraightPriority => RegisteredHasLeftStraightPriority();
    case HasRightLeftPriority => RegisteredHasRightLeftPriority();
    case HasRightRightPriority => RegisteredHasRightRightPriority();
    case HasRightStraightPriority => RegisteredHasRightStraightPriority();
    case HasStraightLeftPriority => RegisteredHasStraightLeftPriority();
    case HasStraightRightPriority => RegisteredHasStraightRightPriority();
    case HasStraightStraightPriority => RegisteredHasStraightStraightPriority();

    case OtherHasLeftLeftPriority => RegisteredOtherHasLeftLeftPriority();
    case OtherHasLeftRightPriority => RegisteredOtherHasLeftRightPriority();
    case OtherHasLeftStraightPriority => RegisteredOtherHasLeftStraightPriority();
    case OtherHasRightLeftPriority => RegisteredOtherHasRightLeftPriority();
    case OtherHasRightRightPriority => RegisteredOtherHasRightRightPriority();
    case OtherHasRightStraightPriority => RegisteredOtherHasRightStraightPriority();
    case OtherHasStraightLeftPriority => RegisteredOtherHasStraightLeftPriority();
    case OtherHasStraightRightPriority => RegisteredOtherHasStraightRightPriority();
    case OtherHasStraightStraightPriority => RegisteredOtherHasStraightStraightPriority();
  }

  /** The reverse table is the exact inverse of the first: a key finds
   *  a proposition precisely when it is that proposition's name. */
  lemma FromNameExact(s: string, p: Proposition)
    ensures FromName(s) == Some(p) <==> s == Name(p)
  {
    TableEntry(p);
  }

  /** Registered names are pairwise distinct. */
  lemma NamesDistinct(p: Proposition, q: Proposition)
    ensures Name(p) == Name(q) <==> p == q
  {
    TableEntry(p);
    TableEntry(q);
  }
}
