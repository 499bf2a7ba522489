/**
 * Three-valued (Kleene) extraction.  For each requested time step an extractor puts
 * identifiers into a set of those for which its proposition definitely holds and a set
 * of those for which it definitely does not; an identifier in neither is unknown.
 * A step gets an entry only once something has been put into one of its sets.
 *
 * The two loop shapes every extractor uses are here: one that classifies the world's
 * obstacles requested at each step, and one that classifies the ego vehicle once per
 * step.  An extractor supplies its classification; an exception it does not catch
 * makes the whole extraction raise.
 */
module Kleene {
  import opened Wrappers
  import opened World

  /** Requested identifiers per time step. */
  type Requests = map<nat, set<Id>>

  /** An exception that escapes an extractor. */
  datatype Raise = Raised

  /** The classification of one identifier: true, false, unknown (`None`), or an exception. */
  type Verdict = Result<Option<bool>, Raise>

  datatype TrueFalse = TrueFalse(trues: set<Id>, falses: set<Id>)

  const NoneKnown := TrueFalse({}, {})

  /**
   * How an extractor classifies: `stepRaises(t)` says whether the work it does once per
   * step raises; `classify(t, o)` classifies a requested obstacle.
   */
  datatype Classifier = Classifier(stepRaises: nat -> bool, classify: (nat, Obstacle) -> Verdict)

  /** Put an identifier into the set its verdict names. */
  function Record(acc: TrueFalse, id: Id, v: Option<bool>): TrueFalse
  {
    match v
    case None => acc
    case Some(b) => if b then acc.(trues := acc.trues + {id}) else acc.(falses := acc.falses + {id})
  }

  /** The classification of the obstacles requested at step t, in world order. */
  function ClassifyAll(t: nat, ids: set<Id>, obstacles: seq<Obstacle>, c: Classifier): Result<TrueFalse, Raise>
    decreases |obstacles|
  {
    if obstacles == [] then Ok(NoneKnown)
    else
      var o := obstacles[|obstacles| - 1];
      match ClassifyAll(t, ids, obstacles[..|obstacles| - 1], c)
      case Err(_) => Err(Raised)
      case Ok(acc) =>
        if Some(o.id) !in ids then Ok(acc)
        else match c.classify(t, o)
          case Err(_) => Err(Raised)
          case Ok(v) => Ok(Record(acc, Some(o.id), v))
  }

  /** The outcome of step t: the per-step work, then the obstacles. */
  function StepResult(t: nat, ids: set<Id>, obstacles: seq<Obstacle>, c: Classifier): Result<TrueFalse, Raise>
  {
    if c.stepRaises(t) then Err(Raised) else ClassifyAll(t, ids, obstacles, c)
  }

  /** Some requested obstacle at step t got verdict `v`. */
  ghost predicate Classified(t: nat, ids: set<Id>, obstacles: seq<Obstacle>, c: Classifier, id: Id, v: Verdict)
  {
    id in ids && exists i :: 0 <= i < |obstacles| && Some(obstacles[i].id) == id && c.classify(t, obstacles[i]) == v
  }

  ghost predicate AnyRaises(requests: Requests, obstacles: seq<Obstacle>, c: Classifier)
  {
    exists t :: t in requests && StepResult(t, requests[t], obstacles, c).Err?
  }

  /** The result of a classification that raised nowhere. */
  ghost function Table(requests: Requests, obstacles: seq<Obstacle>, c: Classifier): map<nat, TrueFalse>
    requires !AnyRaises(requests, obstacles, c)
  {
    map t | t in requests && StepResult(t, requests[t], obstacles, c).value != NoneKnown
      :: StepResult(t, requests[t], obstacles, c).value
  }

  /** The classification of one step as a loop over the world's obstacles. */
  method ClassifyStep(t: nat, ids: set<Id>, obstacles: seq<Obstacle>, c: Classifier) returns (r: Result<TrueFalse, Raise>)
    ensures r == ClassifyAll(t, ids, obstacles, c)
  {
    var acc := NoneKnown;
    var i := 0;
    while i < |obstacles|
      invariant 0 <= i <= |obstacles|
      invariant ClassifyAll(t, ids, obstacles[..i], c) == Ok(acc)
    {
      var o := obstacles[i];
      assert obstacles[..i + 1][..i] == obstacles[..i];
      if Some(o.id) in ids {
        var v := c.classify(t, o);
        if v.Err? {
          ClassifyAllRaisesLater(t, ids, obstacles, c, i + 1);
          assert obstacles[..|obstacles|] == obstacles;
          return Err(Raised);
        }
        if v.value == Some(true) {
          acc := acc.(trues := acc.trues + {Some(o.id)});
        } else if v.value == Some(false) {
          acc := acc.(falses := acc.falses + {Some(o.id)});
        }
      }
      i := i + 1;
    }
    assert obstacles[..|obstacles|] == obstacles;
    return Ok(acc);
  }

  /** Once a prefix raises, every longer prefix raises. */
  lemma {:induction false} ClassifyAllRaisesLater(t: nat, ids: set<Id>, obstacles: seq<Obstacle>, c: Classifier, k: nat)
    requires k <= |obstacles| && ClassifyAll(t, ids, obstacles[..k], c).Err?
    ensures ClassifyAll(t, ids, obstacles, c).Err?
    decreases |obstacles| - k
  {
    if k < |obstacles| {
      assert obstacles[..k + 1][..k] == obstacles[..k];
      ClassifyAllRaisesLater(t, ids, obstacles, c, k + 1);
    } else {
      assert obstacles[..k] == obstacles;
    }
  }

  /** The obstacle loop over all requested steps. */
  method ExtractObstacles(requests: Requests, obstacles: seq<Obstacle>, c: Classifier)
    returns (r: Result<map<nat, TrueFalse>, Raise>)
    ensures r.Err? <==> AnyRaises(requests, obstacles, c)
    ensures r.Ok? ==> r.value == Table(requests, obstacles, c)
  {
    var result: map<nat, TrueFalse> := map[];
    var pending := requests.Keys;
    while pending != {}
      invariant pending <= requests.Keys
      invariant forall t :: t in requests && t !in pending ==> StepResult(t, requests[t], obstacles, c).Ok?
      invariant result == map t | t in requests && t !in pending && StepResult(t, requests[t], obstacles, c).value != NoneKnown
                            :: StepResult(t, requests[t], obstacles, c).value
      decreases pending
    {
      var t :| t in pending;
      var step: Result<TrueFalse, Raise>;
      if c.stepRaises(t) {
        step := Err(Raised);
      } else {
        step := ClassifyStep(t, requests[t], obstacles, c);
      }
      if step.Err? {
        return Err(step.error);
      }
      if step.value != NoneKnown {
        result := result[t := step.value];
      }
      pending := pending - {t};
    }
    return Ok(result);
  }

  /** Which identifiers a step's classification holds. */
  lemma {:induction false} ClassifyAllMembers(t: nat, ids: set<Id>, obstacles: seq<Obstacle>, c: Classifier, id: Id)
    requires ClassifyAll(t, ids, obstacles, c).Ok?
    ensures id in ClassifyAll(t, ids, obstacles, c).value.trues <==> Classified(t, ids, obstacles, c, id, Ok(Some(true)))
    ensures id in ClassifyAll(t, ids, obstacles, c).value.falses <==> Classified(t, ids, obstacles, c, id, Ok(Some(false)))
    decreases |obstacles|
  {
    if obstacles != [] {
      var n := |obstacles| - 1;
      var front := obstacles[..n];
      ClassifyAllMembers(t, ids, front, c, id);
      forall b: bool
        ensures Classified(t, ids, obstacles, c, id, Ok(Some(b))) <==>
                Classified(t, ids, front, c, id, Ok(Some(b))) ||
                (id == Some(obstacles[n].id) && id in ids && c.classify(t, obstacles[n]) == Ok(Some(b)))
      {
        if Classified(t, ids, obstacles, c, id, Ok(Some(b))) {
          var i :| 0 <= i < |obstacles| && Some(obstacles[i].id) == id && c.classify(t, obstacles[i]) == Ok(Some(b));
          if i < n {
            assert front[i] == obstacles[i];
          }
        }
        if Classified(t, ids, front, c, id, Ok(Some(b))) {
          var i :| 0 <= i < |front| && Some(front[i].id) == id && c.classify(t, front[i]) == Ok(Some(b));
          assert obstacles[i] == front[i];
        }
      }
    }
  }

  /** A step's classification raises exactly when a requested obstacle's does. */
  lemma {:induction false} ClassifyAllRaises(t: nat, ids: set<Id>, obstacles: seq<Obstacle>, c: Classifier)
    ensures ClassifyAll(t, ids, obstacles, c).Err? <==>
      exists i :: 0 <= i < |obstacles| && Some(obstacles[i].id) in ids && c.classify(t, obstacles[i]).Err?
    decreases |obstacles|
  {
    if obstacles != [] {
      var n := |obstacles| - 1;
      var front := obstacles[..n];
      ClassifyAllRaises(t, ids, front, c);
      if exists i :: 0 <= i < |obstacles| && Some(obstacles[i].id) in ids && c.classify(t, obstacles[i]).Err? {
        var i :| 0 <= i < |obstacles| && Some(obstacles[i].id) in ids && c.classify(t, obstacles[i]).Err?;
        if i < n {
          assert front[i] == obstacles[i];
        }
      }
      if exists i :: 0 <= i < |front| && Some(front[i].id) in ids && c.classify(t, front[i]).Err? {
        var i :| 0 <= i < |front| && Some(front[i].id) in ids && c.classify(t, front[i]).Err?;
        assert obstacles[i] == front[i];
      }
    }
  }

  /** With unique obstacle identifiers no identifier is both true and false at a step. */
  lemma ClassifyAllDisjoint(t: nat, ids: set<Id>, obstacles: seq<Obstacle>, c: Classifier)
    requires UniqueIds(obstacles) && ClassifyAll(t, ids, obstacles, c).Ok?
    ensures ClassifyAll(t, ids, obstacles, c).value.trues !! ClassifyAll(t, ids, obstacles, c).value.falses
  {
    var r := ClassifyAll(t, ids, obstacles, c).value;
    forall id | id in r.trues && id in r.falses
      ensures false
    {
      ClassifyAllMembers(t, ids, obstacles, c, id);
    }
  }

  /**
   * The meaning of an obstacle extraction: an identifier is true (false) at step t exactly
   * when it was requested at t and a world obstacle with that identifier was classified
   * true (false); a step has an entry exactly when some identifier is true or false there;
   * and nothing is both true and false.
   */
  lemma TableMeaning(requests: Requests, obstacles: seq<Obstacle>, c: Classifier, t: nat, id: Id)
    requires !AnyRaises(requests, obstacles, c)
    ensures var tab := Table(requests, obstacles, c);
      ((t in tab && id in tab[t].trues) <==> t in requests && Classified(t, requests[t], obstacles, c, id, Ok(Some(true)))) &&
      ((t in tab && id in tab[t].falses) <==> t in requests && Classified(t, requests[t], obstacles, c, id, Ok(Some(false)))) &&
      (t in tab ==> t in requests && (tab[t].trues != {} || tab[t].falses != {}))
    ensures UniqueIds(obstacles) && t in Table(requests, obstacles, c) ==>
      Table(requests, obstacles, c)[t].trues !! Table(requests, obstacles, c)[t].falses
  {
    if t in requests {
      assert StepResult(t, requests[t], obstacles, c).Ok?;
      ClassifyAllMembers(t, requests[t], obstacles, c, id);
      if UniqueIds(obstacles) {
        ClassifyAllDisjoint(t, requests[t], obstacles, c);
      }
    }
  }

  /** The entry of one world obstacle, for unique obstacle identifiers: true (false) exactly
   *  when it was requested at t and classified true (false). */
  lemma TableAt(requests: Requests, obstacles: seq<Obstacle>, c: Classifier, t: nat, o: Obstacle)
    requires !AnyRaises(requests, obstacles, c) && UniqueIds(obstacles) && o in obstacles
    ensures var tab := Table(requests, obstacles, c);
      ((t in tab && Some(o.id) in tab[t].trues) <==>
        t in requests && Some(o.id) in requests[t] && c.classify(t, o) == Ok(Some(true))) &&
      ((t in tab && Some(o.id) in tab[t].falses) <==>
        t in requests && Some(o.id) in requests[t] && c.classify(t, o) == Ok(Some(false)))
  {
    TableMeaning(requests, obstacles, c, t, Some(o.id));
    var k :| 0 <= k < |obstacles| && obstacles[k] == o;
    if t in requests {
      forall b: bool
        ensures Classified(t, requests[t], obstacles, c, Some(o.id), Ok(Some(b))) <==>
                Some(o.id) in requests[t] && c.classify(t, o) == Ok(Some(b))
      {
        if Classified(t, requests[t], obstacles, c, Some(o.id), Ok(Some(b))) {
          var i :| 0 <= i < |obstacles| && Some(obstacles[i].id) == Some(o.id) && c.classify(t, obstacles[i]) == Ok(Some(b));
          assert i == k;
        }
      }
    }
  }

  /** Identifiers that are not requested, or that name no world obstacle, never appear. */
  lemma TableOnlyRequested(requests: Requests, obstacles: seq<Obstacle>, c: Classifier, t: nat, id: Id)
    requires !AnyRaises(requests, obstacles, c)
    requires t in Table(requests, obstacles, c)
    requires id in Table(requests, obstacles, c)[t].trues + Table(requests, obstacles, c)[t].falses
    ensures t in requests && id in requests[t]
    ensures exists i :: 0 <= i < |obstacles| && Some(obstacles[i].id) == id
  {
    TableMeaning(requests, obstacles, c, t, id);
  }

  /** When an extraction raises: some requested step's per-step work raises, or a requested
   *  obstacle's classification does. */
  lemma RaisesMeaning(requests: Requests, obstacles: seq<Obstacle>, c: Classifier)
    ensures AnyRaises(requests, obstacles, c) <==>
      exists t :: t in requests && (c.stepRaises(t) ||
        exists i :: 0 <= i < |obstacles| && Some(obstacles[i].id) in requests[t] && c.classify(t, obstacles[i]).Err?)
  {
    forall t | t in requests {
      ClassifyAllRaises(t, requests[t], obstacles, c);
    }
  }

  /** A classifier that never raises gives an extraction that never raises. */
  lemma NeverRaises(requests: Requests, obstacles: seq<Obstacle>, c: Classifier)
    requires forall t :: !c.stepRaises(t)
    requires forall t, o :: c.classify(t, o).Ok?
    ensures !AnyRaises(requests, obstacles, c)
  {
    RaisesMeaning(requests, obstacles, c);
  }

  // ---------------------------------------------------------------------------
  // The covered/intersected test shared by the lanelet-based extractors.

  /**
   * The ego's covered lanelets are those its occupancy may touch and its intersected
   * lanelets those it certainly touches.  A proposition is false when no covered lanelet
   * `could` make it true, true (once not false) when every intersected lanelet `must`
   * make it true, and unknown otherwise.
   */
  function LaneletVerdict(covered: seq<Lanelet>, intersected: seq<Lanelet>,
                          could: Lanelet -> bool, must: Lanelet -> bool): (r: Option<bool>)
    ensures r == Some(false) <==> forall i :: 0 <= i < |covered| ==> !could(covered[i])
    ensures r == Some(true) <==> (exists i :: 0 <= i < |covered| && could(covered[i])) &&
                                 forall i :: 0 <= i < |intersected| ==> must(intersected[i])
  {
    if forall i :: 0 <= i < |covered| ==> !could(covered[i]) then Some(false)
    else if forall i :: 0 <= i < |intersected| ==> must(intersected[i]) then Some(true)
    else None
  }

  /**
   * The verdict is sound for every lanelet set the ego may actually occupy, that is, one
   * containing all intersected and only covered lanelets: a false verdict rules out every
   * lanelet that could make the proposition true, and a true verdict guarantees an occupied
   * lanelet that must make it true, provided the intersected list is not empty.
   */
  lemma LaneletVerdictSound(covered: seq<Lanelet>, intersected: seq<Lanelet>, occupied: seq<Lanelet>,
                            could: Lanelet -> bool, must: Lanelet -> bool)
    requires forall l :: l in intersected ==> l in occupied
    requires forall l :: l in occupied ==> l in covered
    ensures LaneletVerdict(covered, intersected, could, must) == Some(false) ==>
      forall i :: 0 <= i < |occupied| ==> !could(occupied[i])
    ensures LaneletVerdict(covered, intersected, could, must) == Some(true) && intersected != [] ==>
      exists i :: 0 <= i < |occupied| && must(occupied[i])
  {
    if LaneletVerdict(covered, intersected, could, must) == Some(false) {
      forall i | 0 <= i < |occupied|
        ensures !could(occupied[i])
      {
        assert occupied[i] in covered;
        var j :| 0 <= j < |covered| && covered[j] == occupied[i];
      }
    }
    if LaneletVerdict(covered, intersected, could, must) == Some(true) && intersected != [] {
      assert intersected[0] in occupied;
      var j :| 0 <= j < |occupied| && occupied[j] == intersected[0];
    }
  }

  /** The must-be-true test holds vacuously: with no intersected lanelet the verdict is true
   *  as soon as one covered lanelet could make the proposition true. */
  lemma LaneletVerdictVacuous(covered: seq<Lanelet>, could: Lanelet -> bool, must: Lanelet -> bool, k: nat)
    requires k < |covered| && could(covered[k])
    ensures LaneletVerdict(covered, [], could, must) == Some(true)
  {
  }

  // ---------------------------------------------------------------------------
  // Extractors that classify only the ego vehicle.

  /** The ego vehicle's entry for a verdict: the ego marker in the true or false set. */
  function EgoEntry(v: bool): TrueFalse
  {
    if v then TrueFalse({None}, {}) else TrueFalse({}, {None})
  }

  /** The result of an ego-only extraction: every requested step with a known verdict gets
   *  the ego marker in the matching set, whatever identifiers were requested. */
  function EgoTable(requests: Requests, verdict: nat -> Option<bool>): (tab: map<nat, TrueFalse>)
    ensures forall t :: t in tab <==> t in requests && verdict(t).Some?
    ensures forall t :: t in tab ==> tab[t] == EgoEntry(verdict(t).value)
  {
    map t | t in requests && verdict(t).Some? :: EgoEntry(verdict(t).value)
  }

  /** The ego loop over all requested steps. */
  method ExtractEgo(requests: Requests, verdict: nat -> Option<bool>) returns (r: map<nat, TrueFalse>)
    ensures r == EgoTable(requests, verdict)
  {
    r := map[];
    var pending := requests.Keys;
    while pending != {}
      invariant pending <= requests.Keys
      invariant r == map t | t in requests && t !in pending && verdict(t).Some? :: EgoEntry(verdict(t).value)
      decreases pending
    {
      var t :| t in pending;
      var v := verdict(t);
      if v.Some? {
        if v.value {
          r := r[t := TrueFalse({None}, {})];
        } else {
          r := r[t := TrueFalse({}, {None})];
        }
      }
      pending := pending - {t};
    }
  }

  /** An ego-only extraction holds only the ego marker, never in both sets. */
  lemma EgoTableOnlyEgo(requests: Requests, verdict: nat -> Option<bool>, t: nat)
    requires t in EgoTable(requests, verdict)
    ensures var e := EgoTable(requests, verdict)[t];
      e.trues + e.falses == {None} && e.trues !! e.falses
  {
  }
}
