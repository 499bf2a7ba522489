# Knowledge extraction for traffic-rule simplification, in Dafny

This project models the knowledge-extraction engine of the CommonRoad rule-simplification
tool, together with the Python literal formatters that turn its output into formula literals.
For each requested time step, the engine answers a request of the form "proposition (obstacle
id) at step t" in one of two ways:

- **Kleene facts.** A proposition holds for the obstacle (a positive literal), fails for it (a
  negative literal), or is left unknown.
- **Relationships.** For one proposition, it relates two obstacles: an implication or an
  equivalence.

The answers rest on three layers:

- **The ego's behaviour.** This is a set-based over-approximation of where the ego vehicle can
  be. It uses interval boxes, propagated one step at a time and cut by the admissible states.
- **The environment model.** These are memoised look-ups of obstacle rear positions, lane
  ids, stopping positions, turning directions and priorities.
- **A family of extractors.** Each extractor classifies obstacles per step.

The model is organised as follows:

- Each extractor is modelled as a per-obstacle classifier (module `Kleene`) or a relationship
  builder.
- The orchestration (`Extraction`) parses requests, dispatches every proposition to its
  extractor and folds the results into per-step records of literal strings.

Files:

| file | module | models |
|---|---|---|
| wrappers.dfy | Wrappers | Option / Result |
| world.dfy | World | the scenario: obstacles, lanelets, signs, the ego's per-step views |
| box.dfy | Boxes | `Box<N>` (center/radius interval boxes) |
| behavior.dfy | Behavior | `BehaviorOverapproximation`: the state-box cache and its projections |
| env_model.dfy | EnvModel | `EnvironmentModel`: memo caches, stopping position, turning state machine |
| proposition.dfy | Propositions | the `Proposition` enumeration and its name tables |
| proposition_codec.dfy | PropositionCodec | `proposition::to_string` / `from_string` |
| kleene.dfy | Kleene | the shared per-step / per-obstacle classification loops |
| kleene_*.dfy | Position, Braking, General, Intersection, Regulatory, EgoIndependent | the Kleene extractors |
| relationship*.dfy | Relationships, Equivalence, Implication | the relationship extractors |
| extraction_interface.dfy | Extraction | request parsing, extractor dispatch, result folding, entry points |
| formatting.dfy | Formatting | both `formatting.py` literal formatters and `_to_snake` |

Doubles are modelled as `real`:

- Values the code obtains from `sqrt`, `cos` or `sin` are parameters, characterised by their
  squares where that matters.
- The road network, the curvilinear coordinate system and the CommonRoad predicates are inputs.
  Each obstacle carries its per-step observations: state, rear coordinate, occupied lanes,
  priorities and turning observations.
- The ego's per-step covered and intersected lanelet lists, velocity bounds (v_min, v_max) and
  priority ranges are inputs. The code declares them but does not define them.
- The ego's longitudinal position bounds, the radii and whether a step's state box can be
  computed are also fields of the view the extractors read (`World.EgoView`). The code obtains
  them from the behaviour over-approximation. `Behavior.BehaviorOverapproximation.ViewedBy`
  states when a view reads a given over-approximation, and the soundness lemmas
  `Position.InFrontOfSoundForBehavior` and `Braking.SafeDistanceSoundForBehavior` are stated
  against it.

Two behaviours of the code worth stating:

- **Ties in the in-front-of chain.** Every consecutive pair of the sorted obstacles gets
  `RelationshipType::IMPLICATION` (`in_front_of_impl_extractor.cpp:45-47`), so obstacles with
  equal rear coordinates are related by an implication, not an equivalence
  (`Implication.ChainFollowsRear`).
- **Failures of an ego-independent predicate.** `booleanEvaluation` is called with no try/catch
  around it (`ego_independent_extractor.cpp:17-28`), so its exception propagates out of the
  extraction rather than leaving the obstacle unknown
  (`EgoIndependent.EgoIndependentExtraction`, `Extraction.ExtractKleene`).

## Model

| member | source | states |
|---|---|---|
| Boxes.Bounds | cpp/include/cr_knowledge_extraction/ego_behavior/sets/box.hpp:40-42 | bounds() gives a minimum and a maximum per axis that enclose the centre; a valid box contains its centre |
| Boxes.FromBounds | cpp/include/cr_knowledge_extraction/ego_behavior/sets/box.hpp:30-33 | from_bounds(min, max) with min ≤ max is a valid box whose bounds are exactly min and max |
| Boxes.FromBoundsOfBounds | cpp/include/cr_knowledge_extraction/ego_behavior/sets/box.hpp:30-42 | from_bounds(bounds(b)) == b for every valid box |
| Boxes.Intersect | cpp/include/cr_knowledge_extraction/ego_behavior/sets/box.hpp:50-60 | a successful intersection is a valid box of the same dimension; the failure is the empty-set exception |
| Boxes.IntersectExact | cpp/include/cr_knowledge_extraction/ego_behavior/sets/box.hpp:50-60 | the intersection contains exactly the points of both operands; when it fails, no point lies in both |
| Boxes.IntersectOkIffCommonPoint | cpp/include/cr_knowledge_extraction/ego_behavior/sets/box.hpp:50-60 | intersect succeeds iff the two boxes share a point |
| Boxes.IntersectCommutes | cpp/include/cr_knowledge_extraction/ego_behavior/sets/box.hpp:50-60 | a.intersect(b) == b.intersect(a), including the failure |
| Boxes.Sum | cpp/include/cr_knowledge_extraction/ego_behavior/sets/box.hpp:68 | the Minkowski sum of valid boxes is a valid box of the same dimension |
| Boxes.SumContains | cpp/include/cr_knowledge_extraction/ego_behavior/sets/box.hpp:62-68 | x + y lies in a.sum(b) for every x in a and y in b |
| Boxes.SumBounds | cpp/include/cr_knowledge_extraction/ego_behavior/sets/box.hpp:68 | the bounds of the sum are the sums of the bounds |
| Boxes.SumCommutes | cpp/include/cr_knowledge_extraction/ego_behavior/sets/box.hpp:68 | a.sum(b) == b.sum(a) |
| Boxes.Shrink | cpp/include/cr_knowledge_extraction/ego_behavior/sets/box.hpp:76 | shrink keeps the centre and yields a valid box (no radius below zero) |
| Boxes.ShrinkWithin | cpp/include/cr_knowledge_extraction/ego_behavior/sets/box.hpp:70-76 | for delta ≥ 0 every point of the shrunk box lies in the original |
| Boxes.ShrinkRadius | cpp/include/cr_knowledge_extraction/ego_behavior/sets/box.hpp:76 | each radius becomes r − delta/2 when that is non-negative, else 0 |
| Boxes.DotNonNegative | cpp/include/cr_knowledge_extraction/ego_behavior/sets/box.hpp:88-91 | a non-negative row applied to a non-negative vector gives a non-negative value, so mapped radii stay non-negative |
| Boxes.DotWithin | cpp/include/cr_knowledge_extraction/ego_behavior/sets/box.hpp:78-91 | a non-negative row maps a point within r of c to within row·r of row·c |
| Boxes.LinearMapPositive | cpp/include/cr_knowledge_extraction/ego_behavior/sets/box.hpp:88-91 | for a matrix without negative entries the mapped box (M·c, M·r) is valid, of the matrix's output dimension |
| Boxes.LinearMapContains | cpp/include/cr_knowledge_extraction/ego_behavior/sets/box.hpp:78-91 | the image M·x of every point x of the box lies inside the mapped box (over-approximation) |
| Boxes.ProjectToPositions | cpp/src/ego_behavior/behavior_overapproximation.cpp:111-115 | project_to_positions keeps axes 0 and 2 of a 4-D box, giving a valid 2-D box |
| Boxes.ProjectionContains | cpp/src/ego_behavior/behavior_overapproximation.cpp:111-115 | the projection of every point of the state box lies in the projected box |
| Boxes.FromBoundsExample | cpp/tests/ego_behavior/sets/test_box.cpp:5-40 | from_bounds({9,8},{11,12}) is {10,10},{1,2}, and the 4-D case likewise |
| Boxes.SumAndShrinkExample | cpp/tests/ego_behavior/sets/test_box.cpp:16-59 | the 2-D sum and the 2-D and 4-D shrink(3) expectations of the box tests |
| Boxes.LinearMapExample | cpp/tests/ego_behavior/sets/test_box.cpp:29-67 | the 2-D and 4-D linear_map_positive expectations of the box tests |
| Behavior.DefaultParametersValid | cpp/include/cr_knowledge_extraction/ego_behavior/ego_params.hpp:1-28 | the default ego parameters satisfy what the box constructors assert (ordered bounds, non-negative uncertainties) |
| Behavior.SystemMatrix | cpp/src/ego_behavior/behavior_overapproximation.cpp:18-25 | the system matrix is 4×4 and has no negative entry for dt ≥ 0, as linear_map_positive demands |
| Behavior.SystemMatrixTransition | cpp/src/ego_behavior/behavior_overapproximation.cpp:18-25 | A·x adds dt times each velocity to its position and keeps the velocities |
| Behavior.InputMatrix | cpp/src/ego_behavior/behavior_overapproximation.cpp:27-34 | the input matrix is 4×2 and has no negative entry for dt ≥ 0 |
| Behavior.InputMatrixEffect | cpp/src/ego_behavior/behavior_overapproximation.cpp:27-34 | an acceleration a held for dt moves each position by dt²/2·a and each velocity by dt·a |
| Behavior.InputStateUpdate | cpp/src/ego_behavior/behavior_overapproximation.cpp:27-38 | the input box is a valid 4-D box |
| Behavior.InputStateUpdateCoversAccelerations | cpp/src/ego_behavior/behavior_overapproximation.cpp:27-38 | the input box contains the effect of every acceleration within the configured bounds |
| Behavior.AdmissibleStatesAsWritten | cpp/src/ego_behavior/behavior_overapproximation.cpp:40-45 | the admissible box as written (position lower bound = smallest positive double) is a valid 4-D box |
| Behavior.AdmissibleAsWrittenMembership | cpp/src/ego_behavior/behavior_overapproximation.cpp:40-45 | as written, a state is admissible iff both positions lie in [DBL_MIN, DBL_MAX] and both velocities in their configured ranges |
| Behavior.AdmissibleStates | cpp/src/ego_behavior/behavior_overapproximation.cpp:40-45 | the corrected admissible box (positions from −DBL_MAX) is a valid 4-D box |
| Behavior.AdmissibleMembership | cpp/src/ego_behavior/behavior_overapproximation.cpp:40-45 | corrected: a state is admissible iff the positions are finite doubles and the velocities lie in their configured ranges |
| Behavior.AdmissibleAsWrittenExcludesNonPositivePositions | cpp/src/ego_behavior/behavior_overapproximation.cpp:41-43 | as written, every state with a position ≤ 0 is rejected, although the corrected set admits it |
| Behavior.AdmissibleAsWrittenRejectsRearState | cpp/src/ego_behavior/behavior_overapproximation.cpp:40-83 | with the default parameters, a state box around p_lon = −10 makes the propagation step throw as written, but not with the corrected bound |
| Behavior.MakeOuterShapeBox | cpp/src/ego_behavior/behavior_overapproximation.cpp:52-57 | the outer shape box is a valid 2-D box centred at the origin; it contains every point within the half-diagonal of the reference point |
| Behavior.InnerRadiusWithinOuterRadius | cpp/src/ego_behavior/behavior_overapproximation.cpp:47-57 | 0 ≤ shrink_delta = √2·min(l, w)/2 ≤ the half-diagonal, i.e. inner radius ≤ outer radius |
| Behavior.InitialCenterApproximation | cpp/src/ego_behavior/behavior_overapproximation.cpp:59-74 | the initial box is a valid 4-D box that contains the initial state (p_lon, v_lon, p_lat, v_lat) |
| Behavior.OccupancyRecursionNeverReturns | cpp/src/ego_behavior/behavior_overapproximation.cpp:87-109 | starting from the empty occupancy caches, the recursion as written never reaches a returning call, however deep one looks |
| Behavior.BehaviorOverapproximation.Successor | cpp/src/ego_behavior/behavior_overapproximation.cpp:81 | one propagation step maps a valid 4-D box to a valid 4-D box, or fails |
| Behavior.BehaviorOverapproximation.StateAt | cpp/src/ego_behavior/behavior_overapproximation.cpp:76-85 | the state box of every step that has one is a valid 4-D box; it is cut by the corrected admissible states (first row under "## Findings") |
| Behavior.BehaviorOverapproximation.Occupancy | cpp/src/ego_behavior/behavior_overapproximation.cpp:93 | occupancy(t) is a valid 2-D box |
| Behavior.BehaviorOverapproximation.OccupancyIntersection | cpp/src/ego_behavior/behavior_overapproximation.cpp:105 | the guaranteed-occupancy box is a valid 2-D box |
| Behavior.BehaviorOverapproximation.CentersExtend | cpp/src/ego_behavior/behavior_overapproximation.cpp:80-82 | appending the successor of the last cached state keeps the cache equal to the first states |
| Behavior.BehaviorOverapproximation.DerivedExtend | cpp/src/ego_behavior/behavior_overapproximation.cpp:92-106 | appending the projection of the next cached state keeps an occupancy cache valid |
| Behavior.BehaviorOverapproximation.constructor | cpp/src/ego_behavior/behavior_overapproximation.cpp:10-16 | the caches start as [initial box], [] and []; system matrix, input box and offset come from dt and the parameters; the admissible states are the corrected box; shrink_delta is √2·min(l, w)/2 and the outer box has the half-diagonal as radius, so 0 ≤ inner radius ≤ outer radius |
| Behavior.BehaviorOverapproximation.AppendNextCenter | cpp/src/ego_behavior/behavior_overapproximation.cpp:78-83 | one round of the fill: the next state is appended to the cache, or the failure is reported and the cache is unchanged |
| Behavior.BehaviorOverapproximation.GetCenterApproximation | cpp/src/ego_behavior/behavior_overapproximation.cpp:76-85 | returns the state box for step t − offset under the corrected admissible states (or its failure); the cache only grows, and earlier entries are unchanged |
| Behavior.BehaviorOverapproximation.StateErrPersists | cpp/src/ego_behavior/behavior_overapproximation.cpp:76-85 | once a step has no admissible state, every later step fails with the same error |
| Behavior.BehaviorOverapproximation.ReachableStateCovered | cpp/src/ego_behavior/behavior_overapproximation.cpp:81 | a state of step k, driven for one step by an admissible acceleration into an admissible state, lies in the box for step k + 1 |
| Behavior.BehaviorOverapproximation.LaterStatesAdmissible | cpp/src/ego_behavior/behavior_overapproximation.cpp:81 | every state box after the initial one lies inside the admissible states |
| Behavior.BehaviorOverapproximation.OccupancyNesting | cpp/src/ego_behavior/behavior_overapproximation.cpp:93-105 | guaranteed-occupancy box ⊆ projected state box ⊆ occupancy box, for the constants the constructor makes |
| Behavior.BehaviorOverapproximation.ViewedBy | cpp/include/cr_knowledge_extraction/ego_behavior/behavior_overapproximation.hpp:52-64 | the extractors' view of the ego is this object's: a step raises iff its state box is empty, p_lon_min/p_lon_max are the box's bounds, the radii are get_inner_radius/get_outer_radius; ViewBoundsEnclose characterises it |
| Behavior.BehaviorOverapproximation.GetOccupancyApproximation | cpp/src/ego_behavior/behavior_overapproximation.cpp:87-97 | the corrected fill: returns occupancy(state(t − offset)) iff that state exists; the cache is filled up to t |
| Behavior.BehaviorOverapproximation.GetOccupancyIntersectionApproximation | cpp/src/ego_behavior/behavior_overapproximation.cpp:99-109 | the corrected fill: returns the shrunk projection of state(t − offset) iff that state exists; the cache is filled up to t |
| Behavior.BehaviorOverapproximation.ViewBoundsEnclose | cpp/include/cr_knowledge_extraction/ego_behavior/behavior_overapproximation.hpp:52-64 | for an ego view that reads this object (a step raises iff its state box is empty, p_lon_min/p_lon_max are the box's axis-0 bounds, the radii are get_inner_radius/get_outer_radius), the radii are ordered and every state of a computed box lies between the bounds, at a step that does not raise |
| Behavior.BehaviorOverapproximation.StateBound | cpp/include/cr_knowledge_extraction/ego_behavior/behavior_overapproximation.hpp:56-94 | a bound accessor returns the lower or upper bound of one axis of state(t); every point of the box lies on the correct side of it |
| Behavior.BehaviorOverapproximation.PLonMin | cpp/include/cr_knowledge_extraction/ego_behavior/behavior_overapproximation.hpp:56-59 | p_lon_min(t) is the lower bound of axis 0 of state(t) |
| Behavior.BehaviorOverapproximation.PLonMax | cpp/include/cr_knowledge_extraction/ego_behavior/behavior_overapproximation.hpp:61-64 | p_lon_max(t) is the upper bound of axis 0 of state(t) |
| Behavior.BehaviorOverapproximation.PLatMin | cpp/include/cr_knowledge_extraction/ego_behavior/behavior_overapproximation.hpp:66-69 | p_lat_min(t) is the lower bound of axis 2 |
| Behavior.BehaviorOverapproximation.PLatMax | cpp/include/cr_knowledge_extraction/ego_behavior/behavior_overapproximation.hpp:71-74 | p_lat_max(t) is the upper bound of axis 2 |
| Behavior.BehaviorOverapproximation.VLonMin | cpp/include/cr_knowledge_extraction/ego_behavior/behavior_overapproximation.hpp:76-79 | v_lon_min(t) is the lower bound of axis 1 |
| Behavior.BehaviorOverapproximation.VLonMax | cpp/include/cr_knowledge_extraction/ego_behavior/behavior_overapproximation.hpp:81-84 | v_lon_max(t) is the upper bound of axis 1 |
| Behavior.BehaviorOverapproximation.VLatMin | cpp/include/cr_knowledge_extraction/ego_behavior/behavior_overapproximation.hpp:86-89 | v_lat_min(t) is the lower bound of axis 3 |
| Behavior.BehaviorOverapproximation.VLatMax | cpp/include/cr_knowledge_extraction/ego_behavior/behavior_overapproximation.hpp:91-94 | v_lat_max(t) is the upper bound of axis 3 |
| EnvModel.Rear | cpp/src/env_model/env_model.cpp:31-44 | the rear is absent iff the obstacle has no state at the step or its position is outside the projection domain; otherwise it is the obstacle's rear coordinate |
| EnvModel.UnionAll | cpp/src/env_model/env_model.cpp:64-70 | an id is in the union iff some occupied lane contains it |
| EnvModel.LaneIds | cpp/src/env_model/env_model.cpp:60-74 | the lane ids are absent iff the lane query throws; otherwise they are exactly the ids of all occupied lanes |
| EnvModel.StoppingS | cpp/src/env_model/env_model.cpp:91-103 | the stopping position is absent iff the rear is absent; otherwise it is rear + v²/(2·abs(a_min)) |
| EnvModel.StopAfter | cpp/src/env_model/env_model.cpp:102 | the stopping position is at or beyond the rear, and (s − rear)·2·abs(a) = v² |
| EnvModel.IntersectionStep | cpp/src/env_model/env_model.cpp:162-183 | one step in the intersection: leaving it is mode 3; otherwise each direction whose lanelet the obstacle left becomes impossible, and none left is mode 3; RunMonotone and RunConsistent characterise it |
| EnvModel.TurningStep | cpp/src/env_model/env_model.cpp:145-184 | one step of the four-mode machine, with the fall-through from leaving the incoming into the intersection case; FallThroughReportsAll and RunMonotone characterise it |
| EnvModel.Run | cpp/src/env_model/env_model.cpp:126-185 | the machine over the obstacle's time steps, stopping at mode 3; RunAppend, DoneStays, StopsWhenDone, RunMonotone and RunConsistent characterise it, ComputeTurningDirections equals it |
| EnvModel.Priority | cpp/src/env_model/env_model.cpp:220-233 | a priority is present iff the obstacle has one for (step, direction) |
| EnvModel.Reported | cpp/src/env_model/env_model.cpp:187-201 | a direction is reported iff the machine reached mode 2 or 3 and the direction's flag is still true |
| EnvModel.TurningDirections | cpp/src/env_model/env_model.cpp:119-204 | get_turning_directions_impl: the directions reported for the run from mode 0 with all flags true; NothingBeforeIntersection, InsideIntersectionReportsSome and FallThroughReportsAll characterise it |
| EnvModel.ComputeTurningDirections | cpp/src/env_model/env_model.cpp:119-204 | the loop over the time steps, updating (mode, left, straight, right), returns exactly the directions of the functional run of the four-mode machine |
| EnvModel.RunMonotone | cpp/src/env_model/env_model.cpp:168-177 | a direction flag only goes from possible to impossible, and the mode never goes back |
| EnvModel.RunAppend | cpp/src/env_model/env_model.cpp:131-135 | running over a + b is running over a and then over b |
| EnvModel.DoneStays | cpp/src/env_model/env_model.cpp:133-135 | once in mode 3 the machine stops: further steps change nothing |
| EnvModel.StopsWhenDone | cpp/src/env_model/env_model.cpp:133-135 | once a prefix ends in mode 3, later observations change nothing |
| EnvModel.RunConsistent | cpp/src/env_model/env_model.cpp:145-183 | before the intersection all flags are true, and in the intersection at least one is (mode 3 is entered when all are false) |
| EnvModel.NothingBeforeIntersection | cpp/src/env_model/env_model.cpp:188-201 | if the machine never got past the incoming (final mode 0 or 1), no direction is reported |
| EnvModel.InsideIntersectionReportsSome | cpp/src/env_model/env_model.cpp:178-201 | an obstacle still inside the intersection at its last step has at least one reported direction |
| EnvModel.FallThroughReportsAll | cpp/src/env_model/env_model.cpp:152-166 | leaving the incoming at a step that is already off the intersection ends the run with all three directions reported |
| EnvModel.EnvironmentModel.constructor | cpp/include/cr_knowledge_extraction/env_model/env_model.hpp:29-55 | all five caches start empty, so every cached value is trivially the value its query computes |
| EnvModel.EnvironmentModel.GetObstacleRear | cpp/src/env_model/env_model.cpp:46-58 | returns the rear of (step, obstacle); the rear cache gains exactly that key (or keeps it on a hit) with the value, even an absent one; every cached entry stays equal to what its query computes |
| EnvModel.EnvironmentModel.GetObstacleLaneIds | cpp/src/env_model/env_model.cpp:76-89 | returns the lane ids; the lane-id cache gains exactly that key |
| EnvModel.EnvironmentModel.GetStoppingS | cpp/src/env_model/env_model.cpp:105-117 | returns the stopping position; its cache gains that key, and on a miss the rear cache gains the rear of the same key |
| EnvModel.EnvironmentModel.GetTurningDirections | cpp/src/env_model/env_model.cpp:206-218 | returns the directions of the machine run; the turning cache gains the obstacle's id |
| EnvModel.EnvironmentModel.GetPriority | cpp/src/env_model/env_model.cpp:220-233 | returns the obstacle's priority; the cache is keyed by (step, obstacle, direction) and gains exactly that key |
| EnvModel.RearTwice | cpp/src/env_model/env_model.cpp:46-58 | two look-ups of the same key return the same value, and the cache holds it afterwards |
| Propositions.FromName | cpp/include/cr_knowledge_extraction/proposition.hpp:181-237 | string_to_proposition finds a proposition only under that proposition's own name |
| Propositions.TableEntry | cpp/include/cr_knowledge_extraction/proposition.hpp:67-237 | every enumerator has an entry in proposition_to_string; its name is non-empty, has no bracket, and maps back to the enumerator in string_to_proposition |
| Propositions.FromNameExact | cpp/include/cr_knowledge_extraction/proposition.hpp:123-237 | string_to_proposition is the exact inverse of proposition_to_string: a key finds p iff it is p's name |
| Propositions.NamesDistinct | cpp/include/cr_knowledge_extraction/proposition.hpp:67-121 | registered names are pairwise distinct |
| Propositions.Name | cpp/include/cr_knowledge_extraction/proposition.hpp:67-121 | proposition_to_string: one registered name per enumerator; TableEntry, NamesDistinct and FromNameExact show the names are non-empty, bracket-free, pairwise distinct and inverted by string_to_proposition |
| PropositionCodec.DigitChar | cpp/src/proposition.cpp:41 | each decimal digit character stands for its value |
| PropositionCodec.Decimal | cpp/src/proposition.cpp:41 | std::to_string of a number is a non-empty string of digits without a leading zero (unless the number is 0) |
| PropositionCodec.DecimalValue | cpp/src/proposition.cpp:41 | the digits written for n read back as n |
| PropositionCodec.LeadingSpaces | cpp/src/proposition.cpp:28 | the whitespace prefix stoul skips: all spaces, followed by a non-space |
| PropositionCodec.LeadingDigits | cpp/src/proposition.cpp:28 | the digit run stoul reads: all digits, followed by a non-digit |
| PropositionCodec.Stoul | cpp/src/proposition.cpp:28 | std::stoul in base 10: skip white space, one optional sign, the longest digit run; no digit is invalid_argument, above SIZE_MAX is out_of_range, '-' wraps modulo 2^64; StoulDecimal, StoulSkipsSpace, StoulIgnoresTrailing, StoulNegative, StoulOutOfRange and StoulNoDigits characterise it |
| PropositionCodec.StoulDecimal | cpp/src/proposition.cpp:28-41 | stoul reads back every number that to_string writes |
| PropositionCodec.LeadingDigitsAll | cpp/src/proposition.cpp:28 | a string of digits is read entirely |
| PropositionCodec.FirstIndexOf | cpp/src/proposition.cpp:9 | find_first_of gives the first position of the character, or npos iff it does not occur |
| PropositionCodec.ToString | cpp/src/proposition.cpp:37-44 | proposition::to_string: the registered name, then the parameter's decimal in brackets when present; RoundTrip and NonCanonicalNotPrinted characterise it |
| PropositionCodec.FromString | cpp/src/proposition.cpp:7-35 | proposition::from_string: bracket check, name lookup of the text before the first '(', then stoul of the bracketed text; MalformedExactly, UnknownExactly, ParseBareName, ParseWithParameter, ParameterErrors and RoundTrip characterise each outcome |
| PropositionCodec.MalformedExactly | cpp/src/proposition.cpp:9-13 | from_string fails with "malformed parameters" iff exactly one of "contains '('" and "ends with ')'" holds, before any name lookup |
| PropositionCodec.UnknownExactly | cpp/src/proposition.cpp:15-18 | with consistent brackets, "unknown proposition" is raised iff the text before the first '(' is not a registered name |
| PropositionCodec.ParseBareName | cpp/src/proposition.cpp:15-35 | a string parses to (p, none) iff it is exactly p's name |
| PropositionCodec.ParseWithParameter | cpp/src/proposition.cpp:15-35 | a string parses to (p, n) iff its brackets match, the prefix before the first '(' is p's name, and stoul reads n from the text between the first '(' and the final ')' |
| PropositionCodec.ParseBracketed | cpp/src/proposition.cpp:21-33 | name(text) parses with stoul's value of text; stoul's invalid_argument becomes "invalid parameter", and its out_of_range propagates |
| PropositionCodec.RoundTrip | cpp/src/proposition.cpp:7-44 | from_string(to_string(p, o)) == (p, o) for every proposition and optional parameter |
| PropositionCodec.FirstIndexOfAfter | cpp/src/proposition.cpp:9 | in name + "(" + …, with a name that has no bracket, the first '(' follows the name |
| PropositionCodec.SplitAtParameter | cpp/src/proposition.cpp:15-24 | a bracketed string is its name part, "(", the parameter text and ")" |
| PropositionCodec.BracketedEquality | cpp/src/proposition.cpp:41 | name(text) = name(other) iff text = other |
| PropositionCodec.ToStringOfParsed | cpp/src/proposition.cpp:7-44 | to_string(from_string(s)) == s holds for a bare name, and for a parameter exactly when its text is the canonical decimal |
| PropositionCodec.ParameterErrors | cpp/src/proposition.cpp:24-31 | with a registered name, "invalid parameter" arises iff stoul finds no number, and "out of range" iff stoul overflows |
| PropositionCodec.StoulSkipsSpace | cpp/src/proposition.cpp:28 | stoul skips leading whitespace |
| PropositionCodec.StoulIgnoresTrailing | cpp/src/proposition.cpp:28 | stoul ignores text after the digits |
| PropositionCodec.LeadingDigitsPrefix | cpp/src/proposition.cpp:28 | the digit run of digits + text is the digits, when text does not start with a digit |
| PropositionCodec.StoulNegative | cpp/src/proposition.cpp:28 | stoul accepts a minus sign and wraps the value modulo 2^64 |
| PropositionCodec.StoulOutOfRange | cpp/src/proposition.cpp:28 | a decimal above SIZE_MAX makes stoul raise out_of_range |
| PropositionCodec.StoulNoDigits | cpp/src/proposition.cpp:28 | text that starts with neither space, sign nor digit makes stoul raise invalid_argument |
| PropositionCodec.NonCanonicalNotPrinted | cpp/src/proposition.cpp:41 | to_string never writes a parameter text other than the canonical decimal |
| PropositionCodec.LeadingSpaceParameter | cpp/src/proposition.cpp:24-28 | "Name( 42)" parses to (p, 42), but to_string of that does not give the string back |
| PropositionCodec.TrailingTextParameter | cpp/src/proposition.cpp:24-28 | "Name(42x)" parses to (p, 42), but to_string of that does not give the string back |
| PropositionCodec.NegativeParameter | cpp/src/proposition.cpp:24-28 | "Name(-n)" parses, with the parameter wrapped to 2^64 − n |
| PropositionCodec.UnbalancedExamples | cpp/src/proposition.cpp:11-13 | "Name(" and "Name)" are malformed |
| PropositionCodec.NoNameExample | cpp/src/proposition.cpp:15-18 | "(Name)" is an unknown proposition (the name part is empty) |
| PropositionCodec.ParameterExamples | cpp/src/proposition.cpp:24-31 | "Name()" is an invalid parameter; "Name(2^64)" is out of range |
| Kleene.ClassifyStep | cpp/src/kleene/position/in_front_of_extractor.cpp:28-34 | the loop over the world's obstacles at one step, putting each requested id into the set its verdict names, equals the functional classification of the step (and raises exactly when it does) |
| Kleene.ClassifyAllRaisesLater | cpp/src/kleene/position/in_front_of_extractor.cpp:28-34 | an exception part-way through a step ends the whole step with that exception |
| Kleene.ClassifyAll | cpp/src/kleene/position/in_front_of_extractor.cpp:28-34 | one step's classification of the requested world obstacles in world order; ClassifyAllMembers, ClassifyAllRaises and ClassifyAllDisjoint characterise it, ClassifyStep equals it |
| Kleene.StepResult | cpp/src/kleene/position/in_front_of_extractor.cpp:13-34 | a step's outcome: its per-step work raises, or the classification of its obstacles; RaisesMeaning characterises it |
| Kleene.Table | cpp/src/kleene/position/in_front_of_extractor.cpp:12-36 | the true/false table of an extraction that did not raise, with entries only for non-empty steps; TableMeaning, TableAt and TableOnlyRequested characterise it, ExtractObstacles equals it |
| Kleene.ExtractObstacles | cpp/src/kleene/position/in_front_of_extractor.cpp:12-36 | the loop over the requested steps raises iff some step does; otherwise it returns exactly the table of the non-empty steps' classifications |
| Kleene.ClassifyAllMembers | cpp/src/kleene/position/in_front_of_extractor.cpp:13-34 | an id is in a step's true (false) set iff it was requested at the step and some world obstacle with that id was classified true (false) |
| Kleene.ClassifyAllRaises | cpp/src/kleene/position/in_front_of_extractor.cpp:13-34 | a step raises iff some requested obstacle's classification raises |
| Kleene.ClassifyAllDisjoint | cpp/src/kleene/position/in_front_of_extractor.cpp:29-33 | with unique obstacle ids no id is both true and false at a step |
| Kleene.TableMeaning | cpp/src/kleene/position/in_front_of_extractor.cpp:12-36 | an id is true (false) at t iff t was requested and the id was classified true (false) at t; only steps with some entry appear; with unique ids no id is in both sets |
| Kleene.TableAt | cpp/src/kleene/position/in_front_of_extractor.cpp:12-36 | for one world obstacle: true (false) at t iff it was requested at t and classified true (false) |
| Kleene.TableOnlyRequested | cpp/src/kleene/position/in_front_of_extractor.cpp:13-17 | only requested steps and requested ids of world obstacles appear in the result |
| Kleene.RaisesMeaning | cpp/src/kleene/position/in_front_of_extractor.cpp:12-36 | the extraction raises iff, at some requested step, the per-step work raises or a requested obstacle's classification does |
| Kleene.NeverRaises | cpp/src/kleene/regulatory/priority_extractor.cpp:11-49 | a classification that never raises gives an extraction that never raises |
| Kleene.LaneletVerdict | cpp/src/kleene/position/on_lanelet_with_type_extractor.cpp:16-32 | false iff no covered lanelet could make the proposition true; true iff not false and every intersected lanelet must; unknown otherwise |
| Kleene.LaneletVerdictSound | cpp/src/kleene/position/on_lanelet_with_type_extractor.cpp:16-32 | for every lanelet set between the intersected and the covered lanelets, a false verdict rules out every "could" lanelet, and a true verdict with a non-empty intersected list guarantees an occupied "must" lanelet |
| Kleene.LaneletVerdictVacuous | cpp/src/kleene/position/on_lanelet_with_type_extractor.cpp:25-29 | with no intersected lanelet the all_of holds vacuously: the verdict is true as soon as one covered lanelet could make it true |
| Kleene.EgoEntry | cpp/src/kleene/position/on_lanelet_with_type_extractor.cpp:21-30 | the ego marker (std::nullopt) in the true or in the false set; EgoTable and EgoTableOnlyEgo characterise it |
| Kleene.EgoTable | cpp/src/kleene/position/on_lanelet_with_type_extractor.cpp:11-34 | an ego-only result has an entry exactly for the requested steps with a known verdict, holding the ego marker in the matching set |
| Kleene.ExtractEgo | cpp/src/kleene/position/on_lanelet_with_type_extractor.cpp:11-34 | the per-step loop inserting the ego marker returns exactly that table |
| Kleene.EgoTableOnlyEgo | cpp/src/kleene/position/on_lanelet_with_type_extractor.cpp:21-30 | only the ego marker is ever inserted, and never into both sets |
| Position.InFrontOfVerdict | cpp/src/kleene/position/in_front_of_extractor.cpp:25-33 | true iff the obstacle has a rear and p_lon_max + outer radius < rear; false iff it has a rear, is not true, and p_lon_min + inner radius ≥ rear; unknown otherwise |
| Position.InFrontOfSound | cpp/src/kleene/position/in_front_of_extractor.cpp:25-33 | for every possible ego front between the two bounds, a true verdict means the front is behind the rear and a false one means it is not |
| Position.InFrontOfClassifier | cpp/src/kleene/position/in_front_of_extractor.cpp:12-36 | the in-front-of extractor as a classification: a step raises when the ego's state box cannot be computed, each obstacle gets InFrontOfVerdict; InFrontOfExtraction characterises it |
| Position.InFrontOfUnknownBand | cpp/src/kleene/position/in_front_of_extractor.cpp:28-33 | an obstacle with a rear is unknown iff front_min < rear ≤ front_max |
| Position.InFrontOfExtraction | cpp/src/kleene/position/in_front_of_extractor.cpp:12-36 | the extraction raises iff the ego's state box of some requested step cannot be computed; otherwise a requested obstacle is true (false) at t iff it has a rear and passes the true (false) threshold test; obstacles without a rear get no entry |
| Position.InFrontOfSoundForBehavior | cpp/src/kleene/position/in_front_of_extractor.cpp:24-33 | for every state in the over-approximation's box at t and every front offset between shrink_delta and the outer radius, a definite verdict agrees with "the rear lies ahead of the front" |
| Position.InSameLaneVerdict | cpp/src/kleene/position/in_same_lane_extractor.cpp:18-43 | no entry without lane ids; otherwise the cannot-be-true / must-be-true tests of the covered and intersected ego lanelets against the lane ids; InSameLaneExtraction and InSameLaneVacuous characterise it |
| Position.InSameLaneExtraction | cpp/src/kleene/position/in_same_lane_extractor.cpp:12-46 | never raises; a requested obstacle is false iff its lane ids are known and contain no covered ego lanelet; true iff not false and they contain every intersected ego lanelet; absent lane ids give no entry |
| Position.InSameLaneVacuous | cpp/src/kleene/position/in_same_lane_extractor.cpp:37-43 | with no intersected ego lanelet, one shared covered lanelet makes the obstacle true |
| Position.OnLaneletWithTypeExtraction | cpp/src/kleene/position/on_lanelet_with_type_extractor.cpp:11-34 | the ego is false at a requested step iff no covered lanelet has the type; true iff some covered lanelet has it and every intersected lanelet does |
| Position.RelevantLaneletIds | cpp/src/kleene/position/at_traffic_sign_extractor.cpp:13-20 | the relevant lanelets are exactly those with a sign that has an element of the requested type |
| Position.AtTrafficSignExtraction | cpp/src/kleene/position/at_traffic_sign_extractor.cpp:22-52 | without relevant lanelets the ego is false at every requested step; otherwise it is false iff no covered lanelet is relevant, and true iff not false and every intersected lanelet is relevant |
| Position.IsMcwRightLane | cpp/src/kleene/position/on_main_carriageway_right_lane_extractor.cpp:37-42 | a main-carriageway lanelet with no right neighbour or a same-direction right neighbour that is not main carriageway; McwRightLaneNeighbours characterises it |
| Position.McwRightLaneNeighbours | cpp/src/kleene/position/on_main_carriageway_right_lane_extractor.cpp:37-42 | a main-carriageway lanelet is a right lane iff it has no right neighbour, or a same-direction one that is not main carriageway; an opposite-direction or main-carriageway right neighbour rules it out |
| Position.McwRightLaneExtraction | cpp/src/kleene/position/on_main_carriageway_right_lane_extractor.cpp:11-34 | the ego is false iff no covered lanelet is a right lane; true iff not false and every intersected lanelet is one |
| Position.IsMcw | cpp/src/kleene/position/on_main_carriageway_left_lane_extractor.cpp:37-39 | the lanelet has the main-carriageway type; McwLeftLaneExtraction characterises its use |
| Position.IsLeftmost | cpp/src/kleene/position/on_main_carriageway_left_lane_extractor.cpp:41-44 | no left neighbour, or the two direction flags of the shared border disagree; McwLeftLaneConsistentFlags characterises it |
| Position.McwLeftLaneMust | cpp/src/kleene/position/on_main_carriageway_left_lane_extractor.cpp:25-28 | the must-be-true test: main carriageway and (leftmost or opposite left neighbour); McwLeftLaneConsistentFlags and McwLeftLaneExtraction characterise it |
| Position.McwLeftLaneConsistentFlags | cpp/src/kleene/position/on_main_carriageway_left_lane_extractor.cpp:25-47 | where both lanelets agree on the shared border's direction flag, is_leftmost ∨ is_neighbour_opposite reduces to "no left neighbour, or an opposite one" |
| Position.McwLeftLaneExtraction | cpp/src/kleene/position/on_main_carriageway_left_lane_extractor.cpp:11-34 | the ego is false iff no covered lanelet is main carriageway (leftmost-ness is not examined for that verdict); true iff not false and every intersected lanelet is main carriageway and leftmost or next to an opposite neighbour |
| Position.RelevantTrafficLightExtraction | cpp/src/kleene/position/relevant_traffic_light_extractor.cpp:13-27 | never true; without traffic lights the ego is false at every requested step; with traffic lights there is no entry at all |
| Braking.EgoStoppingDistance | cpp/src/kleene/braking/safe_distance_extractor.cpp:45-50 | a non-positive speed gives distance 0; a positive one gives the braking distance v²/(2·abs(a_lon_min)) plus the reaction distance t_react·v |
| Braking.StoppingDistanceNonNegative | cpp/src/kleene/braking/safe_distance_extractor.cpp:45-50 | with a non-negative reaction time the stopping distance is never negative |
| Braking.BrakingMonotone | cpp/src/kleene/braking/safe_distance_extractor.cpp:47 | the braking distance grows with the (non-negative) initial speed |
| Braking.StoppingDistanceMonotone | cpp/src/kleene/braking/safe_distance_extractor.cpp:45-50 | the stopping distance is monotone in the initial speed, so the bounds at v_min and v_max enclose every admissible speed's distance |
| Braking.EgoStoppingMax | cpp/src/kleene/braking/safe_distance_extractor.cpp:27-29 | p_lon_max + stopping distance at v_max + outer radius; SafeDistanceSound shows it bounds every admissible stopping position from above |
| Braking.EgoStoppingMin | cpp/src/kleene/braking/safe_distance_extractor.cpp:30-32 | p_lon_min + stopping distance at v_min + inner radius; SafeDistanceSound shows it bounds every admissible stopping position from below |
| Braking.SafeDistanceVerdict | cpp/src/kleene/braking/safe_distance_extractor.cpp:26-40 | true iff the obstacle has a stopping point and the ego's largest stopping position is before it; false iff it has one, is not true, and the ego's smallest stopping position is at or beyond it; unknown otherwise |
| Braking.SafeDistanceSound | cpp/src/kleene/braking/safe_distance_extractor.cpp:26-40 | for every admissible position, speed and front offset of the ego, a true verdict means its stopping position is before the obstacle's and a false one means it is not |
| Braking.SafeDistanceSoundForBehavior | cpp/src/kleene/braking/safe_distance_extractor.cpp:26-40 | the same for every state in the over-approximation's box at t, every speed within the velocity bounds and every front offset between shrink_delta and the outer radius |
| Braking.SafeDistanceClassifier | cpp/src/kleene/braking/safe_distance_extractor.cpp:9-43 | the safe-distance extractor as a classification: a step raises when the ego's state box cannot be computed, each obstacle gets SafeDistanceVerdict; SafeDistanceExtraction characterises it |
| Braking.SafeDistanceExtraction | cpp/src/kleene/braking/safe_distance_extractor.cpp:9-43 | raises iff the ego's state box of some requested step cannot be computed; otherwise a requested obstacle is true (false) at t iff it has a stopping point and passes the true (false) threshold test; obstacles without a stopping point get no entry |
| General.CutInVerdict | cpp/src/kleene/general/cut_in_extractor.cpp:21-49 | never true; false iff the obstacle is in a single lane, or in several lanes with lane ids that miss every covered ego lanelet; raises iff it is in several lanes and has no lane ids; a missing single-lane answer gives no entry |
| General.CutInClassifier | cpp/src/kleene/general/cut_in_extractor.cpp:10-53 | the cut-in extractor as a classification with no per-step work; CutInExtraction characterises it |
| General.CutInExtraction | cpp/src/kleene/general/cut_in_extractor.cpp:10-53 | the extraction raises iff some requested obstacle is in several lanes without lane ids; otherwise no obstacle is true and a requested obstacle is false iff it is in a single lane or shares no lanelet with the ego |
| EgoIndependent.OnLaneletWithTypeVerdict | cpp/src/kleene/ego_independent/ego_independent_extractor.cpp:27-29 | the inner predicate's answer when it has one; the evaluation raises when the predicate has no answer for the step |
| EgoIndependent.EgoIndependentClassifier | cpp/src/kleene/ego_independent/ego_independent_extractor.cpp:7-25 | the ego-independent extractor as a classification with no per-step work; EgoIndependentExtraction characterises it |
| EgoIndependent.EgoIndependentExtraction | cpp/src/kleene/ego_independent/ego_independent_extractor.cpp:7-25 | raises iff some requested obstacle has no answer; otherwise every requested world obstacle lands in exactly one of the two sets, the one its Boolean value names |
| Regulatory.EgoHasPrio | cpp/src/kleene/regulatory/priority_extractor.cpp:51-60 | true iff ego_min > obs and neither ego_min nor obs is the INT_MIN sentinel; false iff not true and ego_max ≤ obs or ego_max or obs is the sentinel |
| Regulatory.OtherHasPrio | cpp/src/kleene/regulatory/priority_extractor.cpp:62-71 | true iff obs > ego_max and neither ego_min nor obs is the sentinel; false iff not true and obs ≤ ego_min or ego_max or obs is the sentinel |
| Regulatory.SamePrio | cpp/src/kleene/regulatory/priority_extractor.cpp:73-86 | false iff either side surely has priority; true iff both surely do not |
| Regulatory.PrioVerdictSound | cpp/src/kleene/regulatory/priority_extractor.cpp:51-86 | away from the sentinel, for every ego priority within the range, each definite verdict agrees with comparing that priority with the obstacle's |
| Regulatory.NeverBothHavePriority | cpp/src/kleene/regulatory/priority_extractor.cpp:51-71 | for a well-formed range the ego and the obstacle are never both certain to have priority |
| Regulatory.SentinelMeansSame | cpp/src/kleene/regulatory/priority_extractor.cpp:52-85 | when the obstacle's priority or the ego's upper bound is the INT_MIN sentinel, neither side has priority and they have the same priority |
| Regulatory.PriorityVerdict | cpp/src/kleene/regulatory/priority_extractor.cpp:11-49 | unknown without a priority for the other direction, else the mode's test against the ego's range for the ego direction; PrioVerdictSound and PriorityExtraction characterise it |
| Regulatory.PriorityClassifier | cpp/src/kleene/regulatory/priority_extractor.cpp:11-49 | the priority extractor as a classification that never raises; NeverRaises and PriorityExtraction characterise it |
| Regulatory.PriorityExtraction | cpp/src/kleene/regulatory/priority_extractor.cpp:11-49 | never raises; a requested obstacle is true (false) at t iff its priority for the other turn is known and the mode's verdict is true (false); obstacles without a priority get no entry |
| Intersection.LeftOfIds | cpp/src/kleene/intersection/on_incoming_left_of_extractor.cpp:93-110 | raises iff some incoming-type lanelet has no incoming group or a group with no left-of incoming; otherwise an id is in the result iff it is the left-of incoming of some incoming-type lanelet's group |
| Intersection.GroupIds | cpp/src/kleene/intersection/on_incoming_left_of_extractor.cpp:66-76 | raises iff some incoming-type lanelet has no incoming group; otherwise an id is in the result iff it is the group of some incoming-type lanelet |
| Intersection.ObstacleIncomings | cpp/src/kleene/intersection/on_incoming_left_of_extractor.cpp:66-76 | an obstacle without a reference lane at the step raises; otherwise the incoming groups of the reference lane's incoming-type lanelets |
| Intersection.IsOnIncomingLeftOf | cpp/src/kleene/intersection/on_incoming_left_of_extractor.cpp:44-91 | false iff the ego could be left of no incoming, or the obstacle is on no incoming-type lanelet, or its incomings miss every could-incoming; true iff it meets one could-incoming and contains every must-incoming; raises iff its incoming lookup raises after the shape test; a failing shape query gives no knowledge |
| Intersection.IncomingLeftOfVacuous | cpp/src/kleene/intersection/on_incoming_left_of_extractor.cpp:84-88 | with no must-incoming, sharing one could-incoming makes the obstacle true |
| Intersection.OnIncomingLeftOfClassifier | cpp/src/kleene/intersection/on_incoming_left_of_extractor.cpp:11-42 | a step raises when the ego's lanelets lack an incoming or a left-of incoming, each obstacle gets IsOnIncomingLeftOf; OnIncomingLeftOfExtraction characterises it |
| Intersection.OnIncomingLeftOfExtraction | cpp/src/kleene/intersection/on_incoming_left_of_extractor.cpp:11-42 | a requested step whose covered or intersected ego lanelets lack an incoming or a left-of incoming makes the extraction raise; without a raise a requested obstacle is true (false) iff the verdict for the step's could and must sets is true (false) |
| Intersection.RequestedIds | cpp/src/kleene/intersection/other_turning_extractor.cpp:17-19 | an id is collected iff it is requested at some step |
| Intersection.CollectRequestedIds | cpp/src/kleene/intersection/other_turning_extractor.cpp:17-19 | raises iff some step requests the ego (an empty optional); otherwise returns exactly the ids requested at any step |
| Intersection.PartitionObstacles | cpp/src/kleene/intersection/other_turning_extractor.cpp:20-32 | the loop over the world's obstacles yields the functional partition of the requested ones by turning direction |
| Intersection.TurningPartition | cpp/src/kleene/intersection/other_turning_extractor.cpp:20-32 | the requested world obstacles split by whether the direction is among their turning directions; TurningPartitionMeaning characterises it, PartitionObstacles equals it |
| Intersection.ExtractOtherTurning | cpp/src/kleene/intersection/other_turning_extractor.cpp:11-40 | raises iff the ego is requested; otherwise every requested step maps to the same partition of all requested obstacles, and no other step appears |
| Intersection.TurningPartitionMeaning | cpp/src/kleene/intersection/other_turning_extractor.cpp:20-32 | a world obstacle is true iff it is requested at some step and its turning directions contain the direction, false iff requested and they do not; the two sets are disjoint and hold only world obstacles' ids |
| Relationships.ChainPairs | cpp/src/relationship/equivalence/in_same_lane_equiv_extractor.cpp:37-41 | a sequence of n ids gives n − 1 relationships (none for n ≤ 1), the i-th relating id i to id i + 1 |
| Relationships.ChainPairsMembers | cpp/src/relationship/implication/in_front_of_impl_extractor.cpp:45-48 | a relationship is in the chain iff it relates two neighbouring ids of the sequence |
| Equivalence.Keyed | cpp/src/relationship/equivalence/in_same_lane_equiv_extractor.cpp:18-28 | an entry is produced iff it pairs a requested world obstacle's id with its known key at the step |
| Equivalence.SameLaneKey | cpp/src/relationship/equivalence/in_same_lane_equiv_extractor.cpp:18-28 | the in-same-lane key: the obstacle's lane ids, absent when they are unknown; SameLaneMeaning characterises it |
| Equivalence.Group | cpp/src/relationship/equivalence/in_same_lane_equiv_extractor.cpp:30-33 | the classes: for each key, the ids with that key in entry order; GroupMembers and GroupTotal characterise it, GroupEntries equals it |
| Equivalence.Order | cpp/src/relationship/equivalence/in_same_lane_equiv_extractor.cpp:30-37 | the keys in order of first appearance; OrderKeys characterises it, GroupEntries equals it |
| Equivalence.Chain | cpp/src/relationship/equivalence/in_same_lane_equiv_extractor.cpp:30-41 | one step's equivalences: every class chained in key order; ChainCount, ChainAllMembers, ChainSameKey and ChainLinksGroup characterise it, GroupAndChain equals it |
| Equivalence.GroupEntries | cpp/src/relationship/equivalence/in_same_lane_equiv_extractor.cpp:30-33 | the grouping loop yields the functional grouping of the entries and the order in which their keys first appear |
| Equivalence.ChainClass | cpp/src/relationship/equivalence/in_same_lane_equiv_extractor.cpp:38-40 | the inner loop over one class yields the chain of its members |
| Equivalence.GroupAndChain | cpp/src/relationship/equivalence/in_same_lane_equiv_extractor.cpp:30-41 | grouping then chaining every class yields the functional chain of the entries |
| Equivalence.OrderKeys | cpp/src/relationship/equivalence/in_same_lane_equiv_extractor.cpp:30-37 | the classes are visited once each: the key order has no repeats and holds exactly the keys of the grouping |
| Equivalence.GroupMembers | cpp/src/relationship/equivalence/in_same_lane_equiv_extractor.cpp:30-33 | a class exists iff some entry has its key; it is never empty and holds exactly the ids of the entries with its key |
| Equivalence.GroupTotal | cpp/src/relationship/equivalence/in_same_lane_equiv_extractor.cpp:35 | every entry is put into exactly one class: the class sizes add up to the number of entries |
| Equivalence.ChainCount | cpp/src/relationship/equivalence/in_same_lane_equiv_extractor.cpp:35-36 | a step produces (number of entries) − (number of classes) equivalences, as the reservation assumes |
| Equivalence.ChainAllMembers | cpp/src/relationship/equivalence/in_same_lane_equiv_extractor.cpp:37-41 | a relationship is produced iff it relates two neighbouring members of one visited class |
| Equivalence.ChainSameKey | cpp/src/relationship/equivalence/in_same_lane_equiv_extractor.cpp:37-41 | every produced relationship is an equivalence between two entries with the same key |
| Equivalence.ChainLinksGroup | cpp/src/relationship/equivalence/in_same_lane_equiv_extractor.cpp:30-41 | every entry is a member of its key's class, and every two neighbouring members of a class are related, so each class is connected |
| Equivalence.ExtractEquivalences | cpp/src/relationship/equivalence/in_same_lane_equiv_extractor.cpp:12-44 | every requested step gets an entry (possibly empty) and no other step does; each entry is the chain of the step's keyed obstacles |
| Equivalence.SameLaneMeaning | cpp/src/relationship/equivalence/in_same_lane_equiv_extractor.cpp:17-41 | two obstacles are related only if both are requested at the step and their known lane ids are equal |
| Equivalence.IntersectionLaneletIds | cpp/src/relationship/equivalence/in_intersection_conflict_area_equiv_extractor.cpp:30-37 | an id is in the key iff it is the id of an intersection-type lanelet on the reference lane |
| Equivalence.ConflictAreaKey | cpp/src/relationship/equivalence/in_intersection_conflict_area_equiv_extractor.cpp:25-40 | the key is known iff the reference-lane query succeeds, and is then the set of the lane's intersection lanelets |
| Equivalence.ConflictAreaMeaning | cpp/src/relationship/equivalence/in_intersection_conflict_area_equiv_extractor.cpp:20-58 | two obstacles are related only if both are requested and have reference lanes with the same intersection lanelets |
| Implication.Placements | cpp/src/relationship/implication/in_front_of_impl_extractor.cpp:30-40 | an entry is produced iff it pairs a requested world obstacle's id with its known rear coordinate; there are at most as many as world obstacles |
| Implication.SwapDown | cpp/src/relationship/implication/in_front_of_impl_extractor.cpp:42-43 | swapping an out-of-order neighbour pair moves the unsorted position one step down while the rest stays ordered |
| Implication.SortedAtRest | cpp/src/relationship/implication/in_front_of_impl_extractor.cpp:42-43 | when the moved element is no smaller than its left neighbour, the prefix is sorted |
| Implication.InsertDown | cpp/src/relationship/implication/in_front_of_impl_extractor.cpp:42-43 | inserting element i into the sorted prefix leaves the prefix through i sorted, the array a permutation of itself, and the rest untouched |
| Implication.SortInPlace | cpp/src/relationship/implication/in_front_of_impl_extractor.cpp:42-43 | sorts the array ascending by rear coordinate, as a permutation of the original |
| Implication.Ids | cpp/src/relationship/implication/in_front_of_impl_extractor.cpp:46-47 | the ids of the sorted entries, position by position |
| Implication.AsWrittenBound | cpp/src/relationship/implication/in_front_of_impl_extractor.cpp:45 | the loop bound size − 1 computed in 64-bit unsigned arithmetic stays below 2^64 |
| Implication.AsWrittenBoundWraps | cpp/src/relationship/implication/in_front_of_impl_extractor.cpp:45-47 | the bound as written keeps every read in bounds iff the vector is non-empty; for the empty vector it wraps to 2^64 − 1 |
| Implication.ChainByRear | cpp/src/relationship/implication/in_front_of_impl_extractor.cpp:45-48 | the chaining loop with the intended bound yields the chain of the sorted ids |
| Implication.ChainsSortedPermutation | cpp/src/relationship/implication/in_front_of_impl_extractor.cpp:42-48 | the pairs chain the ids of some ascending-by-rear permutation of the placed entries; ExtractStep establishes it, ChainFollowsRear and ChainCoversPlaced draw consequences |
| Implication.ExtractStep | cpp/src/relationship/implication/in_front_of_impl_extractor.cpp:30-48 | a step's implications chain some ascending permutation of its placed obstacles, and there are some iff at least two obstacles are placed |
| Implication.ExtractImplications | cpp/src/relationship/implication/in_front_of_impl_extractor.cpp:25-51 | a step gets an entry iff it is requested and has at least two placed obstacles; each entry chains an ascending permutation of them |
| Implication.ChainFollowsRear | cpp/src/relationship/implication/in_front_of_impl_extractor.cpp:42-48 | every relationship is an implication from one requested obstacle to another whose rear coordinate is no smaller (ties included) |
| Implication.ChainCoversPlaced | cpp/src/relationship/implication/in_front_of_impl_extractor.cpp:45-48 | with at least two placed obstacles every placed obstacle takes part in some implication |
| Implication.ChainCoversEntry | cpp/src/relationship/implication/in_front_of_impl_extractor.cpp:45-48 | in a chain of two or more entries every entry is an end of some relationship |
| Implication.ChainCount | cpp/src/relationship/implication/in_front_of_impl_extractor.cpp:45-48 | sorting keeps the number of entries, and a non-empty step produces one implication fewer than placed obstacles |
| World.Lookup | cpp/src/env_model/env_model.cpp:47-48 | the obstacle a cache key's identifier names: none iff no world obstacle has the id, otherwise a world obstacle with that id |
| World.LookupUnique | cpp/src/env_model/env_model.cpp:47-48 | with unique identifiers, looking up an obstacle's own id finds exactly that obstacle, so caching by id is sound |
| Extraction.AddRequest | cpp/src/extraction_interface.cpp:324 | the table afterwards holds exactly its former triples plus (proposition, step, id), and still has no empty entry |
| Extraction.SameTriplesSameTable | cpp/src/extraction_interface.cpp:317-333 | a table without empty entries is determined by the triples it holds, so the parsed requests fix the table |
| Extraction.Parses | cpp/src/extraction_interface.cpp:321-330 | a request string parses to the proposition with that parameter; ComputeRelevantObstacles characterises it |
| Extraction.AddStepRequests | cpp/src/extraction_interface.cpp:321-330 | after one step's strings, the table holds its former triples plus every (proposition, id) some string of the step parses to; strings that do not parse add nothing |
| Extraction.PriorityNameOf | cpp/src/extraction_interface.cpp:185-294 | the mode and the two directions a priority proposition's name spells, none for the others; AsWrittenPrioritySetting and CreateKleeneExtractor characterise it |
| Extraction.ComputeRelevantObstacles | cpp/src/extraction_interface.cpp:317-333 | the table holds (p, t, id) iff some request string of step t parses to p with parameter id; no entry is empty |
| Extraction.AsWrittenPrioritySetting | cpp/src/extraction_interface.cpp:185-294 | as the factory writes it: every priority proposition gets a setting, and the ego vehicle is always given the first direction of the name |
| Extraction.PrioritySettingMatchesMonitor | cpp/src/extraction_interface.cpp:259-294 | the corrected settings give the ego and the obstacle the directions the monitor literal gives them, OTHER_HAS mode iff the obstacle is named first, SAME mode iff the relation is same_priority |
| Extraction.AsWrittenAgreement | cpp/src/extraction_interface.cpp:259-294 | the settings as written agree with the corrected ones iff the mode is not OTHER_HAS or both directions are equal |
| Extraction.AsWrittenPrioritySwapped | cpp/src/extraction_interface.cpp:267-270 | for OTHER_HAS_LEFT_RIGHT_PRIORITY the factory gives the ego vehicle "left", while the monitor literal has the ego turning right and the obstacle turning left |
| Extraction.PrioritySettingOf | cpp/src/extraction_interface.cpp:259-294 | the corrected setting: the first direction belongs to the vehicle named first; PrioritySettingMatchesMonitor and AsWrittenAgreement characterise it |
| Extraction.WithoutKleeneExtractor | cpp/src/extraction_interface.cpp:146-299 | the nine propositions the factory's switch has no case for; CreateKleeneExtractor characterises it |
| Extraction.CreateKleeneExtractor | cpp/src/extraction_interface.cpp:146-299 | there is no Kleene extractor exactly for the nine propositions the factory does not list; every priority proposition gets the priority classifier with its (corrected) setting |
| Extraction.KleeneOutcome | cpp/src/extraction_interface.cpp:70 | what an extractor yields: a raise, or its true/false table; RunKleene and ExtractKleene characterise it |
| Extraction.RunKleene | cpp/src/extraction_interface.cpp:70 | running an extractor yields its outcome: the classification table or a raise for obstacle extractors, the ego table for ego extractors, the turning partition (or a raise when the ego is requested) for turning extractors |
| Extraction.Rendered | cpp/src/extraction_interface.cpp:72-79 | a string is rendered iff it is the rendering of the proposition with one of the identifiers |
| Extraction.AddKleene | cpp/src/extraction_interface.cpp:71-80 | the result gets an entry for every step of the table, the other entries unchanged, with the true (false) identifiers rendered into the positive (negative) literals and nothing else changed |
| Extraction.ExtractKleene | cpp/src/extraction_interface.cpp:65-83 | raises iff some requested proposition's extractor raises; otherwise every step with a table entry gets one, each literal is present iff it was before or some requested proposition asserts it at the step, and the relationships stay as they were |
| Extraction.CreateRelationshipExtractor | cpp/src/extraction_interface.cpp:301-315 | there is a relationship extractor exactly for InSameLane, InIntersectionConflictArea, InFrontOf and KeepsSafeDistancePrec; each relates the proposition to itself, and equivalence dominates exactly for the first two |
| Extraction.RunRelationship | cpp/src/extraction_interface.cpp:119 | the table is the one the extractor yields: the equivalence chains of the grouping extractors, a chain of a sorted permutation for in-front-of, the given table for safe distance |
| Extraction.EquivalenceExtractorsOnlyEquate | cpp/src/extraction_interface.cpp:304-307 | every relationship the two grouping extractors yield is an equivalence |
| Extraction.InFrontOfOnlyImplies | cpp/src/extraction_interface.cpp:308-309 | every relationship the in-front-of extractor yields is an implication |
| Extraction.Pairs | cpp/src/extraction_interface.cpp:120-134 | a pair is rendered iff it renders a relationship of that kind in the sequence |
| Extraction.WithRelations | cpp/src/extraction_interface.cpp:120-134 | the literals are unchanged and each kind's pairs grow by the rendered relationships of that kind |
| Extraction.AddRelations | cpp/src/extraction_interface.cpp:121-133 | the routing loop puts each relationship into the list of its kind, yielding the functional result |
| Extraction.AddRelationshipTable | cpp/src/extraction_interface.cpp:120-135 | every step of the table with at least one relationship gets an entry with its relationships added; a step with an empty list gets no entry; the other entries are unchanged |
| Extraction.EmptyStepsAddNothing | cpp/src/extraction_interface.cpp:120-135 | a table whose steps hold no relationship (reserved but empty) leaves the result unchanged |
| Extraction.AddTable | cpp/src/extraction_interface.cpp:120-135 | the loop over a table's steps yields the functional result |
| Extraction.ExtractRelationships | cpp/src/extraction_interface.cpp:109-138 | exactly the requested propositions whose extractor the filter selects are extracted; a step gets a new entry iff some extracted table has a relationship there, a pair is present iff it was before or some extracted table relates it, and the literals stay as they were |
| Extraction.RelationshipsOf | cpp/src/extraction_interface.cpp:109-119 | one table per requested proposition the filter selects, each one its extractor yields; ExtractRelationships characterises it |
| Extraction.EquivalenceFilterOnlyEquates | cpp/src/extraction_interface.cpp:115-117 | with the equivalence filter every extracted relationship is an equivalence |
| Extraction.ImplicationFilterOnlyImplies | cpp/src/extraction_interface.cpp:115-117 | with the implication filter every extracted relationship is an implication, provided the safe-distance extractor only implies |
| Extraction.NothingOfOtherKind | cpp/src/extraction_interface.cpp:122-134 | tables with relationships of one kind only leave the other kind's lists unchanged |
| Extraction.KleeneAddsNoRelations | cpp/src/extraction_interface.cpp:65-83 | the Kleene extraction into an empty result adds no relationship |
| Extraction.ExtractAll | cpp/src/extraction_interface.cpp:31-42 | the requests are parsed; the run raises iff a Kleene extractor raises; otherwise the result is the Kleene knowledge with every relationship extractor's relationships added |
| Extraction.ExtractAllButImplications | cpp/src/extraction_interface.cpp:44-55 | as extract_all with only the equivalence extractors; no step gets an implication |
| Extraction.ExtractKleeneOnly | cpp/src/extraction_interface.cpp:57-63 | only the Kleene knowledge; raises iff a Kleene extractor raises; no step gets a relationship |
| Extraction.ExtractRelationshipsOnly | cpp/src/extraction_interface.cpp:85-91 | only the selected relationship extractors' relationships; no step gets a literal |
| Extraction.ExtractEquivalences | cpp/src/extraction_interface.cpp:93-99 | only the equivalence extractors; no step gets a literal or an implication |
| Extraction.ExtractImplications | cpp/src/extraction_interface.cpp:101-107 | only the implication extractors; no step gets a literal, and no step gets an equivalence as long as the safe-distance extractor only implies |
| Formatting.Lower | src/cr_rule_simplification/formula/formatting.py:158 | an upper-case ASCII letter lowers to a lower-case letter |
| Formatting.Underscored | src/cr_rule_simplification/formula/formatting.py:158 | the joined string contains no upper-case letter |
| Formatting.StripLeading | src/cr_rule_simplification/formula/formatting.py:158 | the result is a suffix of the input that does not start with the character, and everything stripped was that character |
| Formatting.ToSnake | src/cr_rule_simplification/formula/formatting.py:152-158 | the snake-case name has no upper-case letter and no leading underscore |
| Formatting.UnderscoredKeepsLower | src/cr_rule_simplification/formula/formatting.py:158 | a string without capitals passes the join unchanged |
| Formatting.ToSnakeKeepsSnake | src/cr_rule_simplification/formula/formatting.py:152-158 | a name already in snake case (no capitals, no leading underscore) is left as it is |
| Formatting.ToSnakeIdempotent | src/cr_rule_simplification/formula/formatting.py:152-158 | converting twice is converting once |
| Formatting.UnderscoredFrontOf | src/cr_rule_simplification/formula/formatting.py:158 | "FrontOf" joins to "_front_of" |
| Formatting.ToSnakeInFrontOf | src/cr_rule_simplification/formula/formatting.py:152-158 | "InFrontOf" becomes "in_front_of" |
| Formatting.WithParameterDistinct | src/cr_rule_simplification/formula/formatting.py:22-25 | a reachability literal with a given name tells whether a non-empty parameter was given, and which |
| Formatting.FormatReach | src/cr_rule_simplification/formula/formatting.py:15-25 | format_literal_reach: the renamed name, then _V and the parameter when one is given; ReachNameOf, WithParameterDistinct and ReachLiteralsDistinct characterise it |
| Formatting.LegacyFormatReach | src/cr_knowledge_extraction/formula/formatting.py:9-21 | the older format_literal_reach; LegacyReachNameOf and LegacyReachLiteralsDistinct characterise it |
| Formatting.ReachNameOf | src/cr_rule_simplification/formula/formatting.py:16-21 | the newer formatter renames exactly OtherOnAccessRamp, OtherOnMainCarriageway and InFrontOf, and keeps every other registered name |
| Formatting.LegacyReachNameOf | src/cr_knowledge_extraction/formula/formatting.py:10-17 | the older formatter also renames OnMainCarriagewayRightLane to OnRightLane, and keeps every other registered name |
| Formatting.AccessRampUnregistered | src/cr_rule_simplification/formula/formatting.py:17 | no registered proposition is named "OnAccessRamp" |
| Formatting.BehindUnregistered | src/cr_rule_simplification/formula/formatting.py:21 | no registered proposition is named "Behind" |
| Formatting.RightLaneUnregistered | src/cr_knowledge_extraction/formula/formatting.py:15 | no registered proposition is named "OnRightLane" |
| Formatting.NewNameRegistered | src/cr_rule_simplification/formula/formatting.py:16-21 | of the new names only "OnMainCarriageway" is a registered name, the ego vehicle's |
| Formatting.RenameInjective | src/cr_rule_simplification/formula/formatting.py:16-21 | each formatter gives different renamed propositions different new names |
| Formatting.RenamedInjective | src/cr_rule_simplification/formula/formatting.py:16-21 | after renaming, distinct registered propositions keep distinct names, except the two main-carriageway propositions |
| Formatting.WithParameterCancels | src/cr_rule_simplification/formula/formatting.py:22-25 | with the same parameter, equal reachability literals have equal names |
| Formatting.ReachLiteralsDistinct | src/cr_rule_simplification/formula/formatting.py:15-25 | with equal parameters, the newer reachability literal determines its proposition, except OnMainCarriageway against OtherOnMainCarriageway |
| Formatting.LegacyReachLiteralsDistinct | src/cr_knowledge_extraction/formula/formatting.py:9-21 | the same for the older formatter |
| Formatting.ReachCollision | src/cr_rule_simplification/formula/formatting.py:18-19 | both formatters give the ego vehicle's and the other vehicle's main-carriageway propositions the same literal |
| Formatting.FormatMonitor | src/cr_rule_simplification/formula/formatting.py:37-147 | the constants true and false are returned as they are |
| Formatting.LegacyFormatMonitor | src/cr_knowledge_extraction/formula/formatting.py:27-59 | the constants true and false are returned as they are |
| Formatting.NameNotTrue | src/cr_rule_simplification/formula/formatting.py:38-39 | no registered proposition is named "true" |
| Formatting.NameNotFalse | src/cr_rule_simplification/formula/formatting.py:38-39 | no registered proposition is named "false" |
| Formatting.NameNotLeftLane | src/cr_rule_simplification/formula/formatting.py:48-49 | the left-lane name is not among the registered names |
| Formatting.NameNotSpecial | src/cr_rule_simplification/formula/formatting.py:38-49 | no registered name is a constant or the left-lane name, so the early cases never capture a registered proposition |
| Formatting.ParameterText | src/cr_rule_simplification/formula/formatting.py:41 | the parameter as an f-string interpolates it: its text, or None when absent; MonitorOwnCase uses it |
| Formatting.PriorityLiteralOf | src/cr_rule_simplification/formula/formatting.py:86-141 | the relation, the vehicle order and the two directions of each priority literal; MonitorPriority, OtherHasObstacleFirst and PrioritySettingMatchesMonitor characterise it |
| Formatting.RenderPriority | src/cr_rule_simplification/formula/formatting.py:86-141 | relation(first, second, 'dir1', 'dir2') with the ego or the obstacle first; MonitorPriority and OtherHasObstacleFirst characterise it |
| Formatting.MonitorCase | src/cr_rule_simplification/formula/formatting.py:40-141 | the newer formatter's own cases; MonitorOwnCase, MonitorPriority and MonitorExtendsLegacy characterise it |
| Formatting.LegacyMonitorCase | src/cr_knowledge_extraction/formula/formatting.py:30-53 | the older formatter's own cases; MonitorExtendsLegacy characterises it |
| Formatting.SnakeCall | src/cr_rule_simplification/formula/formatting.py:143-147 | the fallback: the snake-case name applied to 'x_ego' and, with a parameter, the obstacle; MonitorFallback characterises it |
| Formatting.MonitorOwnCase | src/cr_rule_simplification/formula/formatting.py:40-141 | a registered proposition with a case of its own gets that case's literal |
| Formatting.MonitorPriority | src/cr_rule_simplification/formula/formatting.py:86-141 | each priority proposition's monitor literal is its priority literal rendered |
| Formatting.OtherHasObstacleFirst | src/cr_rule_simplification/formula/formatting.py:124-141 | in an other-has-priority literal the obstacle is the first vehicle with the first direction of the name; in the others the ego vehicle comes first |
| Formatting.MonitorFallback | src/cr_rule_simplification/formula/formatting.py:143-147 | a name without a case of its own becomes the snake-case predicate applied to the ego vehicle and, with a parameter, the obstacle, in both formatters |
| Formatting.MonitorExtendsLegacy | src/cr_knowledge_extraction/formula/formatting.py:27-59 | the newer monitor formatter agrees with the older one wherever the older has a case of its own and wherever neither has |

## Left out

- Floating point: doubles are `real`. Rounding, overflow to infinity and NaN are not modelled. `DBL_MAX` appears only as the admissible box's upper bound.
- EnvModel.StopAfter, Braking.EgoStoppingDistance: a zero minimum acceleration is excluded by the type `NonZeroReal` of `aMinLong` and `aLonMin`; there the code divides by `abs(a)` (`env_model.cpp:91-103`, `safe_distance_extractor.cpp:45-50`) and gets infinity, or NaN at zero speed, which reals cannot express.
- Behavior.AdmissibleStates: the corrected lower position bound is `-DBL_MAX`, which is exact over the reals; in doubles `from_bounds(lowest(), max())` would overflow the radius and the centre to infinity and the lower bound to NaN, which this model cannot show.
- `sqrt`, `cos` and `sin` (`behavior_overapproximation.cpp:49`, `:55`, `:64-65`) and the coordinate conversion in `env_model.cpp:12-29` are parameters, characterised by their squares where a proof needs it.
- The road network, the curvilinear coordinate system and the commonroad_cpp calls are inputs. This covers state look-up, `rearS`, occupied lanes, reference lanes, the Boolean predicates, priorities, and traffic signs and lights. Each obstacle carries their per-step answers, and a missing answer stands for the exception the call would throw.
- The ego's covered and intersected lanelet lists, velocity bounds and priority ranges are inputs (`EgoView`). Their definitions are not part of this model.
- Position.InFrontOfExtraction: the ego's position bounds are fields of the view, not calls into the over-approximation. A step whose state box cannot be computed raises (`stateRaises`). The link to the over-approximation object holds only for views satisfying `ViewedBy`.
- Braking.SafeDistanceExtraction: the same as for the in-front-of extraction.
- Behavior.BehaviorOverapproximation.GetCenterApproximation: requires `offset <= t`, as do the occupancy fills and the bound accessors. For an earlier step the source's index `time_step - offset` wraps around, and the recursion descends through about 2^64 time steps before a cached entry is reached: a stack overflow in practice. Those calls are not modelled, and `ViewedBy` says nothing about steps before the initial one.
- Behavior.BehaviorOverapproximation.constructor: requires a non-negative length and width, which the source does not check. The square roots are parameters pinned down by their squares.
- Exceptions are one error value (`Raise`). The model keeps which calls raise, not the exception's type or message. Obstacle ids are `nat`, and priorities are `Int32` with `INT_MIN` as the sentinel.
- `SafeDistanceImplExtractor` is not part of this model. Its table for given requests is an input of `Extraction.Environment`, and its dominant relationship is taken to be IMPLICATION.
- Extraction.ExtractImplications: the "no equivalence" promise is stated only under the assumption that the safe-distance implication extractor yields implications only, since that extractor is not modelled.
- `OnMainCarriagewayLeftLaneExtractor` is modelled (`Position.McwLeftLaneExtraction`), but the factory never creates it: the proposition table has no left-lane proposition. The newer monitor formatter's left-lane case is modelled with the name `OnMainCarriagewayLeftLane`.
- The extractors' `assert(obstacle_ids.size() == 1)` on ego-only propositions and `assert(a_min_obstacle < a_min_ego)` in the safe-distance extractor are debug checks. They are not preconditions of the model.
- Result vectors and hash-map iteration order: per-step results are sets of literal strings and of pairs, so their order and duplicates are not modelled. Maps are iterated in any order (`:|`). Loops over a map's keys prove the same outcome for every order.
- Implication.ExtractStep: `std::ranges::sort` is not stable, so the model states the chain for SOME ascending permutation of the placed obstacles rather than for one particular order.
- The header declarations of the equivalence extractors' propositions are stale. Each equivalence extractor is taken to relate its own proposition to itself.
- The logging of unparsable requests (`extraction_interface.cpp:327`) is modelled as skipping them.
- Formatting.ToSnake: models Python's `isupper`/`lower` for ASCII letters only; other Unicode capitals are not modelled.
- Formatting.ParameterText: an absent parameter is interpolated as the text `None`, as Python's f-string does. An empty string is a given-but-empty parameter.
- Formatting.ReachLiteralsDistinct: distinctness is stated for literals with equal parameters only, because `_V` can also occur inside a name or a parameter.
- The formula wrappers `format_formula_for_reach` / `format_formula_for_monitor` only call the external formula library, so only their inner literal functions are modelled.
- PropositionCodec: `std::stoul` is modelled on decimal digits with leading white space and a sign. Ids are unbounded except for the `unsigned long` range check.
- Behavior.BehaviorOverapproximation.GetCenterApproximation: the recursion of `get_center_approximation` is modelled as the loop that fills the same cache in the same order.
- `Box::operator==` is Dafny's structural equality on the box datatype.
- The Python rule instantiation, facade, simplifier and `main.py`, the pybind bindings, `hello.cpp`, the road-network geometry and the tests are not part of this model. The tests are used only as the source of the example lemmas for `Box`.

## Findings

| source | as written | input that shows it | evidently intended | confidence | as-written member | corrected member |
|---|---|---|---|---|---|---|
| cpp/src/ego_behavior/behavior_overapproximation.cpp:41-43 | the admissible positions start at `std::numeric_limits<double>::min()`, the smallest positive double | default parameters, a state box centred at p_lon = −10: the intersection in the propagation step is empty and throws | no lower bound on the positions; `lowest()` would not do in doubles, because `from_bounds` then overflows the radius and centre to infinity, so a bound such as `-std::numeric_limits<double>::infinity()` is meant; the model's reals take `-DBL_MAX` | high, not executed | Behavior.AdmissibleAsWrittenRejectsRearState | Behavior.AdmissibleMembership |
| cpp/src/ego_behavior/behavior_overapproximation.cpp:87-109 | the occupancy (and guaranteed-occupancy) cache starts empty and the recursion on `time_step - 1` has no base case at `offset` | any first call, e.g. t = offset: the index wraps around as an unsigned value and the recursion never reaches a returning call | fill the occupancy cache from the state cache, step by step from `offset` | high, not executed | Behavior.OccupancyRecursionNeverReturns | Behavior.BehaviorOverapproximation.GetOccupancyApproximation |
| cpp/src/relationship/implication/in_front_of_impl_extractor.cpp:45 | the chaining loop runs while `i < size() - 1` in unsigned arithmetic | a requested step where no requested obstacle has a rear coordinate: the bound wraps to 2^64 − 1 and the loop reads past the end | loop while `i + 1 < size()` | high, not executed | Implication.AsWrittenBoundWraps | Implication.ChainByRear |
| cpp/src/extraction_interface.cpp:259-294 | `OTHER_HAS_<A>_<B>_PRIORITY` builds the priority extractor with A as the ego vehicle's direction and B as the obstacle's | OTHER_HAS_LEFT_RIGHT_PRIORITY: the ego range is looked up for turning left, while the monitor literal has the obstacle turning left and the ego turning right | pass B as the ego direction and A as the obstacle's, as the monitor literal and the rule formulas read the name | medium, not executed | Extraction.AsWrittenPrioritySwapped | Extraction.PrioritySettingMatchesMonitor |
