/**
 * Relationships between the truth values of one proposition for two obstacles: an
 * implication (if it holds for the first, it holds for the second) or an equivalence.
 */
module Relationships {
  datatype RelationshipType = Implication | Equivalence

  /** A relationship and the ids of the two obstacles it relates. */
  datatype Relationship = Relationship(kind: RelationshipType, lhs: nat, rhs: nat)

  /** The relationships an extractor finds, per time step. */
  type RelationshipTable = map<nat, seq<Relationship>>

  /** The relationships of one kind chaining a sequence of ids: each id with the next. */
  function ChainPairs(kind: RelationshipType, members: seq<nat>): (r: seq<Relationship>)
    ensures |r| == if |members| == 0 then 0 else |members| - 1
    ensures forall i :: 0 <= i < |members| - 1 ==> r[i] == Relationship(kind, members[i], members[i + 1])
  {
    if |members| <= 1 then [] else [Relationship(kind, members[0], members[1])] + ChainPairs(kind, members[1..])
  }

  /** Extending the sequence by one id extends its chain by one relationship. */
  lemma {:induction false} ChainPairsSnoc(kind: RelationshipType, members: seq<nat>)
    requires |members| >= 2
    ensures ChainPairs(kind, members) == ChainPairs(kind, members[..|members| - 1]) +
      [Relationship(kind, members[|members| - 2], members[|members| - 1])]
    decreases |members|
  {
    if |members| > 2 {
      var n := |members|;
      ChainPairsSnoc(kind, members[1..]);
      assert members[1..][..n - 2] == members[..n - 1][1..];
    }
  }

  /** The relationships of one chain are exactly the neighbouring ids. */
  lemma ChainPairsMembers(kind: RelationshipType, members: seq<nat>, r: Relationship)
    ensures r in ChainPairs(kind, members) <==>
      exists i :: 0 <= i < |members| - 1 && r == Relationship(kind, members[i], members[i + 1])
  {
    if r in ChainPairs(kind, members) {
      var i :| 0 <= i < |ChainPairs(kind, members)| && ChainPairs(kind, members)[i] == r;
      assert r == Relationship(kind, members[i], members[i + 1]);
    }
  }
}
