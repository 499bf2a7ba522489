/**
 * The in-front-of implication extractor.  At each requested step the requested world
 * obstacles whose rear coordinate is known are ordered by that coordinate, and each is
 * related to the next by an implication: whatever is in front of the rear one of the two
 * is also in front of the one behind it.
 */
module Implication {
  import opened Wrappers
  import opened World
  import opened EnvModel
  import opened Relationships

  /** An obstacle id with its rear coordinate. */
  datatype Placed = Placed(id: nat, rear: real)

  /** The requested world obstacles whose rear coordinate at step t is known, in world order. */
  function Placements(t: nat, ids: set<Id>, obstacles: seq<Obstacle>): (r: seq<Placed>)
    ensures |r| <= |obstacles|
    ensures forall p :: p in r <==>
      exists i :: 0 <= i < |obstacles| && Some(obstacles[i].id) in ids && obstacles[i].id == p.id && Rear(obstacles[i], t) == Some(p.rear)
  {
    if obstacles == [] then []
    else
      var o := obstacles[0];
      var rest := Placements(t, ids, obstacles[1..]);
      if Some(o.id) in ids && Rear(o, t).Some? then [Placed(o.id, Rear(o, t).value)] + rest else rest
  }

  /** Ascending by rear coordinate. */
  ghost predicate SortedByRear(s: seq<Placed>)
  {
    forall i, j :: 0 <= i < j < |s| ==> s[i].rear <= s[j].rear
  }

  /** Ascending up to index i, except that the entry at index j may be smaller than
   *  entries before it. */
  ghost predicate SortedExcept(s: seq<Placed>, i: nat, j: nat)
    requires i < |s|
  {
    forall k, l :: 0 <= k < l <= i && l != j ==> s[k].rear <= s[l].rear
  }

  /** Swapping the out-of-place entry with a larger predecessor moves the gap down. */
  lemma SwapDown(s: seq<Placed>, i: nat, j: nat)
    requires 0 < j <= i < |s| && SortedExcept(s, i, j) && s[j - 1].rear > s[j].rear
    ensures SortedExcept(s[j - 1 := s[j]][j := s[j - 1]], i, j - 1)
  {
  }

  /** Once the out-of-place entry is no smaller than its predecessor, all is ascending. */
  lemma SortedAtRest(s: seq<Placed>, i: nat, j: nat)
    requires j <= i < |s| && SortedExcept(s, i, j) && (j == 0 || s[j - 1].rear <= s[j].rear)
    ensures SortedByRear(s[..i + 1])
  {
    assert forall k, l :: 0 <= k < l <= i ==> s[k].rear <= s[l].rear by {
      forall k, l | 0 <= k < l <= i
        ensures s[k].rear <= s[l].rear
      {
        if l == j && k < j - 1 {
          assert s[k].rear <= s[j - 1].rear;
        }
      }
    }
  }

  /** One round of insertion sort: the entry at index i moves down past every predecessor
   *  with a larger rear coordinate. */
  method InsertDown(a: array<Placed>, i: nat)
    requires i < a.Length && SortedByRear(a[..i])
    modifies a
    ensures SortedByRear(a[..i + 1])
    ensures multiset(a[..]) == old(multiset(a[..]))
    ensures a[i + 1..] == old(a[i + 1..])
  {
    var j := i;
    assert SortedExcept(a[..], i, j) by {
      assert forall k :: 0 <= k < i ==> a[..i][k] == a[k];
    }
    while j > 0 && a[j - 1].rear > a[j].rear
      invariant 0 <= j <= i
      invariant multiset(a[..]) == old(multiset(a[..]))
      invariant a[i + 1..] == old(a[i + 1..])
      invariant SortedExcept(a[..], i, j)
    {
      SwapDown(a[..], i, j);
      a[j - 1], a[j] := a[j], a[j - 1];
      j := j - 1;
    }
    SortedAtRest(a[..], i, j);
    assert a[..][..i + 1] == a[..i + 1];
  }

  /** The in-place sort of the placed obstacles by rear coordinate.  The source's sort is
   *  not stable; insertion sort is one of the orders it may produce. */
  method SortInPlace(a: array<Placed>)
    modifies a
    ensures SortedByRear(a[..])
    ensures multiset(a[..]) == old(multiset(a[..]))
  {
    var i := 0;
    while i < a.Length
      invariant 0 <= i <= a.Length
      invariant SortedByRear(a[..i])
      invariant multiset(a[..]) == old(multiset(a[..]))
    {
      InsertDown(a, i);
      i := i + 1;
    }
    assert a[..a.Length] == a[..];
  }

  /** The ids of the entries, in order. */
  function Ids(s: seq<Placed>): (r: seq<nat>)
    ensures |r| == |s|
    ensures forall i :: 0 <= i < |s| ==> r[i] == s[i].id
  {
    seq(|s|, i requires 0 <= i < |s| => s[i].id)
  }

  // ---------------------------------------------------------------------------
  // The chaining loop bound, as written with unsigned size arithmetic and as intended.

  /** Vector sizes and indices are 64-bit unsigned. */
  const SizeModulus: int := 0x1_0000_0000_0000_0000

  /** The loop bound `size - 1` computed in unsigned 64-bit arithmetic. */
  function AsWrittenBound(n: nat): (b: nat)
    requires n < SizeModulus
    ensures b < SizeModulus
  {
    (n - 1) % SizeModulus
  }

  /** The loop reads the element after each index below the bound; those reads stay inside
   *  the vector exactly when the bound is no more than the last index. */
  predicate AsWrittenReadsInBounds(n: nat)
    requires n < SizeModulus
  {
    AsWrittenBound(n) == 0 || AsWrittenBound(n) < n
  }

  /** The bound as written is right for every non-empty vector and wraps around for the
   *  empty one, whose first round reads past its end. */
  lemma AsWrittenBoundWraps(n: nat)
    requires n < SizeModulus
    ensures AsWrittenReadsInBounds(n) <==> n >= 1
    ensures n >= 1 ==> AsWrittenBound(n) == n - 1
    ensures n == 0 ==> AsWrittenBound(n) == SizeModulus - 1
  {
  }

  /** The chaining loop with the intended bound: indices i with i + 1 < size. */
  method ChainByRear(a: array<Placed>) returns (pairs: seq<Relationship>)
    ensures pairs == ChainPairs(Implication, Ids(a[..]))
  {
    pairs := [];
    if a.Length == 0 {
      return;
    }
    var i := 0;
    while i + 1 < a.Length
      invariant i < a.Length
      invariant pairs == ChainPairs(Implication, Ids(a[..i + 1]))
    {
      ChainPairsSnoc(Implication, Ids(a[..i + 2]));
      assert Ids(a[..i + 2])[..i + 1] == Ids(a[..i + 1]);
      pairs := pairs + [Relationship(Implication, a[i].id, a[i + 1].id)];
      i := i + 1;
    }
    assert a[..i + 1] == a[..];
  }

  /** `pairs` chains some ascending permutation of the placed entries. */
  ghost predicate ChainsSortedPermutation(placed: seq<Placed>, pairs: seq<Relationship>)
  {
    exists s :: SortedByRear(s) && multiset(s) == multiset(placed) && pairs == ChainPairs(Implication, Ids(s))
  }

  /** The implications of one step: its placed obstacles sorted by rear coordinate, then
   *  chained; there are some exactly when at least two obstacles are placed. */
  method ExtractStep(t: nat, ids: set<Id>, obstacles: seq<Obstacle>) returns (pairs: seq<Relationship>)
    ensures ChainsSortedPermutation(Placements(t, ids, obstacles), pairs)
    ensures pairs != [] <==> |Placements(t, ids, obstacles)| >= 2
  {
    var placed := Placements(t, ids, obstacles);
    var a := new Placed[|placed|](k requires 0 <= k < |placed| => placed[k]);
    assert a[..] == placed;
    SortInPlace(a);
    pairs := ChainByRear(a);
    assert |multiset(a[..])| == |multiset(placed)|;
  }

  /** The implications of every requested step; a step gets an entry only when it has at
   *  least two placed obstacles, since the entry is created by the first implication. */
  method ExtractImplications(requests: map<nat, set<Id>>, obstacles: seq<Obstacle>) returns (result: RelationshipTable)
    ensures forall t :: t in result <==> t in requests && |Placements(t, requests[t], obstacles)| >= 2
    ensures forall t :: t in result ==> ChainsSortedPermutation(Placements(t, requests[t], obstacles), result[t])
  {
    result := map[];
    var pending := requests.Keys;
    while pending != {}
      invariant pending <= requests.Keys
      invariant forall t :: t in result <==> t in requests && t !in pending && |Placements(t, requests[t], obstacles)| >= 2
      invariant forall t :: t in result ==> ChainsSortedPermutation(Placements(t, requests[t], obstacles), result[t])
      decreases pending
    {
      var t :| t in pending;
      var pairs := ExtractStep(t, requests[t], obstacles);
      if pairs != [] {
        result := result[t := pairs];
      }
      pending := pending - {t};
    }
  }

  // ---------------------------------------------------------------------------
  // What the chain of a step means.  The ordering is stated for ANY ascending permutation
  // of the placed obstacles, since the order among equal rear coordinates is unspecified.

  /** Every relationship is an implication from a requested obstacle to a requested obstacle
   *  whose rear coordinate is no smaller; equal coordinates still give an implication. */
  lemma ChainFollowsRear(t: nat, ids: set<Id>, obstacles: seq<Obstacle>, s: seq<Placed>, r: Relationship)
    requires SortedByRear(s) && multiset(s) == multiset(Placements(t, ids, obstacles))
    requires r in ChainPairs(Implication, Ids(s))
    ensures r.kind == Implication
    ensures exists i, j ::
      0 <= i < |obstacles| && 0 <= j < |obstacles| &&
      obstacles[i].id == r.lhs && obstacles[j].id == r.rhs &&
      Some(r.lhs) in ids && Some(r.rhs) in ids &&
      Rear(obstacles[i], t).Some? && Rear(obstacles[j], t).Some? &&
      Rear(obstacles[i], t).value <= Rear(obstacles[j], t).value
  {
    ChainPairsMembers(Implication, Ids(s), r);
    var k :| 0 <= k < |s| - 1 && r == Relationship(Implication, Ids(s)[k], Ids(s)[k + 1]);
    assert s[k] in multiset(Placements(t, ids, obstacles));
    assert s[k + 1] in multiset(Placements(t, ids, obstacles));
    assert s[k] in Placements(t, ids, obstacles);
    assert s[k + 1] in Placements(t, ids, obstacles);
  }

  /** With at least two placed obstacles, every one of them takes part in the chain. */
  lemma ChainCoversPlaced(t: nat, ids: set<Id>, obstacles: seq<Obstacle>, s: seq<Placed>, p: Placed)
    requires multiset(s) == multiset(Placements(t, ids, obstacles))
    requires p in Placements(t, ids, obstacles) && |s| >= 2
    ensures exists r :: r in ChainPairs(Implication, Ids(s)) && (r.lhs == p.id || r.rhs == p.id)
  {
    assert p in multiset(s);
    ChainCoversEntry(s, p);
  }

  /** Every entry of a sequence of at least two takes part in its chain. */
  lemma ChainCoversEntry(s: seq<Placed>, p: Placed)
    requires p in s && |s| >= 2
    ensures exists r :: r in ChainPairs(Implication, Ids(s)) && (r.lhs == p.id || r.rhs == p.id)
  {
    var k :| 0 <= k < |s| && s[k] == p;
    var pairs := ChainPairs(Implication, Ids(s));
    if k + 1 < |s| {
      assert pairs[k] == Relationship(Implication, Ids(s)[k], Ids(s)[k + 1]);
      assert pairs[k] in pairs;
    } else {
      assert pairs[k - 1] == Relationship(Implication, Ids(s)[k - 1], Ids(s)[k]);
      assert pairs[k - 1] in pairs;
    }
  }

  /** A chain relates n placed obstacles by n - 1 implications. */
  lemma ChainCount(t: nat, ids: set<Id>, obstacles: seq<Obstacle>, s: seq<Placed>)
    requires multiset(s) == multiset(Placements(t, ids, obstacles))
    ensures |s| == |Placements(t, ids, obstacles)|
    ensures |s| >= 1 ==> |ChainPairs(Implication, Ids(s))| == |Placements(t, ids, obstacles)| - 1
  {
    assert |multiset(s)| == |multiset(Placements(t, ids, obstacles))|;
  }
}
