/**
 * Equivalence extractors.  At each requested step the requested world obstacles whose key
 * is known are grouped by equal keys (the lanelet ids of their lanes, or the intersection
 * lanelets on their reference lane); the members of each group, in world order, are then
 * chained with equivalences between neighbours.
 */
module Equivalence {
  import opened Wrappers
  import opened World
  import opened EnvModel
  import opened Relationships

  /** An obstacle id with its grouping key. */
  datatype Entry = Entry(id: nat, key: set<nat>)

  /** The requested world obstacles whose key at step t is known, with that key, in world order. */
  function Keyed(t: nat, ids: set<Id>, obstacles: seq<Obstacle>, key: (nat, Obstacle) -> Option<set<nat>>): (r: seq<Entry>)
    ensures forall e :: e in r <==>
      exists i :: 0 <= i < |obstacles| && Some(obstacles[i].id) in ids && obstacles[i].id == e.id && key(t, obstacles[i]) == Some(e.key)
  {
    if obstacles == [] then []
    else
      var o := obstacles[0];
      var rest := Keyed(t, ids, obstacles[1..], key);
      if Some(o.id) in ids && key(t, o).Some? then [Entry(o.id, key(t, o).value)] + rest else rest
  }

  /** The groups: for each key, the ids with that key in order. */
  function Group(entries: seq<Entry>): map<set<nat>, seq<nat>>
    decreases |entries|
  {
    if entries == [] then map[]
    else
      var g := Group(entries[..|entries| - 1]);
      var e := entries[|entries| - 1];
      if e.key in g then g[e.key := g[e.key] + [e.id]] else g[e.key := [e.id]]
  }

  /** The keys in the order of their first entry. */
  function Order(entries: seq<Entry>): seq<set<nat>>
    decreases |entries|
  {
    if entries == [] then []
    else
      var front := entries[..|entries| - 1];
      var k := entries[|entries| - 1].key;
      if k in Group(front) then Order(front) else Order(front) + [k]
  }

  /** The chains of the groups of `keys`, in that order. */
  function ChainAll(keys: seq<set<nat>>, groups: map<set<nat>, seq<nat>>): seq<Relationship>
    decreases |keys|
  {
    if keys == [] then []
    else
      var k := keys[|keys| - 1];
      ChainAll(keys[..|keys| - 1], groups) + ChainPairs(Equivalence, if k in groups then groups[k] else [])
  }

  /** What one step of an equivalence extractor produces from its keyed obstacles. */
  function Chain(entries: seq<Entry>): seq<Relationship>
  {
    ChainAll(Order(entries), Group(entries))
  }

  /** The grouping loop: each entry's id is appended to the class of its key. */
  method GroupEntries(entries: seq<Entry>) returns (classes: map<set<nat>, seq<nat>>, order: seq<set<nat>>)
    ensures classes == Group(entries) && order == Order(entries)
  {
    classes, order := map[], [];
    var i := 0;
    while i < |entries|
      invariant 0 <= i <= |entries|
      invariant classes == Group(entries[..i]) && order == Order(entries[..i])
    {
      var id, k := entries[i].id, entries[i].key;
      assert entries[..i + 1] == entries[..i] + [entries[i]];
      GroupSnoc(entries[..i], entries[i]);
      if k in classes {
        classes := classes[k := classes[k] + [id]];
      } else {
        classes := classes[k := [id]];
        order := order + [k];
      }
      i := i + 1;
    }
    assert entries[..i] == entries;
  }

  /** The chaining loop of one class: each member with the next. */
  method ChainClass(members: seq<nat>) returns (pairs: seq<Relationship>)
    ensures pairs == ChainPairs(Equivalence, members)
  {
    pairs := [];
    if members == [] {
      return;
    }
    var m := 0;
    while m < |members| - 1
      invariant 0 <= m < |members|
      invariant pairs == ChainPairs(Equivalence, members[..m + 1])
    {
      ChainPairsSnoc(Equivalence, members[..m + 2]);
      assert members[..m + 2][..m + 1] == members[..m + 1];
      pairs := pairs + [Relationship(Equivalence, members[m], members[m + 1])];
      m := m + 1;
    }
    assert members[..m + 1] == members;
  }

  /** Grouping, then chaining each class, as the two loops of the extractor. */
  method GroupAndChain(entries: seq<Entry>) returns (pairs: seq<Relationship>)
    ensures pairs == Chain(entries)
  {
    var classes, order := GroupEntries(entries);
    pairs := [];
    var j := 0;
    while j < |order|
      invariant 0 <= j <= |order|
      invariant pairs == ChainAll(order[..j], classes)
    {
      var k := order[j];
      var chain := ChainClass(if k in classes then classes[k] else []);
      pairs := pairs + chain;
      assert order[..j + 1][..j] == order[..j];
      j := j + 1;
    }
    assert order[..j] == order;
  }

  // ---------------------------------------------------------------------------
  // What a chain means.

  /** The total length of the groups of `keys`. */
  function SumLens(keys: seq<set<nat>>, groups: map<set<nat>, seq<nat>>): nat
    decreases |keys|
  {
    if keys == [] then 0
    else
      var k := keys[|keys| - 1];
      SumLens(keys[..|keys| - 1], groups) + (if k in groups then |groups[k]| else 0)
  }

  predicate Distinct<T(==)>(s: seq<T>)
  {
    forall i, j :: 0 <= i < j < |s| ==> s[i] != s[j]
  }

  /** Replacing the group of a key that occurs once among `keys` changes the total by the
   *  change in its length; replacing one that does not occur changes nothing. */
  lemma {:induction false} SumLensUpdate(keys: seq<set<nat>>, groups: map<set<nat>, seq<nat>>, k: set<nat>, s: seq<nat>)
    requires Distinct(keys) && k in groups
    ensures k in keys ==> SumLens(keys, groups[k := s]) == SumLens(keys, groups) - |groups[k]| + |s|
    ensures k !in keys ==> SumLens(keys, groups[k := s]) == SumLens(keys, groups)
    decreases |keys|
  {
    if keys != [] {
      var front := keys[..|keys| - 1];
      assert Distinct(front);
      SumLensUpdate(front, groups, k, s);
      if k == keys[|keys| - 1] {
        assert k !in front;
      }
      assert k in keys <==> k in front || k == keys[|keys| - 1];
    }
  }

  lemma {:induction false} SumLensNew(keys: seq<set<nat>>, groups: map<set<nat>, seq<nat>>, k: set<nat>, s: seq<nat>)
    requires k !in keys
    ensures SumLens(keys, groups[k := s]) == SumLens(keys, groups)
    decreases |keys|
  {
    if keys != [] {
      SumLensNew(keys[..|keys| - 1], groups, k, s);
    }
  }

  /** Appending one entry to the grouped entries. */
  lemma GroupSnoc(entries: seq<Entry>, e: Entry)
    ensures Group(entries + [e]) ==
      if e.key in Group(entries) then Group(entries)[e.key := Group(entries)[e.key] + [e.id]]
      else Group(entries)[e.key := [e.id]]
    ensures Order(entries + [e]) == if e.key in Group(entries) then Order(entries) else Order(entries) + [e.key]
  {
    assert (entries + [e])[..|entries|] == entries;
  }

  /** The order lists each key once, and exactly the keys of the groups. */
  lemma {:induction false} OrderKeys(entries: seq<Entry>)
    ensures Distinct(Order(entries))
    ensures forall k :: k in Order(entries) <==> k in Group(entries)
    decreases |entries|
  {
    if entries != [] {
      var front, e := entries[..|entries| - 1], entries[|entries| - 1];
      assert entries == front + [e];
      OrderKeys(front);
      GroupSnoc(front, e);
    }
  }

  /** A group is never empty and holds exactly the ids of the entries with its key. */
  lemma {:induction false} GroupMembers(entries: seq<Entry>, k: set<nat>)
    ensures k in Group(entries) <==> exists i :: 0 <= i < |entries| && entries[i].key == k
    ensures k in Group(entries) ==>
      |Group(entries)[k]| > 0 && forall x :: x in Group(entries)[k] <==> Entry(x, k) in entries
    decreases |entries|
  {
    if entries != [] {
      var front, e := entries[..|entries| - 1], entries[|entries| - 1];
      assert entries == front + [e];
      GroupMembers(front, k);
      GroupSnoc(front, e);
      assert forall x :: x in entries <==> x in front || x == e;
      if exists i :: 0 <= i < |entries| && entries[i].key == k {
        var i :| 0 <= i < |entries| && entries[i].key == k;
        if i < |front| {
          assert front[i].key == k;
        }
      }
    }
  }

  /** The groups together hold one member per entry. */
  lemma {:induction false} GroupTotal(entries: seq<Entry>)
    ensures SumLens(Order(entries), Group(entries)) == |entries|
    decreases |entries|
  {
    if entries != [] {
      var front, e := entries[..|entries| - 1], entries[|entries| - 1];
      assert entries == front + [e];
      GroupTotal(front);
      GroupSnoc(front, e);
      OrderKeys(front);
      var g, o := Group(front), Order(front);
      var g2 := Group(entries);
      if e.key in g {
        SumLensUpdate(o, g, e.key, g[e.key] + [e.id]);
      } else {
        SumLensNew(o, g, e.key, [e.id]);
        var o2 := o + [e.key];
        assert o2[..|o|] == o;
        assert SumLens(o2, g2) == SumLens(o, g2) + |g2[e.key]|;
      }
    }
  }

  /** Chaining non-empty groups gives one relationship fewer than members per group. */
  lemma {:induction false} ChainAllLength(keys: seq<set<nat>>, groups: map<set<nat>, seq<nat>>)
    requires forall k :: k in keys ==> k in groups && |groups[k]| > 0
    ensures |ChainAll(keys, groups)| == SumLens(keys, groups) - |keys|
    decreases |keys|
  {
    if keys != [] {
      ChainAllLength(keys[..|keys| - 1], groups);
    }
  }

  /** A sequence without repetitions has as many distinct elements as it is long. */
  lemma {:induction false} DistinctCard<T>(s: seq<T>)
    requires Distinct(s)
    ensures |set x | x in s| == |s|
    decreases |s|
  {
    if s != [] {
      var front := s[..|s| - 1];
      assert Distinct(front);
      DistinctCard(front);
      assert (set x | x in s) == (set x | x in front) + {s[|s| - 1]};
      assert s[|s| - 1] !in front;
    }
  }

  /** A group of k members yields k - 1 equivalences, so a step yields as many as it has
   *  keyed obstacles minus the number of distinct keys. */
  lemma ChainCount(entries: seq<Entry>)
    ensures |Chain(entries)| == |entries| - |Group(entries).Keys|
  {
    OrderKeys(entries);
    GroupTotal(entries);
    forall k | k in Order(entries)
      ensures k in Group(entries) && |Group(entries)[k]| > 0
    {
      GroupMembers(entries, k);
    }
    ChainAllLength(Order(entries), Group(entries));
    DistinctCard(Order(entries));
    assert (set x | x in Order(entries)) == Group(entries).Keys;
  }

  /** `r` equates two neighbouring members of the group of key k. */
  predicate Links(groups: map<set<nat>, seq<nat>>, k: set<nat>, r: Relationship)
  {
    k in groups && exists i :: 0 <= i < |groups[k]| - 1 && r == Relationship(Equivalence, groups[k][i], groups[k][i + 1])
  }

  /** The relationships of a chain over `keys` are the neighbouring members of their groups. */
  lemma {:induction false} ChainAllMembers(keys: seq<set<nat>>, groups: map<set<nat>, seq<nat>>, r: Relationship)
    ensures r in ChainAll(keys, groups) <==> exists k :: k in keys && Links(groups, k, r)
    decreases |keys|
  {
    if keys != [] {
      var front, last := keys[..|keys| - 1], keys[|keys| - 1];
      ChainAllMembers(front, groups, r);
      LastLinks(groups, last, r);
      KeysSplit(keys, groups, r);
    }
  }

  /** The chain of one group holds exactly its links. */
  lemma LastLinks(groups: map<set<nat>, seq<nat>>, k: set<nat>, r: Relationship)
    ensures r in ChainPairs(Equivalence, if k in groups then groups[k] else []) <==> Links(groups, k, r)
  {
    ChainPairsMembers(Equivalence, if k in groups then groups[k] else [], r);
  }

  /** A key of a non-empty sequence is one of its front or its last. */
  lemma KeysSplit(keys: seq<set<nat>>, groups: map<set<nat>, seq<nat>>, r: Relationship)
    requires keys != []
    ensures (exists k :: k in keys && Links(groups, k, r)) <==>
      (exists k :: k in keys[..|keys| - 1] && Links(groups, k, r)) || Links(groups, keys[|keys| - 1], r)
  {
    if exists k :: k in keys && Links(groups, k, r) {
      var k :| k in keys && Links(groups, k, r);
      if k != keys[|keys| - 1] {
        assert k in keys[..|keys| - 1];
      }
    }
    if Links(groups, keys[|keys| - 1], r) {
      assert keys[|keys| - 1] in keys;
    }
  }

  /** No equivalence crosses groups: both obstacles of a relationship have the same key. */
  lemma ChainSameKey(entries: seq<Entry>, r: Relationship)
    requires r in Chain(entries)
    ensures r.kind == Equivalence
    ensures exists k :: Entry(r.lhs, k) in entries && Entry(r.rhs, k) in entries
  {
    ChainAllMembers(Order(entries), Group(entries), r);
    var k :| k in Order(entries) && Links(Group(entries), k, r);
    var i :| 0 <= i < |Group(entries)[k]| - 1 && r == Relationship(Equivalence, Group(entries)[k][i], Group(entries)[k][i + 1]);
    GroupMembers(entries, k);
    assert Group(entries)[k][i] in Group(entries)[k];
    assert Group(entries)[k][i + 1] in Group(entries)[k];
  }

  /** Every group is connected: each member is related to the next member of its group, and
   *  every entry is a member of the group of its key. */
  lemma ChainLinksGroup(entries: seq<Entry>, e: Entry, i: nat)
    requires e in entries
    ensures e.key in Group(entries) && e.id in Group(entries)[e.key]
    ensures i < |Group(entries)[e.key]| - 1 ==>
      Relationship(Equivalence, Group(entries)[e.key][i], Group(entries)[e.key][i + 1]) in Chain(entries)
  {
    var j :| 0 <= j < |entries| && entries[j] == e;
    GroupMembers(entries, e.key);
    OrderKeys(entries);
    var g := Group(entries);
    if i < |g[e.key]| - 1 {
      var r := Relationship(Equivalence, g[e.key][i], g[e.key][i + 1]);
      assert Links(g, e.key, r);
      ChainAllMembers(Order(entries), g, r);
    }
  }

  // ---------------------------------------------------------------------------
  // The extraction over all requested steps.

  /** The equivalences of every requested step; each requested step gets an entry, possibly empty. */
  method ExtractEquivalences(requests: map<nat, set<Id>>, obstacles: seq<Obstacle>, key: (nat, Obstacle) -> Option<set<nat>>)
    returns (result: RelationshipTable)
    ensures result.Keys == requests.Keys
    ensures forall t :: t in result ==> result[t] == Chain(Keyed(t, requests[t], obstacles, key))
  {
    result := map[];
    var pending := requests.Keys;
    while pending != {}
      invariant pending <= requests.Keys
      invariant result.Keys == requests.Keys - pending
      invariant forall t :: t in result ==> result[t] == Chain(Keyed(t, requests[t], obstacles, key))
      decreases pending
    {
      var t :| t in pending;
      var pairs := GroupAndChain(Keyed(t, requests[t], obstacles, key));
      result := result[t := pairs];
      pending := pending - {t};
    }
  }

  /** In the same lane: the key is the set of lanelet ids of the lanes the obstacle occupies. */
  function SameLaneKey(t: nat, o: Obstacle): Option<set<nat>>
  {
    LaneIds(o, t)
  }

  /** The ids of the intersection-type lanelets among `lanelets`. */
  function IntersectionLaneletIds(lanelets: seq<Lanelet>): (r: set<nat>)
    ensures forall id :: id in r <==> exists i :: 0 <= i < |lanelets| && Intersection in lanelets[i].types && lanelets[i].id == id
  {
    set i | 0 <= i < |lanelets| && Intersection in lanelets[i].types :: lanelets[i].id
  }

  /** In the intersection conflict area: the key is the set of intersection lanelets on the
   *  obstacle's reference lane; a failing reference-lane query excludes the obstacle. */
  function ConflictAreaKey(t: nat, o: Obstacle): (r: Option<set<nat>>)
    ensures r.Some? <==> t in o.referenceLane
    ensures r.Some? ==> r.value == IntersectionLaneletIds(o.referenceLane[t])
  {
    if t in o.referenceLane then Some(IntersectionLaneletIds(o.referenceLane[t])) else None
  }

  /**
   * In the same lane, at one step: two obstacles are related only if both are requested
   * there and occupy lanes with exactly the same lanelet ids; obstacles without lane ids
   * are related to nothing.
   */
  lemma SameLaneMeaning(t: nat, ids: set<Id>, obstacles: seq<Obstacle>, r: Relationship)
    requires r in Chain(Keyed(t, ids, obstacles, SameLaneKey))
    ensures r.kind == Equivalence
    ensures exists i, j ::
      (0 <= i < |obstacles| && 0 <= j < |obstacles| &&
       obstacles[i].id == r.lhs && obstacles[j].id == r.rhs && Some(r.lhs) in ids && Some(r.rhs) in ids &&
       LaneIds(obstacles[i], t).Some? && LaneIds(obstacles[i], t) == LaneIds(obstacles[j], t))
  {
    var entries := Keyed(t, ids, obstacles, SameLaneKey);
    ChainSameKey(entries, r);
    var k :| Entry(r.lhs, k) in entries && Entry(r.rhs, k) in entries;
  }

  /**
   * In the intersection conflict area, at one step: two related obstacles are requested
   * there and have reference lanes with the same intersection lanelets.  Obstacles whose
   * reference lanes cross no intersection share the empty key and are chained together.
   */
  lemma ConflictAreaMeaning(t: nat, ids: set<Id>, obstacles: seq<Obstacle>, r: Relationship)
    requires r in Chain(Keyed(t, ids, obstacles, ConflictAreaKey))
    ensures r.kind == Equivalence
    ensures exists i, j ::
      (0 <= i < |obstacles| && 0 <= j < |obstacles| &&
       obstacles[i].id == r.lhs && obstacles[j].id == r.rhs && Some(r.lhs) in ids && Some(r.rhs) in ids &&
       t in obstacles[i].referenceLane && t in obstacles[j].referenceLane &&
       IntersectionLaneletIds(obstacles[i].referenceLane[t]) == IntersectionLaneletIds(obstacles[j].referenceLane[t]))
  {
    var entries := Keyed(t, ids, obstacles, ConflictAreaKey);
    ChainSameKey(entries, r);
    var k :| Entry(r.lhs, k) in entries && Entry(r.rhs, k) in entries;
  }
}
