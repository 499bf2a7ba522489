/** Axis-aligned boxes over the reals, stored as centre and per-axis
 *  radius (cpp/include/cr_knowledge_extraction/ego_behavior/sets/box.hpp).
 *  A box of dimension n is a value whose centre and radius both have n
 *  entries; Box2D and Box4D are the boxes of dimension 2 and 4. */
module Boxes {
  import opened Wrappers

  datatype Box = Box(center: seq<real>, radius: seq<real>)

  datatype BoxError = EmptyIntersection

  function Max(a: real, b: real): real { if a < b then b else a }
  function Min(a: real, b: real): real { if a < b then a else b }

  /** The constructor's assertion: equal dimensions and no negative radius. */
  predicate Valid(b: Box)
  {
    |b.center| == |b.radius| && forall i :: 0 <= i < |b.radius| ==> 0.0 <= b.radius[i]
  }

  predicate ValidDim(b: Box, n: nat)
  {
    Valid(b) && |b.center| == n
  }

  function Dim(b: Box): nat { |b.center| }

  function Lower(b: Box): (lo: seq<real>)
    requires |b.center| == |b.radius|
    ensures |lo| == Dim(b)
  {
    seq(|b.center|, i requires 0 <= i < |b.center| => b.center[i] - b.radius[i])
  }

  function Upper(b: Box): (hi: seq<real>)
    requires |b.center| == |b.radius|
    ensures |hi| == Dim(b)
  {
    seq(|b.center|, i requires 0 <= i < |b.center| => b.center[i] + b.radius[i])
  }

  /** The set of points a box stands for: every coordinate within its bounds. */
  predicate Contains(b: Box, x: seq<real>)
    requires |b.center| == |b.radius|
  {
    |x| == Dim(b) && forall i :: 0 <= i < |x| ==> Lower(b)[i] <= x[i] <= Upper(b)[i]
  }

  ghost predicate SubBox(a: Box, b: Box)
    requires |a.center| == |a.radius| && |b.center| == |b.radius|
  {
    forall x :: Contains(a, x) ==> Contains(b, x)
  }

  /** bounds(): the per-axis minimum and maximum, which are ordered for a valid box. */
  function Bounds(b: Box): (r: (seq<real>, seq<real>))
    requires Valid(b)
    ensures |r.0| == |r.1| == Dim(b)
    ensures forall i :: 0 <= i < Dim(b) ==> r.0[i] <= b.center[i] <= r.1[i]
    ensures Contains(b, b.center)
  {
    (Lower(b), Upper(b))
  }

  /** from_bounds(min, max): the box whose bounds are exactly min and max. */
  function FromBounds(lo: seq<real>, hi: seq<real>): (r: Box)
    requires |lo| == |hi|
    requires forall i :: 0 <= i < |lo| ==> lo[i] <= hi[i]
    ensures ValidDim(r, |lo|)
    ensures Lower(r) == lo && Upper(r) == hi
  {
    var radius := seq(|lo|, i requires 0 <= i < |lo| => (hi[i] - lo[i]) / 2.0);
    var center := seq(|lo|, i requires 0 <= i < |lo| => lo[i] + radius[i]);
    Box(center, radius)
  }

  /** from_bounds is the inverse of bounds on valid boxes. */
  lemma FromBoundsOfBounds(b: Box)
    requires Valid(b)
    ensures FromBounds(Lower(b), Upper(b)) == b
  {
    var r := FromBounds(Lower(b), Upper(b));
    assert r.radius == b.radius;
    assert r.center == b.center;
  }

  function IntersectionLower(a: Box, b: Box): (lo: seq<real>)
    requires Valid(a) && Valid(b) && Dim(a) == Dim(b)
    ensures |lo| == Dim(a)
  {
    seq(Dim(a), i requires 0 <= i < Dim(a) => Max(Lower(a)[i], Lower(b)[i]))
  }

  function IntersectionUpper(a: Box, b: Box): (hi: seq<real>)
    requires Valid(a) && Valid(b) && Dim(a) == Dim(b)
    ensures |hi| == Dim(a)
  {
    seq(Dim(a), i requires 0 <= i < Dim(a) => Min(Upper(a)[i], Upper(b)[i]))
  }

  /** intersect(): the box between the larger minima and the smaller
   *  maxima, or a failure when some axis is left empty. */
  function Intersect(a: Box, b: Box): (r: Result<Box, BoxError>)
    requires Valid(a) && Valid(b) && Dim(a) == Dim(b)
    ensures r.Ok? ==> ValidDim(r.value, Dim(a))
  {
    var lo, hi := IntersectionLower(a, b), IntersectionUpper(a, b);
    if forall i :: 0 <= i < Dim(a) ==> lo[i] <= hi[i] then
      Ok(FromBounds(lo, hi))
    else
      Err(EmptyIntersection)
  }

  /** The intersection is exact: it holds precisely the common points, and
   *  it fails only when there is none. */
  lemma IntersectExact(a: Box, b: Box, x: seq<real>)
    requires Valid(a) && Valid(b) && Dim(a) == Dim(b)
    ensures Intersect(a, b).Ok? ==> (Contains(Intersect(a, b).value, x) <==> Contains(a, x) && Contains(b, x))
    ensures Intersect(a, b).Err? ==> !(Contains(a, x) && Contains(b, x))
  {
    if Contains(a, x) && Contains(b, x) {
      CommonPointOrdersBounds(a, b, x);
    }
  }

  lemma CommonPointOrdersBounds(a: Box, b: Box, x: seq<real>)
    requires Valid(a) && Valid(b) && Dim(a) == Dim(b) && Contains(a, x) && Contains(b, x)
    ensures forall i :: 0 <= i < Dim(a) ==> IntersectionLower(a, b)[i] <= IntersectionUpper(a, b)[i]
  {
    forall i | 0 <= i < Dim(a) ensures IntersectionLower(a, b)[i] <= IntersectionUpper(a, b)[i] {
      assert IntersectionLower(a, b)[i] <= x[i] <= IntersectionUpper(a, b)[i];
    }
  }

  /** Two boxes share a point exactly when their intersection succeeds. */
  lemma IntersectOkIffCommonPoint(a: Box, b: Box)
    requires Valid(a) && Valid(b) && Dim(a) == Dim(b)
    ensures Intersect(a, b).Ok? <==> exists x :: Contains(a, x) && Contains(b, x)
  {
    if Intersect(a, b).Ok? {
      var c := Intersect(a, b).value.center;
      var _ := Bounds(Intersect(a, b).value);
      IntersectExact(a, b, c);
    } else {
      forall x ensures !(Contains(a, x) && Contains(b, x)) {
        IntersectExact(a, b, x);
      }
    }
  }

  lemma IntersectCommutes(a: Box, b: Box)
    requires Valid(a) && Valid(b) && Dim(a) == Dim(b)
    ensures Intersect(a, b) == Intersect(b, a)
  {
    assert IntersectionLower(a, b) == IntersectionLower(b, a);
    assert IntersectionUpper(a, b) == IntersectionUpper(b, a);
  }

  function Add(x: seq<real>, y: seq<real>): (z: seq<real>)
    requires |x| == |y|
    ensures |z| == |x|
  {
    seq(|x|, i requires 0 <= i < |x| => x[i] + y[i])
  }

  /** sum(): the Minkowski sum, adding centres and radii. */
  function Sum(a: Box, b: Box): (r: Box)
    requires Valid(a) && Valid(b) && Dim(a) == Dim(b)
    ensures ValidDim(r, Dim(a))
  {
    Box(Add(a.center, b.center), Add(a.radius, b.radius))
  }

  /** The sum holds every sum of a point of each operand, and its bounds
   *  are the sums of the bounds. */
  lemma SumContains(a: Box, b: Box, x: seq<real>, y: seq<real>)
    requires Valid(a) && Valid(b) && Dim(a) == Dim(b)
    requires Contains(a, x) && Contains(b, y)
    ensures Contains(Sum(a, b), Add(x, y))
  {
  }

  lemma SumBounds(a: Box, b: Box)
    requires Valid(a) && Valid(b) && Dim(a) == Dim(b)
    ensures Lower(Sum(a, b)) == Add(Lower(a), Lower(b)) && Upper(Sum(a, b)) == Add(Upper(a), Upper(b))
  {
  }

  lemma SumCommutes(a: Box, b: Box)
    requires Valid(a) && Valid(b) && Dim(a) == Dim(b)
    ensures Sum(a, b) == Sum(b, a)
  {
    assert Add(a.center, b.center) == Add(b.center, a.center);
    assert Add(a.radius, b.radius) == Add(b.radius, a.radius);
  }

  /** shrink(delta): the centre is kept and every radius loses delta/2,
   *  stopping at zero. */
  function Shrink(b: Box, delta: real): (r: Box)
    requires Valid(b)
    ensures ValidDim(r, Dim(b)) && r.center == b.center
  {
    Box(b.center, seq(Dim(b), i requires 0 <= i < Dim(b) => Max(b.radius[i] - delta / 2.0, 0.0)))
  }

  /** For a non-negative delta the shrunk box lies inside the original,
   *  each radius shorter by delta/2 or, where that would be negative, zero. */
  lemma ShrinkWithin(b: Box, delta: real, x: seq<real>)
    requires Valid(b) && 0.0 <= delta && Contains(Shrink(b, delta), x)
    ensures Contains(b, x)
  {
  }

  lemma ShrinkRadius(b: Box, delta: real, i: nat)
    requires Valid(b) && i < Dim(b)
    ensures delta / 2.0 <= b.radius[i] ==> Shrink(b, delta).radius[i] == b.radius[i] - delta / 2.0
    ensures b.radius[i] < delta / 2.0 ==> Shrink(b, delta).radius[i] == 0.0
  {
  }

  /** Sum of row[k] * v[k] for k < n. */
  function Dot(row: seq<real>, v: seq<real>, n: nat): real
    requires n <= |row| && n <= |v|
  {
    if n == 0 then 0.0 else Dot(row, v, n - 1) + row[n - 1] * v[n - 1]
  }

  predicate NonNegative(s: seq<real>)
  {
    forall k :: 0 <= k < |s| ==> 0.0 <= s[k]
  }

  /** A matrix given by its rows, each of width n, with no negative entry. */
  predicate PositiveMatrix(m: seq<seq<real>>, n: nat)
  {
    forall i :: 0 <= i < |m| ==> |m[i]| == n && NonNegative(m[i])
  }

  function MatVec(m: seq<seq<real>>, x: seq<real>): (y: seq<real>)
    requires forall i :: 0 <= i < |m| ==> |m[i]| == |x|
    ensures |y| == |m|
  {
    seq(|m|, i requires 0 <= i < |m| => Dot(m[i], x, |x|))
  }

  lemma {:induction false} DotNonNegative(row: seq<real>, v: seq<real>, n: nat)
    requires n <= |row| && n <= |v| && NonNegative(row) && NonNegative(v)
    ensures 0.0 <= Dot(row, v, n)
  {
    if n > 0 {
      DotNonNegative(row, v, n - 1);
      MulNonNegative(row[n - 1], v[n - 1]);
    }
  }

  lemma MulNonNegative(a: real, b: real)
    requires 0.0 <= a && 0.0 <= b
    ensures 0.0 <= a * b
  {
  }

  lemma MulPositive(a: real, b: real)
    requires 0.0 < a && 0.0 < b
    ensures 0.0 < a * b
  {
  }

  lemma MulMonotone(a: real, d: real, e: real)
    requires 0.0 <= a && d <= e
    ensures a * d <= a * e
  {
    assert a * e - a * d == a * (e - d);
    MulNonNegative(a, e - d);
  }

  /** A non-negative row maps a point within radius r of c to within
   *  row·r of row·c. */
  lemma {:induction false} DotWithin(row: seq<real>, x: seq<real>, c: seq<real>, r: seq<real>, n: nat)
    requires n <= |row| && n <= |x| && n <= |c| && n <= |r|
    requires NonNegative(row)
    requires forall k :: 0 <= k < n ==> c[k] - r[k] <= x[k] <= c[k] + r[k]
    ensures Dot(row, c, n) - Dot(row, r, n) <= Dot(row, x, n) <= Dot(row, c, n) + Dot(row, r, n)
  {
    if n > 0 {
      DotWithin(row, x, c, r, n - 1);
      ProductWithin(row[n - 1], x[n - 1], c[n - 1], r[n - 1]);
    }
  }

  /** Scaling by a non-negative factor keeps a value within the scaled radius. */
  lemma ProductWithin(a: real, x: real, c: real, r: real)
    requires 0.0 <= a && c - r <= x <= c + r
    ensures a * c - a * r <= a * x <= a * c + a * r
  {
    MulMonotone(a, x, c + r);
    MulMonotone(a, c - r, x);
    assert a * (c + r) == a * c + a * r;
    assert a * (c - r) == a * c - a * r;
  }

  lemma DotUnfold4(row: seq<real>, x: seq<real>)
    requires |row| == 4 && |x| == 4
    ensures Dot(row, x, 4) == row[0] * x[0] + row[1] * x[1] + row[2] * x[2] + row[3] * x[3]
  {
    assert Dot(row, x, 1) == row[0] * x[0];
    assert Dot(row, x, 2) == row[0] * x[0] + row[1] * x[1];
    assert Dot(row, x, 3) == row[0] * x[0] + row[1] * x[1] + row[2] * x[2];
  }

  lemma DotUnfold2(row: seq<real>, x: seq<real>)
    requires |row| == 2 && |x| == 2
    ensures Dot(row, x, 2) == row[0] * x[0] + row[1] * x[1]
  {
    assert Dot(row, x, 1) == row[0] * x[0];
  }

  /** linear_map_positive(M): for a matrix with no negative entry, maps
   *  centre and radius. */
  function LinearMapPositive(m: seq<seq<real>>, b: Box): (r: Box)
    requires Valid(b) && PositiveMatrix(m, Dim(b))
    ensures ValidDim(r, |m|)
  {
    var r := Box(MatVec(m, b.center), MatVec(m, b.radius));
    assert Valid(r) by {
      forall i | 0 <= i < |m| ensures 0.0 <= r.radius[i] {
        DotNonNegative(m[i], b.radius, Dim(b));
      }
    }
    r
  }

  /** The image of every point of the box lies inside the mapped box. */
  lemma LinearMapContains(m: seq<seq<real>>, b: Box, x: seq<real>)
    requires Valid(b) && PositiveMatrix(m, Dim(b)) && Contains(b, x)
    ensures Contains(LinearMapPositive(m, b), MatVec(m, x))
  {
    var r := LinearMapPositive(m, b);
    forall i | 0 <= i < |m|
      ensures Lower(r)[i] <= MatVec(m, x)[i] <= Upper(r)[i]
    {
      DotWithin(m[i], x, b.center, b.radius, Dim(b));
    }
  }

  /** project_to_positions(): the 2-D box of axes 0 and 2 of a 4-D box. */
  function ProjectToPositions(b: Box): (r: Box)
    requires ValidDim(b, 4)
    ensures ValidDim(r, 2)
  {
    Box([b.center[0], b.center[2]], [b.radius[0], b.radius[2]])
  }

  lemma ProjectionContains(b: Box, x: seq<real>)
    requires ValidDim(b, 4) && Contains(b, x)
    ensures Contains(ProjectToPositions(b), [x[0], x[2]])
  {
  }

  /** The expectations of the 2-D and 4-D box tests. */
  lemma FromBoundsExample()
    ensures FromBounds([9.0, 8.0], [11.0, 12.0]) == Box([10.0, 10.0], [1.0, 2.0])
    ensures FromBounds([9.0, 8.0, 7.0, 6.0], [11.0, 12.0, 13.0, 14.0]) == Box([10.0, 10.0, 10.0, 10.0], [1.0, 2.0, 3.0, 4.0])
  {
  }

  lemma SumAndShrinkExample()
    ensures Sum(Box([10.0, 10.0], [1.0, 2.0]), Box([1.0, 1.0], [2.0, 2.0])) == Box([11.0, 11.0], [3.0, 4.0])
    ensures Shrink(Box([10.0, 10.0], [1.0, 2.0]), 3.0) == Box([10.0, 10.0], [0.0, 0.5])
    ensures Shrink(Box([10.0, 10.0, 10.0, 10.0], [1.0, 2.0, 3.0, 4.0]), 3.0) == Box([10.0, 10.0, 10.0, 10.0], [0.0, 0.5, 1.5, 2.5])
  {
  }

  lemma LinearMapExample()
    ensures LinearMapPositive([[1.0, 2.0], [0.0, 1.0]], Box([1.0, 1.0], [1.0, 1.0])) == Box([3.0, 1.0], [3.0, 1.0])
    ensures LinearMapPositive([[1.0, 2.0, 0.0, 0.0], [0.0, 1.0, 0.0, 0.0], [0.0, 0.0, 1.0, 2.0], [0.0, 0.0, 0.0, 1.0]],
                              Box([1.0, 1.0, 2.0, 2.0], [1.0, 1.0, 2.0, 2.0]))
            == Box([3.0, 1.0, 6.0, 2.0], [3.0, 1.0, 6.0, 2.0])
  {
    var m2, c2 := [[1.0, 2.0], [0.0, 1.0]], [1.0, 1.0];
    DotUnfold2(m2[0], c2);
    DotUnfold2(m2[1], c2);
    var m4 := [[1.0, 2.0, 0.0, 0.0], [0.0, 1.0, 0.0, 0.0], [0.0, 0.0, 1.0, 2.0], [0.0, 0.0, 0.0, 1.0]];
    var c4 := [1.0, 1.0, 2.0, 2.0];
    DotUnfold4(m4[0], c4);
    DotUnfold4(m4[1], c4);
    DotUnfold4(m4[2], c4);
    DotUnfold4(m4[3], c4);
  }
}
