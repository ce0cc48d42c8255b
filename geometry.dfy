/**
 * The bounding box of a face: the coordinate sets collected from the face
 * points, their ascending order, and the box taken from the first two
 * values of each order.
 */
module Geometry {
  import opened Wrappers
  import opened Errors

  /** One face point as it arrives in the message body; a coordinate may be missing. */
  datatype RawPoint = RawPoint(x: Option<int>, y: Option<int>)

  predicate Complete(p: RawPoint) {
    p.x.Some? && p.y.Some?
  }

  /** The distinct x and the distinct y coordinates of a face. */
  datatype Coords = Coords(xs: set<int>, ys: set<int>)

  /**
   * The sets `x` and `y` after the collecting loop has visited every point of
   * `face` in order, or the KeyError of the first point without `x` or `y`.
   */
  function Coordinates(face: seq<RawPoint>): (r: Result<Coords, Error>)
    ensures r.Success? <==> forall i :: 0 <= i < |face| ==> Complete(face[i])
    ensures r.Failure? ==> r.error == ParseError
    decreases |face|
  {
    if face == [] then
      Success(Coords({}, {}))
    else
      var init := face[..|face| - 1];
      var last := face[|face| - 1];
      match Coordinates(init)
      case Failure(e) => Failure(e)
      case Success(c) =>
        if Complete(last) then
          Success(Coords(c.xs + {last.x.value}, c.ys + {last.y.value}))
        else
          Failure(ParseError)
  }

  /** The collected sets hold exactly the x values and the y values of the points. */
  lemma {:induction false} CoordinatesAreThePointValues(face: seq<RawPoint>)
    requires Coordinates(face).Success?
    ensures forall v :: v in Coordinates(face).value.xs <==> exists i :: 0 <= i < |face| && face[i].x == Some(v)
    ensures forall v :: v in Coordinates(face).value.ys <==> exists i :: 0 <= i < |face| && face[i].y == Some(v)
  {
    if face != [] {
      var init := face[..|face| - 1];
      CoordinatesAreThePointValues(init);
      assert forall i :: 0 <= i < |init| ==> init[i] == face[i];
    }
  }

  /** The loop that adds every point's coordinates to the two sets. */
  method CollectCoordinates(face: seq<RawPoint>) returns (r: Result<Coords, Error>)
    ensures r == Coordinates(face)
  {
    var xs: set<int> := {};
    var ys: set<int> := {};
    for i := 0 to |face|
      invariant Coordinates(face[..i]) == Success(Coords(xs, ys))
    {
      var coordinate := face[i];
      assert face[..i + 1][..i] == face[..i];
      if coordinate.x.None? {
        PrefixFailure(face, i + 1);
        return Failure(ParseError);
      }
      xs := xs + {coordinate.x.value};
      if coordinate.y.None? {
        PrefixFailure(face, i + 1);
        return Failure(ParseError);
      }
      ys := ys + {coordinate.y.value};
    }
    assert face[..|face|] == face;
    return Success(Coords(xs, ys));
  }

  /** Once a prefix of the points fails, the whole face fails. */
  lemma PrefixFailure(face: seq<RawPoint>, n: nat)
    requires n <= |face| && Coordinates(face[..n]).Failure?
    ensures Coordinates(face) == Failure(ParseError)
  {
    var k :| 0 <= k < n && !Complete(face[..n][k]);
    assert face[k] == face[..n][k];
  }

  /** `m` is the least element of `s`. */
  predicate IsLeast(m: int, s: set<int>) {
    m in s && forall v :: v in s ==> m <= v
  }

  /** A finite non-empty set of integers has a least element. */
  lemma {:induction false} MinExists(s: set<int>)
    requires s != {}
    ensures exists m :: IsLeast(m, s)
  {
    if forall e :: e !in s {
      assert false;
    }
    var x :| x in s;
    if s != {x} {
      var rest := s - {x};
      MinExists(rest);
      var m :| IsLeast(m, rest);
      var least := if x < m then x else m;
      forall v | v in s
        ensures least <= v
      {
        if v != x {
          assert v in rest;
        }
      }
      assert IsLeast(least, s);
    } else {
      assert IsLeast(x, s);
    }
  }

  /** `sorted(s)`: the elements of `s` in ascending order. */
  function SortedSet(s: set<int>): (r: seq<int>)
    ensures |r| == |s|
    ensures forall v :: v in s <==> v in r
    ensures forall i, j :: 0 <= i < j < |r| ==> r[i] < r[j]
    decreases |s|
  {
    if s == {} then []
    else
      MinExists(s);
      var m :| IsLeast(m, s);
      [m] + SortedSet(s - {m})
  }

  /** `a` is the least element of `s` and `b` the least of the others. */
  ghost predicate IsTwoSmallest(a: int, b: int, s: set<int>) {
    a in s && b in s && a < b && forall v :: v in s && v != a ==> b <= v
  }

  lemma FirstTwoOfSorted(s: set<int>)
    requires |s| >= 2
    ensures IsTwoSmallest(SortedSet(s)[0], SortedSet(s)[1], s)
  {
    var r := SortedSet(s);
    forall v | v in s && v != r[0]
      ensures r[1] <= v
    {
      var k :| 0 <= k < |r| && r[k] == v;
      assert k != 0;
      if k > 1 {
        assert r[1] < r[k];
      }
    }
  }

  /** The crop box `(left, top, right, bottom)`. */
  datatype Box = Box(left: int, top: int, right: int, bottom: int)

  /**
   * `left`/`right` are `sorted_x[0]`/`sorted_x[1]`, `top`/`bottom` are
   * `sorted_y[0]`/`sorted_y[1]`; a list shorter than two raises IndexError.
   */
  function BoxOf(c: Coords): (r: Result<Box, Error>)
    ensures r.Success? <==> |c.xs| >= 2 && |c.ys| >= 2
    ensures r.Failure? ==> r.error == GeometryError
    ensures r.Success? ==> IsTwoSmallest(r.value.left, r.value.right, c.xs)
    ensures r.Success? ==> IsTwoSmallest(r.value.top, r.value.bottom, c.ys)
  {
    var sortedX := SortedSet(c.xs);
    var sortedY := SortedSet(c.ys);
    if |sortedX| < 2 || |sortedY| < 2 then
      Failure(GeometryError)
    else
      FirstTwoOfSorted(c.xs);
      FirstTwoOfSorted(c.ys);
      Success(Box(sortedX[0], sortedY[0], sortedX[1], sortedY[1]))
  }

  /** The two smallest elements of a set are determined by the set. */
  lemma TwoSmallestUnique(a: int, b: int, a': int, b': int, s: set<int>)
    requires IsTwoSmallest(a, b, s) && IsTwoSmallest(a', b', s)
    ensures a == a' && b == b'
  {
  }

  /**
   * Reordering or repeating face points changes neither the outcome of the
   * collecting loop nor the sets it builds.
   */
  lemma SamePointsSameCoordinates(f1: seq<RawPoint>, f2: seq<RawPoint>)
    requires forall p :: p in f1 <==> p in f2
    ensures Coordinates(f1) == Coordinates(f2)
  {
    AllCompleteTransfers(f1, f2);
    AllCompleteTransfers(f2, f1);
    if Coordinates(f1).Success? {
      var c1, c2 := Coordinates(f1).value, Coordinates(f2).value;
      CoordinatesAreThePointValues(f1);
      CoordinatesAreThePointValues(f2);
      forall v
        ensures (v in c1.xs <==> v in c2.xs) && (v in c1.ys <==> v in c2.ys)
      {
        ValueTransfers(f1, f2, v);
        ValueTransfers(f2, f1, v);
      }
      assert c1.xs == c2.xs && c1.ys == c2.ys;
    }
  }

  lemma AllCompleteTransfers(f1: seq<RawPoint>, f2: seq<RawPoint>)
    requires forall p :: p in f1 ==> p in f2
    ensures (forall i :: 0 <= i < |f2| ==> Complete(f2[i])) ==> forall i :: 0 <= i < |f1| ==> Complete(f1[i])
  {
    if forall i :: 0 <= i < |f2| ==> Complete(f2[i]) {
      forall i | 0 <= i < |f1|
        ensures Complete(f1[i])
      {
        assert f1[i] in f2;
      }
    }
  }

  lemma ValueTransfers(f1: seq<RawPoint>, f2: seq<RawPoint>, v: int)
    requires forall p :: p in f1 ==> p in f2
    ensures (exists i :: 0 <= i < |f1| && f1[i].x == Some(v)) ==> exists j :: 0 <= j < |f2| && f2[j].x == Some(v)
    ensures (exists i :: 0 <= i < |f1| && f1[i].y == Some(v)) ==> exists j :: 0 <= j < |f2| && f2[j].y == Some(v)
  {
    if i :| 0 <= i < |f1| && f1[i].x == Some(v) {
      assert f1[i] in f2;
      var j :| 0 <= j < |f2| && f2[j] == f1[i];
    }
    if i :| 0 <= i < |f1| && f1[i].y == Some(v) {
      assert f1[i] in f2;
      var j :| 0 <= j < |f2| && f2[j] == f1[i];
    }
  }

  /** With exactly two distinct values per axis (the corners of a rectangle) the box spans them all. */
  lemma TwoValuesGiveTheSpan(c: Coords)
    requires |c.xs| == 2 && |c.ys| == 2
    ensures BoxOf(c).Success?
    ensures forall v :: v in c.xs ==> BoxOf(c).value.left <= v <= BoxOf(c).value.right
    ensures forall v :: v in c.ys ==> BoxOf(c).value.top <= v <= BoxOf(c).value.bottom
  {
  }

  /** A third distinct value is ignored: x values {0, 10, 30} give left 0 and right 10, not 30. */
  lemma ThirdValueIgnored()
    ensures BoxOf(Coords({0, 10, 30}, {0, 20})) == Success(Box(0, 0, 10, 20))
  {
    var c := Coords({0, 10, 30}, {0, 20});
    assert |c.xs| == 3 && |c.ys| == 2;
    var b := BoxOf(c).value;
    assert IsTwoSmallest(0, 10, c.xs);
    assert IsTwoSmallest(0, 20, c.ys);
    TwoSmallestUnique(b.left, b.right, 0, 10, c.xs);
    TwoSmallestUnique(b.top, b.bottom, 0, 20, c.ys);
  }
}
