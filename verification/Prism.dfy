/** Prisms stretched from a polygon: the flat construction, with four vertices a side, and the
    smooth one, with two, both as the loops that append vertices and index triples. Coordinates
    are only copied, so they are any type. */
module Prism {

  datatype Axis = X | Y | Z

  datatype Point2<F> = Point2(x: F, y: F)

  datatype Point3<F> = Point3(x: F, y: F, z: F)

  datatype Triple = Triple(a: nat, b: nat, c: nat)

  /** The point of the prism over `p` at height `h` along the axis. */
  function Lift<F>(p: Point2<F>, h: F, axis: Axis): Point3<F> {
    match axis
    case X => Point3(h, p.x, p.y)
    case Y => Point3(p.x, h, p.y)
    case Z => Point3(p.x, p.y, h)
  }

  datatype Mesh<F> = Mesh(vertices: seq<Point3<F>>, indices: seq<Triple>)

  predicate InRange<F>(mesh: Mesh<F>) {
    forall t :: 0 <= t < |mesh.indices| ==>
      mesh.indices[t].a < |mesh.vertices| && mesh.indices[t].b < |mesh.vertices| && mesh.indices[t].c < |mesh.vertices|
  }

  /** Where the corners of a triangle are. */
  function Corners<F>(mesh: Mesh<F>, t: nat): (Point3<F>, Point3<F>, Point3<F>)
    requires InRange(mesh) && t < |mesh.indices|
  {
    var i := mesh.indices[t];
    (mesh.vertices[i.a], mesh.vertices[i.b], mesh.vertices[i.c])
  }

  /** The corner after corner `k`, around the polygon. */
  function Following<F>(bottom: seq<Point2<F>>, k: nat): Point2<F>
    requires k < |bottom|
  {
    if k + 1 < |bottom| then bottom[k + 1] else bottom[0]
  }

  /** The two triangles of side `i`: between corner `i` and the next corner of the polygon. */
  function Side<F>(bottom: seq<Point2<F>>, zero: F, h: F, axis: Axis, t: nat): (Point3<F>, Point3<F>, Point3<F>)
    requires t < 2 * |bottom|
  {
    var p, q := bottom[t / 2], Following(bottom, t / 2);
    if t % 2 == 0 then (Lift(p, zero, axis), Lift(q, zero, axis), Lift(p, h, axis))
    else (Lift(p, h, axis), Lift(q, zero, axis), Lift(q, h, axis))
  }

  /** Triangle by triangle and corner by corner, the mesh is the prism over the polygon. */
  predicate IsPrism<F(==)>(mesh: Mesh<F>, bottom: seq<Point2<F>>, zero: F, h: F, axis: Axis) {
    && InRange(mesh)
    && |mesh.indices| == 2 * |bottom|
    && forall t :: 0 <= t < |mesh.indices| ==> Corners(mesh, t) == Side(bottom, zero, h, axis, t)
  }

  /** Indices past the last vertex wrap around. */
  lemma {:induction false} Wraps(x: nat, m: nat)
    requires m > 0 && x < 2 * m
    ensures x % m == if x < m then x else x - m
  {
    if x >= m {
      assert x == m * 1 + (x - m);
    }
  }

  /** The index triples of side `k`, when its vertices start at `j` and the next side's at `next`. */
  predicate SideTriples(indices: seq<Triple>, k: nat, j: nat, next: nat)
    requires 2 * k + 1 < |indices|
  {
    indices[2 * k] == Triple(j, next, j + 1) && indices[2 * k + 1] == Triple(j + 1, next, next + 1)
  }

  predicate Pair<F(==)>(vertices: seq<Point3<F>>, at: nat, p: Point2<F>, zero: F, h: F, axis: Axis)
    requires at + 1 < |vertices|
  {
    vertices[at] == Lift(p, zero, axis) && vertices[at + 1] == Lift(p, h, axis)
  }

  /** Triangle `t` is the prism's. */
  predicate RightTriangle<F(==)>(mesh: Mesh<F>, bottom: seq<Point2<F>>, zero: F, h: F, axis: Axis, t: nat)
    requires t < |mesh.indices| && t < 2 * |bottom|
  {
    var i := mesh.indices[t];
    && i.a < |mesh.vertices| && i.b < |mesh.vertices| && i.c < |mesh.vertices|
    && (mesh.vertices[i.a], mesh.vertices[i.b], mesh.vertices[i.c]) == Side(bottom, zero, h, axis, t)
  }

  lemma {:induction false} SideIsRight<F>(
    mesh: Mesh<F>, bottom: seq<Point2<F>>, zero: F, h: F, axis: Axis, k: nat, j: nat, next: nat)
    requires |mesh.indices| == 2 * |bottom| && k < |bottom| && SideTriples(mesh.indices, k, j, next)
    requires j + 1 < |mesh.vertices| && Pair(mesh.vertices, j, bottom[k], zero, h, axis)
    requires next + 1 < |mesh.vertices| && Pair(mesh.vertices, next, Following(bottom, k), zero, h, axis)
    ensures RightTriangle(mesh, bottom, zero, h, axis, 2 * k) && RightTriangle(mesh, bottom, zero, h, axis, 2 * k + 1)
  {
    assert (2 * k) / 2 == k && (2 * k) % 2 == 0 && (2 * k + 1) / 2 == k && (2 * k + 1) % 2 == 1;
  }

  lemma {:induction false} RightSidesMakePrism<F>(mesh: Mesh<F>, bottom: seq<Point2<F>>, zero: F, h: F, axis: Axis)
    requires |mesh.indices| == 2 * |bottom|
    requires forall k :: 0 <= k < |bottom| ==>
      RightTriangle(mesh, bottom, zero, h, axis, 2 * k) && RightTriangle(mesh, bottom, zero, h, axis, 2 * k + 1)
    ensures IsPrism(mesh, bottom, zero, h, axis)
  {
    forall t: nat | t < |mesh.indices|
      ensures RightTriangle(mesh, bottom, zero, h, axis, t)
    {
      assert t == 2 * (t / 2) || t == 2 * (t / 2) + 1;
    }
    assert InRange(mesh) by {
      forall t: nat | t < |mesh.indices|
        ensures mesh.indices[t].a < |mesh.vertices| && mesh.indices[t].b < |mesh.vertices|
        ensures mesh.indices[t].c < |mesh.vertices|
      {
        assert RightTriangle(mesh, bottom, zero, h, axis, t);
      }
    }
    forall t: nat | t < |mesh.indices|
      ensures Corners(mesh, t) == Side(bottom, zero, h, axis, t)
    {
      assert RightTriangle(mesh, bottom, zero, h, axis, t);
    }
  }

  /** Where the vertices after those of side `k` start in the smooth construction. */
  function SmoothNext(k: nat, n: nat): nat {
    if k + 1 < n then 2 * k + 2 else 0
  }

  method ConstructSmooth<F(==)>(bottom: seq<Point2<F>>, zero: F, h: F, axis: Axis) returns (mesh: Mesh<F>)
    ensures |mesh.vertices| == 2 * |bottom|
    ensures IsPrism(mesh, bottom, zero, h, axis)
  {
    var n := |bottom|;
    var m := n * 2;
    var vertices: seq<Point3<F>> := [];
    var indices: seq<Triple> := [];
    for i := 0 to n
      invariant |vertices| == 2 * i && |indices| == 2 * i
      invariant forall k :: 0 <= k < i ==> Pair(vertices, 2 * k, bottom[k], zero, h, axis)
      invariant forall k :: 0 <= k < i ==> SideTriples(indices, k, 2 * k, SmoothNext(k, n))
    {
      ghost var vs, ts := vertices, indices;
      vertices := vertices + [Lift(bottom[i], zero, axis)];
      vertices := vertices + [Lift(bottom[i], h, axis)];
      var j := i * 2;
      Wraps(j + 2, m);
      Wraps(j + 3, m);
      indices := indices + [Triple(j, (j + 2) % m, j + 1)];
      indices := indices + [Triple(j + 1, (j + 2) % m, (j + 3) % m)];
      assert forall k :: 0 <= k < i ==> Pair(vs, 2 * k, bottom[k], zero, h, axis);
      assert forall k :: 0 <= k < i ==> SideTriples(ts, k, 2 * k, SmoothNext(k, n));
    }
    mesh := Mesh(vertices, indices);
    SmoothIsPrism(mesh, bottom, zero, h, axis);
  }

  lemma {:induction false} SmoothIsPrism<F>(mesh: Mesh<F>, bottom: seq<Point2<F>>, zero: F, h: F, axis: Axis)
    requires |mesh.vertices| == |mesh.indices| == 2 * |bottom|
    requires forall k :: 0 <= k < |bottom| ==> Pair(mesh.vertices, 2 * k, bottom[k], zero, h, axis)
    requires forall k :: 0 <= k < |bottom| ==> SideTriples(mesh.indices, k, 2 * k, SmoothNext(k, |bottom|))
    ensures IsPrism(mesh, bottom, zero, h, axis)
  {
    forall k | 0 <= k < |bottom|
      ensures RightTriangle(mesh, bottom, zero, h, axis, 2 * k) && RightTriangle(mesh, bottom, zero, h, axis, 2 * k + 1)
    {
      var next := if k + 1 < |bottom| then k + 1 else 0;
      assert SmoothNext(k, |bottom|) == 2 * next && Following(bottom, k) == bottom[next];
      assert Pair(mesh.vertices, 2 * next, bottom[next], zero, h, axis);
      SideIsRight(mesh, bottom, zero, h, axis, k, 2 * k, 2 * next);
    }
    RightSidesMakePrism(mesh, bottom, zero, h, axis);
  }

  /** The first vertex is read back at the end, so the polygon must have one. */
  method ConstructFlat<F(==)>(bottom: seq<Point2<F>>, zero: F, h: F, axis: Axis) returns (mesh: Mesh<F>)
    requires bottom != []
    ensures |mesh.vertices| == 4 * |bottom|
    ensures IsPrism(mesh, bottom, zero, h, axis)
  {
    var n := |bottom|;
    var m := n * 4;
    var vertices: seq<Point3<F>> := [];
    var indices: seq<Triple> := [];
    for i := 0 to n
      invariant |vertices| == (if i == 0 then 0 else 4 * i - 2) && |indices| == 2 * i
      invariant forall k :: 0 <= k < i ==> Pair(vertices, 4 * k, bottom[k], zero, h, axis)
      invariant forall k :: 0 < k < i ==> Pair(vertices, 4 * k - 2, bottom[k], zero, h, axis)
      invariant forall k :: 0 <= k < i ==> SideTriples(indices, k, 4 * k, 4 * k + 2)
    {
      ghost var vs, ts := vertices, indices;
      vertices := vertices + [Lift(bottom[i], zero, axis)];
      vertices := vertices + [Lift(bottom[i], h, axis)];
      var j := i * 4;
      if i >= 1 {
        vertices := vertices + [vertices[j - 2]];
        vertices := vertices + [vertices[j - 1]];
      }
      Wraps(j + 2, m);
      Wraps(j + 3, m);
      indices := indices + [Triple(j, (j + 2) % m, j + 1)];
      indices := indices + [Triple(j + 1, (j + 2) % m, (j + 3) % m)];
      FlatKept(vs, vertices, ts, indices, bottom, zero, h, axis, i);
    }
    ghost var open := vertices;
    assert Pair(open, 4 * 0, bottom[0], zero, h, axis);
    vertices := vertices + [vertices[0]];
    vertices := vertices + [vertices[1]];
    mesh := Mesh(vertices, indices);
    FlatIsPrism(mesh, open, bottom, zero, h, axis);
  }

  /** What the earlier sides need is still there after appending. */
  lemma {:induction false} FlatKept<F>(
    vs: seq<Point3<F>>, vertices: seq<Point3<F>>, ts: seq<Triple>, indices: seq<Triple>,
    bottom: seq<Point2<F>>, zero: F, h: F, axis: Axis, i: nat)
    requires vs <= vertices && ts <= indices && i <= |bottom| && |vs| == (if i == 0 then 0 else 4 * i - 2)
    requires |ts| == 2 * i
    requires forall k :: 0 <= k < i ==> Pair(vs, 4 * k, bottom[k], zero, h, axis)
    requires forall k :: 0 < k < i ==> Pair(vs, 4 * k - 2, bottom[k], zero, h, axis)
    requires forall k :: 0 <= k < i ==> SideTriples(ts, k, 4 * k, 4 * k + 2)
    ensures forall k :: 0 <= k < i ==> Pair(vertices, 4 * k, bottom[k], zero, h, axis)
    ensures forall k :: 0 < k < i ==> Pair(vertices, 4 * k - 2, bottom[k], zero, h, axis)
    ensures forall k :: 0 <= k < i ==> SideTriples(indices, k, 4 * k, 4 * k + 2)
  {
    forall k | 0 <= k < i
      ensures Pair(vertices, 4 * k, bottom[k], zero, h, axis) && SideTriples(indices, k, 4 * k, 4 * k + 2)
    {
      assert Pair(vs, 4 * k, bottom[k], zero, h, axis) && SideTriples(ts, k, 4 * k, 4 * k + 2);
    }
    forall k | 0 < k < i
      ensures Pair(vertices, 4 * k - 2, bottom[k], zero, h, axis)
    {
      assert Pair(vs, 4 * k - 2, bottom[k], zero, h, axis);
    }
  }

  lemma {:induction false} FlatIsPrism<F>(
    mesh: Mesh<F>, open: seq<Point3<F>>, bottom: seq<Point2<F>>, zero: F, h: F, axis: Axis)
    requires bottom != [] && |open| == 4 * |bottom| - 2 && mesh.vertices == open + [open[0]] + [open[1]]
    requires |mesh.indices| == 2 * |bottom|
    requires forall k :: 0 <= k < |bottom| ==> Pair(open, 4 * k, bottom[k], zero, h, axis)
    requires forall k :: 0 < k < |bottom| ==> Pair(open, 4 * k - 2, bottom[k], zero, h, axis)
    requires forall k :: 0 <= k < |bottom| ==> SideTriples(mesh.indices, k, 4 * k, 4 * k + 2)
    ensures IsPrism(mesh, bottom, zero, h, axis)
  {
    forall k | 0 <= k < |bottom|
      ensures RightTriangle(mesh, bottom, zero, h, axis, 2 * k) && RightTriangle(mesh, bottom, zero, h, axis, 2 * k + 1)
    {
      FlatPairs(mesh.vertices, open, bottom, zero, h, axis, k);
      SideIsRight(mesh, bottom, zero, h, axis, k, 4 * k, 4 * k + 2);
    }
    RightSidesMakePrism(mesh, bottom, zero, h, axis);
  }

  /** The two pairs of side `k`; the last side's second pair is the first side's first. */
  lemma {:induction false} FlatPairs<F>(
    vertices: seq<Point3<F>>, open: seq<Point3<F>>, bottom: seq<Point2<F>>, zero: F, h: F, axis: Axis, k: nat)
    requires k < |bottom| && |open| == 4 * |bottom| - 2 && vertices == open + [open[0]] + [open[1]]
    requires forall k :: 0 <= k < |bottom| ==> Pair(open, 4 * k, bottom[k], zero, h, axis)
    requires forall k :: 0 < k < |bottom| ==> Pair(open, 4 * k - 2, bottom[k], zero, h, axis)
    ensures Pair(vertices, 4 * k, bottom[k], zero, h, axis)
    ensures Pair(vertices, 4 * k + 2, Following(bottom, k), zero, h, axis)
  {
    assert Pair(open, 4 * k, bottom[k], zero, h, axis);
    if k + 1 < |bottom| {
      assert Pair(open, 4 * (k + 1) - 2, bottom[k + 1], zero, h, axis);
    } else {
      assert Pair(open, 4 * 0, bottom[0], zero, h, axis);
    }
  }

  /** The constructor: either construction, as asked. */
  method Stretch<F(==)>(bottom: seq<Point2<F>>, zero: F, h: F, axis: Axis, smooth: bool) returns (mesh: Mesh<F>)
    requires smooth || bottom != []
    ensures |mesh.vertices| == (if smooth then 2 else 4) * |bottom|
    ensures IsPrism(mesh, bottom, zero, h, axis)
  {
    if smooth {
      mesh := ConstructSmooth(bottom, zero, h, axis);
    } else {
      mesh := ConstructFlat(bottom, zero, h, axis);
    }
  }

  /** Side `k` in coordinates: two triangles between corner `k` and the next one around the
      polygon, the polygon's coordinates kept in order and the height at the axis. */
  lemma {:induction false} SideInCoordinates<F>(
    mesh: Mesh<F>, bottom: seq<Point2<F>>, zero: F, h: F, axis: Axis, k: nat)
    requires IsPrism(mesh, bottom, zero, h, axis) && k < |bottom|
    ensures var p, q := bottom[k], bottom[(k + 1) % |bottom|];
      && (axis == Z ==>
            && Corners(mesh, 2 * k) == (Point3(p.x, p.y, zero), Point3(q.x, q.y, zero), Point3(p.x, p.y, h))
            && Corners(mesh, 2 * k + 1) == (Point3(p.x, p.y, h), Point3(q.x, q.y, zero), Point3(q.x, q.y, h)))
      && (axis == Y ==>
            && Corners(mesh, 2 * k) == (Point3(p.x, zero, p.y), Point3(q.x, zero, q.y), Point3(p.x, h, p.y))
            && Corners(mesh, 2 * k + 1) == (Point3(p.x, h, p.y), Point3(q.x, zero, q.y), Point3(q.x, h, q.y)))
      && (axis == X ==>
            && Corners(mesh, 2 * k) == (Point3(zero, p.x, p.y), Point3(zero, q.x, q.y), Point3(h, p.x, p.y))
            && Corners(mesh, 2 * k + 1) == (Point3(h, p.x, p.y), Point3(zero, q.x, q.y), Point3(h, q.x, q.y)))
  {
    Wraps(k + 1, |bottom|);
    assert (2 * k) / 2 == k && (2 * k) % 2 == 0 && (2 * k + 1) / 2 == k && (2 * k + 1) % 2 == 1;
    assert Corners(mesh, 2 * k) == Side(bottom, zero, h, axis, 2 * k);
    assert Corners(mesh, 2 * k + 1) == Side(bottom, zero, h, axis, 2 * k + 1);
  }

  /** Both constructions of one polygon have the same triangles, corner by corner. */
  lemma {:induction false} SameTriangles<F>(
    flat: Mesh<F>, smooth: Mesh<F>, bottom: seq<Point2<F>>, zero: F, h: F, axis: Axis, t: nat)
    requires IsPrism(flat, bottom, zero, h, axis) && IsPrism(smooth, bottom, zero, h, axis) && t < 2 * |bottom|
    ensures |flat.indices| == |smooth.indices| && Corners(flat, t) == Corners(smooth, t)
  {
  }
}
