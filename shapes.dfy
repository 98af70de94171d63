/**
 * The mesh data of `src/shapes.h`: the constant vertex and index tables
 * (`axis`, `plane`, `cube`, `cubeIndices`) and the cube-sphere generator,
 * which splits each face of a cube into `4^subdivisions` quads, projects
 * their corners onto the unit sphere with `normalize` and appends two
 * triangles per quad to a vertex list.
 */
module Shapes {
  import opened Vectors
  import opened Components

  /** A vertex with the given position and normal and a zero texture coordinate. */
  function V(pos: Vec3, normal: Vec3): Vertex { Vertex(pos, normal, Zero2) }

  function Dot(a: Vec3, b: Vec3): real { a.x * b.x + a.y * b.y + a.z * b.z }

  /** One of the six unit vectors along the coordinate axes. */
  predicate IsAxisUnit(n: Vec3)
  {
    n in {Vec3(1.0, 0.0, 0.0), Vec3(-1.0, 0.0, 0.0), Vec3(0.0, 1.0, 0.0),
          Vec3(0.0, -1.0, 0.0), Vec3(0.0, 0.0, 1.0), Vec3(0.0, 0.0, -1.0)}
  }

  /** `axis`: three line segments from the origin along x, y and z. */
  const AXIS: seq<Vertex> := [
    V(Zero, Vec3(1.0, 0.0, 0.0)), V(Vec3(1.0, 0.0, 0.0), Vec3(1.0, 0.0, 0.0)),
    V(Zero, Vec3(0.0, 1.0, 0.0)), V(Vec3(0.0, 1.0, 0.0), Vec3(0.0, 1.0, 0.0)),
    V(Zero, Vec3(0.0, 0.0, 1.0)), V(Vec3(0.0, 0.0, 1.0), Vec3(0.0, 0.0, 1.0))]

  /** `plane`: a unit square in the y = 0 plane as two triangles. */
  const PLANE: seq<Vertex> := [
    V(Vec3(0.5, 0.0, -0.5), Vec3(0.0, 1.0, 0.0)),
    V(Vec3(-0.5, 0.0, -0.5), Vec3(0.0, 1.0, 0.0)),
    V(Vec3(-0.5, 0.0, 0.5), Vec3(0.0, 1.0, 0.0)),
    V(Vec3(-0.5, 0.0, 0.5), Vec3(0.0, 1.0, 0.0)),
    V(Vec3(0.5, 0.0, 0.5), Vec3(0.0, 1.0, 0.0)),
    V(Vec3(0.5, 0.0, -0.5), Vec3(0.0, 1.0, 0.0))]

  /** `cube`: the unit cube, four vertices per face, each face with its own normal. */
  const CUBE: seq<Vertex> := [
    V(Vec3(-0.5, 0.5, 0.5), Vec3(0.0, 0.0, 1.0)),
    V(Vec3(-0.5, -0.5, 0.5), Vec3(0.0, 0.0, 1.0)),
    V(Vec3(0.5, -0.5, 0.5), Vec3(0.0, 0.0, 1.0)),
    V(Vec3(0.5, 0.5, 0.5), Vec3(0.0, 0.0, 1.0)),

    V(Vec3(0.5, 0.5, -0.5), Vec3(0.0, 0.0, -1.0)),
    V(Vec3(0.5, -0.5, -0.5), Vec3(0.0, 0.0, -1.0)),
    V(Vec3(-0.5, -0.5, -0.5), Vec3(0.0, 0.0, -1.0)),
    V(Vec3(-0.5, 0.5, -0.5), Vec3(0.0, 0.0, -1.0)),

    V(Vec3(0.5, -0.5, 0.5), Vec3(1.0, 0.0, 0.0)),
    V(Vec3(0.5, -0.5, -0.5), Vec3(1.0, 0.0, 0.0)),
    V(Vec3(0.5, 0.5, -0.5), Vec3(1.0, 0.0, 0.0)),
    V(Vec3(0.5, 0.5, 0.5), Vec3(1.0, 0.0, 0.0)),

    V(Vec3(-0.5, 0.5, 0.5), Vec3(-1.0, 0.0, 0.0)),
    V(Vec3(-0.5, 0.5, -0.5), Vec3(-1.0, 0.0, 0.0)),
    V(Vec3(-0.5, -0.5, -0.5), Vec3(-1.0, 0.0, 0.0)),
    V(Vec3(-0.5, -0.5, 0.5), Vec3(-1.0, 0.0, 0.0)),

    V(Vec3(0.5, 0.5, -0.5), Vec3(0.0, 1.0, 0.0)),
    V(Vec3(-0.5, 0.5, -0.5), Vec3(0.0, 1.0, 0.0)),
    V(Vec3(-0.5, 0.5, 0.5), Vec3(0.0, 1.0, 0.0)),
    V(Vec3(0.5, 0.5, 0.5), Vec3(0.0, 1.0, 0.0)),

    V(Vec3(0.5, -0.5, 0.5), Vec3(0.0, -1.0, 0.0)),
    V(Vec3(-0.5, -0.5, 0.5), Vec3(0.0, -1.0, 0.0)),
    V(Vec3(-0.5, -0.5, -0.5), Vec3(0.0, -1.0, 0.0)),
    V(Vec3(0.5, -0.5, -0.5), Vec3(0.0, -1.0, 0.0))]

  /** `cubeIndices`: two triangles per face of `cube`. */
  const CUBE_INDICES: seq<nat> := [
    0, 1, 3, 1, 2, 3,
    4, 5, 7, 5, 6, 7,
    8, 9, 11, 9, 10, 11,
    12, 13, 15, 13, 14, 15,
    16, 17, 19, 17, 18, 19,
    20, 21, 23, 21, 22, 23]

  /** The triangles of one quad `(0, 1, 2, 3)`: `(0, 1, 3)` and `(1, 2, 3)`. */
  const QUAD_TRIANGLES: seq<nat> := [0, 1, 3, 1, 2, 3]

  /** `axis` starts each segment at the origin and ends it one unit along its normal. */
  lemma AxisSegments()
    ensures |AXIS| == 6
    ensures forall i :: 0 <= i < |AXIS| ==>
      IsAxisUnit(AXIS[i].normal) && AXIS[i].normal == AXIS[i - i % 2].normal &&
      AXIS[i].pos == (if i % 2 == 0 then Zero else AXIS[i].normal)
  {
    forall i | 0 <= i < 6
      ensures IsAxisUnit(AXIS[i].normal) && AXIS[i].normal == AXIS[i - i % 2].normal &&
              AXIS[i].pos == (if i % 2 == 0 then Zero else AXIS[i].normal)
    {
      assert i in {0, 1, 2, 3, 4, 5};
    }
  }

  /**
   * `plane` lies in y = 0 with the up normal, inside the unit square, and
   * its two triangles share the diagonal from its third to its first vertex.
   */
  lemma PlaneFacesUp()
    ensures |PLANE| == 6 && PLANE[3] == PLANE[2] && PLANE[5] == PLANE[0]
    ensures forall v :: v in PLANE ==>
      v.normal == Vec3(0.0, 1.0, 0.0) && v.pos.y == 0.0 &&
      (v.pos.x == 0.5 || v.pos.x == -0.5) && (v.pos.z == 0.5 || v.pos.z == -0.5)
  {
  }

  /** A vertex on a face of the cube `[-0.5, 0.5]^3` whose outward normal it carries. */
  predicate OnCubeFace(v: Vertex)
  {
    IsAxisUnit(v.normal) && Dot(v.pos, v.normal) == 0.5 &&
    (v.pos.x == 0.5 || v.pos.x == -0.5) && (v.pos.y == 0.5 || v.pos.y == -0.5) &&
    (v.pos.z == 0.5 || v.pos.z == -0.5)
  }

  /**
   * Every vertex of `cube` is a corner of the unit cube lying on the face
   * its axis-aligned normal points out of.
   */
  lemma CubeOnFaces()
    ensures |CUBE| == 24
    ensures forall i :: 0 <= i < |CUBE| ==> OnCubeFace(CUBE[i])
  {
    forall i | 0 <= i < 24 ensures OnCubeFace(CUBE[i]) {
      if i < 8 {
        assert i in {0, 1, 2, 3, 4, 5, 6, 7};
      } else if i < 16 {
        assert i in {8, 9, 10, 11, 12, 13, 14, 15};
      } else {
        assert i in {16, 17, 18, 19, 20, 21, 22, 23};
      }
    }
  }

  /** The four vertices of each face of `cube` share one normal. */
  lemma CubeFaceNormals()
    ensures forall i :: 0 <= i < |CUBE| ==> CUBE[i].normal == CUBE[i - i % 4].normal
  {
    forall i | 0 <= i < 24 ensures CUBE[i].normal == CUBE[i - i % 4].normal {
      if i < 12 {
        assert i in {0, 1, 2, 3, 4, 5, 6, 7, 8, 9, 10, 11};
      } else {
        assert i in {12, 13, 14, 15, 16, 17, 18, 19, 20, 21, 22, 23};
      }
    }
  }

  /**
   * `cubeIndices` holds 36 indices into `cube`, six per face: entry `i`
   * refers to face `i / 6` and draws that face's quad as the triangles
   * `(0, 1, 3)` and `(1, 2, 3)`.
   */
  lemma CubeIndicesDrawFaces()
    ensures |CUBE_INDICES| == 36
    ensures forall i :: 0 <= i < |CUBE_INDICES| ==> CUBE_INDICES[i] < |CUBE|
    ensures forall i :: 0 <= i < |CUBE_INDICES| ==>
      CUBE_INDICES[i] == 4 * (i / 6) + QUAD_TRIANGLES[i % 6]
  {
    forall i | 0 <= i < 36 ensures CUBE_INDICES[i] == 4 * (i / 6) + QUAD_TRIANGLES[i % 6] {
      CubeIndexEntry(i);
    }
  }

  lemma CubeIndexEntry(i: nat)
    requires i < 36
    ensures CUBE_INDICES[i] == 4 * (i / 6) + QUAD_TRIANGLES[i % 6]
  {
    if i < 12 {
      assert i in {0, 1, 2, 3, 4, 5, 6, 7, 8, 9, 10, 11};
    } else if i < 24 {
      assert i in {12, 13, 14, 15, 16, 17, 18, 19, 20, 21, 22, 23};
    } else {
      assert i in {24, 25, 26, 27, 28, 29, 30, 31, 32, 33, 34, 35};
    }
  }

  // ---------------------------------------------------------------------
  // The cube sphere
  // ---------------------------------------------------------------------

  /** Four corners in counter-clockwise order (`std::array<glm::vec3, 4>`). */
  type Quad = q: seq<Vec3> | |q| == 4 witness [Zero, Zero, Zero, Zero]

  /** The point halfway from `a` to `b`, as `a + (b - a) * 0.5`. */
  function Mid(a: Vec3, b: Vec3): Vec3 { Add(a, Scale(Sub(b, a), 0.5)) }

  /** Corner `j` of sub-quad `i`: corner `i` itself, or corner `j` moved halfway towards it. */
  function SubCorner(points: Quad, i: nat, j: nat): Vec3
    requires i < 4 && j < 4
  {
    if j == i then points[i] else Mid(points[i], points[j])
  }

  /**
   * Sub-quad `i` of a subdivision: it keeps corner `i` at index `i` and
   * moves every other corner halfway towards it, so the corners stay in
   * counter-clockwise order.
   */
  function SubQuad(points: Quad, i: nat): Quad
    requires i < 4
  {
    [SubCorner(points, i, 0), SubCorner(points, i, 1), SubCorner(points, i, 2), SubCorner(points, i, 3)]
  }

  /** The indices `i + k` modulo 4 that the subdivision writes. */
  lemma RotatedIndices(i: nat)
    requires i < 4
    ensures i % 4 == i
    ensures (i + 1) % 4 == if i < 3 then i + 1 else i - 3
    ensures (i + 2) % 4 == if i < 2 then i + 2 else i - 2
    ensures (i + 3) % 4 == if i < 1 then i + 3 else i - 1
  {
  }

  /**
   * The loop body's construction of `newPoints`: indices `i`, `i + 1`,
   * `i + 2` and `i + 3` taken modulo 4 are written in turn.
   */
  method NewPoints(points: Quad, i: nat) returns (newPoints: Quad)
    requires i < 4
    ensures newPoints == SubQuad(points, i)
    ensures newPoints[i] == points[i]
    ensures forall j :: 0 <= j < 4 && j != i ==> newPoints[j] == Mid(points[i], points[j])
  {
    RotatedIndices(i);
    newPoints := [Zero, Zero, Zero, Zero];
    newPoints := newPoints[i % 4 := points[i]];
    newPoints := newPoints[(i + 1) % 4 := Mid(points[i], points[(i + 1) % 4])];
    newPoints := newPoints[(i + 2) % 4 := Mid(points[i], points[(i + 2) % 4])];
    newPoints := newPoints[(i + 3) % 4 := Mid(points[i], points[(i + 3) % 4])];
  }

  /** A vertex on the unit sphere: its normal is its position. */
  function OnSphere(p: Vec3): Vertex { Vertex(p, p, Zero2) }

  /** The corners projected onto the unit sphere. */
  function Projected(num: Numerics, points: Quad): Quad
  {
    [num.normalize(points[0]), num.normalize(points[1]), num.normalize(points[2]), num.normalize(points[3])]
  }

  /** The two triangles `(p0, p1, p2)` and `(p2, p3, p0)` of a projected quad. */
  function Tile(q: Quad): seq<Vertex>
  {
    [OnSphere(q[0]), OnSphere(q[1]), OnSphere(q[2]), OnSphere(q[2]), OnSphere(q[3]), OnSphere(q[0])]
  }

  /** What `sphereSide(points, subdivisions)` appends. */
  function SideVertices(num: Numerics, points: Quad, subdivisions: nat): seq<Vertex>
    decreases subdivisions, 0
  {
    if subdivisions == 0 then Tile(Projected(num, points))
    else SubQuadVertices(num, points, subdivisions - 1, 4)
  }

  /** What the first `n` passes of the subdivision loop append, each sub-quad at `subdivisions`. */
  function SubQuadVertices(num: Numerics, points: Quad, subdivisions: nat, n: nat): seq<Vertex>
    requires n <= 4
    decreases subdivisions, n + 1
  {
    if n == 0 then []
    else SubQuadVertices(num, points, subdivisions, n - 1) + SideVertices(num, SubQuad(points, n - 1), subdivisions)
  }

  function Pow4(n: nat): (r: nat)
    ensures r >= 1
  {
    if n == 0 then 1 else 4 * Pow4(n - 1)
  }

  lemma OneMoreBlock(n: nat, block: nat)
    requires 0 < n
    ensures (n - 1) * block + block == n * block
  {
  }

  /** A side at `subdivisions` consists of `4^subdivisions` tiles of 6 vertices. */
  lemma {:induction false} SideCount(num: Numerics, points: Quad, subdivisions: nat)
    ensures |SideVertices(num, points, subdivisions)| == 6 * Pow4(subdivisions)
    decreases subdivisions, 0
  {
    if subdivisions > 0 {
      SubQuadCount(num, points, subdivisions - 1, 4);
      assert 4 * (6 * Pow4(subdivisions - 1)) == 6 * Pow4(subdivisions);
    }
  }

  lemma {:induction false} SubQuadCount(num: Numerics, points: Quad, subdivisions: nat, n: nat)
    requires n <= 4
    ensures |SubQuadVertices(num, points, subdivisions, n)| == n * (6 * Pow4(subdivisions))
    decreases subdivisions, n + 1
  {
    if n > 0 {
      var block := 6 * Pow4(subdivisions);
      SubQuadCount(num, points, subdivisions, n - 1);
      assert |SideVertices(num, SubQuad(points, n - 1), subdivisions)| == block by {
        SideCount(num, SubQuad(points, n - 1), subdivisions);
      }
      OneMoreBlock(n, block);
    }
  }

  /**
   * Every appended vertex lies on the sphere as `normalize` places it: its
   * normal equals its position, which is the projection of some point, and
   * its texture coordinate is zero.
   */
  ghost predicate Spherical(num: Numerics, vs: seq<Vertex>)
  {
    forall k :: 0 <= k < |vs| ==>
      vs[k].normal == vs[k].pos && vs[k].uv == Zero2 && exists p :: vs[k].pos == num.normalize(p)
  }

  lemma {:induction false} SideSpherical(num: Numerics, points: Quad, subdivisions: nat)
    ensures Spherical(num, SideVertices(num, points, subdivisions))
    decreases subdivisions, 0
  {
    if subdivisions == 0 {
      var q := Projected(num, points);
      forall k | 0 <= k < 6 ensures exists p :: Tile(q)[k].pos == num.normalize(p) {
        var j := [0, 1, 2, 2, 3, 0][k];
        assert Tile(q)[k].pos == num.normalize(points[j]);
      }
    } else {
      SubQuadSpherical(num, points, subdivisions - 1, 4);
    }
  }

  lemma {:induction false} SubQuadSpherical(num: Numerics, points: Quad, subdivisions: nat, n: nat)
    requires n <= 4
    ensures Spherical(num, SubQuadVertices(num, points, subdivisions, n))
    decreases subdivisions, n + 1
  {
    if n > 0 {
      SubQuadSpherical(num, points, subdivisions, n - 1);
      SideSpherical(num, SubQuad(points, n - 1), subdivisions);
      SphericalAppend(num, SubQuadVertices(num, points, subdivisions, n - 1),
                      SideVertices(num, SubQuad(points, n - 1), subdivisions));
    }
  }

  lemma SphericalAppend(num: Numerics, a: seq<Vertex>, b: seq<Vertex>)
    requires Spherical(num, a) && Spherical(num, b)
    ensures Spherical(num, a + b)
  {
    forall k | 0 <= k < |a + b|
      ensures (a + b)[k].normal == (a + b)[k].pos && (a + b)[k].uv == Zero2 &&
              exists p :: (a + b)[k].pos == num.normalize(p)
    {
      if k < |a| {
        assert (a + b)[k] == a[k];
      } else {
        assert (a + b)[k] == b[k - |a|];
      }
    }
  }

  /**
   * A subdivided side is its four sub-quads' sides one after the other:
   * the vertices of sub-quad `i` (corner `points[i]` kept) occupy block `i`.
   */
  lemma SubdividedLayout(num: Numerics, points: Quad, subdivisions: nat, i: nat)
    requires 0 < subdivisions && i < 4
    ensures var block := 6 * Pow4(subdivisions - 1);
      var side := SideVertices(num, points, subdivisions);
      |side| == 4 * block && side[i * block..(i + 1) * block] == SideVertices(num, SubQuad(points, i), subdivisions - 1)
  {
    var s := subdivisions - 1;
    var block := 6 * Pow4(s);
    var side := SideVertices(num, points, subdivisions);
    var earlier := SubQuadVertices(num, points, s, i);
    var own := SideVertices(num, SubQuad(points, i), s);
    assert side == SubQuadVertices(num, points, s, 4);
    assert |side| == 4 * block by {
      SubQuadCount(num, points, s, 4);
    }
    assert |earlier| == i * block by {
      SubQuadCount(num, points, s, i);
    }
    assert |own| == block by {
      SideCount(num, SubQuad(points, i), s);
    }
    assert |earlier| + |own| == (i + 1) * block by {
      OneMoreBlock(i + 1, block);
    }
    assert side[..|earlier| + |own|] == earlier + own by {
      PrefixOfSubQuads(num, points, s, i + 1, 4);
    }
    SliceAfterPrefix(side, earlier, own);
  }

  /** When `a + b` begins `s`, the slice of `s` after `a` of length `|b|` is `b`. */
  lemma SliceAfterPrefix(s: seq<Vertex>, a: seq<Vertex>, b: seq<Vertex>)
    requires |a| + |b| <= |s| && s[..|a| + |b|] == a + b
    ensures s[|a|..|a| + |b|] == b
  {
    assert s[|a|..|a| + |b|] == (a + b)[|a|..];
  }

  /** The vertices of the first `m` sub-quads begin those of the first `n`. */
  lemma {:induction false} PrefixOfSubQuads(num: Numerics, points: Quad, subdivisions: nat, m: nat, n: nat)
    requires m <= n <= 4
    ensures var longer := SubQuadVertices(num, points, subdivisions, n);
      var shorter := SubQuadVertices(num, points, subdivisions, m);
      |shorter| <= |longer| && longer[..|shorter|] == shorter
    decreases n
  {
    if m < n {
      PrefixOfSubQuads(num, points, subdivisions, m, n - 1);
    }
  }

  /** The vertex list `sphereSide` appends to (`std::vector<vertex>&`). */
  class VertexList {
    var vertices: seq<Vertex>

    constructor ()
      ensures vertices == []
    {
      vertices := [];
    }
  }

  lemma ConcatAssoc(a: seq<Vertex>, b: seq<Vertex>, c: seq<Vertex>)
    ensures (a + b) + c == a + (b + c)
  {
  }

  /**
   * `sphereSide(vList, points, subdivisions)`: appends the side's triangles
   * at the end of the list, leaving what it held before untouched.
   */
  method SphereSide(num: Numerics, vList: VertexList, points: Quad, subdivisions: nat)
    modifies vList
    ensures vList.vertices == old(vList.vertices) + SideVertices(num, points, subdivisions)
    decreases subdivisions
  {
    if subdivisions > 0 {
      for i := 0 to 4
        invariant vList.vertices == old(vList.vertices) + SubQuadVertices(num, points, subdivisions - 1, i)
      {
        var newPoints := NewPoints(points, i);
        SphereSide(num, vList, newPoints, subdivisions - 1);
        ConcatAssoc(old(vList.vertices), SubQuadVertices(num, points, subdivisions - 1, i),
                    SideVertices(num, SubQuad(points, i), subdivisions - 1));
      }
    } else {
      var q := Project(num, points);
      vList.vertices := vList.vertices + [
        Vertex(q[0], q[0], Zero2), Vertex(q[1], q[1], Zero2), Vertex(q[2], q[2], Zero2),
        Vertex(q[2], q[2], Zero2), Vertex(q[3], q[3], Zero2), Vertex(q[0], q[0], Zero2)];
    }
  }

  /** The base case's loop normalizing the four corners in place. */
  method Project(num: Numerics, points: Quad) returns (q: Quad)
    ensures q == Projected(num, points)
  {
    q := points;
    for i := 0 to 4
      invariant forall j :: 0 <= j < i ==> q[j] == num.normalize(points[j])
      invariant forall j :: i <= j < 4 ==> q[j] == points[j]
    {
      q := q[i := num.normalize(q[i])];
    }
  }

  /** The corners of the six cube faces `cubeSphere` starts from, four per face. */
  const SIDE_CORNERS: seq<Vec3> := [
    Vec3(-1.0, 1.0, 1.0), Vec3(-1.0, -1.0, 1.0), Vec3(1.0, -1.0, 1.0), Vec3(1.0, 1.0, 1.0),
    Vec3(1.0, 1.0, 1.0), Vec3(1.0, -1.0, 1.0), Vec3(1.0, -1.0, -1.0), Vec3(1.0, 1.0, -1.0),
    Vec3(1.0, 1.0, -1.0), Vec3(1.0, -1.0, -1.0), Vec3(-1.0, -1.0, -1.0), Vec3(-1.0, 1.0, -1.0),
    Vec3(-1.0, 1.0, -1.0), Vec3(-1.0, -1.0, -1.0), Vec3(-1.0, -1.0, 1.0), Vec3(-1.0, 1.0, 1.0),
    Vec3(-1.0, 1.0, -1.0), Vec3(-1.0, 1.0, 1.0), Vec3(1.0, 1.0, 1.0), Vec3(1.0, 1.0, -1.0),
    Vec3(-1.0, -1.0, 1.0), Vec3(-1.0, -1.0, -1.0), Vec3(1.0, -1.0, -1.0), Vec3(1.0, -1.0, 1.0)]

  /** The corners of face `side`. */
  function Side(side: nat): Quad
    requires side < 6
  {
    SIDE_CORNERS[4 * side..4 * side + 4]
  }

  /** Every starting corner is a corner of the cube `[-1, 1]^3`. */
  lemma SideCornersOnCube()
    ensures |SIDE_CORNERS| == 24
    ensures forall c :: c in SIDE_CORNERS ==>
      (c.x == 1.0 || c.x == -1.0) && (c.y == 1.0 || c.y == -1.0) && (c.z == 1.0 || c.z == -1.0)
  {
  }

  /** What `cubeSphere(subdivisions)` returns after its first `n` sides. */
  function CubeSphereVertices(num: Numerics, subdivisions: nat, n: nat): seq<Vertex>
    requires n <= 6
  {
    if n == 0 then [] else CubeSphereVertices(num, subdivisions, n - 1) + SideVertices(num, Side(n - 1), subdivisions)
  }

  /** The first `n` sides of the cube sphere hold `n * 6 * 4^subdivisions` vertices. */
  lemma {:induction false} CubeSphereCount(num: Numerics, subdivisions: nat, n: nat)
    requires n <= 6
    ensures |CubeSphereVertices(num, subdivisions, n)| == n * (6 * Pow4(subdivisions))
  {
    if n > 0 {
      var block := 6 * Pow4(subdivisions);
      CubeSphereCount(num, subdivisions, n - 1);
      var q := Side(n - 1);
      assert |SideVertices(num, q, subdivisions)| == block by {
        SideCount(num, q, subdivisions);
      }
      OneMoreBlock(n, block);
    }
  }

  /** Every vertex of the cube sphere lies on the sphere. */
  lemma {:induction false} CubeSphereSpherical(num: Numerics, subdivisions: nat, n: nat)
    requires n <= 6
    ensures Spherical(num, CubeSphereVertices(num, subdivisions, n))
  {
    if n > 0 {
      CubeSphereSpherical(num, subdivisions, n - 1);
      var q := Side(n - 1);
      assert Spherical(num, SideVertices(num, q, subdivisions)) by {
        SideSpherical(num, q, subdivisions);
      }
      SphericalAppend(num, CubeSphereVertices(num, subdivisions, n - 1), SideVertices(num, q, subdivisions));
    }
  }

  /** The base case's copy of one face's corners out of the table. */
  method SideCopy(side: nat) returns (points: Quad)
    requires side < 6
    ensures points == Side(side)
  {
    points := [Zero, Zero, Zero, Zero];
    for j := 0 to 4
      invariant forall k :: 0 <= k < j ==> points[k] == SIDE_CORNERS[side * 4 + k]
    {
      points := points[j := SIDE_CORNERS[side * 4 + j]];
    }
  }

  /** `cubeSphere(subdivisions)`: the six sides, each copied into `points` and subdivided. */
  method CubeSphere(num: Numerics, subdivisions: nat) returns (vertices: seq<Vertex>)
    ensures vertices == CubeSphereVertices(num, subdivisions, 6)
    ensures |vertices| == 36 * Pow4(subdivisions) && Spherical(num, vertices)
  {
    var list := new VertexList();
    for side := 0 to 6
      invariant list.vertices == CubeSphereVertices(num, subdivisions, side)
    {
      var points := SideCopy(side);
      SphereSide(num, list, points, subdivisions);
    }
    vertices := list.vertices;
    CubeSphereCount(num, subdivisions, 6);
    CubeSphereSpherical(num, subdivisions, 6);
  }
}
