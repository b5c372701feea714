/** The earlier JavaScript prototype, `sierpinski.js`: its `tetrahedron`
    returns only the four corners of one tetrahedron, and its `geometry` draws
    the faces through a constant index list over those corners. The index list
    is related here to the face list the other two versions write out. */
module PrototypeSierpinski {
  import opened Points
  import Rust = RustSierpinski
  import Web = WebSierpinski

  /** `tetrahedron`: the corners `p0, p1, p2, p3` around the first three
      numbers of `base`, as 12 numbers. */
  function Tetrahedron(base: seq<real>, scale: real, rt: Roots): (r: seq<real>)
    requires |base| >= 3
    ensures |r| == 12
  {
    var x, y, z := base[0], base[1], base[2];
    var dy := scale * rt.sqrt3 / 2.0;
    var dx := scale * -0.5;
    var p0 := [x + scale, y, z];
    var p1 := [x + dx, y + dy, z];
    var p2 := [x + dx, y - dy, z];
    var p3 := [x, y, z + scale * rt.sqrt2];
    Concat([p0, p1, p2, p3])
  }

  /** The prototype's corners are the Rust `tetrahedron_raw` corners, in the
      same order: point `m` of the output is corner `m`. */
  lemma TetrahedronCorners(base: seq<real>, scale: real, rt: Roots)
    requires |base| >= 3
    ensures Tetrahedron(base, scale, rt) == Flatten(Rust.TetrahedronRaw(Head(base), scale, rt))
    ensures forall m :: 0 <= m < 4 ==>
      PointAt(Tetrahedron(base, scale, rt), m) == Rust.TetrahedronRaw(Head(base), scale, rt)[m]
  {
    var c := Head(base);
    var cs := Rust.TetrahedronRaw(c, scale, rt);
    var dy := scale * rt.sqrt3 / 2.0;
    var dx := scale * -0.5;
    assert dy == scale * rt.sqrt3 * 0.5;
    Rust.RawCorners(c, scale, rt);
    var p0, p1, p2, p3 := Flat(cs[0]), Flat(cs[1]), Flat(cs[2]), Flat(cs[3]);
    assert p0 == [c.x + scale, c.y, c.z];
    assert p1 == [c.x + dx, c.y + dy, c.z];
    assert p2 == [c.x + dx, c.y - dy, c.z];
    assert p3 == [c.x, c.y, c.z + scale * rt.sqrt2];
    ConcatFlat([p0, p1, p2, p3], cs);
    forall m | 0 <= m < 4
      ensures PointAt(Flatten(cs), m) == cs[m]
    {
      FlattenPointAt(cs, m);
    }
  }

  /** The index list of `geometry`: face `k` is corners
      `FaceIndices[3k], FaceIndices[3k+1], FaceIndices[3k+2]`. */
  const FaceIndices: seq<int> := [0, 2, 1]
                                + [0, 1, 3]
                                + [0, 3, 2]
                                + [1, 2, 3]

  /** The three corner indices of face `g`. */
  function Face(g: nat): seq<int>
    requires g < 4
  {
    FaceIndices[3 * g..3 * g + 3]
  }

  /** The index list has twelve entries, three per face, and they all name one
      of the four corners. */
  lemma FaceIndicesRange()
    ensures |FaceIndices| == 12
    ensures forall k :: 0 <= k < |FaceIndices| ==> 0 <= FaceIndices[k] < 4
  {
  }

  /** Each face uses three distinct corners, and face `g` leaves out corner
      `3 - g`. */
  lemma FaceGroups()
    ensures forall g :: 0 <= g < 4 ==> Face(g)[0] != Face(g)[1] && Face(g)[0] != Face(g)[2] && Face(g)[1] != Face(g)[2]
    ensures forall g, i :: 0 <= g < 4 && 0 <= i < 4 ==> (i in Face(g) <==> i != 3 - g)
  {
    FaceValues();
  }

  /** The four groups of the index list. */
  lemma FaceValues()
    ensures Face(0) == [0, 2, 1] && Face(1) == [0, 1, 3] && Face(2) == [0, 3, 2] && Face(3) == [1, 2, 3]
  {
    QuarterSlices([0, 2, 1], [0, 1, 3], [0, 3, 2], [1, 2, 3], 3);
  }

  /** How many entries of `xs` equal `v`. */
  function Count(xs: seq<int>, v: int): (n: nat)
    ensures n <= |xs|
  {
    if xs == [] then 0 else (if xs[0] == v then 1 else 0) + Count(xs[1..], v)
  }

  /** Count is the multiplicity in the multiset of the entries. */
  lemma {:induction false} CountMultiset(xs: seq<int>, v: int)
    ensures Count(xs, v) == multiset(xs)[v]
  {
    if xs != [] {
      CountMultiset(xs[1..], v);
      assert xs == [xs[0]] + xs[1..];
    }
  }

  /** Counting distributes over concatenation. */
  lemma {:induction false} CountAppend(a: seq<int>, b: seq<int>, v: int)
    ensures Count(a + b, v) == Count(a, v) + Count(b, v)
  {
    if a != [] {
      assert (a + b)[1..] == a[1..] + b;
      CountAppend(a[1..], b, v);
    } else {
      assert a + b == b;
    }
  }

  /** Counting over four consecutive parts. */
  lemma CountFour(a: seq<int>, b: seq<int>, c: seq<int>, d: seq<int>, v: int)
    ensures Count(a + b + c + d, v) == Count(a, v) + Count(b, v) + Count(c, v) + Count(d, v)
  {
    CountAppend(a + b + c, d, v);
    CountAppend(a + b, c, v);
    CountAppend(a, b, v);
  }

  /** Among three entries, a value occurs as often as it is equal to them. */
  lemma CountTriple(x: int, y: int, z: int, v: int)
    ensures Count([x, y, z], v) == (if x == v then 1 else 0) + (if y == v then 1 else 0) + (if z == v then 1 else 0)
  {
    assert [z][1..] == [];
    assert Count([z], v) == (if z == v then 1 else 0);
    assert [y, z][1..] == [z];
    assert Count([y, z], v) == (if y == v then 1 else 0) + (if z == v then 1 else 0);
    assert [x, y, z][1..] == [y, z];
  }

  /** Every corner is used by exactly three faces. */
  lemma FaceIndicesCount()
    ensures forall i :: 0 <= i < 4 ==> Count(FaceIndices, i) == 3
  {
    var f0, f1, f2, f3 := [0, 2, 1], [0, 1, 3], [0, 3, 2], [1, 2, 3];
    forall i | 0 <= i < 4
      ensures Count(FaceIndices, i) == 3
    {
      CountFour(f0, f1, f2, f3, i);
      assert Count(f0, i) + Count(f1, i) + Count(f2, i) + Count(f3, i) == 3 by {
        CountTriple(0, 2, 1, i);
        CountTriple(0, 1, 3, i);
        CountTriple(0, 3, 2, i);
        CountTriple(1, 2, 3, i);
      }
    }
  }

  /** The same count as multiplicities: the index list holds each corner
      three times, and nothing else. */
  lemma FaceIndicesMultiset()
    ensures forall i :: 0 <= i < 4 ==> multiset(FaceIndices)[i] == 3
    ensures |multiset(FaceIndices)| == 12
  {
    FaceIndicesCount();
    forall i | 0 <= i < 4
      ensures multiset(FaceIndices)[i] == 3
    {
      CountMultiset(FaceIndices, i);
    }
  }

  /** The points an index list draws: point `k` is `points[indices[k]]`, as the
      renderer reads an indexed mesh. */
  function Resolve(points: seq<Point3>, indices: seq<int>): (tri: seq<Point3>)
    requires forall k :: 0 <= k < |indices| ==> 0 <= indices[k] < |points|
    ensures |tri| == |indices|
    ensures forall k :: 0 <= k < |indices| ==> tri[k] == points[indices[k]] && tri[k] in points
  {
    seq(|indices|, k requires 0 <= k < |indices| => points[indices[k]])
  }

  /** Resolving the index list against any four corners gives exactly the
      face list the Rust `tetrahedron` writes out, face for face. */
  lemma FaceIndicesMatch(cs: seq<Point3>)
    requires |cs| == 4
    ensures |Resolve(cs, FaceIndices)| == 12
    ensures Resolve(cs, FaceIndices) == Rust.Faces(cs)
  {
    FaceIndicesRange();
    var r := Resolve(cs, FaceIndices);
    assert forall k :: 0 <= k < 12 ==> r[k] == Rust.Faces(cs)[k];
  }

  /** Drawing the prototype's four corners through its index list gives the
      same 36 numbers as the Rust `tetrahedron` and the JavaScript port's. */
  lemma ResolveMatchesRust(base: seq<real>, scale: real, rt: Roots)
    requires |base| >= 3
    ensures Flatten(Resolve(Unflatten(Tetrahedron(base, scale, rt)), FaceIndices))
      == Rust.Tetrahedron(Head(base), scale, rt)
    ensures Flatten(Resolve(Unflatten(Tetrahedron(base, scale, rt)), FaceIndices))
      == Web.Tetrahedron(base, scale, rt)
  {
    var cs := Rust.TetrahedronRaw(Head(base), scale, rt);
    TetrahedronCorners(base, scale, rt);
    UnflattenFlatten(cs);
    FaceIndicesMatch(cs);
    Web.TetrahedronAgrees(base, scale, rt);
  }

  /** What `geometry` hands to the renderer: the vertex positions and the
      index list over them. */
  datatype Mesh = Mesh(vertices: seq<real>, indices: seq<int>)

  /** `geometry`: the tetrahedron of scale 0.2 around the origin, as four
      corners and the face index list; every index names one of the corners,
      and the faces drawn are those of the Rust `tetrahedron` at the same
      centre and scale. */
  function Geometry(rt: Roots): (g: Mesh)
    ensures |g.vertices| == 12 && |g.indices| == 12
    ensures forall k :: 0 <= k < |g.indices| ==> 0 <= g.indices[k] < |g.vertices| / 3
    ensures Flatten(Resolve(Unflatten(g.vertices), g.indices)) == Rust.Tetrahedron(Point3(0.0, 0.0, 0.0), 0.2, rt)
  {
    var origin := [0.0, 0.0, 0.0];
    FaceIndicesRange();
    ResolveMatchesRust(origin, 0.2, rt);
    Mesh(Tetrahedron(origin, 0.2, rt), FaceIndices)
  }
}
