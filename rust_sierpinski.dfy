/** The Rust generator, `rust/sierpinski/src/lib.rs`: the corners of one
    tetrahedron, its four faces as a flat list of 36 numbers, the midpoint of
    two points, and the recursive Sierpinski subdivision. This is the
    reference version; the two JavaScript versions are related to it in
    their own modules. */
module RustSierpinski {
  import opened Points

  /** Rust's `u8`, the type of the recursion depth. */
  newtype u8 = x: int | 0 <= x < 256

  /** `tetrahedron_raw`: the corners `[p0, p1, p2, p3]` of a tetrahedron around
      the centre `c`. The first three lie in the horizontal plane through `c`,
      one of them straight ahead along +X; the fourth is straight above `c`. */
  function TetrahedronRaw(c: Point3, scale: real, rt: Roots): (cs: seq<Point3>)
    ensures |cs| == 4
  {
    var dy := scale * rt.sqrt3 * 0.5;
    var dx := scale * -0.5;
    var p0 := Point3(c.x + scale, c.y, c.z);
    var p1 := Point3(c.x + dx, c.y + dy, c.z);
    var p2 := Point3(c.x + dx, c.y - dy, c.z);
    var p3 := Point3(c.x, c.y, c.z + scale * rt.sqrt2);
    [p0, p1, p2, p3]
  }

  /** The four corners of TetrahedronRaw written out. */
  lemma RawCorners(c: Point3, scale: real, rt: Roots)
    ensures TetrahedronRaw(c, scale, rt)[0] == Point3(c.x + scale, c.y, c.z)
    ensures TetrahedronRaw(c, scale, rt)[1] == Point3(c.x + scale * -0.5, c.y + scale * rt.sqrt3 * 0.5, c.z)
    ensures TetrahedronRaw(c, scale, rt)[2] == Point3(c.x + scale * -0.5, c.y - scale * rt.sqrt3 * 0.5, c.z)
    ensures TetrahedronRaw(c, scale, rt)[3] == Point3(c.x, c.y, c.z + scale * rt.sqrt2)
  {
  }

  /** The corners as offsets from the centre: `p0` lies `scale` along +X,
      `p1` and `p2` share their x (`-scale/2` from the centre) and z and lie
      `scale * sqrt3 / 2` either side of the centre in y, and `p3` lies
      `scale * sqrt2` straight above. */
  lemma CornerOffsets(c: Point3, scale: real, rt: Roots)
    ensures var cs := TetrahedronRaw(c, scale, rt);
      Sub(cs[0], c) == Point3(scale, 0.0, 0.0)
      && Sub(cs[3], c) == Point3(0.0, 0.0, scale * rt.sqrt2)
      && cs[1].x == cs[2].x == c.x - scale * 0.5
      && cs[1].z == cs[2].z == c.z
      && cs[1].y - c.y == c.y - cs[2].y == scale * rt.sqrt3 * 0.5
  {
    RawCorners(c, scale, rt);
  }

  /** With exact roots the tetrahedron is regular: all six edges have squared
      length `3 * scale^2`. */
  lemma TetrahedronRegular(c: Point3, scale: real, rt: Roots)
    requires Exact(rt)
    ensures var cs := TetrahedronRaw(c, scale, rt);
      forall i, j :: 0 <= i < j < 4 ==> Dist2(cs[i], cs[j]) == 3.0 * scale * scale
  {
    var cs := TetrahedronRaw(c, scale, rt);
    var h, v := scale * rt.sqrt3 * 0.5, scale * rt.sqrt2;
    HalfRoot3Squared(scale, rt.sqrt3);
    Root2Squared(scale, rt.sqrt2);
    assert Dist2(cs[0], cs[1]) == 2.25 * scale * scale + h * h;
    assert Dist2(cs[0], cs[2]) == 2.25 * scale * scale + h * h;
    assert Dist2(cs[1], cs[2]) == 4.0 * (h * h);
    assert Dist2(cs[0], cs[3]) == scale * scale + v * v;
    assert Dist2(cs[1], cs[3]) == 0.25 * scale * scale + h * h + v * v;
    assert Dist2(cs[2], cs[3]) == 0.25 * scale * scale + h * h + v * v;
  }

  /** With exact roots the three lower corners lie at distance `scale` from the
      centre, the radius of the base triangle's circumcircle. */
  lemma BaseRadius(c: Point3, scale: real, rt: Roots)
    requires Exact(rt)
    ensures var cs := TetrahedronRaw(c, scale, rt);
      forall i :: 0 <= i < 3 ==> Dist2(c, cs[i]) == scale * scale
  {
    var cs := TetrahedronRaw(c, scale, rt);
    var h := scale * rt.sqrt3 * 0.5;
    HalfRoot3Squared(scale, rt.sqrt3);
    assert Dist2(c, cs[1]) == 0.25 * scale * scale + h * h;
    assert Dist2(c, cs[2]) == 0.25 * scale * scale + h * h;
  }

  /** `(scale * sqrt3 / 2)^2 == 3/4 * scale^2`. */
  lemma HalfRoot3Squared(scale: real, s3: real)
    requires s3 * s3 == 3.0
    ensures (scale * s3 * 0.5) * (scale * s3 * 0.5) == 0.75 * scale * scale
  {
    assert (scale * s3 * 0.5) * (scale * s3 * 0.5) == 0.25 * scale * scale * (s3 * s3);
  }

  /** `(scale * sqrt2)^2 == 2 * scale^2`. */
  lemma Root2Squared(scale: real, s2: real)
    requires s2 * s2 == 2.0
    ensures (scale * s2) * (scale * s2) == 2.0 * scale * scale
  {
    assert (scale * s2) * (scale * s2) == scale * scale * (s2 * s2);
  }

  /** With positive roots and a non-zero scale the four corners are pairwise
      distinct. */
  lemma CornersDistinct(c: Point3, scale: real, rt: Roots)
    requires Positive(rt) && scale != 0.0
    ensures var cs := TetrahedronRaw(c, scale, rt);
      forall i, j :: 0 <= i < j < 4 ==> cs[i] != cs[j]
  {
    var cs := TetrahedronRaw(c, scale, rt);
    assert scale * rt.sqrt3 != 0.0;
    assert scale * rt.sqrt2 != 0.0;
    assert cs[1].y - cs[2].y == scale * rt.sqrt3;
  }

  /** The twelve corner points of the four faces, in the winding order of the
      array literal in `tetrahedron`. */
  function Faces(cs: seq<Point3>): (fs: seq<Point3>)
    requires |cs| == 4
    ensures |fs| == 12
    ensures forall k :: 0 <= k < |fs| ==> fs[k] in cs
  {
    [cs[0], cs[2], cs[1],
     cs[0], cs[1], cs[3],
     cs[0], cs[3], cs[2],
     cs[1], cs[2], cs[3]]
  }

  /** `tetrahedron`: the four faces of the tetrahedron around `xyz`, flattened
      to 36 numbers. */
  function Tetrahedron(xyz: Point3, scale: real, rt: Roots): (r: seq<real>)
    ensures |r| == 36
  {
    Flatten(Faces(TetrahedronRaw(xyz, scale, rt)))
  }

  /** The `m`-th point of the flat output of `tetrahedron` is the `m`-th face
      point: face `k` occupies points `3k, 3k+1, 3k+2`, and the faces are
      `(p0,p2,p1), (p0,p1,p3), (p0,p3,p2), (p1,p2,p3)`. */
  lemma TetrahedronPoints(xyz: Point3, scale: real, rt: Roots)
    ensures var cs := TetrahedronRaw(xyz, scale, rt);
      var r := Tetrahedron(xyz, scale, rt);
      forall m :: 0 <= m < 12 ==> PointAt(r, m) == Faces(cs)[m]
    ensures var cs := TetrahedronRaw(xyz, scale, rt);
      var r := Tetrahedron(xyz, scale, rt);
      PointAt(r, 0) == cs[0] && PointAt(r, 1) == cs[2] && PointAt(r, 2) == cs[1]
  {
    var fs := Faces(TetrahedronRaw(xyz, scale, rt));
    forall m | 0 <= m < 12
      ensures PointAt(Flatten(fs), m) == fs[m]
    {
      FlattenPointAt(fs, m);
    }
  }

  /** Face `k` leaves out corner `p(3-k)`, and every face is wound the same way:
      the corner it leaves out lies behind it, so with a positive scale each
      face's front side faces outwards (the signed volume is
      `-1.5 * sqrt3 * sqrt2 * scale^3` for all four). */
  lemma FaceWinding(c: Point3, scale: real, rt: Roots)
    ensures var cs := TetrahedronRaw(c, scale, rt);
      var fs := Faces(cs);
      forall k :: 0 <= k < 4 ==>
        Orientation(fs[3 * k], fs[3 * k + 1], fs[3 * k + 2], cs[3 - k])
          == -1.5 * rt.sqrt3 * rt.sqrt2 * (scale * scale * scale)
  {
    var cs := TetrahedronRaw(c, scale, rt);
    var fs := Faces(cs);
    CornerVolumes(c, scale, rt);
    assert fs[0] == cs[0] && fs[1] == cs[2] && fs[2] == cs[1];
    assert fs[3] == cs[0] && fs[4] == cs[1] && fs[5] == cs[3];
    assert fs[6] == cs[0] && fs[7] == cs[3] && fs[8] == cs[2];
    assert fs[9] == cs[1] && fs[10] == cs[2] && fs[11] == cs[3];
  }

  /** The signed volumes of the corner triples that make up the faces, each
      towards the corner the triple leaves out. */
  lemma CornerVolumes(c: Point3, scale: real, rt: Roots)
    ensures var cs := TetrahedronRaw(c, scale, rt);
      var w := -1.5 * rt.sqrt3 * rt.sqrt2 * (scale * scale * scale);
      Orientation(cs[0], cs[2], cs[1], cs[3]) == w && Orientation(cs[0], cs[1], cs[3], cs[2]) == w
      && Orientation(cs[0], cs[3], cs[2], cs[1]) == w && Orientation(cs[1], cs[2], cs[3], cs[0]) == w
  {
    var cs := TetrahedronRaw(c, scale, rt);
    var h, v := scale * rt.sqrt3 * 0.5, scale * rt.sqrt2;
    // Offsets of the corners from the centre.
    var q0, q1, q2, q3 := Point3(scale, 0.0, 0.0), Point3(-0.5 * scale, h, 0.0),
      Point3(-0.5 * scale, -h, 0.0), Point3(0.0, 0.0, v);
    assert Sub(cs[1], cs[0]) == Sub(q1, q0) && Sub(cs[2], cs[0]) == Sub(q2, q0);
    assert Sub(cs[3], cs[0]) == Sub(q3, q0);
    assert Sub(cs[2], cs[1]) == Sub(q2, q1) && Sub(cs[3], cs[1]) == Sub(q3, q1);
    assert Sub(cs[0], cs[1]) == Sub(q0, q1);
    var w := -3.0 * h * v * scale;
    assert w == -1.5 * rt.sqrt3 * rt.sqrt2 * (scale * scale * scale);
    OffsetVolumes(scale, h, v, q0, q1, q2, q3);
  }

  /** The signed volumes of the four faces, computed on the corners' offsets
      from the centre: `h` is the half-height `scale * sqrt3 / 2` of the base
      triangle and `v` the apex height `scale * sqrt2`. */
  lemma OffsetVolumes(scale: real, h: real, v: real, q0: Point3, q1: Point3, q2: Point3, q3: Point3)
    requires q0 == Point3(scale, 0.0, 0.0) && q1 == Point3(-0.5 * scale, h, 0.0)
    requires q2 == Point3(-0.5 * scale, -h, 0.0) && q3 == Point3(0.0, 0.0, v)
    ensures Det(Sub(q2, q0), Sub(q1, q0), Sub(q3, q0)) == -3.0 * h * v * scale
    ensures Det(Sub(q1, q0), Sub(q3, q0), Sub(q2, q0)) == -3.0 * h * v * scale
    ensures Det(Sub(q3, q0), Sub(q2, q0), Sub(q1, q0)) == -3.0 * h * v * scale
    ensures Det(Sub(q2, q1), Sub(q3, q1), Sub(q0, q1)) == -3.0 * h * v * scale
  {
  }

  /** With positive roots and a positive scale every face is front-facing from
      outside the solid, as back-face culling needs. */
  lemma FacesOutward(c: Point3, scale: real, rt: Roots)
    requires Positive(rt) && scale > 0.0
    ensures var cs := TetrahedronRaw(c, scale, rt);
      var fs := Faces(cs);
      forall k :: 0 <= k < 4 ==> Orientation(fs[3 * k], fs[3 * k + 1], fs[3 * k + 2], cs[3 - k]) < 0.0
  {
    FaceWinding(c, scale, rt);
    var p := rt.sqrt3 * rt.sqrt2;
    assert p > 0.0;
    assert scale * scale > 0.0;
    assert p * (scale * scale * scale) > 0.0 by {
      assert (scale * scale) * scale > 0.0;
    }
  }

  /** Point `p` is one of the three points of face `k`. */
  predicate OnFace(fs: seq<Point3>, k: nat, p: Point3)
    requires |fs| == 12 && k < 4
  {
    p == fs[3 * k] || p == fs[3 * k + 1] || p == fs[3 * k + 2]
  }

  /** When the corners are distinct, each face uses three distinct corners, and
      corner `i` lies on face `k` exactly when `i != 3 - k`: face `k` leaves
      out corner `3 - k`, and every corner lies on three of the four faces. */
  lemma FaceIncidence(cs: seq<Point3>)
    requires |cs| == 4
    requires forall i, j :: 0 <= i < j < 4 ==> cs[i] != cs[j]
    ensures var fs := Faces(cs);
      forall k :: 0 <= k < 4 ==>
        fs[3 * k] != fs[3 * k + 1] && fs[3 * k] != fs[3 * k + 2] && fs[3 * k + 1] != fs[3 * k + 2]
    ensures forall i, k :: 0 <= i < 4 && 0 <= k < 4 ==> (OnFace(Faces(cs), k, cs[i]) <==> i != 3 - k)
  {
    var fs := Faces(cs);
    forall k | 0 <= k < 4
      ensures fs[3 * k] != fs[3 * k + 1] && fs[3 * k] != fs[3 * k + 2] && fs[3 * k + 1] != fs[3 * k + 2]
    {
      assert k == 0 || k == 1 || k == 2 || k == 3;
    }
    forall i, k | 0 <= i < 4 && 0 <= k < 4
      ensures OnFace(fs, k, cs[i]) <==> i != 3 - k
    {
      assert k == 0 || k == 1 || k == 2 || k == 3;
      assert i == 0 || i == 1 || i == 2 || i == 3;
    }
  }

  /** The number of faces among the first `n` that pass through `p`. */
  function FacesThrough(fs: seq<Point3>, p: Point3, n: nat): (count: nat)
    requires |fs| == 12 && n <= 4
    ensures count <= n
  {
    if n == 0 then 0 else FacesThrough(fs, p, n - 1) + (if OnFace(fs, n - 1, p) then 1 else 0)
  }

  /** When the corners are distinct, every corner lies on exactly three of the
      four faces. */
  lemma CornerValence(cs: seq<Point3>)
    requires |cs| == 4
    requires forall i, j :: 0 <= i < j < 4 ==> cs[i] != cs[j]
    ensures forall i :: 0 <= i < 4 ==> FacesThrough(Faces(cs), cs[i], 4) == 3
  {
    FaceIncidence(cs);
    var fs := Faces(cs);
    forall i | 0 <= i < 4
      ensures FacesThrough(fs, cs[i], 4) == 3
    {
      var p := cs[i];
      var on := (k: nat) requires k < 4 => if OnFace(fs, k, p) then 1 else 0;
      assert FacesThrough(fs, p, 1) == on(0);
      assert FacesThrough(fs, p, 2) == on(0) + on(1);
      assert FacesThrough(fs, p, 3) == on(0) + on(1) + on(2);
      assert FacesThrough(fs, p, 4) == on(0) + on(1) + on(2) + on(3);
    }
  }

  /** `average`: the midpoint of two points. */
  function Average(p1: Point3, p2: Point3): (m: Point3)
    ensures Sub(m, p1) == Sub(p2, m)
  {
    Point3((p1.x + p2.x) * 0.5, (p1.y + p2.y) * 0.5, (p1.z + p2.z) * 0.5)
  }

  /** The midpoint does not depend on the order of its arguments, and the
      midpoint of a point with itself is that point. */
  lemma AverageSymmetric(p: Point3, q: Point3)
    ensures Average(p, q) == Average(q, p)
    ensures Average(p, p) == p
  {
  }

  /** Similarities map midpoints to midpoints. */
  lemma AverageSimilar(a: Similarity, p: Point3, q: Point3)
    ensures Apply(a, Average(p, q)) == Average(Apply(a, p), Apply(a, q))
  {
    var m := Average(p, q);
    var lhs, rhs := Apply(a, m), Average(Apply(a, p), Apply(a, q));
    assert lhs.x == rhs.x by {
      assert a.k * m.x == (a.k * p.x + a.k * q.x) * 0.5 by { ScaleMid(a.k, m.x, p.x, q.x); }
    }
    assert lhs.y == rhs.y by {
      assert a.k * m.y == (a.k * p.y + a.k * q.y) * 0.5 by { ScaleMid(a.k, m.y, p.y, q.y); }
    }
    assert lhs.z == rhs.z by {
      assert a.k * m.z == (a.k * p.z + a.k * q.z) * 0.5 by { ScaleMid(a.k, m.z, p.z, q.z); }
    }
  }

  /** Similarities map corners to corners: the tetrahedron around the image of
      `c`, at the scale `ks = k * scale`, has as corners the images of the
      corners. */
  lemma TetrahedronRawSimilar(a: Similarity, c: Point3, scale: real, ks: real, rt: Roots)
    requires ks == a.k * scale
    ensures var cs := TetrahedronRaw(c, scale, rt);
      var ds := TetrahedronRaw(Apply(a, c), ks, rt);
      forall i :: 0 <= i < 4 ==> ds[i] == Apply(a, cs[i])
  {
    Corner0Similar(a, c, scale, ks, rt);
    Corner1Similar(a, c, scale, ks, rt);
    Corner2Similar(a, c, scale, ks, rt);
    Corner3Similar(a, c, scale, ks, rt);
  }

  /** The corners of TetrahedronRawSimilar, one lemma each. */
  lemma Corner0Similar(a: Similarity, c: Point3, scale: real, ks: real, rt: Roots)
    requires ks == a.k * scale
    ensures TetrahedronRaw(Apply(a, c), ks, rt)[0] == Apply(a, TetrahedronRaw(c, scale, rt)[0])
  {
    RawCorners(c, scale, rt);
    RawCorners(Apply(a, c), ks, rt);
    assert a.k * (c.x + scale) == a.k * c.x + ks by { ShiftedByScale(a.k, c.x, scale, ks); }
  }

  lemma Corner1Similar(a: Similarity, c: Point3, scale: real, ks: real, rt: Roots)
    requires ks == a.k * scale
    ensures TetrahedronRaw(Apply(a, c), ks, rt)[1] == Apply(a, TetrahedronRaw(c, scale, rt)[1])
  {
    RawCorners(c, scale, rt);
    RawCorners(Apply(a, c), ks, rt);
    assert a.k * (c.x + scale * -0.5) == a.k * c.x + ks * -0.5 by { ShiftedByHalf(a.k, c.x, scale, ks); }
    assert a.k * (c.y + scale * rt.sqrt3 * 0.5) == a.k * c.y + ks * rt.sqrt3 * 0.5 by {
      ShiftedByRoot3(a.k, c.y, scale, ks, rt);
    }
  }

  lemma Corner2Similar(a: Similarity, c: Point3, scale: real, ks: real, rt: Roots)
    requires ks == a.k * scale
    ensures TetrahedronRaw(Apply(a, c), ks, rt)[2] == Apply(a, TetrahedronRaw(c, scale, rt)[2])
  {
    RawCorners(c, scale, rt);
    RawCorners(Apply(a, c), ks, rt);
    assert a.k * (c.x + scale * -0.5) == a.k * c.x + ks * -0.5 by { ShiftedByHalf(a.k, c.x, scale, ks); }
    assert a.k * (c.y - scale * rt.sqrt3 * 0.5) == a.k * c.y - ks * rt.sqrt3 * 0.5 by {
      ShiftedByRoot3(a.k, c.y, scale, ks, rt);
    }
  }

  lemma Corner3Similar(a: Similarity, c: Point3, scale: real, ks: real, rt: Roots)
    requires ks == a.k * scale
    ensures TetrahedronRaw(Apply(a, c), ks, rt)[3] == Apply(a, TetrahedronRaw(c, scale, rt)[3])
  {
    RawCorners(c, scale, rt);
    RawCorners(Apply(a, c), ks, rt);
    assert a.k * (c.z + scale * rt.sqrt2) == a.k * c.z + ks * rt.sqrt2 by { ShiftedByRoot2(a.k, c.z, scale, ks, rt); }
  }

  /* A coordinate `x` shifted by one of TetrahedronRaw's corner offsets at
     scale `scale` is carried by the factor `k` to `k * x` shifted by the same
     offset at scale `ks = k * scale`; one lemma per offset. */

  lemma ShiftedByScale(k: real, x: real, scale: real, ks: real)
    requires ks == k * scale
    ensures k * (x + scale) == k * x + ks
  {
  }

  lemma ShiftedByHalf(k: real, x: real, scale: real, ks: real)
    requires ks == k * scale
    ensures k * (x + scale * -0.5) == k * x + ks * -0.5
  {
  }

  lemma ShiftedByRoot3(k: real, x: real, scale: real, ks: real, rt: Roots)
    requires ks == k * scale
    ensures k * (x + scale * rt.sqrt3 * 0.5) == k * x + ks * rt.sqrt3 * 0.5
    ensures k * (x - scale * rt.sqrt3 * 0.5) == k * x - ks * rt.sqrt3 * 0.5
  {
  }

  lemma ShiftedByRoot2(k: real, x: real, scale: real, ks: real, rt: Roots)
    requires ks == k * scale
    ensures k * (x + scale * rt.sqrt2) == k * x + ks * rt.sqrt2
  {
  }

  /** The centre of the child tetrahedron grown towards corner `i`: the
      midpoint between the centre and that corner. */
  function ChildCentre(b: Point3, scale: real, rt: Roots, i: nat): (m: Point3)
    requires i < 4
    ensures Sub(m, b) == Sub(TetrahedronRaw(b, scale, rt)[i], m)
  {
    Average(b, TetrahedronRaw(b, scale, rt)[i])
  }

  /** The subdivision step: the child tetrahedron grown towards corner `i`
      keeps that corner, and its other corners are the midpoints of the
      parent's edges from corner `i`. So the four children are the corner
      pieces of the parent that the Sierpinski construction keeps. */
  lemma ChildCorners(c: Point3, scale: real, rt: Roots)
    ensures var cs := TetrahedronRaw(c, scale, rt);
      forall i, j :: 0 <= i < 4 && 0 <= j < 4 ==>
        TetrahedronRaw(ChildCentre(c, scale, rt, i), Half(scale), rt)[j] == Average(cs[i], cs[j])
  {
    var cs := TetrahedronRaw(c, scale, rt);
    forall i, j | 0 <= i < 4 && 0 <= j < 4
      ensures TetrahedronRaw(ChildCentre(c, scale, rt, i), Half(scale), rt)[j] == Average(cs[i], cs[j])
    {
      // The child is the image of the parent under the halving about corner i.
      var a := Similarity(0.5, Point3(cs[i].x * 0.5, cs[i].y * 0.5, cs[i].z * 0.5));
      assert Apply(a, c) == Average(c, cs[i]);
      TetrahedronRawSimilar(a, c, scale, Half(scale), rt);
      assert Apply(a, cs[j]) == Average(cs[i], cs[j]);
    }
  }

  /** `sierpinski`: the flat list of the faces of all leaf tetrahedra. It reads
      the first three numbers of `base` as the centre; at depth 0 it emits
      that tetrahedron, otherwise it recurses at half the scale into the
      midpoints between the centre and each corner, in corner order, and
      concatenates the results (`flat_map`). Rust panics when `base` holds
      fewer than three numbers. */
  function Sierpinski(base: seq<real>, scale: real, levels: u8, rt: Roots): (r: seq<real>)
    requires |base| >= 3
    ensures |r| == 36 * Pow4(levels as nat)
    decreases levels
  {
    var b := Head(base);
    if levels > 0 then
      Sierpinski(Flat(ChildCentre(b, scale, rt, 0)), Half(scale), levels - 1, rt)
      + Sierpinski(Flat(ChildCentre(b, scale, rt, 1)), Half(scale), levels - 1, rt)
      + Sierpinski(Flat(ChildCentre(b, scale, rt, 2)), Half(scale), levels - 1, rt)
      + Sierpinski(Flat(ChildCentre(b, scale, rt, 3)), Half(scale), levels - 1, rt)
    else
      Tetrahedron(b, scale, rt)
  }

  /** Only the first three numbers of `base` matter. */
  lemma SierpinskiReadsThree(base: seq<real>, scale: real, levels: u8, rt: Roots)
    requires |base| >= 3
    ensures Sierpinski(base, scale, levels, rt) == Sierpinski(base[..3], scale, levels, rt)
  {
  }

  /** The subdivision of the child grown towards corner `i`. */
  function Child(b: Point3, scale: real, levels: u8, rt: Roots, i: nat): (r: seq<real>)
    requires levels > 0 && i < 4
    ensures |r| == 36 * Pow4(levels as nat - 1)
  {
    Sierpinski(Flat(ChildCentre(b, scale, rt, i)), Half(scale), levels - 1, rt)
  }

  /** At depth 0 the output is one tetrahedron; at a positive depth it is four
      blocks of `36 * 4^(levels-1)` numbers, block `i` being the subdivision of
      the child grown towards corner `i`, at half the scale and one level less. */
  lemma SierpinskiBlocks(base: seq<real>, scale: real, levels: u8, rt: Roots)
    requires |base| >= 3
    ensures levels == 0 ==>
      Sierpinski(base, scale, levels, rt) == Tetrahedron(Head(base), scale, rt)
    ensures levels > 0 ==>
      var r := Sierpinski(base, scale, levels, rt);
      var b := Head(base);
      var n := 36 * Pow4(levels as nat - 1);
      |r| == 4 * n
      && r[..n] == Child(b, scale, levels, rt, 0)
      && r[n..2 * n] == Child(b, scale, levels, rt, 1)
      && r[2 * n..3 * n] == Child(b, scale, levels, rt, 2)
      && r[3 * n..] == Child(b, scale, levels, rt, 3)
  {
    if levels > 0 {
      var b := Head(base);
      SierpinskiUnfold(base, scale, levels, rt);
      QuarterSlices(Child(b, scale, levels, rt, 0), Child(b, scale, levels, rt, 1),
        Child(b, scale, levels, rt, 2), Child(b, scale, levels, rt, 3), 36 * Pow4(levels as nat - 1));
    }
  }

  /** One step of the recursion, with the children named. */
  lemma SierpinskiUnfold(base: seq<real>, scale: real, levels: u8, rt: Roots)
    requires |base| >= 3 && levels > 0
    ensures var b := Head(base);
      Sierpinski(base, scale, levels, rt)
        == Child(b, scale, levels, rt, 0) + Child(b, scale, levels, rt, 1)
          + Child(b, scale, levels, rt, 2) + Child(b, scale, levels, rt, 3)
  {
  }

  /** Similarities map each child centre to the corresponding child centre. */
  lemma ChildCentreSimilar(a: Similarity, b: Point3, scale: real, ks: real, rt: Roots, i: nat)
    requires i < 4 && ks == a.k * scale
    ensures ChildCentre(Apply(a, b), ks, rt, i) == Apply(a, ChildCentre(b, scale, rt, i))
  {
    TetrahedronRawSimilar(a, b, scale, ks, rt);
    AverageSimilar(a, b, TetrahedronRaw(b, scale, rt)[i]);
  }

  /** The generator commutes with similarities: moving and scaling the centre
      and the scale (`ks = k * scale`) by `a` moves and scales every emitted
      point by `a`. */
  lemma SierpinskiSimilar(a: Similarity, base: seq<real>, scale: real, ks: real, levels: u8, rt: Roots)
    requires |base| >= 3 && ks == a.k * scale
    ensures var b := Head(base);
      Sierpinski(Flat(Apply(a, b)), ks, levels, rt) == ApplyFlat(a, Sierpinski(base, scale, levels, rt))
  {
    var b := Head(base);
    calc {
      Sierpinski(Flat(Apply(a, b)), ks, levels, rt);
      == { SimilarFrom(a, b, scale, ks, levels, rt); }
      ApplyFlat(a, Sierpinski(Flat(b), scale, levels, rt));
      == { assert Flat(b) == base[..3]; SierpinskiReadsThree(base, scale, levels, rt); }
      ApplyFlat(a, Sierpinski(base, scale, levels, rt));
    }
  }

  /** SierpinskiSimilar by induction on the depth, for a centre given as a
      point and with `ks` the transformed scale. */
  lemma {:induction false} SimilarFrom(a: Similarity, c: Point3, scale: real, ks: real, levels: u8, rt: Roots)
    requires ks == a.k * scale
    ensures Sierpinski(Flat(Apply(a, c)), ks, levels, rt) == ApplyFlat(a, Sierpinski(Flat(c), scale, levels, rt))
    decreases levels, 1
  {
    var ac := Apply(a, c);
    assert Point3(Flat(ac)[0], Flat(ac)[1], Flat(ac)[2]) == ac;
    assert Point3(Flat(c)[0], Flat(c)[1], Flat(c)[2]) == c;
    if levels == 0 {
      TetrahedronSimilar(a, c, scale, ks, rt);
    } else {
      ChildSimilar(a, c, scale, ks, levels, rt, 0);
      ChildSimilar(a, c, scale, ks, levels, rt, 1);
      ChildSimilar(a, c, scale, ks, levels, rt, 2);
      ChildSimilar(a, c, scale, ks, levels, rt, 3);
      SierpinskiUnfold(Flat(c), scale, levels, rt);
      SierpinskiUnfold(Flat(ac), ks, levels, rt);
      ApplyFlatFour(a, Child(c, scale, levels, rt, 0), Child(c, scale, levels, rt, 1),
        Child(c, scale, levels, rt, 2), Child(c, scale, levels, rt, 3), 12 * Pow4(levels as nat - 1));
    }
  }

  /** The recursive case of SimilarFrom, for the child towards corner `i`. */
  lemma {:induction false} ChildSimilar(a: Similarity, c: Point3, scale: real, ks: real, levels: u8, rt: Roots, i: nat)
    requires ks == a.k * scale && levels > 0 && i < 4
    ensures Child(Apply(a, c), ks, levels, rt, i) == ApplyFlat(a, Child(c, scale, levels, rt, i))
    decreases levels, 0
  {
    ChildCentreSimilar(a, c, scale, ks, rt, i);
    HalfScaled(a.k, scale, ks);
    SimilarFrom(a, ChildCentre(c, scale, rt, i), Half(scale), Half(ks), levels - 1, rt);
  }

  /** Halving commutes with scaling. */
  lemma HalfScaled(k: real, scale: real, ks: real)
    requires ks == k * scale
    ensures Half(ks) == k * Half(scale)
  {
  }

  /** The one-tetrahedron case of SimilarFrom. */
  lemma TetrahedronSimilar(a: Similarity, b: Point3, scale: real, ks: real, rt: Roots)
    requires ks == a.k * scale
    ensures Tetrahedron(Apply(a, b), ks, rt) == ApplyFlat(a, Tetrahedron(b, scale, rt))
  {
    var cs := TetrahedronRaw(b, scale, rt);
    var ds := TetrahedronRaw(Apply(a, b), ks, rt);
    TetrahedronRawSimilar(a, b, scale, ks, rt);
    ApplyFlatten(a, Faces(cs), Faces(ds));
  }

  /** ApplyFlat over four concatenated blocks. */
  lemma ApplyFlatFour(a: Similarity, t0: seq<real>, t1: seq<real>, t2: seq<real>, t3: seq<real>, m: nat)
    requires |t0| == |t1| == |t2| == 3 * m
    ensures ApplyFlat(a, t0 + t1 + t2 + t3)
      == ApplyFlat(a, t0) + ApplyFlat(a, t1) + ApplyFlat(a, t2) + ApplyFlat(a, t3)
  {
    var f0, f1, f2, f3 := ApplyFlat(a, t0), ApplyFlat(a, t1), ApplyFlat(a, t2), ApplyFlat(a, t3);
    calc {
      ApplyFlat(a, t0 + t1 + t2 + t3);
      { assert t0 + t1 + t2 + t3 == t0 + (t1 + (t2 + t3)); }
      ApplyFlat(a, t0 + (t1 + (t2 + t3)));
      { ApplyFlatAppend(a, t0, t1 + (t2 + t3)); }
      f0 + ApplyFlat(a, t1 + (t2 + t3));
      { ApplyFlatAppend(a, t1, t2 + t3); }
      f0 + (f1 + ApplyFlat(a, t2 + t3));
      { ApplyFlatAppend(a, t2, t3); }
      f0 + (f1 + (f2 + f3));
      f0 + f1 + f2 + f3;
    }
  }

  /** Scaling about the centre: multiplying the scale by `k` multiplies every
      emitted point's offset from the centre `(base[0], base[1], base[2])` by `k`. */
  lemma SierpinskiScaleAboutBase(k: real, base: seq<real>, scale: real, levels: u8, rt: Roots)
    requires |base| >= 3
    ensures Sierpinski(base, k * scale, levels, rt)
      == ApplyFlat(Similarity(k, Point3(base[0] - k * base[0], base[1] - k * base[1], base[2] - k * base[2])),
                   Sierpinski(base, scale, levels, rt))
  {
    SierpinskiFixedCentre(k, Point3(base[0] - k * base[0], base[1] - k * base[1], base[2] - k * base[2]),
      base, scale, levels, rt);
  }

  /** A similarity that keeps the centre in place only rescales the output. */
  lemma SierpinskiFixedCentre(k: real, t: Point3, base: seq<real>, scale: real, levels: u8, rt: Roots)
    requires |base| >= 3
    requires k * base[0] + t.x == base[0] && k * base[1] + t.y == base[1] && k * base[2] + t.z == base[2]
    ensures Sierpinski(base, k * scale, levels, rt) == ApplyFlat(Similarity(k, t), Sierpinski(base, scale, levels, rt))
  {
    var b := Head(base);
    var a := Similarity(k, t);
    calc {
      Sierpinski(base, k * scale, levels, rt);
      == { SierpinskiReadsThree(base, k * scale, levels, rt); }
      Sierpinski(base[..3], k * scale, levels, rt);
      == { FixedFlat(k, t, base); }
      Sierpinski(Flat(Apply(a, b)), k * scale, levels, rt);
      == { SierpinskiSimilar(a, base, scale, k * scale, levels, rt); }
      ApplyFlat(a, Sierpinski(base, scale, levels, rt));
    }
  }

  /** The centre, kept in place, reads back as the first three numbers. */
  lemma FixedFlat(k: real, t: Point3, base: seq<real>)
    requires |base| >= 3
    requires k * base[0] + t.x == base[0] && k * base[1] + t.y == base[1] && k * base[2] + t.z == base[2]
    ensures Flat(Apply(Similarity(k, t), Head(base))) == base[..3]
  {
    assert Apply(Similarity(k, t), Head(base)) == Head(base);
  }

  /** Translation: moving the centre by `t` moves every emitted point by `t`. */
  lemma SierpinskiTranslate(t: Point3, base: seq<real>, scale: real, levels: u8, rt: Roots)
    requires |base| >= 3
    ensures var moved := [base[0] + t.x, base[1] + t.y, base[2] + t.z];
      Sierpinski(moved, scale, levels, rt)
        == ApplyFlat(Similarity(1.0, t), Sierpinski(base, scale, levels, rt))
  {
    var a := Similarity(1.0, t);
    var b := Head(base);
    calc {
      Sierpinski([base[0] + t.x, base[1] + t.y, base[2] + t.z], scale, levels, rt);
      == { assert [base[0] + t.x, base[1] + t.y, base[2] + t.z] == Flat(Apply(a, b)); }
      Sierpinski(Flat(Apply(a, b)), scale, levels, rt);
      == { SierpinskiSimilar(a, base, scale, scale, levels, rt); }
      ApplyFlat(a, Sierpinski(base, scale, levels, rt));
    }
  }
}
