/** Points in space and the flat coordinate lists the generator emits.
    Every implementation of the generator hands out points as a flat list of
    numbers, three per point; this module holds that representation and the
    facts about it that the three implementations share. Coordinates are
    exact reals: the `f32` (Rust) and `f64` (JavaScript) rounding of the
    originals is not modelled. */
module Points {

  /** A point or a vector: Rust's `[f32; 3]`. */
  datatype Point3 = Point3(x: real, y: real, z: real)

  /** The point made of the first three numbers of a list. */
  function Head(p: seq<real>): Point3
    requires |p| >= 3
  {
    Point3(p[0], p[1], p[2])
  }

  /** The square roots of 3 and of 2 that the corner formulas use. They are
      irrational and `real` has no square root, so the model takes them as a
      parameter. The Rust version rounds them to `f32` (`3.0f32.sqrt()` and the
      constant `SQRT_2`), the JavaScript versions to `f64` (`Math.sqrt`); one
      shared exact pair stands for both. */
  datatype Roots = Roots(sqrt3: real, sqrt2: real)

  /** Both roots are positive, as square roots of 3 and 2 are. */
  predicate Positive(rt: Roots) {
    rt.sqrt3 > 0.0 && rt.sqrt2 > 0.0
  }

  /** The roots are the exact square roots of 3 and 2. */
  predicate Exact(rt: Roots) {
    Positive(rt) && rt.sqrt3 * rt.sqrt3 == 3.0 && rt.sqrt2 * rt.sqrt2 == 2.0
  }

  /** `4^n`. */
  function Pow4(n: nat): (r: nat)
    ensures r >= 1
  {
    if n == 0 then 1 else 4 * Pow4(n - 1)
  }

  /** Half a scale, `x * 0.5`: each level of the recursion halves the scale. */
  function Half(x: real): real {
    x * 0.5
  }

  /** The three coordinates of a point, in x, y, z order. */
  function Flat(p: Point3): seq<real> {
    [p.x, p.y, p.z]
  }

  /** The point whose coordinates start at position `3 * m` of a flat list. */
  function PointAt(r: seq<real>, m: nat): Point3
    requires 3 * m + 3 <= |r|
  {
    Point3(r[3 * m], r[3 * m + 1], r[3 * m + 2])
  }

  /** A list of points flattened into their coordinates, point by point, as
      Rust's `iter().flatten().copied().collect()` and JavaScript's `concat` do. */
  function Flatten(ps: seq<Point3>): (r: seq<real>)
    ensures |r| == 3 * |ps|
  {
    if ps == [] then [] else Flat(ps[0]) + Flatten(ps[1..])
  }

  /** Reading the `m`-th point back out of a flattened list gives the `m`-th point. */
  lemma {:induction false} FlattenPointAt(ps: seq<Point3>, m: nat)
    requires m < |ps|
    ensures PointAt(Flatten(ps), m) == ps[m]
  {
    if m > 0 {
      FlattenPointAt(ps[1..], m - 1);
      assert Flatten(ps)[3..] == Flatten(ps[1..]);
    }
  }

  /** Flattening distributes over concatenation. */
  lemma {:induction false} FlattenAppend(a: seq<Point3>, b: seq<Point3>)
    ensures Flatten(a + b) == Flatten(a) + Flatten(b)
  {
    if a != [] {
      assert (a + b)[0] == a[0] && (a + b)[1..] == a[1..] + b;
      FlattenAppend(a[1..], b);
      calc {
        Flatten(a + b);
        Flat(a[0]) + Flatten(a[1..] + b);
        Flat(a[0]) + (Flatten(a[1..]) + Flatten(b));
        (Flat(a[0]) + Flatten(a[1..])) + Flatten(b);
        Flatten(a) + Flatten(b);
      }
    } else {
      assert a + b == b;
    }
  }

  /** The points of a flat list, three coordinates at a time. */
  function Unflatten(r: seq<real>): (ps: seq<Point3>)
    requires |r| % 3 == 0
    ensures 3 * |ps| == |r|
    decreases |r|
  {
    if r == [] then [] else [PointAt(r, 0)] + Unflatten(r[3..])
  }

  /** Unflatten undoes Flatten ... */
  lemma {:induction false} UnflattenFlatten(ps: seq<Point3>)
    ensures Unflatten(Flatten(ps)) == ps
  {
    if ps != [] {
      assert Flatten(ps)[3..] == Flatten(ps[1..]);
      UnflattenFlatten(ps[1..]);
    }
  }

  /** ... and Flatten undoes Unflatten. */
  lemma {:induction false} FlattenUnflatten(r: seq<real>)
    requires |r| % 3 == 0
    ensures Flatten(Unflatten(r)) == r
    decreases |r|
  {
    if r != [] {
      FlattenUnflatten(r[3..]);
      assert r == Flat(PointAt(r, 0)) + r[3..];
    }
  }

  /** JavaScript's `a.concat(b, c, ...)`: the receiver and then each argument,
      concatenated in order. */
  function Concat(parts: seq<seq<real>>): (r: seq<real>)
    ensures (forall i :: 0 <= i < |parts| ==> |parts[i]| == 3) ==> |r| == 3 * |parts|
  {
    if parts == [] then [] else parts[0] + Concat(parts[1..])
  }

  /** Concatenating the coordinate triples of a list of points flattens it. */
  lemma {:induction false} ConcatFlat(parts: seq<seq<real>>, ps: seq<Point3>)
    requires |parts| == |ps|
    requires forall i :: 0 <= i < |ps| ==> parts[i] == Flat(ps[i])
    ensures Concat(parts) == Flatten(ps)
  {
    if ps != [] {
      ConcatFlat(parts[1..], ps[1..]);
    }
  }

  /** Squared distance between two points. */
  function Dist2(p: Point3, q: Point3): real {
    (p.x - q.x) * (p.x - q.x) + (p.y - q.y) * (p.y - q.y) + (p.z - q.z) * (p.z - q.z)
  }

  /** `q - p`. */
  function Sub(q: Point3, p: Point3): Point3 {
    Point3(q.x - p.x, q.y - p.y, q.z - p.z)
  }

  /** The triple product `u . (v x w)`. */
  function Det(u: Point3, v: Point3, w: Point3): real {
    u.x * (v.y * w.z - v.z * w.y) + u.y * (v.z * w.x - v.x * w.z) + u.z * (v.x * w.y - v.y * w.x)
  }

  /** Six times the signed volume of the tetrahedron `a, b, c, d`: negative when
      `d` lies behind the triangle `a, b, c` as seen with `a, b, c` running
      counter-clockwise, that is, when the triangle's front faces away from `d`. */
  function Orientation(a: Point3, b: Point3, c: Point3, d: Point3): real {
    Det(Sub(b, a), Sub(c, a), Sub(d, a))
  }

  /** Scaling a midpoint coordinate `m` scales both ends. */
  lemma ScaleMid(k: real, m: real, p: real, q: real)
    requires m == (p + q) * 0.5
    ensures k * m == (k * p + k * q) * 0.5
  {
  }

  /** Four blocks of equal length `n` can be sliced back out of their concatenation. */
  lemma QuarterSlices<T>(t0: seq<T>, t1: seq<T>, t2: seq<T>, t3: seq<T>, n: nat)
    requires |t0| == |t1| == |t2| == |t3| == n
    ensures var r := t0 + t1 + t2 + t3;
      |r| == 4 * n && r[..n] == t0 && r[n..2 * n] == t1 && r[2 * n..3 * n] == t2 && r[3 * n..] == t3
  {
  }

  /** A similarity transform `p |-> k * p + t` (a uniform scaling by `k`
      followed by a translation by `t`). */
  datatype Similarity = Similarity(k: real, t: Point3)

  function Apply(a: Similarity, p: Point3): Point3 {
    Point3(a.k * p.x + a.t.x, a.k * p.y + a.t.y, a.k * p.z + a.t.z)
  }

  /** A similarity applied to every point of a flat list (an incomplete
      point at the end, which the generator never produces, is left as it is). */
  function ApplyFlat(a: Similarity, r: seq<real>): (s: seq<real>)
    ensures |s| == |r|
    decreases |r|
  {
    if |r| < 3 then r else Flat(Apply(a, PointAt(r, 0))) + ApplyFlat(a, r[3..])
  }

  /** ApplyFlat moves each point by itself: the `m`-th point of the result is
      the image of the `m`-th point of the input. */
  lemma {:induction false} ApplyFlatPointAt(a: Similarity, r: seq<real>, m: nat)
    requires 3 * m + 3 <= |r|
    ensures PointAt(ApplyFlat(a, r), m) == Apply(a, PointAt(r, m))
    decreases |r|
  {
    if m > 0 {
      ApplyFlatPointAt(a, r[3..], m - 1);
      assert ApplyFlat(a, r)[3..] == ApplyFlat(a, r[3..]);
    }
  }

  /** ApplyFlat distributes over concatenation at point boundaries. */
  lemma {:induction false} ApplyFlatAppend(a: Similarity, r: seq<real>, s: seq<real>)
    requires |r| % 3 == 0
    ensures ApplyFlat(a, r + s) == ApplyFlat(a, r) + ApplyFlat(a, s)
    decreases |r|
  {
    if r != [] {
      var head := Flat(Apply(a, PointAt(r, 0)));
      ApplyFlatAppend(a, r[3..], s);
      calc {
        ApplyFlat(a, r + s);
        { assert (r + s)[3..] == r[3..] + s; assert PointAt(r + s, 0) == PointAt(r, 0); }
        head + ApplyFlat(a, r[3..] + s);
        head + (ApplyFlat(a, r[3..]) + ApplyFlat(a, s));
        (head + ApplyFlat(a, r[3..])) + ApplyFlat(a, s);
        ApplyFlat(a, r) + ApplyFlat(a, s);
      }
    } else {
      assert r + s == s;
    }
  }

  /** Transforming the points and then flattening is the same as flattening
      and then transforming the flat list. */
  lemma {:induction false} ApplyFlatten(a: Similarity, ps: seq<Point3>, qs: seq<Point3>)
    requires |qs| == |ps|
    requires forall i :: 0 <= i < |ps| ==> qs[i] == Apply(a, ps[i])
    ensures ApplyFlat(a, Flatten(ps)) == Flatten(qs)
  {
    if ps != [] {
      ApplyFlatten(a, ps[1..], qs[1..]);
      assert Flatten(ps)[3..] == Flatten(ps[1..]);
      assert PointAt(Flatten(ps), 0) == ps[0];
    }
  }

  /** Lengths that are whole numbers of leaves. */
  predicate Whole(n: nat) {
    n % 36 == 0
  }

  lemma Whole36(k: nat)
    ensures Whole(36 * k)
  {
  }

  /** A flat list cut into consecutive blocks of 36 numbers: the generator's
      output is a run of leaf tetrahedra of 36 numbers each, and `Leaves`
      lists them. */
  function Leaves(r: seq<real>): (ls: seq<seq<real>>)
    requires Whole(|r|)
    ensures 36 * |ls| == |r|
    decreases |r|
  {
    if r == [] then [] else [r[..36]] + Leaves(r[36..])
  }

  /** Two runs of whole leaves make a run of whole leaves. */
  lemma WholeLeaves(r: seq<real>, s: seq<real>)
    requires Whole(|r|) && Whole(|s|)
    ensures Whole(|r + s|)
  {
    WholeSum(|r|, |s|);
  }

  /** Two multiples of 36 add up to a multiple of 36. */
  lemma WholeSum(a: nat, b: nat)
    requires Whole(a) && Whole(b)
    ensures Whole(a + b)
  {
    var m, n := a / 36, b / 36;
    assert a == 36 * m && b == 36 * n;
    assert a + b == 36 * (m + n);
  }

  /** A non-empty run of whole leaves starts with a whole leaf, and the rest
      is again a run of whole leaves. */
  lemma DropLeaf(r: seq<real>)
    requires Whole(|r|) && r != []
    ensures |r| >= 36 && Whole(|r[36..]|)
  {
    var n := |r| / 36;
    assert |r| == 36 * n;
  }

  /** Cutting into leaves distributes over concatenation at a leaf boundary. */
  lemma {:induction false} LeavesAppend(r: seq<real>, s: seq<real>)
    requires Whole(|r|) && Whole(|s|)
    ensures Leaves(r + s) == Leaves(r) + Leaves(s)
    decreases |r|
  {
    if r != [] {
      DropLeaf(r);
      WholeLeaves(r, s);
      WholeLeaves(r[36..], s);
      assert (r + s)[..36] == r[..36];
      assert (r + s)[36..] == r[36..] + s;
      LeavesAppend(r[36..], s);
      calc {
        Leaves(r + s);
        [r[..36]] + Leaves(r[36..] + s);
        [r[..36]] + (Leaves(r[36..]) + Leaves(s));
        ([r[..36]] + Leaves(r[36..])) + Leaves(s);
        Leaves(r) + Leaves(s);
      }
    } else {
      assert r + s == s;
    }
  }
}
