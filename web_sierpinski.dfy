/** The JavaScript port, `webroot/sierpinski.js`: the same generator written
    on plain arrays of numbers, whose recursion takes the child corners out of
    the face list by slicing it, and the `geometry` loop that builds the index
    list for the mesh. Its output is related here to the Rust generator's. */
module WebSierpinski {
  import opened Points
  import Rust = RustSierpinski

  /** `tetrahedron`: the four faces around the first three numbers of `base`,
      as 36 numbers. The corner formulas are those of the Rust version, with
      `dy` written `scale * sqrt3 / 2`. */
  function Tetrahedron(base: seq<real>, scale: real, rt: Roots): (r: seq<real>)
    requires |base| >= 3
    ensures |r| == 36
  {
    var x, y, z := base[0], base[1], base[2];
    var dy := scale * rt.sqrt3 / 2.0;
    var dx := scale * -0.5;
    var p0 := [x + scale, y, z];
    var p1 := [x + dx, y + dy, z];
    var p2 := [x + dx, y - dy, z];
    var p3 := [x, y, z + scale * rt.sqrt2];
    Concat([p0, p2, p1,
            p0, p1, p3,
            p0, p3, p2,
            p1, p2, p3])
  }

  /** The JavaScript tetrahedron is the Rust one: same corners, same faces,
      same winding, same flat layout. */
  lemma TetrahedronAgrees(base: seq<real>, scale: real, rt: Roots)
    requires |base| >= 3
    ensures Tetrahedron(base, scale, rt) == Rust.Tetrahedron(Head(base), scale, rt)
  {
    var c := Head(base);
    var cs := Rust.TetrahedronRaw(c, scale, rt);
    var dy := scale * rt.sqrt3 / 2.0;
    var dx := scale * -0.5;
    assert dy == scale * rt.sqrt3 * 0.5;
    Rust.RawCorners(c, scale, rt);
    var p0, p1, p2, p3 := Flat(cs[0]), Flat(cs[1]), Flat(cs[2]), Flat(cs[3]);
    assert p0 == [c.x + scale, c.y, c.z];
    assert p1 == [c.x + dx, c.y + dy, c.z];
    assert p2 == [c.x + dx, c.y - dy, c.z];
    assert p3 == [c.x, c.y, c.z + scale * rt.sqrt2];
    ConcatFlat([p0, p2, p1, p0, p1, p3, p0, p3, p2, p1, p2, p3], Rust.Faces(cs));
  }

  /** `average`: the midpoint of the first three numbers of two lists. */
  function Average(p1: seq<real>, p2: seq<real>): (m: seq<real>)
    requires |p1| >= 3 && |p2| >= 3
    ensures |m| == 3
  {
    [(p1[0] + p2[0]) * 0.5, (p1[1] + p2[1]) * 0.5, (p1[2] + p2[2]) * 0.5]
  }

  /** The JavaScript midpoint is the Rust one: each coordinate lies halfway,
      `m - p1 == p2 - m`. */
  lemma AverageAgrees(p1: seq<real>, p2: seq<real>)
    requires |p1| >= 3 && |p2| >= 3
    ensures Average(p1, p2) == Flat(Rust.Average(Head(p1), Head(p2)))
    ensures var m := Average(p1, p2);
      forall i :: 0 <= i < 3 ==> m[i] - p1[i] == p2[i] - m[i]
  {
  }

  /** The depth a JavaScript `levels` argument stands for: `levels <= 0`
      (negative ones included) stops the recursion at once. */
  function Depth(levels: int): nat {
    if levels > 0 then levels else 0
  }

  /** `sierpinski`: at `levels > 0` the four children are centred halfway to
      the corners read from the face list at `[0, 3)`, `[3, 6)`, `[6, 9)` and
      `[21, 24)`, that is `p0, p2, p1, p3`, each subdivided at half the scale
      and one level less; the results are concatenated in that order. */
  function Sierpinski(base: seq<real>, scale: real, levels: int, rt: Roots): (r: seq<real>)
    requires |base| >= 3
    ensures |r| == 36 * Pow4(Depth(levels))
    decreases levels
  {
    if levels > 0 then
      var corners := Tetrahedron(base, scale, rt);
      var t1 := Sierpinski(Average(base, corners[0..3]), Half(scale), levels - 1, rt);
      var t2 := Sierpinski(Average(base, corners[3..6]), Half(scale), levels - 1, rt);
      var t3 := Sierpinski(Average(base, corners[6..9]), Half(scale), levels - 1, rt);
      var t4 := Sierpinski(Average(base, corners[21..24]), Half(scale), levels - 1, rt);
      t1 + t2 + t3 + t4
    else
      Tetrahedron(base, scale, rt)
  }

  /** The slices the JavaScript recursion reads are the corners `p0, p2, p1,
      p3`, so its four child centres are the Rust child centres towards
      corners 0, 2, 1 and 3. */
  lemma WebChildCentres(base: seq<real>, scale: real, rt: Roots)
    requires |base| >= 3
    ensures var corners := Tetrahedron(base, scale, rt);
      var b := Head(base);
      Average(base, corners[0..3]) == Flat(Rust.ChildCentre(b, scale, rt, 0))
      && Average(base, corners[3..6]) == Flat(Rust.ChildCentre(b, scale, rt, 2))
      && Average(base, corners[6..9]) == Flat(Rust.ChildCentre(b, scale, rt, 1))
      && Average(base, corners[21..24]) == Flat(Rust.ChildCentre(b, scale, rt, 3))
  {
    var b := Head(base);
    var corners := Tetrahedron(base, scale, rt);
    var cs := Rust.TetrahedronRaw(b, scale, rt);
    TetrahedronAgrees(base, scale, rt);
    Rust.TetrahedronPoints(b, scale, rt);
    CentreFromSlice(base, scale, rt, corners, 0, 0);
    CentreFromSlice(base, scale, rt, corners, 1, 2);
    CentreFromSlice(base, scale, rt, corners, 2, 1);
    CentreFromSlice(base, scale, rt, corners, 7, 3);
  }

  /** The midpoint between the centre and point `m` of a flat list, when that
      point is Rust corner `i`, is the Rust child centre towards corner `i`. */
  lemma CentreFromSlice(base: seq<real>, scale: real, rt: Roots, corners: seq<real>, m: nat, i: nat)
    requires |base| >= 3 && i < 4 && 3 * m + 3 <= |corners|
    requires PointAt(corners, m) == Rust.TetrahedronRaw(Head(base), scale, rt)[i]
    ensures Average(base, corners[3 * m..3 * m + 3]) == Flat(Rust.ChildCentre(Head(base), scale, rt, i))
  {
    SliceAt(corners, m, Rust.TetrahedronRaw(Head(base), scale, rt)[i]);
    AverageAgrees(base, corners[3 * m..3 * m + 3]);
  }

  /** The three numbers of point `m` of a flat list, when that point is `p`. */
  lemma SliceAt(r: seq<real>, m: nat, p: Point3)
    requires 3 * m + 3 <= |r| && PointAt(r, m) == p
    ensures r[3 * m..3 * m + 3] == Flat(p) && Head(r[3 * m..3 * m + 3]) == p
  {
  }

  /** The JavaScript subdivision of the child grown towards Rust corner `i`:
      centred on the Rust child centre, at half the scale and one level less. */
  function ChildBlock(b: Point3, scale: real, levels: int, rt: Roots, i: nat): (r: seq<real>)
    requires levels > 0 && i < 4
    ensures |r| == 36 * Pow4(levels - 1)
  {
    Sierpinski(Flat(Rust.ChildCentre(b, scale, rt, i)), Half(scale), levels - 1, rt)
  }

  /** At `levels > 0` the output is the subdivisions of the children towards
      corners `p0, p2, p1, p3`, in that order: the Rust order with the second
      and third children swapped. */
  lemma SierpinskiBlocks(base: seq<real>, scale: real, levels: int, rt: Roots)
    requires |base| >= 3 && levels > 0
    ensures var b := Head(base);
      Sierpinski(base, scale, levels, rt)
        == ChildBlock(b, scale, levels, rt, 0) + ChildBlock(b, scale, levels, rt, 2)
          + ChildBlock(b, scale, levels, rt, 1) + ChildBlock(b, scale, levels, rt, 3)
  {
    WebChildCentres(base, scale, rt);
  }

  /** The order in which the JavaScript version emits the blocks of a Rust
      output of the given depth: at every level of the recursion the second
      and third of the four child blocks trade places. */
  function WebOrder(r: seq<real>, depth: nat): (s: seq<real>)
    requires |r| == 36 * Pow4(depth)
    ensures |s| == |r|
  {
    if depth == 0 then r
    else
      var n := 36 * Pow4(depth - 1);
      WebOrder(r[..n], depth - 1) + WebOrder(r[2 * n..3 * n], depth - 1)
      + WebOrder(r[n..2 * n], depth - 1) + WebOrder(r[3 * n..], depth - 1)
  }

  /** One level of WebOrder on four blocks: each block is reordered inside
      itself, and the second and third blocks trade places. */
  lemma WebOrderQuarters(a: seq<real>, b: seq<real>, c: seq<real>, d: seq<real>, depth: nat)
    requires depth > 0
    requires |a| == |b| == |c| == |d| == 36 * Pow4(depth - 1)
    ensures WebOrder(a + b + c + d, depth)
      == WebOrder(a, depth - 1) + WebOrder(c, depth - 1) + WebOrder(b, depth - 1) + WebOrder(d, depth - 1)
  {
    QuarterSlices(a, b, c, d, 36 * Pow4(depth - 1));
  }

  /** The JavaScript output is the Rust output with the second and third child
      blocks swapped at every level. */
  lemma {:induction false} WebMatchesRust(base: seq<real>, scale: real, levels: Rust.u8, rt: Roots)
    requires |base| >= 3
    ensures Sierpinski(base, scale, levels as int, rt)
      == WebOrder(Rust.Sierpinski(base, scale, levels, rt), levels as nat)
    decreases levels
  {
    if levels == 0 {
      NoLevels(base, scale, 0, rt);
    } else {
      var b := Head(base);
      var c0, c1 := Rust.Child(b, scale, levels, rt, 0), Rust.Child(b, scale, levels, rt, 1);
      var c2, c3 := Rust.Child(b, scale, levels, rt, 2), Rust.Child(b, scale, levels, rt, 3);
      Rust.SierpinskiUnfold(base, scale, levels, rt);
      WebOrderQuarters(c0, c1, c2, c3, levels as nat);
      ChildMatches(b, scale, levels, rt, 0);
      ChildMatches(b, scale, levels, rt, 1);
      ChildMatches(b, scale, levels, rt, 2);
      ChildMatches(b, scale, levels, rt, 3);
      SierpinskiBlocks(base, scale, levels as int, rt);
    }
  }

  /** Each JavaScript child block is the reordered Rust child block. */
  lemma {:induction false} ChildMatches(b: Point3, scale: real, levels: Rust.u8, rt: Roots, i: nat)
    requires levels > 0 && i < 4
    ensures ChildBlock(b, scale, levels as int, rt, i) == WebOrder(Rust.Child(b, scale, levels, rt, i), levels as nat - 1)
    decreases levels, 0
  {
    var centre, l := Flat(Rust.ChildCentre(b, scale, rt, i)), levels - 1;
    assert l as int == levels as int - 1 && l as nat == levels as nat - 1;
    assert ChildBlock(b, scale, levels as int, rt, i) == Sierpinski(centre, Half(scale), l as int, rt);
    assert Rust.Child(b, scale, levels, rt, i) == Rust.Sierpinski(centre, Half(scale), l, rt);
    WebMatchesRust(centre, Half(scale), l, rt);
  }

  /** Read the other way: reordering the JavaScript output the same way gives
      back the Rust output, so WebOrder undoes itself on the generator's output. */
  lemma {:induction false} RustMatchesWeb(base: seq<real>, scale: real, levels: Rust.u8, rt: Roots)
    requires |base| >= 3
    ensures Rust.Sierpinski(base, scale, levels, rt)
      == WebOrder(Sierpinski(base, scale, levels as int, rt), levels as nat)
    decreases levels
  {
    if levels == 0 {
      NoLevels(base, scale, 0, rt);
    } else {
      var b := Head(base);
      var L := levels as int;
      var w0, w1 := ChildBlock(b, scale, L, rt, 0), ChildBlock(b, scale, L, rt, 1);
      var w2, w3 := ChildBlock(b, scale, L, rt, 2), ChildBlock(b, scale, L, rt, 3);
      SierpinskiBlocks(base, scale, L, rt);
      WebOrderQuarters(w0, w2, w1, w3, levels as nat);
      ChildMatchesBack(b, scale, levels, rt, 0);
      ChildMatchesBack(b, scale, levels, rt, 1);
      ChildMatchesBack(b, scale, levels, rt, 2);
      ChildMatchesBack(b, scale, levels, rt, 3);
      Rust.SierpinskiUnfold(base, scale, levels, rt);
    }
  }

  /** Each Rust child block is the reordered JavaScript child block. */
  lemma {:induction false} ChildMatchesBack(b: Point3, scale: real, levels: Rust.u8, rt: Roots, i: nat)
    requires levels > 0 && i < 4
    ensures Rust.Child(b, scale, levels, rt, i) == WebOrder(ChildBlock(b, scale, levels as int, rt, i), levels as nat - 1)
    decreases levels, 0
  {
    var centre, l := Flat(Rust.ChildCentre(b, scale, rt, i)), levels - 1;
    assert l as int == levels as int - 1 && l as nat == levels as nat - 1;
    assert ChildBlock(b, scale, levels as int, rt, i) == Sierpinski(centre, Half(scale), l as int, rt);
    assert Rust.Child(b, scale, levels, rt, i) == Rust.Sierpinski(centre, Half(scale), l, rt);
    RustMatchesWeb(centre, Half(scale), l, rt);
  }

  /** Cutting four whole-leaf blocks into leaves, block by block. */
  lemma LeavesFour(a: seq<real>, b: seq<real>, c: seq<real>, d: seq<real>)
    requires Whole(|a|) && Whole(|b|) && Whole(|c|) && Whole(|d|)
    ensures Whole(|a + b + c + d|)
    ensures multiset(Leaves(a + b + c + d))
      == multiset(Leaves(a)) + multiset(Leaves(b)) + multiset(Leaves(c)) + multiset(Leaves(d))
  {
    LeavesAppend(a, b);
    WholeLeaves(a, b);
    LeavesAppend(a + b, c);
    WholeLeaves(a + b, c);
    LeavesAppend(a + b + c, d);
    WholeLeaves(a + b + c, d);
  }

  /** Both versions draw the same leaf tetrahedra, each as many times; only
      the order of the blocks differs. */
  lemma {:induction false} SameLeaves(base: seq<real>, scale: real, levels: Rust.u8, rt: Roots)
    requires |base| >= 3
    ensures var w, r := Sierpinski(base, scale, levels as int, rt), Rust.Sierpinski(base, scale, levels, rt);
      Whole(|w|) && Whole(|r|) && multiset(Leaves(w)) == multiset(Leaves(r))
    decreases levels
  {
    Whole36(Pow4(levels as nat));
    if levels == 0 {
      NoLevels(base, scale, 0, rt);
    } else {
      var b := Head(base);
      var L := levels as int;
      var w0, w1 := ChildBlock(b, scale, L, rt, 0), ChildBlock(b, scale, L, rt, 1);
      var w2, w3 := ChildBlock(b, scale, L, rt, 2), ChildBlock(b, scale, L, rt, 3);
      var r0, r1 := Rust.Child(b, scale, levels, rt, 0), Rust.Child(b, scale, levels, rt, 1);
      var r2, r3 := Rust.Child(b, scale, levels, rt, 2), Rust.Child(b, scale, levels, rt, 3);
      ChildLeaves(b, scale, levels, rt, 0);
      ChildLeaves(b, scale, levels, rt, 1);
      ChildLeaves(b, scale, levels, rt, 2);
      ChildLeaves(b, scale, levels, rt, 3);
      SierpinskiBlocks(base, scale, L, rt);
      Rust.SierpinskiUnfold(base, scale, levels, rt);
      SwappedLeaves(w0, w2, w1, w3, r0, r1, r2, r3);
    }
  }

  /** Four blocks with the leaves of four others, the middle two swapped,
      have together the leaves of the four others. */
  lemma SwappedLeaves(w0: seq<real>, w2: seq<real>, w1: seq<real>, w3: seq<real>,
                      r0: seq<real>, r1: seq<real>, r2: seq<real>, r3: seq<real>)
    requires Whole(|w0|) && Whole(|w1|) && Whole(|w2|) && Whole(|w3|)
    requires Whole(|r0|) && Whole(|r1|) && Whole(|r2|) && Whole(|r3|)
    requires multiset(Leaves(w0)) == multiset(Leaves(r0)) && multiset(Leaves(w1)) == multiset(Leaves(r1))
    requires multiset(Leaves(w2)) == multiset(Leaves(r2)) && multiset(Leaves(w3)) == multiset(Leaves(r3))
    ensures Whole(|w0 + w2 + w1 + w3|) && Whole(|r0 + r1 + r2 + r3|)
    ensures multiset(Leaves(w0 + w2 + w1 + w3)) == multiset(Leaves(r0 + r1 + r2 + r3))
  {
    LeavesFour(w0, w2, w1, w3);
    LeavesFour(r0, r1, r2, r3);
    var m0, m1, m2, m3 := multiset(Leaves(r0)), multiset(Leaves(r1)), multiset(Leaves(r2)), multiset(Leaves(r3));
    SwapMiddle(m0, m2, m1, m3);
  }

  /** Multiset union does not depend on the order of the parts. */
  lemma SwapMiddle<T>(a: multiset<T>, b: multiset<T>, c: multiset<T>, d: multiset<T>)
    ensures a + b + c + d == a + c + b + d
  {
  }

  /** SameLeaves for the child grown towards corner `i`. */
  lemma {:induction false} ChildLeaves(b: Point3, scale: real, levels: Rust.u8, rt: Roots, i: nat)
    requires levels > 0 && i < 4
    ensures var w, r := ChildBlock(b, scale, levels as int, rt, i), Rust.Child(b, scale, levels, rt, i);
      Whole(|w|) && Whole(|r|) && multiset(Leaves(w)) == multiset(Leaves(r))
    decreases levels, 0
  {
    var centre, l := Flat(Rust.ChildCentre(b, scale, rt, i)), levels - 1;
    assert l as int == levels as int - 1 && l as nat == levels as nat - 1;
    assert ChildBlock(b, scale, levels as int, rt, i) == Sierpinski(centre, Half(scale), l as int, rt);
    assert Rust.Child(b, scale, levels, rt, i) == Rust.Sierpinski(centre, Half(scale), l, rt);
    SameLeaves(centre, Half(scale), l, rt);
  }

  /** At `levels <= 0`, negative values included, the output is the single
      tetrahedron, which is the Rust output at depth 0. */
  lemma NoLevels(base: seq<real>, scale: real, levels: int, rt: Roots)
    requires |base| >= 3 && levels <= 0
    ensures Sierpinski(base, scale, levels, rt) == Tetrahedron(base, scale, rt)
    ensures Sierpinski(base, scale, levels, rt) == Rust.Sierpinski(base, scale, 0, rt)
  {
    TetrahedronAgrees(base, scale, rt);
    Rust.SierpinskiBlocks(base, scale, 0, rt);
  }

  /** `new Uint16Array(xs)`: every element is stored modulo 2^16. */
  function Uint16Array(xs: seq<int>): (ys: seq<int>)
    ensures |ys| == |xs|
    ensures forall k :: 0 <= k < |xs| ==> 0 <= ys[k] < 0x1_0000 && (ys[k] - xs[k]) % 0x1_0000 == 0
    ensures forall k :: 0 <= k < |xs| && 0 <= xs[k] < 0x1_0000 ==> ys[k] == xs[k]
  {
    seq(|xs|, k requires 0 <= k < |xs| => xs[k] % 0x1_0000)
  }

  /** The loop of `geometry`: `i` runs from 0 while `i < vertices.length / 3`
      (a division on numbers, so a length that is not a multiple of 3 counts
      one more index), and each `i` is pushed. The list holds one index per
      started group of three numbers, and index `k` is `k`. */
  method IndexList(vertices: seq<real>) returns (indices: seq<int>)
    ensures 3 * |indices| >= |vertices| && 3 * (|indices| - 1) < |vertices|
    ensures |indices| == (|vertices| + 2) / 3
    ensures forall k :: 0 <= k < |indices| ==> indices[k] == k
  {
    indices := [];
    var i := 0;
    while (i as real) < (|vertices| as real) / 3.0
      invariant 0 <= i && 3 * (i - 1) < |vertices|
      invariant |indices| == i
      invariant forall k :: 0 <= k < i ==> indices[k] == k
      decreases |vertices| - 3 * i
    {
      indices := indices + [i];
      i := i + 1;
    }
  }

  /** The arguments `geometry` passes to `sierpinski`. */
  const Origin: seq<real> := [0.0, 0.0, 0.0]
  const GeometryScale: real := 0.2
  const GeometryLevels: int := 2

  /** The depth-2 gasket has 16 leaves of 36 numbers: 576 numbers, 192 vertices. */
  lemma GeometrySize(rt: Roots)
    ensures |Sierpinski(Origin, GeometryScale, GeometryLevels, rt)| == 576
  {
    assert Depth(GeometryLevels) == 2 && Pow4(2) == 16;
  }

  /** `geometry`: the vertex positions of the depth-2 gasket of scale 0.2
      around the origin, and the index buffer the loop builds for them: one
      index per vertex (`vertices.length / 3` of them), each naming its own
      vertex, all small enough for the 16-bit buffer to keep them unchanged. */
  method Geometry(rt: Roots) returns (vertices: seq<real>, indices: seq<int>)
    ensures vertices == Sierpinski(Origin, GeometryScale, GeometryLevels, rt)
    ensures |vertices| == 576 && |indices| == 192 && 3 * |indices| == |vertices|
    ensures forall k :: 0 <= k < |indices| ==> indices[k] == k
  {
    vertices := Sierpinski(Origin, GeometryScale, GeometryLevels, rt);
    GeometrySize(rt);
    var list := IndexList(vertices);
    indices := Uint16Array(list);
  }
}
