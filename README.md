# Sierpinski tetrahedron generator

This project models the geometry generator of a WebXR experiment: code that
emits the faces of a Sierpinski tetrahedron (a tetrahedron cut recursively
into four half-size tetrahedra at its corners) as a flat list of coordinates
for a triangle mesh. The generator exists three times:

- `rust/sierpinski/src/lib.rs`, the reference version, is modelled in module
  `RustSierpinski`:
  - `tetrahedron_raw` gives the four corners around a centre;
  - `tetrahedron` gives the four faces as 36 numbers in a fixed winding;
  - `average` gives the midpoint of two points;
  - `sierpinski` is the recursion on a `u8` depth.
- `webroot/sierpinski.js` is the JavaScript port, modelled in module
  `WebSierpinski`. It is the same algorithm on plain number arrays. Its
  recursion takes the child corners out of the face list by slicing it, so it
  emits the children in the order p0, p2, p1, p3. It also has the loop in
  `geometry` that builds the identity index list, modelled as a method with
  loop invariants.
- `sierpinski.js` is an earlier prototype, modelled in module
  `PrototypeSierpinski`. Its `tetrahedron` returns only the four corners, and
  `geometry` draws the faces through a constant index list.

Module `Points` holds what the three versions share:
- points and flat coordinate lists, flattening and `concat`;
- similarity transforms (a uniform scaling followed by a translation);
- cutting an output into 36-number leaf tetrahedra.

Coordinates are exact `real`s. The square roots of 3 and 2 are irrational
and `real` has no square root, so the two roots are a parameter (`Roots`).
The Rust version works with `f32` roots (`3.0f32.sqrt()` and the constant
`std::f32::consts::SQRT_2`) and `f32` arithmetic. Both JavaScript files work
with `f64` roots (`Math.sqrt`) and `f64` arithmetic. One shared exact pair of
roots stands for all of them. So the agreements between versions
(`WebSierpinski.TetrahedronAgrees`, `WebSierpinski.WebMatchesRust`,
`PrototypeSierpinski.ResolveMatchesRust`) hold for the exact computation.
They do not hold for the numbers the programs actually produce, which differ
in rounding. Four geometric lemmas need a condition on the roots:
`TetrahedronRegular` and `BaseRadius` need the exact roots (`Exact`), and
`CornersDistinct` and `FacesOutward` need both roots positive (`Positive`).
The other lemmas, `FaceWinding`, `TetrahedronRawSimilar`, `ChildCorners` and
`SierpinskiSimilar` among them, hold for any roots.

Three results tie the versions together:
- the JavaScript output is the Rust output with the second and third child
  blocks swapped at every level of the recursion;
- the two outputs hold the same leaf tetrahedra;
- the prototype's index list, resolved against its four corners, draws
  exactly the Rust face list.

## Model

| member | source | states |
|---|---|---|
| Points.Flatten | rust/sierpinski/src/lib.rs:37-40 | length only: three numbers per point (the contents are stated by `FlattenPointAt`) |
| Points.FlattenPointAt | rust/sierpinski/src/lib.rs:37-40 | point `m` of a flattened point list is the `m`-th point: flattening keeps the order, three numbers per point |
| Points.UnflattenFlatten | rust/sierpinski/src/lib.rs:37-40 | reading a flattened list back three numbers at a time recovers the points |
| Points.FlattenUnflatten | rust/sierpinski/src/lib.rs:37-40 | every list whose length is a multiple of 3 is the flattening of its points |
| Points.FlattenAppend | rust/sierpinski/src/lib.rs:37-40 | flattening distributes over concatenation |
| Points.Concat | webroot/sierpinski.js:18-22 | length only: when every part is a triple, three numbers per part. The same function models `p0.concat(p1,p2,p3)` at sierpinski.js:17; the contents are stated by `ConcatFlat` |
| Points.ConcatFlat | webroot/sierpinski.js:18-22 | JavaScript `concat` of coordinate triples is the flattening of those points |
| Points.LeavesAppend | rust/sierpinski/src/lib.rs:51-54 | cutting a concatenation of whole leaf blocks into 36-number leaves gives the leaves of each part in turn |
| Points.ApplyFlatPointAt | rust/sierpinski/src/lib.rs:37-40 | a transform applied to a flat list moves point `m` to its image and nothing else |
| Points.ApplyFlatAppend | rust/sierpinski/src/lib.rs:51-54 | a transform applied to a flat list distributes over concatenation at point boundaries |
| RustSierpinski.TetrahedronRaw | rust/sierpinski/src/lib.rs:18-27 | exactly four corners |
| RustSierpinski.CornerOffsets | rust/sierpinski/src/lib.rs:20-25 | `p0` is the centre plus `(scale,0,0)`; `p1` and `p2` share x (`-scale/2` from the centre) and z and lie `scale*sqrt3/2` on either side in y; `p3` is the centre plus `(0,0,scale*sqrt2)` |
| RustSierpinski.TetrahedronRegular | rust/sierpinski/src/lib.rs:18-27 | with exact roots all six edges have squared length `3*scale^2`, so the tetrahedron is regular |
| RustSierpinski.BaseRadius | rust/sierpinski/src/lib.rs:20-24 | with exact roots the three lower corners lie at squared distance `scale^2` from the centre |
| RustSierpinski.CornersDistinct | rust/sierpinski/src/lib.rs:18-27 | with positive roots and a non-zero scale the four corners are pairwise distinct |
| RustSierpinski.Faces | rust/sierpinski/src/lib.rs:31-36 | twelve points, each one of the four corners (the order is stated by `TetrahedronPoints`, `FaceWinding` and `PrototypeSierpinski.FaceIndicesMatch`) |
| RustSierpinski.Tetrahedron | rust/sierpinski/src/lib.rs:29-41 | 36 numbers |
| RustSierpinski.TetrahedronPoints | rust/sierpinski/src/lib.rs:29-41 | point `m` of the output is point `m` of the faces (p0,p2,p1),(p0,p1,p3),(p0,p3,p2),(p1,p2,p3) |
| RustSierpinski.FaceWinding | rust/sierpinski/src/lib.rs:31-36 | face `k` leaves out corner `3-k`, and all four faces have the same signed volume towards that corner, `-1.5*sqrt3*sqrt2*scale^3`, so they share one winding |
| RustSierpinski.FacesOutward | rust/sierpinski/src/lib.rs:31-36 | with positive roots and scale, every face has its left-out corner behind it, so every face is front-facing from outside |
| RustSierpinski.FaceIncidence | rust/sierpinski/src/lib.rs:31-36 | for distinct corners, each face uses three distinct corners, and corner `i` lies on face `k` if and only if `i != 3-k` |
| RustSierpinski.CornerValence | rust/sierpinski/src/lib.rs:31-36 | for distinct corners, each corner lies on exactly three of the four faces |
| RustSierpinski.Average | rust/sierpinski/src/lib.rs:43-45 | the result lies halfway: `m - p1 == p2 - m` |
| RustSierpinski.AverageSymmetric | rust/sierpinski/src/lib.rs:43-45 | `average(p,q) == average(q,p)` and `average(p,p) == p` |
| RustSierpinski.AverageSimilar | rust/sierpinski/src/lib.rs:43-45 | scalings and translations map midpoints to midpoints |
| RustSierpinski.TetrahedronRawSimilar | rust/sierpinski/src/lib.rs:18-27 | the corners around a transformed centre, at the transformed scale, are the transformed corners |
| RustSierpinski.ChildCentre | rust/sierpinski/src/lib.rs:53 | the centre of the child grown towards corner `i` lies halfway between the parent centre and corner `i` |
| RustSierpinski.ChildCorners | rust/sierpinski/src/lib.rs:50-53 | the child grown towards corner `i` keeps corner `i`, and its other corners are the midpoints of the parent's edges from corner `i` |
| RustSierpinski.Sierpinski | rust/sierpinski/src/lib.rs:47-58 | the output has `36 * 4^levels` numbers |
| RustSierpinski.SierpinskiReadsThree | rust/sierpinski/src/lib.rs:49 | only `base[0..3]` is read |
| RustSierpinski.SierpinskiBlocks | rust/sierpinski/src/lib.rs:49-57 | at `levels == 0` the output is `tetrahedron` of the first three numbers. At `levels > 0` it is four blocks of `36*4^(levels-1)` numbers; block `i` is the output for centre `average(base, corner i)`, scale `scale*0.5` and `levels-1`, in corner order p0..p3 |
| RustSierpinski.SierpinskiUnfold | rust/sierpinski/src/lib.rs:50-54 | at `levels > 0` the output is the concatenation of the four child outputs in corner order |
| RustSierpinski.TetrahedronSimilar | rust/sierpinski/src/lib.rs:29-41 | the faces around a transformed centre, at the transformed scale, are the transformed faces |
| RustSierpinski.SierpinskiSimilar | rust/sierpinski/src/lib.rs:47-58 | transforming the centre and the scale by a similarity transforms every emitted point by it |
| RustSierpinski.SierpinskiScaleAboutBase | rust/sierpinski/src/lib.rs:47-58 | multiplying the scale by `k` multiplies every point's offset from the centre by `k` |
| RustSierpinski.SierpinskiFixedCentre | rust/sierpinski/src/lib.rs:47-58 | a similarity that fixes the centre only rescales the output |
| RustSierpinski.SierpinskiTranslate | rust/sierpinski/src/lib.rs:47-58 | moving the centre by `t` moves every emitted point by `t` |
| WebSierpinski.Tetrahedron | webroot/sierpinski.js:3-23 | 36 numbers |
| WebSierpinski.TetrahedronAgrees | webroot/sierpinski.js:9-22 | same corners, faces, winding and layout as the Rust `tetrahedron` of the first three numbers |
| WebSierpinski.Average | webroot/sierpinski.js:25-32 | three numbers |
| WebSierpinski.AverageAgrees | webroot/sierpinski.js:25-32 | the Rust midpoint of the first three numbers; each coordinate lies halfway |
| WebSierpinski.Sierpinski | webroot/sierpinski.js:34-47 | the output has `36 * 4^levels` numbers for `levels >= 0`, and 36 for `levels <= 0` |
| WebSierpinski.WebChildCentres | webroot/sierpinski.js:37-41 | the slices `[0,3)`, `[3,6)`, `[6,9)` and `[21,24)` of the face list give the Rust child centres towards corners p0, p2, p1, p3 |
| WebSierpinski.SierpinskiBlocks | webroot/sierpinski.js:36-43 | at `levels > 0` the output is the child subdivisions towards corners p0, p2, p1, p3, in that order, at half the scale and one level less |
| WebSierpinski.NoLevels | webroot/sierpinski.js:44-46 | at `levels <= 0`, negative values included, the output is `tetrahedron(base, scale)`, which is the Rust output at depth 0 |
| WebSierpinski.WebOrderQuarters | webroot/sierpinski.js:38-43 | one level of the JavaScript reorder: each quarter is reordered inside itself, and the second and third quarters trade places |
| WebSierpinski.WebMatchesRust | webroot/sierpinski.js:38-43 | the JavaScript output equals the Rust output with the second and third child blocks swapped at every level of the recursion |
| WebSierpinski.RustMatchesWeb | rust/sierpinski/src/lib.rs:50-54 | the same reorder applied to the JavaScript output gives back the Rust output |
| WebSierpinski.SameLeaves | webroot/sierpinski.js:34-47 | both versions emit the same leaf tetrahedra (36-number blocks), each as many times: they differ only in block order |
| WebSierpinski.Uint16Array | webroot/sierpinski.js:66 | every element is stored modulo 2^16, and values in `[0, 2^16)` are kept |
| WebSierpinski.IndexList | webroot/sierpinski.js:58-61 | the loop pushes one index per started group of three numbers, `ceil(vertices.length/3)` in all, and index `k` is `k` |
| WebSierpinski.GeometrySize | webroot/sierpinski.js:51 | the depth-2 gasket has 576 numbers |
| WebSierpinski.Geometry | webroot/sierpinski.js:49-68 | the vertices are `sierpinski([0,0,0], 0.2, 2)`, 576 numbers. The index buffer holds `vertices.length/3 == 192` indices, and index `k` is `k` after the 16-bit conversion |
| PrototypeSierpinski.Tetrahedron | sierpinski.js:3-23 | 12 numbers |
| PrototypeSierpinski.TetrahedronCorners | sierpinski.js:9-17 | the output is the Rust `tetrahedron_raw` corners p0, p1, p2, p3 flattened in that order: point `m` is corner `m` |
| PrototypeSierpinski.FaceIndices | sierpinski.js:32-35 | none: a constant, whose properties are stated by the four rows that follow and by `FaceIndicesMatch` |
| PrototypeSierpinski.FaceIndicesRange | sierpinski.js:32-35 | twelve indices, each in `0..3` |
| PrototypeSierpinski.FaceGroups | sierpinski.js:32-35 | each group of three holds three distinct indices, and group `g` leaves out corner `3-g` |
| PrototypeSierpinski.FaceIndicesCount | sierpinski.js:32-35 | each corner index occurs exactly three times |
| PrototypeSierpinski.FaceIndicesMultiset | sierpinski.js:32-35 | the indices are, as a multiset, each of the four corners three times |
| PrototypeSierpinski.CountMultiset | sierpinski.js:32-35 | counting the occurrences of a value is its multiplicity in the multiset of the entries |
| PrototypeSierpinski.Resolve | sierpinski.js:43 | what indexed drawing (`setIndex`) makes the renderer draw: one point per index, point `k` being `points[indices[k]]`, so every drawn point is one of the vertices |
| PrototypeSierpinski.FaceIndicesMatch | sierpinski.js:32-35 | resolving the indices against any four corners gives the Rust `tetrahedron` face list, point for point |
| PrototypeSierpinski.ResolveMatchesRust | sierpinski.js:27-43 | drawing the prototype's corners through its index list gives the 36 numbers of the Rust `tetrahedron` and of the JavaScript port's |
| PrototypeSierpinski.Geometry | sierpinski.js:25-53 | four corners and twelve indices that all name a corner; the faces drawn are the Rust `tetrahedron` around the origin at scale 0.2 |

## Left out

- Floating point: the `f32` arithmetic of the Rust version, the `f64` arithmetic of the JavaScript versions, `Float32Array` and IEEE rounding are not modelled. Coordinates are exact reals, so the equalities proved, the agreements between versions included, are those of the exact computation.
- Square roots: `real` has no square root and the roots are irrational, so `3.0f32.sqrt()`, the constant `SQRT_2` and `Math.sqrt` are replaced by one shared parameter, constrained by `Positive` or `Exact` where a lemma needs it. The `f32` roots of the Rust version and the `f64` roots of the JavaScript versions differ in rounding, and that difference is not modelled.
- JavaScript `tetrahedron` and `average` on arrays shorter than three numbers read `undefined` and yield `NaN`. They are modelled with the requirement `|base| >= 3`.
- Short `base` in Rust: `tetrahedron_raw`, `tetrahedron` and `average` take `[f32; 3]`, so a short array cannot reach them. Only `sierpinski` takes a slice, and it panics at `base[0], base[1], base[2]` when the slice is shorter than 3. On the Rust side only `RustSierpinski.Sierpinski`, and the lemmas about it, carry `|base| >= 3`; the panic is not modelled.
- JavaScript `levels` is modelled as an integer. Non-integer `levels` (which recurse until the value drops to 0 or below) are not modelled.
- THREE.js objects (`BufferGeometry`, `setAttribute`, `BufferAttribute`, `computeVertexNormals`), `console.log`, and the unused `vertex_colors` array are foreign library calls or output. They are left out. What `setIndex` makes the renderer draw is modelled by `PrototypeSierpinski.Resolve`; only the THREE object it is called on is left out.
- `greet`/`alert` and the `wasm_bindgen` attributes are foreign-function glue.
- `rust/triangle` (WebGL/WebXR setup, buffers, shaders, textures) and `webroot/app.js` (scene, camera, renderer) are not part of this model. They are rendering and browser plumbing.
- RustSierpinski.Sierpinski, WebSierpinski.Sierpinski: the model has no memory limit, so the length `36 * 4^levels` holds for the exact computation at every depth, all 255 `u8` values included. The programs fail long before that. The Rust version is built for wasm32, where `collect::<Vec<f32>>()` (rust/sierpinski/src/lib.rs:51-54) panics with a capacity overflow once the vector would pass `isize::MAX` bytes (2 GiB). That happens from about `levels = 12`, where the output needs `36 * 4^12` four-byte numbers, about 2.4 GB. The JavaScript `concat` throws a RangeError or runs out of heap at that depth or sooner. This failure of the generator on deep recursion is not modelled.
- WebSierpinski.RustMatchesWeb: the reorder is shown to undo itself on the generator's outputs, not on every list of the right length.
- PrototypeSierpinski.Geometry: the returned value is the vertices and indices. The `BufferGeometry` they are attached to is left out.
