# react-webgpu-samples, modelled in Dafny

react-webgpu-samples is a Next.js gallery of WebGPU demo pages. This project
models the parts of it that compute something, and it proves their
properties:

- `DiamondGeometry` (`diamond_mesh.dfy`, `diamond_geometry.dfy`). Its
  constructor clamps the facet count. Its `update()` sets up both apexes, a
  ring of `facets` points, one random colour per ring point, a top fan and a
  bottom fan of triangles, and flattens all of them into a vertex array and
  a colour array. Its getters and setters are modelled too. The mesh is
  stated as functions (`Positions`, `Colors`) over a corner topology
  (`Corners`). The `update()` method and its loops are proved equal to those
  functions.
- `BufferGeometry` (`buffer_geometry.dfy`). Its ids come from a
  module-level counter. It starts with type name `"BufferGeometry"`, an
  empty name and empty arrays. Its getters are modelled.
- `colorToRGB` and `colorToNormalizeRGB` (`color_to_rgb.dfy`). These read a
  `#rrggbb` string into channels 0..255 and into fractions of 255. A
  formatter added alongside states the round trip.
- The null/undefined helpers `defined`, `isNullOrUndefined`,
  `includesNullOrUndefined` and `everyDefined` (`all_defined.dfy`). Two
  generic functions model `findIndex` and `every`.
- `getHeartXYArr` of the heart-shape page (`heart_shape.dfy`). It samples
  the heart curve into a closed line strip.
- The sidebar's `asideData` table and `getColor` (`page_list.dfy`). The
  current route is a parameter.

Inheritance is modelled by composition. A `DiamondGeometry` holds its
`BufferGeometry` part in `base`, and `update()` writes that part's arrays.
The module variable `_inside_id` becomes an `IdCounter` object, passed to
every constructor. `Math.PI`, `Math.cos` and `Math.sin` are a `Trig` value
given as a parameter. Every property holds for any such value; the ring's
circle property additionally assumes the Pythagorean identity. The random
source is a function `draw: nat -> real`. The k-th call of `randomVec3()`
in `update()` reads draws 3k, 3k+1 and 3k+2. The top colour is call 0, the
bottom colour is call 1, and ring colour j is call j + 2.

A full fan over a ring of `facets` points would have `facets` triangles,
so 2·facets triangles and 18·facets floats in all. The code's fan loop runs
`i < midPoints.length - 2` and then adds one closing triangle, so each fan
has facets − 1 triangles, and the mesh has 2·(facets − 1) triangles and
18·(facets − 1) floats. The wedge between ring points facets − 2 and
facets − 1 is never drawn. The model follows the code. `MeshSizeOfWhole`
states the size, `GapEdge` states the missing wedge, and `DefaultDiamond`
states that the default diamond has 36 floats rather than 54.

## Model

| member | source | states |
|---|---|---|
| DiamondMesh.NormalizeFacets | src/geometrys/diamond-geometry.ts:17 | the stored facet count is at least 3; it is 3 for any argument below 3, and otherwise the largest whole number not above the argument |
| DiamondMesh.RingCountBound | src/geometrys/diamond-geometry.ts:34-43 | the ring loop's guard `i < facets` holds for i exactly when i < RingCount(facets), so the loop pushes RingCount(facets) points, including for fractional counts |
| DiamondMesh.RingCountOfWhole | src/geometrys/diamond-geometry.ts:34-43 | for a whole facet count n the ring has exactly n points |
| DiamondMesh.FanSize | src/geometrys/diamond-geometry.ts:54-58 | a fan over n ring points has n − 1 triangles (n ≥ 2); it has at least one, the closing triangle |
| DiamondMesh.Strip | src/geometrys/diamond-geometry.ts:54-57 | k loop steps push 3k corners, all within the first k + 1 ring points |
| DiamondMesh.Fan | src/geometrys/diamond-geometry.ts:54-58 | a fan pushes 3·FanSize(n) corners, all on the ring of n points |
| DiamondMesh.Corners | src/geometrys/diamond-geometry.ts:54-66 | the top fan followed by the bottom fan has 6·FanSize(n) corners, all on the ring |
| DiamondMesh.StripTriangle | src/geometrys/diamond-geometry.ts:54-57 | loop step i pushes the triangle (apex, ring i, ring i + 1) |
| DiamondMesh.FanTriangle | src/geometrys/diamond-geometry.ts:54-58 | a fan's triangle i is (apex, ring i, ring i + 1), except the last one, which is (apex, ring n − 1, ring 0) |
| DiamondMesh.CornersTriangle | src/geometrys/diamond-geometry.ts:54-66 | triangle t of the mesh has the top apex for t < FanSize(n) and the bottom apex after that, with the same ring pattern in both fans |
| DiamondMesh.GapEdge | src/geometrys/diamond-geometry.ts:54-66 | no triangle of the mesh has the ring edge between points n − 2 and n − 1 |
| DiamondMesh.LoopEdge | src/geometrys/diamond-geometry.ts:54-64 | for i < n − 2, the ring edge (i, i + 1) appears in the top fan and in the bottom fan |
| DiamondMesh.ClosingEdge | src/geometrys/diamond-geometry.ts:58-66 | the closing edge (n − 1, 0) appears in both fans' last triangles |
| DiamondMesh.Flatten | src/geometrys/diamond-geometry.ts:68-72 | flattening k vectors gives 3k numbers |
| DiamondMesh.FlattenAt | src/geometrys/diamond-geometry.ts:68-72 | numbers 3k..3k+2 of the flattened array are the x, y, z of vector k |
| DiamondMesh.Ring | src/geometrys/diamond-geometry.ts:34-43 | `midPoints`: one point per natural below `facets`, all in the plane y = 0; RingShape gives each point's angle and radius |
| DiamondMesh.RingShape | src/geometrys/diamond-geometry.ts:24-43 | ring point i lies in the plane y = 0, at angle i·2π/facets and radius width/2, so x² + z² = (width/2)² |
| DiamondMesh.TopColor | src/geometrys/diamond-geometry.ts:29 | the top colour is made of the first three `random()` calls |
| DiamondMesh.BottomColor | src/geometrys/diamond-geometry.ts:31 | the bottom colour is made of `random()` calls 3 to 5 |
| DiamondMesh.MidColors | src/geometrys/diamond-geometry.ts:45-48 | one colour per ring point; ring colour j is made of `random()` calls 3j + 6 to 3j + 8, after the apex colours |
| DiamondMesh.Positions | src/geometrys/diamond-geometry.ts:23-75 | the vertex array holds 9 numbers per triangle, 18·FanSize(n) in all; VertexAt and ApexOrder give its contents |
| DiamondMesh.Colors | src/geometrys/diamond-geometry.ts:23-75 | the colour array is as long as the vertex array; VertexAt and SameCornerSameColor give its contents |
| DiamondMesh.MeshSize | src/geometrys/diamond-geometry.ts:54-75 | both arrays hold 18·FanSize(n) numbers, that is 18·(n − 1) for a ring of n ≥ 2 points |
| DiamondMesh.MeshSizeOfWhole | src/geometrys/diamond-geometry.ts:17-75 | for a whole facet count n ≥ 3, the vertex and colour arrays both hold 18·(n − 1) numbers |
| DiamondMesh.VertexAt | src/geometrys/diamond-geometry.ts:45-72 | vertex k of the arrays is the position and the colour of the same corner: an apex's point and colour, or ring point j with ring colour j |
| DiamondMesh.SameCornerSameColor | src/geometrys/diamond-geometry.ts:45-72 | two vertices at the same corner have the same colour, so colours are shared per corner and interpolate across triangles |
| DiamondMesh.ApexOrder | src/geometrys/diamond-geometry.ts:25-66 | every triangle starts at its apex: (0, height/2, 0) in the top fan and (0, −height/2, 0) in the bottom fan |
| DiamondGeometries.FlattenPoints | src/geometrys/diamond-geometry.ts:68-72 | the pushing loop produces 3 numbers per vector, in order, equal to Flatten |
| DiamondGeometries.ToFloat32Array | src/geometrys/diamond-geometry.ts:74-75 | a new array holding exactly the given numbers |
| DiamondGeometries.BuildRing | src/geometrys/diamond-geometry.ts:24-43 | the ring loop produces exactly Ring(trig, width, facets) |
| DiamondGeometries.BuildMidColors | src/geometrys/diamond-geometry.ts:45-48 | one random colour per ring point, from calls 2.. of randomVec3 |
| DiamondGeometries.PushStrip | src/geometrys/diamond-geometry.ts:54-57 | the fan loop appends the loop triangles' points and the matching colours, one triple per iteration |
| DiamondGeometries.PushFan | src/geometrys/diamond-geometry.ts:54-66 | one fan loop and its closing push append the fan's points and the matching colours |
| DiamondGeometries.BuildFans | src/geometrys/diamond-geometry.ts:25-66 | the apexes, the ring, the colours and both fans give exactly the corner list resolved to points, and to colours |
| DiamondGeometries.BuildMesh | src/geometrys/diamond-geometry.ts:23-72 | the arrays `update()` computes are exactly Positions and Colors |
| DiamondGeometries.DiamondGeometry.constructor | src/geometrys/diamond-geometry.ts:11-20 | takes the next id, sets the type to "DiamondGeometry", stores width and height as given and the clamped facet count, and fills both arrays with Positions and Colors, each 18·(facets − 1) long |
| DiamondGeometries.DiamondGeometry.Update | src/geometrys/diamond-geometry.ts:23-76 | replaces the base part's arrays with new arrays holding Positions and Colors of the current width, height and facets |
| DiamondGeometries.DiamondGeometry.SetWidth | src/geometrys/diamond-geometry.ts:78-80 | stores the value as given; height, facets and both arrays are unchanged (no rebuild) |
| DiamondGeometries.DiamondGeometry.SetHeight | src/geometrys/diamond-geometry.ts:86-88 | stores the value as given; width, facets and both arrays are unchanged |
| DiamondGeometries.DiamondGeometry.SetFacets | src/geometrys/diamond-geometry.ts:94-96 | stores the value unclamped; width, height and both arrays are unchanged |
| DiamondGeometries.DefaultDiamond | src/geometrys/diamond-geometry.ts:11-20 | the defaults give width 1, height 1, 3 facets and 36 numbers in each array |
| BufferGeometries.IdCounter.constructor | src/geometrys/buffer-geometry.ts:2 | the id counter starts at 0 |
| BufferGeometries.BufferGeometry.constructor | src/geometrys/buffer-geometry.ts:14-23 | takes the counter's value as id and increments it; type "BufferGeometry", empty name, empty vertex and colour arrays |
| BufferGeometries.CreationOrder | src/geometrys/buffer-geometry.ts:14-15 | two geometries created in a row get consecutive, distinct ids, and the counter advances by two |
| ColorToRGB.HexValue | src/utils/colorToRGB.ts:9-15 | a hexadecimal digit is worth less than 16 |
| ColorToRGB.ParseHex | src/utils/colorToRGB.ts:10-12 | `parseInt(s, 16)` of k hexadecimal digits is below 16^k |
| ColorToRGB.ParsePair | src/utils/colorToRGB.ts:10-12 | two digits are worth 16 times the first plus the second |
| ColorToRGB.ColorToRGB | src/utils/colorToRGB.ts:9-15 | r, g and b come from characters 1-2, 3-4 and 5-6, each in 0..255 |
| ColorToRGB.IgnoresTail | src/utils/colorToRGB.ts:10-12 | characters after the sixth digit do not change the result |
| ColorToRGB.ColorToNormalizeRGB | src/utils/colorToRGB.ts:17-23 | each channel of colorToRGB divided by 255, so 255 times each result channel gives back colorToRGB, and each channel lies in 0..1 |
| ColorToRGB.DefaultRed | src/pages/color-interpolation/index.tsx:21 | the default top colour normalises to (1, 0, 0) |
| ColorToRGB.DefaultGreen | src/pages/color-interpolation/index.tsx:22 | the default left colour normalises to (0, 1, 0) |
| ColorToRGB.DefaultBlue | src/pages/color-interpolation/index.tsx:23 | the default right colour normalises to (0, 0, 1) |
| ColorToRGB.HexChar | src/utils/colorToRGB.ts:10-12 | no counterpart in the source: the inverse of the digit reading at these lines, a digit value written as a hexadecimal digit that reads back as the same value |
| ColorToRGB.FormatByte | src/utils/colorToRGB.ts:10-12 | no counterpart in the source: the inverse of the two-digit reading at these lines, a byte written as two hexadecimal digits |
| ColorToRGB.FormatColor | src/utils/colorToRGB.ts:10-12 | no counterpart in the source: the inverse of the reading at these lines, three bytes written as a well-formed `colorStr` (the type at line 7) |
| ColorToRGB.RoundTrip | src/utils/colorToRGB.ts:9-15 | reading a formatted colour gives back its three channels |
| AllDefined.IsNullOrUndefined | src/utils/allDefined.ts:5-8 | `isNullOrUndefined` holds exactly of the values that carry no T |
| AllDefined.Defined | src/utils/allDefined.ts:1-3 | `defined` is exactly the negation of `isNullOrUndefined`, true exactly for values that carry a T |
| AllDefined.FindIndex | src/utils/allDefined.ts:12 | `findIndex` returns the first matching index, or −1 exactly when no element matches |
| AllDefined.Every | src/utils/allDefined.ts:17 | `every` holds exactly when the predicate holds of every element of a dense array |
| AllDefined.IncludesNullOrUndefined | src/utils/allDefined.ts:10-13 | true exactly when some element is null or undefined |
| AllDefined.EveryDefined | src/utils/allDefined.ts:15-18 | true exactly when every element is defined |
| AllDefined.Duality | src/utils/allDefined.ts:10-18 | includesNullOrUndefined is the negation of everyDefined on every dense array |
| AllDefined.EmptyArray | src/utils/allDefined.ts:10-18 | on the empty array everyDefined holds and includesNullOrUndefined does not |
| HeartShape.GetHeartXYArr | src/pages/heart-shape/index.tsx:23-39 | 2·points + 2 numbers; pair i is heart-curve sample i at angle (2π/points + π/offsetRadian)·i plus the offsets; the last pair repeats the first, so the strip is closed and has points + 1 vertices |
| PageList.GetColor | src/components/page-list/index.tsx:59-66 | the colour is "red" or "#000"; it is red when the route is the item's page, and red only when the route is the item's page or "/" |
| PageList.ItemColors | src/components/page-list/index.tsx:74-82 | one colour per table item, each red or "#000"; item i is red exactly when the route is its page, or the route is "/" and i is the first item; no two items are red |
| PageList.ColorRule | src/components/page-list/index.tsx:59-66 | an item is "red" or "#000", and red exactly when the route is its page, or the route is "/" and it is the first item |
| PageList.DistinctPages | src/components/page-list/index.tsx:12-53 | the eight pages are pairwise distinct and none is "/" |
| PageList.OneHighlight | src/components/page-list/index.tsx:59-66 | at most one item is red for any route; for "/" the first one is; for a listed page that page is red and every other item is black |
| PageList.GithubLinks | src/components/page-list/index.tsx:10-53 | each source link is the base URL, the page's route and "/index.tsx" |

## Left out

- WebGPU device, canvas, pipeline, buffer and render-pass code, the shaders, `useDevice`, `useCanvasSize`, the React components, JSX and the dat.gui controls. These are I/O and rendering outside the computing core.
- The gl-matrix model, view and projection matrices of the simple-diamond page. That is floating-point matrix code outside the core.
- `BufferGeometry`'s `uuid` field and getter. It comes from a random UUID library.
- The numeric values of `Math.PI`, `Math.cos` and `Math.sin`. These are a parameter (`Trig`). No property depends on them, except that the ring's circle property assumes the Pythagorean identity.
- JavaScript's number type. Numbers are exact reals, so floating-point rounding in the ring and heart arithmetic is not modelled.
- `Float32Array`'s rounding to 32 bits. `ToFloat32Array` copies the values exactly.
- `randomVec3` and `random`. Randomness is a parameter `draw`, which fixes the order in which `update()` draws colours.
- ColorToRGB.ColorToRGB: only strings starting with `#` and six hexadecimal digits are modelled. For other strings `parseInt` yields `NaN` or reads only a prefix, and NaN is not modelled.
- HeartShape.GetHeartXYArr: requires at least one point and a non-zero `offsetRadian`. The page's controls keep both in range. With zero points, JavaScript pushes two `undefined` values, and with `offsetRadian` 0 it divides by zero. Neither is modelled.
- DiamondGeometries.DiamondGeometry.Update: requires a positive facet count. The constructor always passes one of at least 3. Calling `update()` after `SetFacets` with a value of 0 or less makes JavaScript fail (`midPoints[0]` is undefined). That path is not modelled.
- AllDefined.Duality: arrays are dense sequences, so the holes of sparse JavaScript arrays are not modelled. `findIndex` reads a hole as `undefined`, but `every` skips holes, so on `[ , 1]` both `includesNullOrUndefined` and `everyDefined` are true in JavaScript and the duality fails there.
- AllDefined.Every: models `every` on dense arrays only; on a sparse array `every` skips the holes.
- `NaN` and infinite facet counts, widths and heights.
- The getters of `BufferGeometry` and `DiamondGeometry` (`Id`, `Type`, `Vertices`, `Colors`, `Width`, `Height`, `Facets`). They are modelled as field reads and carry no contract of their own.
- Class inheritance. `DiamondGeometry` writes its `BufferGeometry` part through the `base` field instead.
- `name` is a public field that callers may assign. The model gives it no setter.
- The doubled slash in the source links: the base URL ends in `/` and each page path starts with `/`. It is modelled as written and does not affect any property here.
