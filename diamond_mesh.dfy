/** The mesh that `DiamondGeometry.update()` builds, as functions of the
    shape parameters: a top apex, a bottom apex and a ring of equatorial
    points, joined by a top fan and a bottom fan of triangles, flattened into
    an array of positions and an index-aligned array of colours.

    The fan loops run `i < midPoints.length - 2`, so each fan has one
    triangle fewer than the ring has points: the wedge between the last two
    ring points is never emitted. Everything below follows that code. */
module DiamondMesh {
  import opened VecMath

  // ---------------------------------------------------------------------
  // Parameters

  /** `Math.max(Math.floor(facets), 3)`: the constructor's facet count. */
  function NormalizeFacets(facets: real): (n: int)
    ensures n >= 3
    ensures facets < 3.0 ==> n == 3
    ensures facets >= 3.0 ==> n as real <= facets < n as real + 1.0
  {
    if facets.Floor > 3 then facets.Floor else 3
  }

  /** How many ring points the loop `for (i = 0; i < facets; i++)` creates:
      the number of naturals below `facets`. */
  function RingCount(facets: real): nat {
    if facets <= 0.0 then 0 else -((-facets).Floor)
  }

  /** The loop guard `i < facets` holds exactly for the first RingCount(facets) values of i. */
  lemma RingCountBound(facets: real, i: nat)
    ensures (i as real) < facets <==> i < RingCount(facets)
  {
  }

  /** For a whole facet count the ring has exactly that many points. */
  lemma RingCountOfWhole(n: nat)
    ensures RingCount(n as real) == n
  {
  }

  /** Iterations of the fan loop `i < midPoints.length - 2`. */
  function LoopCount(n: nat): nat {
    if n >= 2 then n - 2 else 0
  }

  /** Triangles in one fan: the loop's triangles and the closing one. */
  function FanSize(n: nat): (t: nat)
    ensures t >= 1
    ensures n >= 2 ==> t == n - 1
  {
    LoopCount(n) + 1
  }

  // ---------------------------------------------------------------------
  // Topology: which point each vertex occurrence refers to

  /** One of the diamond's distinct points: an apex, or ring point `j`. */
  datatype Corner = Top | Bottom | Mid(j: nat)

  /** Every ring index that occurs in `cs` is below `m`. */
  predicate WithinRing(cs: seq<Corner>, m: nat) {
    forall k :: 0 <= k < |cs| && cs[k].Mid? ==> cs[k].j < m
  }

  /** The corners pushed by the first k iterations of a fan loop:
      (apex, ring[i], ring[i + 1]) for i = 0, ..., k - 1. */
  function Strip(apex: Corner, k: nat): (cs: seq<Corner>)
    requires !apex.Mid?
    ensures |cs| == 3 * k
    ensures WithinRing(cs, k + 1)
  {
    if k == 0 then [] else Strip(apex, k - 1) + [apex, Mid(k - 1), Mid(k)]
  }

  /** One whole fan over a ring of n points: the loop's triangles, then
      the closing triangle (apex, ring[n - 1], ring[0]). */
  function Fan(apex: Corner, n: nat): (cs: seq<Corner>)
    requires !apex.Mid? && n >= 1
    ensures |cs| == 3 * FanSize(n)
    ensures WithinRing(cs, n)
  {
    Strip(apex, LoopCount(n)) + [apex, Mid(n - 1), Mid(0)]
  }

  /** The whole triangle list: the top fan, then the bottom fan. */
  function Corners(n: nat): (cs: seq<Corner>)
    requires n >= 1
    ensures |cs| == 6 * FanSize(n)
    ensures WithinRing(cs, n)
  {
    Fan(Top, n) + Fan(Bottom, n)
  }

  /** Triangle t of a corner list: its three consecutive entries. */
  function TriangleAt(cs: seq<Corner>, t: nat): seq<Corner>
    requires 3 * t + 3 <= |cs|
  {
    cs[3 * t..3 * t + 3]
  }

  /** Triangle i of the first k loop iterations is (apex, ring[i], ring[i + 1]). */
  lemma {:induction false} StripTriangle(apex: Corner, k: nat, i: nat)
    requires !apex.Mid? && i < k
    ensures TriangleAt(Strip(apex, k), i) == [apex, Mid(i), Mid(i + 1)]
  {
    var prev := Strip(apex, k - 1);
    assert Strip(apex, k) == prev + [apex, Mid(k - 1), Mid(k)];
    if i < k - 1 {
      StripTriangle(apex, k - 1, i);
      assert Strip(apex, k)[3 * i..3 * i + 3] == prev[3 * i..3 * i + 3];
    } else {
      assert Strip(apex, k)[3 * i..3 * i + 3] == [apex, Mid(k - 1), Mid(k)];
    }
  }

  /** The triangles of one fan: (apex, ring[i], ring[i + 1]) while the loop
      runs, and (apex, ring[n - 1], ring[0]) last. */
  lemma FanTriangle(apex: Corner, n: nat, i: nat)
    requires !apex.Mid? && n >= 1 && i < FanSize(n)
    ensures TriangleAt(Fan(apex, n), i) ==
      if i < FanSize(n) - 1 then [apex, Mid(i), Mid(i + 1)] else [apex, Mid(n - 1), Mid(0)]
  {
    var strip := Strip(apex, LoopCount(n));
    assert Fan(apex, n) == strip + [apex, Mid(n - 1), Mid(0)];
    if i < FanSize(n) - 1 {
      StripTriangle(apex, LoopCount(n), i);
      assert Fan(apex, n)[3 * i..3 * i + 3] == strip[3 * i..3 * i + 3];
    } else {
      assert Fan(apex, n)[3 * i..3 * i + 3] == [apex, Mid(n - 1), Mid(0)];
    }
  }

  /** The triangles of the whole list: the first FanSize(n) start with the top
      apex, the next FanSize(n) with the bottom apex, and in both fans
      triangle i covers the same ring points. */
  lemma CornersTriangle(n: nat, t: nat)
    requires n >= 1 && t < 2 * FanSize(n)
    ensures var apex := if t < FanSize(n) then Top else Bottom;
            var i := if t < FanSize(n) then t else t - FanSize(n);
            TriangleAt(Corners(n), t) ==
              if i < FanSize(n) - 1 then [apex, Mid(i), Mid(i + 1)] else [apex, Mid(n - 1), Mid(0)]
  {
    var top, bottom := Fan(Top, n), Fan(Bottom, n);
    assert Corners(n) == top + bottom;
    if t < FanSize(n) {
      FanTriangle(Top, n, t);
      assert Corners(n)[3 * t..3 * t + 3] == top[3 * t..3 * t + 3];
    } else {
      var i := t - FanSize(n);
      FanTriangle(Bottom, n, i);
      assert Corners(n)[3 * t..3 * t + 3] == bottom[3 * i..3 * i + 3];
    }
  }

  /** Two ring points are joined by an edge of the triangle. */
  predicate HasEdge(tri: seq<Corner>, a: Corner, b: Corner) {
    a in tri && b in tri
  }

  /** No triangle joins ring[n - 2] and ring[n - 1]. */
  lemma GapEdge(n: nat, t: nat)
    requires n >= 3 && t < 2 * FanSize(n)
    ensures !HasEdge(TriangleAt(Corners(n), t), Mid(n - 2), Mid(n - 1))
  {
    CornersTriangle(n, t);
    var tri := TriangleAt(Corners(n), t);
    assert tri == [tri[0], tri[1], tri[2]];
  }

  /** The loop triangle i of each fan, for i < n - 2, joins ring[i] and ring[i + 1]. */
  lemma LoopEdge(n: nat, i: nat)
    requires n >= 3 && i < n - 2
    ensures HasEdge(TriangleAt(Corners(n), i), Mid(i), Mid(i + 1))
    ensures HasEdge(TriangleAt(Corners(n), FanSize(n) + i), Mid(i), Mid(i + 1))
  {
    assert FanSize(n) == n - 1;
    CornersTriangle(n, i);
    assert TriangleAt(Corners(n), i) == [Top, Mid(i), Mid(i + 1)];
    CornersTriangle(n, FanSize(n) + i);
    assert TriangleAt(Corners(n), FanSize(n) + i) == [Bottom, Mid(i), Mid(i + 1)];
  }

  /** The closing triangle of each fan joins ring[n - 1] and ring[0]. */
  lemma ClosingEdge(n: nat)
    requires n >= 3
    ensures HasEdge(TriangleAt(Corners(n), n - 2), Mid(n - 1), Mid(0))
    ensures HasEdge(TriangleAt(Corners(n), 2 * n - 3), Mid(n - 1), Mid(0))
  {
    assert FanSize(n) == n - 1;
    CornersTriangle(n, n - 2);
    assert TriangleAt(Corners(n), n - 2) == [Top, Mid(n - 1), Mid(0)];
    CornersTriangle(n, 2 * n - 3);
    assert TriangleAt(Corners(n), 2 * n - 3) == [Bottom, Mid(n - 1), Mid(0)];
  }

  // ---------------------------------------------------------------------
  // Resolving corners to points and colours, and flattening

  /** The value of a corner, given the values of the apexes and of the ring. */
  function Pick<T>(c: Corner, top: T, bottom: T, mids: seq<T>): T
    requires c.Mid? ==> c.j < |mids|
  {
    match c
    case Top => top
    case Bottom => bottom
    case Mid(j) => mids[j]
  }

  /** A corner list with every corner replaced by its value: what pushing
      `topPoint`, `midPoints[i]`, ... (or `topColor`, `midColors[i]`, ...) gives. */
  function Place<T>(cs: seq<Corner>, top: T, bottom: T, mids: seq<T>): seq<T>
    requires WithinRing(cs, |mids|)
  {
    seq(|cs|, k requires 0 <= k < |cs| => Pick(cs[k], top, bottom, mids))
  }

  lemma PlaceAppend<T>(a: seq<Corner>, b: seq<Corner>, top: T, bottom: T, mids: seq<T>)
    requires WithinRing(a, |mids|) && WithinRing(b, |mids|)
    ensures WithinRing(a + b, |mids|)
    ensures Place(a + b, top, bottom, mids) == Place(a, top, bottom, mids) + Place(b, top, bottom, mids)
  {
    assert WithinRing(a + b, |mids|) by {
      forall k | 0 <= k < |a + b| && (a + b)[k].Mid? ensures (a + b)[k].j < |mids| {
        if k >= |a| {
          assert (a + b)[k] == b[k - |a|];
        }
      }
    }
  }

  /** One more fan loop iteration pushes (apex, ring[i], ring[i + 1]). */
  lemma PlaceStrip<T>(apex: Corner, i: nat, top: T, bottom: T, mids: seq<T>)
    requires !apex.Mid? && i + 2 <= |mids|
    ensures WithinRing(Strip(apex, i), |mids|) && WithinRing(Strip(apex, i + 1), |mids|)
    ensures Place(Strip(apex, i + 1), top, bottom, mids) ==
      Place(Strip(apex, i), top, bottom, mids) + [Pick(apex, top, bottom, mids), mids[i], mids[i + 1]]
  {
    PlaceAppend(Strip(apex, i), [apex, Mid(i), Mid(i + 1)], top, bottom, mids);
  }

  /** The closing push completes the fan. */
  lemma PlaceFan<T>(apex: Corner, top: T, bottom: T, mids: seq<T>)
    requires !apex.Mid? && |mids| >= 1
    ensures WithinRing(Strip(apex, LoopCount(|mids|)), |mids|)
    ensures Place(Fan(apex, |mids|), top, bottom, mids) ==
      Place(Strip(apex, LoopCount(|mids|)), top, bottom, mids) + [Pick(apex, top, bottom, mids), mids[|mids| - 1], mids[0]]
  {
    PlaceAppend(Strip(apex, LoopCount(|mids|)), [apex, Mid(|mids| - 1), Mid(0)], top, bottom, mids);
  }

  /** The whole list is the top fan's values followed by the bottom fan's. */
  lemma PlaceCorners<T>(top: T, bottom: T, mids: seq<T>)
    requires |mids| >= 1
    ensures Place(Corners(|mids|), top, bottom, mids) ==
      Place(Fan(Top, |mids|), top, bottom, mids) + Place(Fan(Bottom, |mids|), top, bottom, mids)
  {
    PlaceAppend(Fan(Top, |mids|), Fan(Bottom, |mids|), top, bottom, mids);
  }

  /** `forEach(point => res.push(...point))`: the components of every vector in turn. */
  function Flatten(vs: seq<Vec3>): (r: seq<real>)
    ensures |r| == 3 * |vs|
  {
    if vs == [] then [] else Flatten(vs[..|vs| - 1]) + Components(vs[|vs| - 1])
  }

  /** Entries 3k, 3k + 1 and 3k + 2 of the flattened array are the
      components of vector k. */
  lemma {:induction false} FlattenAt(vs: seq<Vec3>, k: nat)
    requires k < |vs|
    ensures Flatten(vs)[3 * k..3 * k + 3] == Components(vs[k])
  {
    var init := vs[..|vs| - 1];
    assert Flatten(vs) == Flatten(init) + Components(vs[|vs| - 1]);
    if k < |vs| - 1 {
      FlattenAt(init, k);
      assert Flatten(vs)[3 * k..3 * k + 3] == Flatten(init)[3 * k..3 * k + 3];
    } else {
      assert Flatten(vs)[3 * k..3 * k + 3] == Components(vs[|vs| - 1]);
    }
  }

  // ---------------------------------------------------------------------
  // Points and colours

  /** `vec3.fromValues(0.0, halfHeight, 0.0)`. */
  function TopPoint(height: real): Vec3 {
    Vec3(0.0, height / 2.0, 0.0)
  }

  /** `vec3.fromValues(0.0, -halfHeight, 0.0)`. */
  function BottomPoint(height: real): Vec3 {
    Vec3(0.0, -(height / 2.0), 0.0)
  }

  /** The angular step `2 * Math.PI / facets`. */
  function Radian(trig: Trig, facets: real): real
    requires facets != 0.0
  {
    2.0 * trig.pi / facets
  }

  /** The angle `i * radian` of ring point i. */
  function Angle(trig: Trig, facets: real, i: nat): real
    requires facets != 0.0
  {
    i as real * Radian(trig, facets)
  }

  /** Ring point i: at angle i * radian, radius width / 2, height 0. */
  function RingPoint(trig: Trig, width: real, facets: real, i: nat): Vec3
    requires facets != 0.0
  {
    var angle := Angle(trig, facets, i);
    Vec3(trig.cos(angle) * (width / 2.0), 0.0, trig.sin(angle) * (width / 2.0))
  }

  /** The ring `midPoints`: one point per natural below `facets`. */
  function Ring(trig: Trig, width: real, facets: real): (points: seq<Vec3>)
    requires facets > 0.0
    ensures |points| == RingCount(facets)
    ensures forall i :: 0 <= i < |points| ==> points[i].y == 0.0
  {
    seq(RingCount(facets), i requires 0 <= i => RingPoint(trig, width, facets, i))
  }

  /** The k-th call of `randomVec3()`, when `draw(m)` is what the m-th call
      of `random()` returns. */
  function RandomVec3(draw: nat -> real, k: nat): Vec3 {
    Vec3(draw(3 * k), draw(3 * k + 1), draw(3 * k + 2))
  }

  /** `update()` draws the top colour first, then the bottom colour, then one
      colour per ring point. */
  function TopColor(draw: nat -> real): (c: Vec3)
    ensures c == Vec3(draw(0), draw(1), draw(2))
  {
    RandomVec3(draw, 0)
  }

  function BottomColor(draw: nat -> real): (c: Vec3)
    ensures c == Vec3(draw(3), draw(4), draw(5))
  {
    RandomVec3(draw, 1)
  }

  /** Ring colour j is made of `random()` calls 3j + 6 to 3j + 8, after the
      six calls of the two apex colours. */
  function MidColors(draw: nat -> real, n: nat): (colors: seq<Vec3>)
    ensures |colors| == n
    ensures forall j :: 0 <= j < n ==> colors[j] == Vec3(draw(3 * j + 6), draw(3 * j + 7), draw(3 * j + 8))
  {
    seq(n, j requires 0 <= j => RandomVec3(draw, j + 2))
  }

  /** The array `update()` stores in `_vertices`. */
  function Positions(trig: Trig, width: real, height: real, facets: real): (vertices: seq<real>)
    requires facets > 0.0
    ensures |vertices| == 18 * FanSize(RingCount(facets))
  {
    Flatten(Place(Corners(RingCount(facets)), TopPoint(height), BottomPoint(height), Ring(trig, width, facets)))
  }

  /** The array `update()` stores in `_colors`. */
  function Colors(draw: nat -> real, facets: real): (colors: seq<real>)
    requires facets > 0.0
    ensures |colors| == 18 * FanSize(RingCount(facets))
  {
    var n := RingCount(facets);
    Flatten(Place(Corners(n), TopColor(draw), BottomColor(draw), MidColors(draw, n)))
  }

  // ---------------------------------------------------------------------
  // Properties of the mesh

  /** Every ring point lies in the plane y = 0, on the circle of radius
      width / 2 when cos and sin satisfy the Pythagorean identity, and point
      i sits at angle i * (2 * pi / facets). */
  lemma RingShape(trig: Trig, width: real, facets: real, i: nat)
    requires facets > 0.0 && i < RingCount(facets)
    requires Pythagorean(trig)
    ensures |Ring(trig, width, facets)| == RingCount(facets)
    ensures var p := Ring(trig, width, facets)[i];
            && p.y == 0.0
            && p.x * p.x + p.z * p.z == (width / 2.0) * (width / 2.0)
            && p.x == trig.cos(Angle(trig, facets, i)) * (width / 2.0)
            && p.z == trig.sin(Angle(trig, facets, i)) * (width / 2.0)
  {
    var p := Ring(trig, width, facets)[i];
    var angle := Angle(trig, facets, i);
    var c, s, h := trig.cos(angle), trig.sin(angle), width / 2.0;
    assert p == RingPoint(trig, width, facets, i);
    assert p.x == c * h && p.z == s * h;
    assert c * c + s * s == 1.0;
    calc {
      p.x * p.x + p.z * p.z;
      (c * h) * (c * h) + (s * h) * (s * h);
      (c * c + s * s) * (h * h);
      h * h;
    }
  }

  /** Both arrays have nine entries per triangle and FanSize(n) triangles per
      fan; for a ring of n >= 2 points that is 18 * (n - 1) entries each. */
  lemma MeshSize(trig: Trig, draw: nat -> real, width: real, height: real, facets: real)
    requires facets > 0.0
    ensures var n := RingCount(facets);
            && |Positions(trig, width, height, facets)| == 18 * FanSize(n)
            && |Colors(draw, facets)| == |Positions(trig, width, height, facets)|
            && (n >= 2 ==> |Colors(draw, facets)| == 18 * (n - 1))
  {
  }

  /** For the facet counts the constructor produces (whole numbers >= 3) the
      arrays hold 18 * (facets - 1) entries: 2 * (facets - 1) triangles. */
  lemma MeshSizeOfWhole(trig: Trig, draw: nat -> real, width: real, height: real, n: nat)
    requires n >= 3
    ensures |Positions(trig, width, height, n as real)| == 18 * (n - 1)
    ensures |Colors(draw, n as real)| == 18 * (n - 1)
  {
    RingCountOfWhole(n);
    MeshSize(trig, draw, width, height, n as real);
  }

  /** Vertex k of the position array is the point of corner k and vertex k of
      the colour array is the colour of that same corner: the apex colour for
      an apex, `midColors[j]` for ring point j. */
  lemma VertexAt(trig: Trig, draw: nat -> real, width: real, height: real, facets: real, k: nat)
    requires facets > 0.0 && k < 6 * FanSize(RingCount(facets))
    ensures var n := RingCount(facets);
            var c := Corners(n)[k];
            && (c.Mid? ==> c.j < n)
            && Positions(trig, width, height, facets)[3 * k..3 * k + 3] ==
                 Components(Pick(c, TopPoint(height), BottomPoint(height), Ring(trig, width, facets)))
            && Colors(draw, facets)[3 * k..3 * k + 3] ==
                 Components(Pick(c, TopColor(draw), BottomColor(draw), MidColors(draw, n)))
  {
    var n := RingCount(facets);
    FlattenAt(Place(Corners(n), TopPoint(height), BottomPoint(height), Ring(trig, width, facets)), k);
    FlattenAt(Place(Corners(n), TopColor(draw), BottomColor(draw), MidColors(draw, n)), k);
  }

  /** Every occurrence of the same point carries the same colour. */
  lemma SameCornerSameColor(draw: nat -> real, facets: real, k: nat, k': nat)
    requires facets > 0.0
    requires k < 6 * FanSize(RingCount(facets)) && k' < 6 * FanSize(RingCount(facets))
    requires Corners(RingCount(facets))[k] == Corners(RingCount(facets))[k']
    ensures Colors(draw, facets)[3 * k..3 * k + 3] == Colors(draw, facets)[3 * k'..3 * k' + 3]
  {
    var n := RingCount(facets);
    FlattenAt(Place(Corners(n), TopColor(draw), BottomColor(draw), MidColors(draw, n)), k);
    FlattenAt(Place(Corners(n), TopColor(draw), BottomColor(draw), MidColors(draw, n)), k');
  }

  /** The first FanSize(n) triangles of the position array start with the top
      apex (0, height / 2, 0), the next FanSize(n) with the bottom apex
      (0, -height / 2, 0). */
  lemma ApexOrder(trig: Trig, width: real, height: real, facets: real, t: nat)
    requires facets > 0.0 && t < 2 * FanSize(RingCount(facets))
    ensures Positions(trig, width, height, facets)[9 * t..9 * t + 3] ==
      if t < FanSize(RingCount(facets)) then [0.0, height / 2.0, 0.0] else [0.0, -(height / 2.0), 0.0]
  {
    var n := RingCount(facets);
    var points := Place(Corners(n), TopPoint(height), BottomPoint(height), Ring(trig, width, facets));
    CornersTriangle(n, t);
    var apex := Corners(n)[3 * t];
    assert apex == TriangleAt(Corners(n), t)[0];
    assert apex == if t < FanSize(n) then Top else Bottom;
    FlattenAt(points, 3 * t);
    assert points[3 * t] == if t < FanSize(n) then TopPoint(height) else BottomPoint(height);
  }
}
