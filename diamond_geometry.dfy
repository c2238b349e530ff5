/** `DiamondGeometry`: a BufferGeometry whose vertex and colour arrays hold a
    diamond built from a width, a height and a facet count. The subclass
    relation is modelled by composition: `base` is the BufferGeometry part of
    the object, and `update()` writes that part's arrays. */
module DiamondGeometries {
  import opened VecMath
  import opened DiamondMesh
  import opened BufferGeometries

  /** `triangle.forEach(point => res.push(...point))`. */
  method FlattenPoints(points: seq<Vec3>) returns (res: seq<real>)
    ensures |res| == 3 * |points|
    ensures forall k :: 0 <= k < |points| ==> res[3 * k..3 * k + 3] == Components(points[k])
    ensures res == Flatten(points)
  {
    res := [];
    for k := 0 to |points|
      invariant res == Flatten(points[..k])
    {
      assert points[..k + 1][..k] == points[..k];
      res := res + [points[k].x, points[k].y, points[k].z];
    }
    assert points[..|points|] == points;
    forall k | 0 <= k < |points| ensures res[3 * k..3 * k + 3] == Components(points[k]) {
      FlattenAt(points, k);
    }
  }

  /** `new Float32Array(values)`, without the rounding to 32 bits. */
  method ToFloat32Array(values: seq<real>) returns (a: array<real>)
    ensures fresh(a) && a[..] == values
  {
    a := new real[|values|](k requires 0 <= k < |values| => values[k]);
  }

  /** The first loop of `update()`: one ring point per natural below
      `facets`, point i at angle i * radian and radius width / 2. */
  method BuildRing(trig: Trig, width: real, facets: real) returns (midPoints: seq<Vec3>)
    requires facets > 0.0
    ensures midPoints == Ring(trig, width, facets)
  {
    var radian := 2.0 * trig.pi / facets;
    var halfWidth := width / 2.0;
    ghost var n := RingCount(facets);
    midPoints := [];
    var i: nat := 0;
    while (i as real) < facets
      invariant i <= n
      invariant midPoints == Ring(trig, width, facets)[..i]
      decreases n - i
    {
      RingCountBound(facets, i);
      var point := Vec3(trig.cos(i as real * radian) * halfWidth, 0.0, trig.sin(i as real * radian) * halfWidth);
      assert i as real * radian == Angle(trig, facets, i);
      assert point == RingPoint(trig, width, facets, i) == Ring(trig, width, facets)[i];
      assert Ring(trig, width, facets)[..i + 1] == Ring(trig, width, facets)[..i] + [point];
      midPoints := midPoints + [point];
      i := i + 1;
    }
    RingCountBound(facets, i);
  }

  /** The second loop of `update()`: one `randomVec3()` per ring point, drawn
      after the two apex colours. */
  method BuildMidColors(draw: nat -> real, n: nat) returns (midColors: seq<Vec3>)
    ensures midColors == MidColors(draw, n)
  {
    midColors := [];
    for j := 0 to n
      invariant midColors == MidColors(draw, n)[..j]
    {
      midColors := midColors + [RandomVec3(draw, j + 2)];
    }
  }

  /** One fan loop of `update()`: `i < midPoints.length - 2` iterations, each
      pushing (apex, ring i, ring i + 1) to `triangle` and the matching
      colours to `colors`. The apex is `Pick(apex, top, bottom, ...)`, that is
      `topPoint` for the top fan and `bottomPoint` for the bottom fan. */
  method PushStrip(triangle: seq<Vec3>, colors: seq<Vec3>, apex: Corner,
                   top: Vec3, bottom: Vec3, midPoints: seq<Vec3>,
                   topColor: Vec3, bottomColor: Vec3, midColors: seq<Vec3>)
    returns (triangle': seq<Vec3>, colors': seq<Vec3>)
    requires !apex.Mid? && |midPoints| >= 1 && |midColors| == |midPoints|
    ensures WithinRing(Strip(apex, LoopCount(|midPoints|)), |midPoints|)
    ensures triangle' == triangle + Place(Strip(apex, LoopCount(|midPoints|)), top, bottom, midPoints)
    ensures colors' == colors + Place(Strip(apex, LoopCount(|midPoints|)), topColor, bottomColor, midColors)
  {
    var apexPoint, apexColor := Pick(apex, top, bottom, midPoints), Pick(apex, topColor, bottomColor, midColors);
    triangle', colors' := triangle, colors;
    var i := 0;
    while i < |midPoints| - 2
      invariant 0 <= i <= LoopCount(|midPoints|)
      invariant triangle' == triangle + Place(Strip(apex, i), top, bottom, midPoints)
      invariant colors' == colors + Place(Strip(apex, i), topColor, bottomColor, midColors)
    {
      PlaceStrip(apex, i, top, bottom, midPoints);
      PlaceStrip(apex, i, topColor, bottomColor, midColors);
      triangle' := triangle' + [apexPoint, midPoints[i], midPoints[i + 1]];
      colors' := colors' + [apexColor, midColors[i], midColors[i + 1]];
      i := i + 1;
    }
  }

  /** One fan of `update()`: the loop, then the closing push of
      (apex, ring n - 1, ring 0). */
  method PushFan(triangle: seq<Vec3>, colors: seq<Vec3>, apex: Corner,
                 top: Vec3, bottom: Vec3, midPoints: seq<Vec3>,
                 topColor: Vec3, bottomColor: Vec3, midColors: seq<Vec3>)
    returns (triangle': seq<Vec3>, colors': seq<Vec3>)
    requires !apex.Mid? && |midPoints| >= 1 && |midColors| == |midPoints|
    ensures triangle' == triangle + Place(Fan(apex, |midPoints|), top, bottom, midPoints)
    ensures colors' == colors + Place(Fan(apex, |midPoints|), topColor, bottomColor, midColors)
  {
    var apexPoint, apexColor := Pick(apex, top, bottom, midPoints), Pick(apex, topColor, bottomColor, midColors);
    triangle', colors' := PushStrip(triangle, colors, apex, top, bottom, midPoints, topColor, bottomColor, midColors);
    PlaceFan(apex, top, bottom, midPoints);
    PlaceFan(apex, topColor, bottomColor, midColors);
    triangle' := triangle' + [apexPoint, midPoints[|midPoints| - 1], midPoints[0]];
    colors' := colors' + [apexColor, midColors[|midColors| - 1], midColors[0]];
  }

  /** `update()` up to the flattening: the apexes, the ring, the colours and
      both fans, as the list of pushed points and the list of pushed colours. */
  method BuildFans(trig: Trig, draw: nat -> real, width: real, height: real, facets: real)
    returns (triangle: seq<Vec3>, colors: seq<Vec3>)
    requires facets > 0.0
    ensures triangle == Place(Corners(RingCount(facets)), TopPoint(height), BottomPoint(height), Ring(trig, width, facets))
    ensures colors == Place(Corners(RingCount(facets)), TopColor(draw), BottomColor(draw), MidColors(draw, RingCount(facets)))
  {
    var halfHeight := height / 2.0;

    var topPoint := Vec3(0.0, halfHeight, 0.0);
    var topColor := RandomVec3(draw, 0);
    var bottomPoint := Vec3(0.0, -halfHeight, 0.0);
    var bottomColor := RandomVec3(draw, 1);

    var midPoints := BuildRing(trig, width, facets);

    var midColors := BuildMidColors(draw, |midPoints|);

    ghost var n := |midPoints|;
    assert n == RingCount(facets);
    var topTriangle, topColors := PushFan([], [], Top, topPoint, bottomPoint, midPoints, topColor, bottomColor, midColors);
    assert topTriangle == Place(Fan(Top, n), topPoint, bottomPoint, midPoints);
    assert topColors == Place(Fan(Top, n), topColor, bottomColor, midColors);
    triangle, colors := PushFan(topTriangle, topColors, Bottom, topPoint, bottomPoint, midPoints, topColor, bottomColor, midColors);
    PlaceCorners(topPoint, bottomPoint, midPoints);
    PlaceCorners(topColor, bottomColor, midColors);
    assert topPoint == TopPoint(height) && bottomPoint == BottomPoint(height);
    assert midColors == MidColors(draw, n);
  }

  /** The arithmetic of `update()`: the fans, then the flattened arrays. */
  method BuildMesh(trig: Trig, draw: nat -> real, width: real, height: real, facets: real)
    returns (resVertices: seq<real>, resColors: seq<real>)
    requires facets > 0.0
    ensures resVertices == Positions(trig, width, height, facets)
    ensures resColors == Colors(draw, facets)
  {
    var triangle, colors := BuildFans(trig, draw, width, height, facets);
    resVertices := FlattenPoints(triangle);
    resColors := FlattenPoints(colors);
  }

  class DiamondGeometry {
    const base: BufferGeometry
    var width: real
    var height: real
    var facets: real

    /** `new DiamondGeometry(width, height, facets)`. The trigonometry and
        the random source that `update()` uses are parameters. */
    constructor (counter: IdCounter, trig: Trig, draw: nat -> real,
                 width: real := 1.0, height: real := 1.0, facets: real := 3.0)
      modifies counter
      ensures fresh(base) && fresh(base.vertices) && fresh(base.colors)
      ensures base.id == old(counter.next) && counter.next == old(counter.next) + 1
      ensures base.typeName == "DiamondGeometry" && base.name == ""
      ensures this.width == width && this.height == height
      ensures this.facets == NormalizeFacets(facets) as real
      ensures base.vertices[..] == Positions(trig, width, height, this.facets)
      ensures base.colors[..] == Colors(draw, this.facets)
      ensures base.vertices.Length == base.colors.Length == 18 * (NormalizeFacets(facets) - 1)
    {
      base := new BufferGeometry(counter);
      this.width := width;
      this.height := height;
      this.facets := NormalizeFacets(facets) as real;
      new;
      base.typeName := "DiamondGeometry";
      Update(trig, draw);
      MeshSizeOfWhole(trig, draw, width, height, NormalizeFacets(facets));
    }

    /** `update()`: builds the ring, the two fans and the flattened arrays,
        and stores them in the base part's `vertices` and `colors`. Only the
        constructor calls it, with a whole facet count of at least 3; it is
        well defined for every positive facet count. */
    method Update(trig: Trig, draw: nat -> real)
      requires facets > 0.0
      modifies base`vertices, base`colors
      ensures fresh(base.vertices) && fresh(base.colors)
      ensures base.vertices[..] == Positions(trig, width, height, facets)
      ensures base.colors[..] == Colors(draw, facets)
    {
      var resVertices, resColors := BuildMesh(trig, draw, width, height, facets);
      base.vertices := ToFloat32Array(resVertices);
      base.colors := ToFloat32Array(resColors);
    }

    // The getters.

    function Width(): real
      reads this
    {
      width
    }

    function Height(): real
      reads this
    {
      height
    }

    function Facets(): real
      reads this
    {
      facets
    }

    // The setters store the value as given: no clamping, no call of update().

    method SetWidth(value: real)
      modifies this`width
      ensures width == value
      ensures height == old(height) && facets == old(facets)
      ensures base.vertices == old(base.vertices) && base.colors == old(base.colors)
    {
      width := value;
    }

    method SetHeight(value: real)
      modifies this`height
      ensures height == value
      ensures width == old(width) && facets == old(facets)
      ensures base.vertices == old(base.vertices) && base.colors == old(base.colors)
    {
      height := value;
    }

    method SetFacets(value: real)
      modifies this`facets
      ensures facets == value
      ensures width == old(width) && height == old(height)
      ensures base.vertices == old(base.vertices) && base.colors == old(base.colors)
    {
      facets := value;
    }
  }

  /** A diamond built with the defaults (width 1, height 1, 3 facets) is a
      double fan of 2 triangles each: 36 positions and 36 colours. */
  method DefaultDiamond(counter: IdCounter, trig: Trig, draw: nat -> real) returns (d: DiamondGeometry)
    modifies counter
    ensures d.facets == 3.0 && d.width == 1.0 && d.height == 1.0
    ensures d.base.vertices.Length == 36 && d.base.colors.Length == 36
  {
    d := new DiamondGeometry(counter, trig, draw);
    MeshSizeOfWhole(trig, draw, 1.0, 1.0, 3);
  }
}
