/** `getHeartXYArr` of the heart-shape page: `points` samples of a heart
    curve as a flat array of (x, y) pairs, closed by repeating the first pair,
    drawn as a line strip. */
module HeartShape {
  import opened VecMath

  /** The page's control values. The colour fields are not used by the curve. */
  datatype GuiData = GuiData(
    offsetRadian: real, xRatio: real, yRatio: real,
    xMultiple: real, yMultiple: real, points: nat,
    r: real, g: real, b: real,
    offsetX: real, offsetY: real)

  /** What the page can call `getHeartXYArr` with: at least one sample (its
      control keeps `points` in 4..128) and a non-zero `offsetRadian` (kept in 1..10). */
  predicate Drawable(data: GuiData) {
    data.points >= 1 && data.offsetRadian != 0.0
  }

  /** The angle of sample i: `(2 * PI / points + PI / offsetRadian) * i`. */
  function SampleAngle(data: GuiData, trig: Trig, i: nat): real
    requires Drawable(data)
  {
    (trig.pi * 2.0 / data.points as real + trig.pi / data.offsetRadian) * i as real
  }

  /** The heart curve's x at angle rad: `xRatio * (xMultiple * sin(rad) - sin(xMultiple * rad))`. */
  function HeartX(data: GuiData, trig: Trig, rad: real): real {
    data.xRatio * (data.xMultiple * trig.sin(rad) - trig.sin(data.xMultiple * rad))
  }

  /** The heart curve's y at angle rad: `yRatio * (yMultiple * cos(rad) - cos(yMultiple * rad))`. */
  function HeartY(data: GuiData, trig: Trig, rad: real): real {
    data.yRatio * (data.yMultiple * trig.cos(rad) - trig.cos(data.yMultiple * rad))
  }

  /** The curve's x at sample i, before the offset. */
  function CurveX(data: GuiData, trig: Trig, i: nat): real
    requires Drawable(data)
  {
    HeartX(data, trig, SampleAngle(data, trig, i))
  }

  /** The curve's y at sample i, before the offset. */
  function CurveY(data: GuiData, trig: Trig, i: nat): real
    requires Drawable(data)
  {
    HeartY(data, trig, SampleAngle(data, trig, i))
  }

  /** A flat (x, y) array that describes a closed polyline: at least two
      pairs, and the last pair repeats the first. */
  predicate IsClosedPolyline(xy: seq<real>) {
    |xy| >= 4 && |xy| % 2 == 0 && xy[|xy| - 2] == xy[0] && xy[|xy| - 1] == xy[1]
  }

  /** `getHeartXYArr`. Entries 2i and 2i + 1 are sample i shifted by
      (offsetX, offsetY); the closing pair repeats sample 0, offsets included;
      the line strip has points + 1 vertices. */
  method GetHeartXYArr(data: GuiData, trig: Trig) returns (res: seq<real>)
    requires Drawable(data)
    ensures |res| == 2 * data.points + 2 && |res| / 2 == data.points + 1
    ensures forall i :: 0 <= i < data.points ==>
              res[2 * i] == CurveX(data, trig, i) + data.offsetX &&
              res[2 * i + 1] == CurveY(data, trig, i) + data.offsetY
    ensures res[2 * data.points] == CurveX(data, trig, 0) + data.offsetX
    ensures res[2 * data.points + 1] == CurveY(data, trig, 0) + data.offsetY
    ensures IsClosedPolyline(res)
  {
    var radian := trig.pi * 2.0 / data.points as real;
    res := [];
    var rad: real := 0.0;
    for i := 0 to data.points
      invariant |res| == 2 * i
      invariant forall k :: 0 <= k < i ==>
                  res[2 * k] == CurveX(data, trig, k) + data.offsetX &&
                  res[2 * k + 1] == CurveY(data, trig, k) + data.offsetY
    {
      rad := (radian + trig.pi / data.offsetRadian) * i as real;
      assert rad == SampleAngle(data, trig, i);
      res := res + [HeartX(data, trig, rad) + data.offsetX];
      res := res + [HeartY(data, trig, rad) + data.offsetY];
    }
    res := res + [res[0], res[1]];
  }
}
