/** The numeric vocabulary shared by the geometry code: gl-matrix's `vec3`
    and the parts of JavaScript's `Math` object that the demos call. */
module VecMath {

  /** A `vec3` of gl-matrix: three coordinates (or three colour channels). */
  datatype Vec3 = Vec3(x: real, y: real, z: real)

  /** The three components of a vector, in the order `push(...v)` spreads them. */
  function Components(v: Vec3): seq<real> {
    [v.x, v.y, v.z]
  }

  /** `Math.PI`, `Math.cos` and `Math.sin`. Their numeric values are not part
      of the model: every property proved here holds for any choice of them. */
  datatype Trig = Trig(pi: real, cos: real -> real, sin: real -> real)

  /** The Pythagorean identity, for the properties that need it. */
  ghost predicate Pythagorean(trig: Trig) {
    forall a :: trig.cos(a) * trig.cos(a) + trig.sin(a) * trig.sin(a) == 1.0
  }
}
