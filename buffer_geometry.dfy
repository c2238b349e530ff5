/** The base class of the geometries: an id from a module-wide counter, a
    type name, a public name, and a vertex array and a colour array that
    start empty. */
module BufferGeometries {

  /** The module-level `_inside_id`, which starts at 0 and hands out the
      next id to every geometry constructed. */
  class IdCounter {
    var next: nat

    constructor ()
      ensures next == 0
    {
      next := 0;
    }
  }

  class BufferGeometry {
    const id: nat
    var typeName: string
    var name: string
    var vertices: array<real>
    var colors: array<real>

    /** `this._id = _inside_id++` and the initial fields. */
    constructor (counter: IdCounter)
      modifies counter
      ensures id == old(counter.next) && counter.next == old(counter.next) + 1
      ensures typeName == "BufferGeometry" && name == ""
      ensures fresh(vertices) && vertices.Length == 0
      ensures fresh(colors) && colors.Length == 0
    {
      id := counter.next;
      counter.next := counter.next + 1;
      typeName := "BufferGeometry";
      name := "";
      vertices := new real[0];
      colors := new real[0];
    }

    // The getters: functions, so they read the fields and change nothing.

    function Id(): nat
      reads this
    {
      id
    }

    function Type(): string
      reads this
    {
      typeName
    }

    function Vertices(): array<real>
      reads this
    {
      vertices
    }

    function Colors(): array<real>
      reads this
    {
      colors
    }
  }

  /** Geometries created one after another from the same counter get
      consecutive, hence distinct and increasing, ids. */
  method CreationOrder(counter: IdCounter) returns (first: BufferGeometry, second: BufferGeometry)
    modifies counter
    ensures first.Id() == old(counter.next) && second.Id() == first.Id() + 1
    ensures counter.next == old(counter.next) + 2
    ensures first != second
  {
    first := new BufferGeometry(counter);
    second := new BufferGeometry(counter);
  }
}
