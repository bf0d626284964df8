/** A line geometry located in a feature store. A line keeps the shape it was
    stored with: every list operation that would extend or shorten its
    coordinate list is refused with a "not supported" error. */
module StoredGeometries {
  import opened Wrappers

  /** A coordinate of a stored geometry; its components are not modelled. */
  type Coordinate(==)

  /** The geometry tag of a line in its textual form. */
  const LineName: string := "LINE"

  /** `NotSupportedException` with the message for extending or reducing a line. */
  datatype GeometryError = LineExtensionNotSupported | LineReductionNotSupported

  /** What the textual form of a geometry is made of: its tag and its
      coordinates, which the base class formats. */
  datatype Text = Text(tag: string, coordinates: seq<Coordinate>)

  /** The list mutators below carry no modifies clause: their frame is the
      proof that a refused edit leaves the line exactly as it was. */
  class StoredLine {
    /** The coordinates of the line as the store holds them. */
    var coordinates: seq<Coordinate>

    /** A line over the coordinates read from the store. */
    constructor (coordinates: seq<Coordinate>)
      ensures this.coordinates == coordinates
    {
      this.coordinates := coordinates;
    }

    /** A line is always simple, whatever its coordinates. */
    function IsSimple(): (simple: bool)
      ensures simple
    {
      true
    }

    /** `Add(coordinate)`: extension is refused and the line is left as it was. */
    method Add(coordinate: Coordinate) returns (r: Result<(), GeometryError>)
      ensures r == Failure(LineExtensionNotSupported)
    {
      r := Failure(LineExtensionNotSupported);
    }

    /** `Insert(index, coordinate)`: refused at every index, even one that
        would be out of range, and the line is left as it was. */
    method Insert(index: int, coordinate: Coordinate) returns (r: Result<(), GeometryError>)
      ensures r == Failure(LineExtensionNotSupported)
    {
      r := Failure(LineExtensionNotSupported);
    }

    /** `Remove(coordinate)`: never answers whether the coordinate was
        removed, not even when the line does not hold it; reduction is
        refused and the line is left as it was. */
    method Remove(coordinate: Coordinate) returns (r: Result<bool, GeometryError>)
      ensures r == Failure(LineReductionNotSupported)
    {
      r := Failure(LineReductionNotSupported);
    }

    /** `RemoveAt(index)`: refused at every index and the line is left as it was. */
    method RemoveAt(index: int) returns (r: Result<(), GeometryError>)
      ensures r == Failure(LineReductionNotSupported)
    {
      r := Failure(LineReductionNotSupported);
    }

    /** `ToString(provider)`: the line's coordinates, tagged "LINE". */
    function ToText(): (t: Text)
      reads this
      ensures t.tag == "LINE" && t.coordinates == coordinates
    {
      Text(LineName, coordinates)
    }
  }
}
