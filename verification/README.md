# Geocentric CRS row conversion and stored lines, in Dafny

This project models two pieces of the AEGIS geospatial library.

**The local geocentric coordinate reference system collection.** The
reference registry reads coordinate reference systems from a local copy of
the EPSG geodetic dataset. One table holds every kind of CRS. The geocentric
collection's `Convert` looks at the kind column (column 3) of a row:

- For `"geocentric"` it builds a `GeocentricCrs` from these sources:
  - the identifier, from the collection's authority and the code text in column 0;
  - the name, from column 1;
  - the remarks and the scope, from columns 11 and 10;
  - the aliases, which the alias index records for the integer code in column 0;
  - three references found in sibling collections under the same authority: the
    coordinate system (column 4), the geodetic datum (column 5) and the area of
    use (column 2).
- For any other kind it returns `null`, which the model calls `Absent`.

The collection's constructor rejects a missing sibling collection. It binds
the collection to the `"CoordinateReferenceSystem"` resource and the
`"Coordinate Reference System"` alias type.

The model is pure. A row is a `seq<string>`. The alias index and the three
sibling collections are read-only maps. `Convert` returns the conversion
(`Absent`, `Converted(crs)` or `Failed(error)`) together with the list of
queries it made: integer parses, alias lookups and sibling lookups. That list
is what lets the lemmas say that a row of another kind touches nothing.
The exceptions the C# code can raise are modelled as errors:

- an index past the end of the row;
- `FormatException` or `OverflowException` from `Int32.Parse`;
- a sibling collection without the key.

The C# arguments are evaluated left to right, and the model keeps that order.
Column 11 is read before column 0 is parsed. After that come the coordinate
system, the datum and the area of use. So a short geocentric row fails on
column 11 before any code is parsed.

`Int32.Parse` (module `Int32Text`) is modelled for the default
`NumberStyles.Integer` style. It accepts white space (U+0009 to U+000D and
U+0020) on both sides, one optional leading `+` or `-`, and then one or more
ASCII digits. Any other text is a format error. A well-formed value outside
the 32-bit range is an overflow error. `Format` is the inverse used to state
the round trip.

**The stored line.** `StoredLine` is a line geometry held in a feature store.
It is modelled as a class whose state is its coordinate sequence. The four
list mutators (`Add`, `Insert`, `Remove`, `RemoveAt`) always fail with the
"line extension not supported" or "line reduction not supported" error, and
they have no modifies clause, so Dafny proves they leave the line unchanged. A line is always simple, and its
textual form is tagged `"LINE"`.

Files: `wrappers.dfy` (Option, Result), `int32_text.dfy`,
`geocentric_crs_collection.dfy`, `stored_line.dfy`.

## Model

| member | source | states |
|---|---|---|
| `Int32Text.ParseInt32` | src/Core.Reference/Collections/Local/LocalGeocentricCoordinateReferenceSystemCollection.cs:87-90 | a successful parse always yields a value in the 32-bit signed range |
| `Int32Text.ParseSignedDigits` | src/Core.Reference/Collections/Local/LocalGeocentricCoordinateReferenceSystemCollection.cs:87-90 | white space, an optional `+` or `-`, one or more digits (leading zeros allowed) and white space parse to the signed value of the digits when it fits in 32 bits, and to an overflow error otherwise |
| `Int32Text.ParsedTextShape` | src/Core.Reference/Collections/Local/LocalGeocentricCoordinateReferenceSystemCollection.cs:87-90 | conversely, every text that is not a format error (a value or an overflow) is white space, a sign or digit, only digits (at least one), then white space; so a format error is exactly a text not of that shape |
| `Int32Text.NoDigitsRejected` | src/Core.Reference/Collections/Local/LocalGeocentricCoordinateReferenceSystemCollection.cs:87-90 | a text without any digit is a format error: the empty cell, a blank cell, a bare sign |
| `Int32Text.MisplacedSignRejected` | src/Core.Reference/Collections/Local/LocalGeocentricCoordinateReferenceSystemCollection.cs:87-90 | a sign after any character that is not white space is a format error |
| `Int32Text.InnerWhiteSpaceRejected` | src/Core.Reference/Collections/Local/LocalGeocentricCoordinateReferenceSystemCollection.cs:87-90 | white space between two characters that are not white space (between sign and digits, or among digits) is a format error |
| `Int32Text.ParseLeadingZeros` | src/Core.Reference/Collections/Local/LocalGeocentricCoordinateReferenceSystemCollection.cs:87-90 | "0042" parses to 42 |
| `Int32Text.ParsePlusSignAndWhiteSpace` | src/Core.Reference/Collections/Local/LocalGeocentricCoordinateReferenceSystemCollection.cs:87-90 | " +7" followed by a tab parses to 7 |
| `Int32Text.ParseSpaceAmongDigits` | src/Core.Reference/Collections/Local/LocalGeocentricCoordinateReferenceSystemCollection.cs:87-90 | "1 2" is a format error |
| `Int32Text.ParseFormat` | src/Core.Reference/Collections/Local/LocalGeocentricCoordinateReferenceSystemCollection.cs:87-90 | parsing the decimal text of any integer gives it back when it fits in 32 bits, and an overflow error otherwise |
| `Int32Text.NonNumericRejected` | src/Core.Reference/Collections/Local/LocalGeocentricCoordinateReferenceSystemCollection.cs:87-90 | a character that is not white space, a sign or a digit anywhere in the text makes the parse fail with a format error |
| `Int32Text.ParseIgnoresLeadingWhiteSpace` | src/Core.Reference/Collections/Local/LocalGeocentricCoordinateReferenceSystemCollection.cs:87-90 | white space in front of a code does not change what it parses to |
| `LocalGeocentricCrsCollection.Create` | src/Core.Reference/Collections/Local/LocalGeocentricCoordinateReferenceSystemCollection.cs:33-73 | construction succeeds iff all three siblings are given. A missing one is an argument-null error naming the first missing one, checked in the order area of use, coordinate system, datum. On success the siblings, the authority and the alias index are stored, with resource "CoordinateReferenceSystem" and alias type "Coordinate Reference System" |
| `LocalGeocentricCrsCollection.Resolve` | src/Core.Reference/Collections/Local/LocalGeocentricCoordinateReferenceSystemCollection.cs:88-90 | one foreign key resolves exactly when its column holds an integer whose key, in the collection's authority, the sibling has; it then yields the sibling's entry under that key. A non-integer column fails with that column's parse error; a missing key fails naming the sibling and the key. The column is parsed first, and the sibling is asked once, only after a successful parse, only under the collection's authority |
| `LocalGeocentricCrsCollection.Convert` | src/Core.Reference/Collections/Local/LocalGeocentricCoordinateReferenceSystemCollection.cs:81-93 | the result is absent iff column 3 exists and is not "geocentric", and then nothing is queried. A row too short for column 3, or a geocentric row too short for column 11, fails on that column. A built object has identifier (authority, column 0), name column 1, remarks column 11, scope column 10, the aliases of the integer in column 0, and the sibling entries under (authority, parsed column 4 / 5 / 2) |
| `LocalGeocentricCrsCollection.SiblingQueriesStayInAuthority` | src/Core.Reference/Collections/Local/LocalGeocentricCoordinateReferenceSystemCollection.cs:88-90 | every sibling lookup a conversion makes uses the collection's own authority |
| `LocalGeocentricCrsCollection.ConvertedIffResolvable` | src/Core.Reference/Collections/Local/LocalGeocentricCoordinateReferenceSystemCollection.cs:83-92 | a row converts iff it is a complete geocentric row whose four code columns are integers and whose three keys are present. Any other geocentric row fails, so no object is built with a missing part |
| `LocalGeocentricCrsCollection.OtherKindTouchesNothing` | src/Core.Reference/Collections/Local/LocalGeocentricCoordinateReferenceSystemCollection.cs:83-92 | a row whose column 3 is another kind is absent with no query, whatever its other columns and whatever the collection's authority, aliases and siblings |
| `LocalGeocentricCrsCollection.NonIntegerColumnFails` | src/Core.Reference/Collections/Local/LocalGeocentricCoordinateReferenceSystemCollection.cs:86-90 | in a complete geocentric row, a non-integer column 0, 2, 4 or 5 makes the conversion fail, never absent. The error is that column's integer parse error whenever every column evaluated before it (in the order 0, 4, 5, 2) parsed and resolved |
| `LocalGeocentricCrsCollection.MissingKeyFails` | src/Core.Reference/Collections/Local/LocalGeocentricCoordinateReferenceSystemCollection.cs:88-90 | in a complete geocentric row whose code parses, an integer column 4, 5 or 2 whose key the sibling lacks makes the conversion fail with `ReferenceNotFound` naming that sibling and key, once every column evaluated before it (in the order 4, 5, 2) resolved |
| `LocalGeocentricCrsCollection.ConvertedQueryOrder` | src/Core.Reference/Collections/Local/LocalGeocentricCoordinateReferenceSystemCollection.cs:86-90 | a converted row queries, in this order: parse column 0, its aliases, then parse and look up the coordinate system, the datum and the area of use |
| `LocalGeocentricCrsCollection.UnreadColumnsIrrelevant` | src/Core.Reference/Collections/Local/LocalGeocentricCoordinateReferenceSystemCollection.cs:86-90 | two complete rows that agree on columns 0-5, 10 and 11 convert identically |
| `LocalGeocentricCrsCollection.GeocentricRowScenario` | src/Core.Reference/Collections/Local/LocalGeocentricCoordinateReferenceSystemCollection.cs:85-90 | a geocentric row with code 4245, area of use 1262, coordinate system 4400 and datum 6202 converts to an object holding exactly the sibling entries under those codes |
| `StoredGeometries.StoredLine.constructor` | src/Storage/Geometries/StoredLine.cs:43-46 | a new line holds the coordinates it was stored with |
| `StoredGeometries.StoredLine.IsSimple` | src/Storage/Geometries/StoredLine.cs:67-68 | every line is simple |
| `StoredGeometries.StoredLine.Add` | src/Storage/Geometries/StoredLine.cs:81-84 | always fails with "line extension not supported"; it has no modifies clause, so the line is unchanged |
| `StoredGeometries.StoredLine.Insert` | src/Storage/Geometries/StoredLine.cs:92-95 | always fails with "line extension not supported", at every index; it has no modifies clause, so the line is unchanged |
| `StoredGeometries.StoredLine.Remove` | src/Storage/Geometries/StoredLine.cs:103-106 | always fails with "line reduction not supported"; it never answers true or false, even for an absent coordinate; it has no modifies clause, so the line is unchanged |
| `StoredGeometries.StoredLine.RemoveAt` | src/Storage/Geometries/StoredLine.cs:113-116 | always fails with "line reduction not supported", at every index; it has no modifies clause, so the line is unchanged |
| `StoredGeometries.StoredLine.ToText` | src/Storage/Geometries/StoredLine.cs:123-126 | the textual form of a line carries the tag "LINE" and the line's current coordinates |

## Left out

- The base reference collection: resource loading, row reading, the alias dataset scan and the code-to-object cache. The authority and the alias index (`Aliases`, an absent code giving no aliases) are inputs of `Create`. None of this base code is part of this model.
- Sibling collections are read-only maps, and the model assumes a sibling's indexer throws at the first key it lacks (`ReferenceNotFound`). The indexer's code is not part of this model. If it returned null instead, the C# code would go on parsing and looking up the remaining columns before the object's constructor saw the null. Then a later column that is not an integer would be the error reported. The query list would also go on past the missing key.
- `IdentifiedObject.GetIdentifier`: its string format is not modelled. The identifier is the pair (authority, raw text of column 0).
- The sibling entities (area of use, coordinate system, geodetic datum) and line coordinates are abstract types. Only which entry a lookup returns matters.
- Row cells are never null in the model. A null row or a null cell is not modelled.
- Int32Text.ParseInt32 does not model culture-specific sign symbols, and does not model the trailing NUL characters that .NET accepts.
- StoredGeometries.StoredLine.ToText does not model how the base geometry class formats the coordinates behind the tag. That code is not part of this model.
- `StoredLine.Length` is left out: it is a floating-point Euclidean distance.
- Left out of `StoredLine`: the geometry driver, the precision model, the feature identifier and the index plumbing of the store. The constructor takes the coordinates directly.
- Concurrency and thread safety of shared collections.
