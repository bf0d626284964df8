/** The local collection of geocentric coordinate reference systems: it turns
    rows of the coordinate reference system table of the EPSG geodetic
    dataset into geocentric CRS objects, resolving their area of use,
    coordinate system and geodetic datum through sibling collections of the
    same authority. Rows of another kind share the table and are skipped. */
module LocalGeocentricCrsCollection {
  import opened Wrappers
  import opened Int32Text

  /** The dataset resource and the alias type the collection is bound to. */
  const ResourceName: string := "CoordinateReferenceSystem"
  const AliasTypeName: string := "Coordinate Reference System"

  /** The value of the kind column that marks a geocentric row. */
  const GeocentricKind: string := "geocentric"

  /** Column positions in a coordinate reference system row. */
  const CodeColumn: nat := 0
  const NameColumn: nat := 1
  const AreaOfUseColumn: nat := 2
  const KindColumn: nat := 3
  const CoordinateSystemColumn: nat := 4
  const DatumColumn: nat := 5
  const ScopeColumn: nat := 10
  const RemarksColumn: nat := 11

  /** One row of the dataset, column by column. */
  type Row = seq<string>

  /** The entities the sibling collections hold; their contents do not matter
      here, only which one a lookup returns. */
  type AreaOfUse(==)
  type CoordinateSystem(==)
  type GeodeticDatum(==)

  /** The identifier `IdentifiedObject.GetIdentifier` builds from an
      authority and the code text of a row; its string format is not modelled. */
  datatype Identifier = Identifier(authority: string, code: string)

  /** The (authority, code) pair a sibling collection is indexed by. */
  datatype Key = Key(authority: string, code: int)

  datatype GeocentricCrs = GeocentricCrs(
    identifier: Identifier,
    name: string,
    remarks: string,
    aliases: seq<string>,
    scope: string,
    coordinateSystem: CoordinateSystem,
    datum: GeodeticDatum,
    areaOfUse: AreaOfUse)

  /** A constructed collection: the resource and alias type given to the base
      collection, the authority and alias index the base collection supplies,
      and the three sibling collections, read-only. */
  datatype Collection = Collection(
    resourceName: string,
    aliasTypeName: string,
    authority: string,
    aliasIndex: map<int, seq<string>>,
    areasOfUse: map<Key, AreaOfUse>,
    coordinateSystems: map<Key, CoordinateSystem>,
    datums: map<Key, GeodeticDatum>)
  {
    /** `GetAliases(code)`: the aliases recorded for a code, none if there are none. */
    function Aliases(code: int): (aliases: seq<string>) {
      if code in aliasIndex then aliasIndex[code] else []
    }
  }

  /** `ArgumentNullException`, with the name of the missing parameter. */
  datatype ConstructionError = ArgumentNull(paramName: string)

  /** The constructor. A `None` sibling is a null argument. */
  function Create(
    authority: string,
    aliasIndex: map<int, seq<string>>,
    areaOfUseCollection: Option<map<Key, AreaOfUse>>,
    coordinateSystemCollection: Option<map<Key, CoordinateSystem>>,
    geodeticDatumCollection: Option<map<Key, GeodeticDatum>>): (r: Result<Collection, ConstructionError>)
    ensures r.Success? <==>
      areaOfUseCollection.Some? && coordinateSystemCollection.Some? && geodeticDatumCollection.Some?
    ensures areaOfUseCollection.None? ==> r == Failure(ArgumentNull("areaOfUseCollection"))
    ensures areaOfUseCollection.Some? && coordinateSystemCollection.None? ==>
      r == Failure(ArgumentNull("coordinateSystemCollection"))
    ensures areaOfUseCollection.Some? && coordinateSystemCollection.Some? && geodeticDatumCollection.None? ==>
      r == Failure(ArgumentNull("geodeticDatumCollection"))
    ensures r.Success? ==>
      && r.value.resourceName == "CoordinateReferenceSystem"
      && r.value.aliasTypeName == "Coordinate Reference System"
      && r.value.authority == authority
      && r.value.aliasIndex == aliasIndex
      && r.value.areasOfUse == areaOfUseCollection.value
      && r.value.coordinateSystems == coordinateSystemCollection.value
      && r.value.datums == geodeticDatumCollection.value
  {
    if areaOfUseCollection.None? then Failure(ArgumentNull("areaOfUseCollection"))
    else if coordinateSystemCollection.None? then Failure(ArgumentNull("coordinateSystemCollection"))
    else if geodeticDatumCollection.None? then Failure(ArgumentNull("geodeticDatumCollection"))
    else Success(Collection(ResourceName, AliasTypeName, authority, aliasIndex,
      areaOfUseCollection.value, coordinateSystemCollection.value, geodeticDatumCollection.value))
  }

  datatype Sibling = AreaOfUseSibling | CoordinateSystemSibling | DatumSibling

  /** What the conversion asks of anything outside the row: an integer parse of
      a column, the alias index, or a sibling collection. */
  datatype Query =
    | ParseColumn(column: nat)
    | AliasQuery(code: int)
    | SiblingQuery(sibling: Sibling, key: Key)

  /** The exceptions a conversion can raise: an index past the end of the row,
      an `Int32.Parse` failure, or a sibling collection without the key. */
  datatype ConvertError =
    | ColumnMissing(column: nat)
    | NotAnInteger(column: nat, cause: ParseError)
    | ReferenceNotFound(sibling: Sibling, key: Key)

  /** `null` (a row of another kind), a built object, or an exception. */
  datatype Conversion = Absent | Converted(crs: GeocentricCrs) | Failed(error: ConvertError)

  /** A conversion with the queries it made, in the order it made them. */
  datatype Attempt = Attempt(conversion: Conversion, queries: seq<Query>)

  /** The key a foreign-key column refers to, when it holds an integer. */
  function KeyAt(authority: string, row: Row, column: nat): (k: Option<Key>)
    requires column < |row|
  {
    match ParseInt32(row[column])
    case Success(code) => Some(Key(authority, code))
    case Failure(_) => None
  }

  /** The outcome of resolving one foreign key, with the queries it made. */
  datatype Lookup<T> = Lookup(outcome: Result<T, ConvertError>, queries: seq<Query>)

  /** `collection[Authority, Int32.Parse(row[column])]`: parses a foreign-key
      column, then looks the code up in a sibling under the given authority. */
  function Resolve<T>(entries: map<Key, T>, sibling: Sibling, authority: string, row: Row, column: nat): (l: Lookup<T>)
    requires column < |row|
    // it succeeds exactly when the column holds an integer whose key the sibling has,
    // and then yields the sibling's entry under that key in the given authority
    ensures l.outcome.Success? <==>
      ParseInt32(row[column]).Success? && Key(authority, ParseInt32(row[column]).value) in entries
    ensures l.outcome.Success? ==> l.outcome.value == entries[Key(authority, ParseInt32(row[column]).value)]
    // a column that is not an integer fails with that column's parse error
    ensures ParseInt32(row[column]).Failure? ==>
      l.outcome == Failure(NotAnInteger(column, ParseInt32(row[column]).error))
    // an integer whose key the sibling lacks fails naming the sibling and the key
    ensures ParseInt32(row[column]).Success? && Key(authority, ParseInt32(row[column]).value) !in entries ==>
      l.outcome == Failure(ReferenceNotFound(sibling, Key(authority, ParseInt32(row[column]).value)))
    // the column is parsed first, and the sibling is asked once, only when the parse succeeds,
    // and only under the given authority
    ensures 1 <= |l.queries| <= 2 && l.queries[0] == ParseColumn(column)
    ensures |l.queries| == 2 <==> ParseInt32(row[column]).Success?
    ensures forall q :: q in l.queries && q.SiblingQuery? ==> q.sibling == sibling && q.key.authority == authority
  {
    match ParseInt32(row[column])
    case Failure(cause) => Lookup(Failure(NotAnInteger(column, cause)), [ParseColumn(column)])
    case Success(code) =>
      var key := Key(authority, code);
      var queries := [ParseColumn(column), SiblingQuery(sibling, key)];
      if key in entries then Lookup(Success(entries[key]), queries)
      else Lookup(Failure(ReferenceNotFound(sibling, key)), queries)
  }

  /** `Convert(content)`: the switch on the kind column, then the constructor
      arguments evaluated left to right. */
  function Convert(c: Collection, row: Row): (a: Attempt)
    // any other kind is absent, and only another kind is
    ensures a.conversion.Absent? <==> |row| > KindColumn && row[KindColumn] != GeocentricKind
    ensures a.conversion.Absent? ==> a.queries == []
    // a short row fails at the first column it lacks
    ensures |row| <= KindColumn ==> a.conversion == Failed(ColumnMissing(KindColumn))
    ensures |row| > KindColumn && row[KindColumn] == GeocentricKind && |row| <= RemarksColumn ==>
      a.conversion == Failed(ColumnMissing(RemarksColumn))
    // a built object takes its fields from the row, the alias index and the siblings
    ensures a.conversion.Converted? ==>
      var crs := a.conversion.crs;
      && |row| > RemarksColumn && row[KindColumn] == GeocentricKind
      && crs.identifier == Identifier(c.authority, row[CodeColumn])
      && crs.name == row[NameColumn]
      && crs.remarks == row[RemarksColumn]
      && crs.scope == row[ScopeColumn]
      && ParseInt32(row[CodeColumn]).Success?
      && crs.aliases == c.Aliases(ParseInt32(row[CodeColumn]).value)
      && KeyAt(c.authority, row, CoordinateSystemColumn).Some?
      && KeyAt(c.authority, row, CoordinateSystemColumn).value in c.coordinateSystems
      && crs.coordinateSystem == c.coordinateSystems[KeyAt(c.authority, row, CoordinateSystemColumn).value]
      && KeyAt(c.authority, row, DatumColumn).Some?
      && KeyAt(c.authority, row, DatumColumn).value in c.datums
      && crs.datum == c.datums[KeyAt(c.authority, row, DatumColumn).value]
      && KeyAt(c.authority, row, AreaOfUseColumn).Some?
      && KeyAt(c.authority, row, AreaOfUseColumn).value in c.areasOfUse
      && crs.areaOfUse == c.areasOfUse[KeyAt(c.authority, row, AreaOfUseColumn).value]
  {
    if |row| <= KindColumn then Attempt(Failed(ColumnMissing(KindColumn)), [])
    else if row[KindColumn] != GeocentricKind then Attempt(Absent, [])
    else if |row| <= RemarksColumn then Attempt(Failed(ColumnMissing(RemarksColumn)), [])
    else
      match ParseInt32(row[CodeColumn])
      case Failure(cause) => Attempt(Failed(NotAnInteger(CodeColumn, cause)), [ParseColumn(CodeColumn)])
      case Success(code) =>
        var q0 := [ParseColumn(CodeColumn), AliasQuery(code)];
        var cs := Resolve(c.coordinateSystems, CoordinateSystemSibling, c.authority, row, CoordinateSystemColumn);
        var q1 := q0 + cs.queries;
        if cs.outcome.Failure? then Attempt(Failed(cs.outcome.error), q1) else
        var datum := Resolve(c.datums, DatumSibling, c.authority, row, DatumColumn);
        var q2 := q1 + datum.queries;
        if datum.outcome.Failure? then Attempt(Failed(datum.outcome.error), q2) else
        var area := Resolve(c.areasOfUse, AreaOfUseSibling, c.authority, row, AreaOfUseColumn);
        var q3 := q2 + area.queries;
        if area.outcome.Failure? then Attempt(Failed(area.outcome.error), q3) else
        Attempt(Converted(GeocentricCrs(
          Identifier(c.authority, row[CodeColumn]), row[NameColumn], row[RemarksColumn],
          c.Aliases(code), row[ScopeColumn],
          cs.outcome.value, datum.outcome.value, area.outcome.value)), q3)
  }

  /** Every sibling collection is asked within the collection's own authority. */
  lemma SiblingQueriesStayInAuthority(c: Collection, row: Row)
    ensures forall q :: q in Convert(c, row).queries && q.SiblingQuery? ==> q.key.authority == c.authority
  {
  }

  /** A row is resolvable when it is a complete geocentric row whose code
      columns hold integers and whose three foreign keys are all present in
      the sibling collections of the collection's authority. */
  ghost predicate Resolvable(c: Collection, row: Row) {
    && |row| > RemarksColumn
    && row[KindColumn] == GeocentricKind
    && ParseInt32(row[CodeColumn]).Success?
    && KeyAt(c.authority, row, CoordinateSystemColumn).Some?
    && KeyAt(c.authority, row, CoordinateSystemColumn).value in c.coordinateSystems
    && KeyAt(c.authority, row, DatumColumn).Some?
    && KeyAt(c.authority, row, DatumColumn).value in c.datums
    && KeyAt(c.authority, row, AreaOfUseColumn).Some?
    && KeyAt(c.authority, row, AreaOfUseColumn).value in c.areasOfUse
  }

  /** A row converts to an object exactly when it is resolvable; every other
      geocentric row fails, so no object is ever built with a missing part. */
  lemma ConvertedIffResolvable(c: Collection, row: Row)
    ensures Convert(c, row).conversion.Converted? <==> Resolvable(c, row)
    ensures |row| > KindColumn && row[KindColumn] == GeocentricKind && !Resolvable(c, row) ==>
      Convert(c, row).conversion.Failed?
  {
  }

  /** A row of any other kind is absent whatever its other columns hold and
      whatever the collection's authority, aliases and siblings are: nothing
      but the kind column is read, and nothing is parsed or queried. */
  lemma OtherKindTouchesNothing(c: Collection, c': Collection, row: Row, row': Row)
    requires |row| > KindColumn && row[KindColumn] != GeocentricKind
    requires |row'| > KindColumn && row'[KindColumn] == row[KindColumn]
    ensures Convert(c, row) == Convert(c', row') == Attempt(Absent, [])
  {
  }

  /** In a complete geocentric row, a code column that does not hold an
      integer makes the conversion fail rather than yield an absent result.
      The columns are parsed in the order 0, 4, 5, 2, so the parse error of
      the column is the one reported once every column before it resolved. */
  lemma NonIntegerColumnFails(c: Collection, row: Row, column: nat)
    requires |row| > RemarksColumn && row[KindColumn] == GeocentricKind
    requires column in {CodeColumn, AreaOfUseColumn, CoordinateSystemColumn, DatumColumn}
    requires ParseInt32(row[column]).Failure?
    ensures Convert(c, row).conversion.Failed?
    // the error names the column whenever every column evaluated before it resolved
    ensures column == CodeColumn ==>
      Convert(c, row).conversion.error == NotAnInteger(CodeColumn, ParseInt32(row[CodeColumn]).error)
    ensures column == CoordinateSystemColumn && ParseInt32(row[CodeColumn]).Success? ==>
      Convert(c, row).conversion.error == NotAnInteger(CoordinateSystemColumn, ParseInt32(row[column]).error)
    ensures (&& column == DatumColumn && ParseInt32(row[CodeColumn]).Success?
             && KeyAt(c.authority, row, CoordinateSystemColumn).Some?
             && KeyAt(c.authority, row, CoordinateSystemColumn).value in c.coordinateSystems) ==>
      Convert(c, row).conversion.error == NotAnInteger(DatumColumn, ParseInt32(row[column]).error)
    ensures (&& column == AreaOfUseColumn && ParseInt32(row[CodeColumn]).Success?
             && KeyAt(c.authority, row, CoordinateSystemColumn).Some?
             && KeyAt(c.authority, row, CoordinateSystemColumn).value in c.coordinateSystems
             && KeyAt(c.authority, row, DatumColumn).Some?
             && KeyAt(c.authority, row, DatumColumn).value in c.datums) ==>
      Convert(c, row).conversion.error == NotAnInteger(AreaOfUseColumn, ParseInt32(row[column]).error)
  {
  }

  /** In a complete geocentric row whose code parses, an integer column whose
      key the sibling lacks makes the conversion fail with that sibling and
      key, once every column evaluated before it (in the order 4, 5, 2)
      resolved. */
  lemma MissingKeyFails(c: Collection, row: Row)
    requires |row| > RemarksColumn && row[KindColumn] == GeocentricKind
    requires ParseInt32(row[CodeColumn]).Success?
    ensures var k := KeyAt(c.authority, row, CoordinateSystemColumn);
      k.Some? && k.value !in c.coordinateSystems ==>
      Convert(c, row).conversion == Failed(ReferenceNotFound(CoordinateSystemSibling, k.value))
    ensures var k := KeyAt(c.authority, row, DatumColumn);
      (&& KeyAt(c.authority, row, CoordinateSystemColumn).Some?
       && KeyAt(c.authority, row, CoordinateSystemColumn).value in c.coordinateSystems
       && k.Some? && k.value !in c.datums) ==>
      Convert(c, row).conversion == Failed(ReferenceNotFound(DatumSibling, k.value))
    ensures var k := KeyAt(c.authority, row, AreaOfUseColumn);
      (&& KeyAt(c.authority, row, CoordinateSystemColumn).Some?
       && KeyAt(c.authority, row, CoordinateSystemColumn).value in c.coordinateSystems
       && KeyAt(c.authority, row, DatumColumn).Some?
       && KeyAt(c.authority, row, DatumColumn).value in c.datums
       && k.Some? && k.value !in c.areasOfUse) ==>
      Convert(c, row).conversion == Failed(ReferenceNotFound(AreaOfUseSibling, k.value))
  {
  }

  /** A converted row makes its queries in the order of the constructor's
      arguments: the code and its aliases, then the coordinate system, the
      datum and the area of use, each parsed and then looked up. */
  lemma ConvertedQueryOrder(c: Collection, row: Row)
    requires Convert(c, row).conversion.Converted?
    ensures
      var code := ParseInt32(row[CodeColumn]).value;
      Convert(c, row).queries == [
        ParseColumn(CodeColumn), AliasQuery(code),
        ParseColumn(CoordinateSystemColumn),
        SiblingQuery(CoordinateSystemSibling, KeyAt(c.authority, row, CoordinateSystemColumn).value),
        ParseColumn(DatumColumn),
        SiblingQuery(DatumSibling, KeyAt(c.authority, row, DatumColumn).value),
        ParseColumn(AreaOfUseColumn),
        SiblingQuery(AreaOfUseSibling, KeyAt(c.authority, row, AreaOfUseColumn).value)]
  {
  }

  /** Only columns 0 to 5, 10 and 11 of a complete row feed the conversion. */
  lemma UnreadColumnsIrrelevant(c: Collection, row: Row, row': Row)
    requires |row| > RemarksColumn && |row'| > RemarksColumn
    requires row[..DatumColumn + 1] == row'[..DatumColumn + 1]
    requires row[ScopeColumn] == row'[ScopeColumn] && row[RemarksColumn] == row'[RemarksColumn]
    ensures Convert(c, row) == Convert(c, row')
  {
    assert forall i :: 0 <= i <= DatumColumn ==> row[i] == row[..DatumColumn + 1][i];
    assert forall i :: 0 <= i <= DatumColumn ==> row'[i] == row'[..DatumColumn + 1][i];
  }

  /** A geocentric row with code 4245 referring to area of use 1262,
      coordinate system 4400 and datum 6202 converts to an object holding
      exactly the instances the three siblings hold under those codes. */
  lemma GeocentricRowScenario(c: Collection, row: Row)
    requires |row| == 12 && row[KindColumn] == "geocentric" && row[CodeColumn] == "4245"
    requires row[AreaOfUseColumn] == "1262" && row[CoordinateSystemColumn] == "4400" && row[DatumColumn] == "6202"
    requires Key(c.authority, 1262) in c.areasOfUse
    requires Key(c.authority, 4400) in c.coordinateSystems
    requires Key(c.authority, 6202) in c.datums
    ensures Convert(c, row).conversion == Converted(GeocentricCrs(
      Identifier(c.authority, "4245"), row[NameColumn], row[RemarksColumn], c.Aliases(4245), row[ScopeColumn],
      c.coordinateSystems[Key(c.authority, 4400)],
      c.datums[Key(c.authority, 6202)],
      c.areasOfUse[Key(c.authority, 1262)]))
  {
    assert Format(4245) == "4245" && Format(1262) == "1262";
    assert Format(4400) == "4400" && Format(6202) == "6202";
    ParseFormat(4245);
    ParseFormat(1262);
    ParseFormat(4400);
    ParseFormat(6202);
    assert Resolvable(c, row);
    ConvertedIffResolvable(c, row);
  }
}
