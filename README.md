# Maritime routing ETL: a verified Dafny model of its local logic

The repository converts maritime route tables into GeoJSON and loads GeoJSON
line geometries into a PostGIS edge table for pgRouting. The graph work
(topology, costs, connected components, shortest paths) runs inside the
database. This model covers the logic that runs locally:

- **Coordinate normalisation** (`normalize_coordinate`). Both components go
  through Python's floor modulus by 360 and then a fold into (-180, 180].
  The model is over `real` (module `Normalizer`).
- **GeoJSON feature-tree flattening** (`_import_routing_feature_from_json`
  and `import_routing_geometry_into_edges_table`). The walk recurses through
  `FeatureCollection` nodes. Each `Feature` gives one INSERT, and any other
  node is skipped. The walk runs inside a `with con:` transaction. Both copies
  of this code (`RoutingBuilder` in `MaritimeDataConversions/geojson-to-postgis.py`
  and `RoutingManager` in `geojson-to-postgis.py`) have the same logic, so they
  share one model.
  - `FeatureTree.Walk` is the specification. It gives the inserts executed, in
    order, and the exception raised, if any.
  - `EdgeImport.ImportFeature` is the imperative recursive walk. It appends to
    the connection's open transaction through a `Cursor`.
  - `EdgeImport.ImportRoutingGeometry` commits everything or rolls everything
    back.
- **CSV rows to FeatureCollection** (`convert_csv_to_geojson`, in
  `csv-to-geojson.py` and as a method of `GeoConverter` in `geo_converter.py`).
  The header row is skipped. Every other row must have 11 fields and becomes a
  two-point LineString Feature with properties `{linestring_id: int(col0)}`.
  The file is written only after every row has succeeded.
  - `CsvToGeoJson.ConvertRows` is the specification.
  - `CsvToGeoJson.CollectFeatures` is the row loop.
  - `CsvToGeoJson.ConvertEach` is the loop over the data rows, for any
    conversion of one row; its lemmas are proved once at that level.
  - A `FileSystem` object maps each path to one file: a CSV file, given by
    the rows `csv.reader` yields for it, or a GeoJSON file the converter
    wrote. Writing the destination replaces whatever that path held, even
    when it is the source path.
- **Path construction** in `GeoConverter`. Every path is
  `folder + "\" + name + extension`.
- **End-to-end round trip** (module `RoundTrip`). Flattening the converter's
  output gives one `(int(col0), dumps(LineString(col1..col4)))` record per data
  row, in row order.

Some library functions are not defined by the model. They are fields of the
`PyJson.Builtins` value that every operation takes:
- `json.dumps`;
- Python's `int()` and `float()` applied to a string (partial, with `None` for
  a ValueError);
- the rounding the `geojson` library applies to the coordinates it stores;
- the rows `csv.reader` yields when it reads a file that holds a written
  GeoJSON document.

Python's `int()` on an int, a bool or a float, its subscripting, and its
`dict.get` are modelled concretely.

Normalisation is sometimes described as the identity on the closed range
[-180, 180]. The code does not do that: it sends -180 to 180, because
`-180 % 360 == 180`. The model follows the code
(`Normalizer.NormalizeMinus180`). Latitude goes through the same 360-degree
transform as longitude; the model keeps this as written.

## Model

| member | source | states |
|---|---|---|
| Normalizer.PyMod360 | MaritimeDataConversions/geojson-to-postgis.py:140-141 | Python's `x % 360` is in [0, 360) and differs from x by a whole number of turns |
| Normalizer.Normalize | MaritimeDataConversions/geojson-to-postgis.py:140-143 | each normalised component lies in (-180, 180] and differs from its input by a whole number of turns |
| Normalizer.NormalizeCharacterization | MaritimeDataConversions/geojson-to-postgis.py:140-143 | the result equals y exactly when y is in (-180, 180] and a whole number of turns from the input (both directions) |
| Normalizer.CanonicalUnique | MaritimeDataConversions/geojson-to-postgis.py:140-143 | two values of (-180, 180] a whole number of turns apart are equal, so the normalised value of an input is unique |
| Normalizer.NormalizeIdentity | MaritimeDataConversions/geojson-to-postgis.py:140-143 | every value in (-180, 180] is returned unchanged |
| Normalizer.NormalizeMinus180 | MaritimeDataConversions/geojson-to-postgis.py:140-142 | -180 is mapped to 180 |
| Normalizer.NormalizePeriodic | MaritimeDataConversions/geojson-to-postgis.py:140-143 | adding 360·k (k any integer) to the input does not change the result |
| Normalizer.NormalizeIdempotent | MaritimeDataConversions/geojson-to-postgis.py:140-143 | normalising an already normalised value changes nothing |
| Normalizer.LowerFoldUnreachable | MaritimeDataConversions/geojson-to-postgis.py:142-143 | the `< -180` branch is never taken, so the fold only subtracts 360 from values above 180 |
| Normalizer.NormalizeCoordinateComponents | MaritimeDataConversions/geojson-to-postgis.py:139-144 | both outputs lie in (-180, 180], each is a whole number of turns from its input, and each depends only on its own input |
| Normalizer.LatitudeUsesLongitudeRange | MaritimeDataConversions/geojson-to-postgis.py:141-143 | latitude 100 is returned unchanged and latitude 200 becomes -160: latitude is folded like a longitude |
| Normalizer.NormalizeExample | MaritimeDataConversions/geojson-to-postgis.py:139-144 | `normalize_coordinate(200, 10) == (-160, 10)` |
| Normalizer.Fold | MaritimeDataConversions/geojson-to-postgis.py:142-143 | the conditional after the modulus moves its input by at most one turn; it sends every value of (-540, 540] except -180 into (-180, 180], and leaves -180 where it is |
| Normalizer.NormalizeCoordinate | MaritimeDataConversions/geojson-to-postgis.py:139-144 | both returned components lie in (-180, 180], and each is a whole number of turns from its own input |
| PyJson.DictGet | MaritimeDataConversions/geojson-to-postgis.py:82-85 | `d.get(key)` gives a value exactly when the key is present, and the value is the one stored under the key |
| PyJson.Subscript | MaritimeDataConversions/geojson-to-postgis.py:88 | `v[key]` succeeds exactly on a dict holding the key and returns its value; a dict without the key raises KeyError |
| PyJson.Truncate | MaritimeDataConversions/geojson-to-postgis.py:88 | `int()` of a float truncates toward zero: the result is within 1 of the input, on the side of zero |
| PyJson.PyInt | MaritimeDataConversions/geojson-to-postgis.py:88 | `int()` returns an int id as it is, a bool as 0 or 1, a float truncated toward zero, a str as the library parses it, and fails on None, a list or a dict |
| GeoJson.PositionJson | csv-to-geojson.py:16 | a position is stored as the two-element list `[lon, lat]`, longitude first |
| GeoJson.LineStringJson | csv-to-geojson.py:16 | a LineString has exactly the keys `type` and `coordinates`, type "LineString", and two positions, made of the rounded coordinates of the two endpoints in order |
| GeoJson.FeatureJson | csv-to-geojson.py:15-20 | a Feature has exactly the keys `type`, `geometry` and `properties` (no `id`), type "Feature", and holds the given geometry and properties |
| GeoJson.FeatureCollectionJson | csv-to-geojson.py:23 | a FeatureCollection has exactly the keys `type` and `features`, type "FeatureCollection", and its `features` is the given list |
| FeatureTree.FeatureInsert | geojson-to-postgis.py:96-99 | a missing `geometry` raises KeyError("geometry") before anything else, then a missing `properties` raises; a failing `properties["linestring_id"]` raises its own error (KeyError("linestring_id") on a dict without it, TypeError on a value that is not a dict), an id `int()` rejects raises NotAnInteger; a record carries `dumps(geometry)` and the `int()` of `properties["linestring_id"]` |
| FeatureTree.IsCollection | MaritimeDataConversions/geojson-to-postgis.py:82 | the FeatureCollection test holds exactly when the dict has key `type` with value "FeatureCollection"; such a node is never also taken as a Feature |
| FeatureTree.IsFeature | MaritimeDataConversions/geojson-to-postgis.py:85 | the Feature test holds exactly when the dict has key `type` with value "Feature"; a missing `type` makes `.get` give None, so the node is skipped |
| FeatureTree.Walk | geojson-to-postgis.py:91-99 | `.get` on a node that is not a dict raises AttributeError; a FeatureCollection without `features` raises KeyError("features"); a dict that is neither a FeatureCollection nor a Feature yields no record and raises nothing |
| FeatureTree.WalkIterable | geojson-to-postgis.py:93 | a `features` value that is not a list never yields a record; a number, a bool or None raises TypeError |
| FeatureTree.WalkSeq | geojson-to-postgis.py:93-94 | when the loop over the children raises nothing, no child raised anything |
| FeatureTree.Flatten | MaritimeDataConversions/geojson-to-postgis.py:91-95 | an import succeeds exactly when the walk raises nothing, and then with the walk's records; otherwise it fails with the walk's exception |
| FeatureTree.Features | geojson-to-postgis.py:92-95 | the reference enumeration: every dict it lists is a Feature (type "Feature") |
| FeatureTree.FeaturesSeq | geojson-to-postgis.py:93-94 | every dict listed for a sequence of children is a Feature |
| FeatureTree.ConcatFlattened | geojson-to-postgis.py:93-94 | the reference for a collection's records: the children's records, each child's in turn, concatenated; no children give none, one child gives its own records, and the first child's records lead |
| FeatureTree.CollectionConcatenates | geojson-to-postgis.py:92-94 | a FeatureCollection's records are its children's records concatenated in order; it fails exactly when a child fails, with the first failing child's error |
| FeatureTree.FeatureYieldsOneInsert | geojson-to-postgis.py:95-99 | a Feature yields exactly one record, `(int(properties["linestring_id"]), dumps(geometry))`, and fails exactly when geometry, properties or the id is missing or the id is not int-convertible, and then with the error `FeatureInsert` raises |
| FeatureTree.FeatureIgnoresOtherKeys | geojson-to-postgis.py:95-99 | changing or adding any key of a Feature other than type/geometry/properties (its `features`, say) changes nothing: its children are never visited |
| FeatureTree.FeatureIgnoresOtherProperties | geojson-to-postgis.py:98 | properties other than `linestring_id` do not affect the walk |
| FeatureTree.UnrecognisedNodeIgnored | geojson-to-postgis.py:92-95 | a dict whose `type` is missing or is neither FeatureCollection nor Feature yields no record and raises nothing |
| FeatureTree.FlattenFollowsFeatures | geojson-to-postgis.py:91-99 | a successful walk has one record per Feature reachable through FeatureCollections, and the i-th record is the one made from the i-th such Feature in depth-first pre-order |
| FeatureTree.WalkSeqFollowsFeatures | geojson-to-postgis.py:93-94 | a raise-free loop over children emits one record per Feature reachable from them, the i-th record made from the i-th such Feature |
| FeatureTree.InsertCountIsFeatureCount | geojson-to-postgis.py:91-99 | a successful walk yields as many records as there are Features reachable through FeatureCollections |
| FeatureTree.BadFeatureAborts | geojson-to-postgis.py:98 | one reachable Feature with a missing or non-integer `linestring_id` (or a missing geometry or properties) makes the whole walk fail |
| FeatureTree.WalkSeqAppend | geojson-to-postgis.py:93-94 | walking the children `xs + ys` is walking `xs` and then, unless that raised, `ys`, with the records appended |
| FeatureTree.WalkSeqConcatenates | geojson-to-postgis.py:93-94 | the loop over children raises nothing exactly when every child succeeds; it then emits the concatenation, and otherwise raises the first failing child's error |
| FeatureTree.WalkSeqStep | geojson-to-postgis.py:93-94 | one turn of the loop: child i's records follow those of the first i children, and if child i raises, the whole loop ends with that exception |
| FeatureTree.ConcatSingletons | geojson-to-postgis.py:93-94 | children that each yield exactly one record yield those records, one per child, in order |
| EdgeImport.Connection.constructor | MaritimeDataConversions/geojson-to-postgis.py:121 | a connection starts with the given committed rows and no open transaction |
| EdgeImport.Connection.Commit | MaritimeDataConversions/geojson-to-postgis.py:95 | commit appends the open transaction's rows to the table and empties the transaction |
| EdgeImport.Connection.Rollback | MaritimeDataConversions/geojson-to-postgis.py:92 | rollback discards the open transaction and leaves the table as it was |
| EdgeImport.Cursor.constructor | MaritimeDataConversions/geojson-to-postgis.py:93 | a cursor executes in the transaction of its connection |
| EdgeImport.Cursor.Execute | MaritimeDataConversions/geojson-to-postgis.py:89 | an INSERT joins the open transaction at its end; the committed table is unchanged |
| EdgeImport.ImportFeature | MaritimeDataConversions/geojson-to-postgis.py:81-89 | the recursive walk executes, in order, exactly the inserts of the specification walk and raises its exception, if any; inserts executed before an exception stay in the open transaction |
| EdgeImport.ImportRoutingGeometry | MaritimeDataConversions/geojson-to-postgis.py:91-95 | all or nothing: after success the table has gained every record of the walk, in order; on failure the exception propagates, the table is unchanged and nothing from the import is committed |
| CsvToGeoJson.CollectFeatures | csv-to-geojson.py:7-21 | the row loop returns exactly the specification's features (one per row, in order) or the first failing row's error |
| CsvToGeoJson.ReadRows | csv-to-geojson.py:8-9 | a CSV file is read as the rows `csv.reader` yields for it |
| CsvToGeoJson.ParseFloat | csv-to-geojson.py:12-13 | `float(text)` succeeds exactly when the library parses the text, with that value; otherwise it raises a ValueError naming the text |
| CsvToGeoJson.ParseInt | csv-to-geojson.py:18 | `int(linestring_id)` succeeds exactly when the library parses the text, with that value; otherwise it raises a ValueError naming the text |
| CsvToGeoJson.FileSystem.constructor | csv-to-geojson.py:8 | the file system holds exactly the given files, one per path |
| CsvToGeoJson.ConvertCsvToGeojson | csv-to-geojson.py:6-25 | a missing source raises and changes nothing; otherwise the rows `csv.reader` yields for the source are converted; on success the destination path, and only it, now holds the FeatureCollection, whatever it held before (the source itself included); on any failure no file changes |
| CsvToGeoJson.RowToFeatureSpec | csv-to-geojson.py:11-21 | a row converts exactly when it has 11 fields, columns 1-4 parse as floats and column 0 as an int; its Feature is the LineString (col1, col2)-(col3, col4) with properties exactly `{linestring_id: int(col0)}`; a wrong field count raises |
| CsvToGeoJson.AttributesDiscarded | csv-to-geojson.py:11-19 | columns 5-10 do not affect the Feature |
| CsvToGeoJson.RowsToFeaturesOnePerRow | csv-to-geojson.py:11-21 | a successful loop gives one Feature per row, the i-th made from the i-th row |
| CsvToGeoJson.RowsToFeaturesFails | csv-to-geojson.py:11-18 | the loop succeeds exactly when every row converts; otherwise it raises the error of the first bad row |
| CsvToGeoJson.ParseRow | csv-to-geojson.py:11-18 | a row without 11 fields raises the unpacking ValueError with its field count; a parsed row has 11 fields, its id is `int(col0)` and its endpoints are `float(col1)`..`float(col4)` |
| CsvToGeoJson.EdgeFeature | csv-to-geojson.py:15-20 | the Feature of a row has keys type/geometry/properties, type "Feature", the LineString of its endpoints, and properties with exactly the key `linestring_id`, whose subscript gives the id |
| CsvToGeoJson.RowToFeature | csv-to-geojson.py:11-21 | a row with the wrong field count raises WrongFieldCount with that count |
| CsvToGeoJson.ConvertEach | csv-to-geojson.py:11-21 | a successful loop gives one Feature per row |
| CsvToGeoJson.ConvertEachAppend | csv-to-geojson.py:11-21 | converting `xs + ys` is converting `xs` and then, unless that failed, `ys`, with the features appended |
| CsvToGeoJson.ConvertEachSingle | csv-to-geojson.py:11-21 | the loop over a single row fails with the row's error or gives its one Feature |
| CsvToGeoJson.ConvertEachStep | csv-to-geojson.py:11-21 | one turn of the loop: row i's Feature is appended to those of the first i rows, and if row i fails, the whole loop fails with its error |
| CsvToGeoJson.ConvertEachAt | csv-to-geojson.py:14-21 | the i-th Feature of a successful loop is the one made from the i-th row |
| CsvToGeoJson.ConvertEachFailingRow | csv-to-geojson.py:11-21 | a failed loop has a row whose conversion fails |
| CsvToGeoJson.ConvertEachStopsAt | csv-to-geojson.py:11-21 | when every row before row j converts and row j fails, the loop fails with row j's error |
| CsvToGeoJson.RowsToFeatures | csv-to-geojson.py:11-21 | a successful conversion of the data rows gives one Feature per row |
| CsvToGeoJson.ConvertRows | csv-to-geojson.py:10-23 | no rows raises StopIteration (NoHeader); a result is a FeatureCollection with exactly the keys type and features and one feature per row after the header |
| CsvToGeoJson.ConvertRowsSpec | csv-to-geojson.py:10-23 | no rows raises NoHeader; otherwise the result is the FeatureCollection of one Feature per row after the header, in order, and it fails exactly when some data row fails |
| CsvToGeoJson.HeaderIgnored | csv-to-geojson.py:10 | the header row's content never matters |
| CsvToGeoJson.RowExample | csv-to-geojson.py:11-21 | `("7","10.0","20.0","15.0","25.0","a",…,"f")` becomes LineString [[10.0, 20.0], [15.0, 25.0]] with `{linestring_id: 7}` |
| GeoConversion.GeoConverter.constructor | geo_converter.py:8-10 | the converter keeps its source folder and file name |
| GeoConversion.GeoConverter.Stem | geo_converter.py:13-20 | the part every path shares: the folder, one backslash, then the file name |
| GeoConversion.GeoConverter.XlsxSource | geo_converter.py:13 | the xlsx source lies in the source folder (folder and a backslash) and ends in `.xlsx` |
| GeoConversion.GeoConverter.CsvDestination | geo_converter.py:14 | the CSV the xlsx step writes lies in the source folder and ends in `.csv` |
| GeoConversion.GeoConverter.GeojsonDestination | geo_converter.py:19 | the GeoJSON destination lies in the source folder and ends in `.geojson` |
| GeoConversion.GeoConverter.CsvSource | geo_converter.py:20 | the CSV source lies in the source folder and ends in `.csv` |
| GeoConversion.GeoConverter.CsvHandOff | geo_converter.py:13-20 | the CSV that `convert_xlsx_to_csv` writes is the CSV that `convert_csv_to_geojson` reads |
| GeoConversion.GeoConverter.PathsShareStem | geo_converter.py:19-20 | the CSV source and GeoJSON destination are `folder\name` plus `.csv` and `.geojson`: same folder and stem, different extension, never the same path |
| GeoConversion.GeoConverter.ConvertCsvToGeojson | geo_converter.py:18-39 | reads the CSV source; on success the GeoJSON destination, and no other path, now holds the FeatureCollection; a missing source, a bad field count or a parse failure changes no file |
| RoundTrip.RowRecord | csv-to-geojson.py:11-18 | the record of a parsed row has id `int(col0)` and geometry text `dumps` of the LineString from `float(col1)`..`float(col4)` |
| RoundTrip.EdgeFeatureFlattens | geojson-to-postgis.py:95-99 | the Feature made from a row yields exactly the record `(int(col0), dumps(LineString))` |
| RoundTrip.DataRowsFlatten | csv-to-geojson.py:11-21 | the converted features of the data rows all flatten, to one record per row in row order |
| RoundTrip.CsvToEdgeRecords | csv-to-geojson.py:11-23 | flattening the converter's FeatureCollection succeeds and yields, for each data row in order, `(int(col0), dumps(LineString(col1..col4)))` |

## Left out

- Database and SQL plumbing is not modelled: table-exists checks, drop and create, the two cost updates, topology building, connected components, Dijkstra routing and the connection set-up. The external engine computes all of it. The two cost formulas disagree (geodesic length in one file, planar length × 2 in the other), but both are SQL text.
- What the engine does with each inserted row is not modelled: `ST_GeomFromGeoJSON`, SRID 4326, a rejected geometry, and an id outside the 32-bit `integer` column, which makes the INSERT raise so that `with con:` rolls back; `Insert.id` is an unbounded integer and such an import succeeds in the model. An INSERT is recorded as its `(id, geometry text)` pair.
- `run_flow`'s print-and-close error handling is not modelled: it is I/O orchestration.
- `find_nearest_coordinate` is not modelled. It needs a database query and a timezone library. It also unpacks a two-element slice into four names, so it always raises before building its result.
- `xlsx_to_csv.py` and `GeoConverter.convert_xlsx_to_csv` wrap pandas. Only the paths they use are modelled.
- Loading `config.ini` is not modelled.
- Some library and numeric internals are opaque parameters: `json.dumps`, `int()` and `float()` on strings, and the geojson library's coordinate rounding. Float rounding in `%`, NaN and infinities are not represented: coordinates are reals.
- Dict key order is not modelled. A `JDict` is an unordered map, so the geometry text of an INSERT is taken as a function of the unordered value: two geometries that differ only in key order give the same text in the model, while `json.dumps` writes the keys in the order `json.load` read them.
- The file text is not modelled. A file holds either what `csv.reader` yields for it or the GeoJSON value written to it. `str(collection)` followed by `json.load` is taken to give back the same value, and the rows `csv.reader` would split a written GeoJSON file into are an opaque library function.
- Opening or writing a file can fail in other ways (permissions, a full disk). Only a missing source is modelled.
- EdgeImport.ImportFeature: when `features` is a non-empty str or dict, the walk raises NotADict directly. It does not recurse into the first item, so the call stack differs from Python's, but the result is the same.
- FeatureTree.FlattenFollowsFeatures: it describes successful walks only. The failing case is covered by BadFeatureAborts and the per-node lemmas.
