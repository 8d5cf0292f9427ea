/**
 * `convert_csv_to_geojson`: rows from `csv.reader`, header skipped, each
 * remaining row of exactly 11 fields turned into a two-point LineString
 * Feature, and the FeatureCollection written only once every row succeeded.
 */
module CsvToGeoJson {
  import opened Wrappers
  import opened PyJson
  import opened GeoJson

  /** The exceptions a conversion can raise. */
  datatype ConversionError =
    | SourceMissing(path: string)   // FileNotFoundError from `open(csv_source)`
    | NoHeader                      // StopIteration from `next(reader)` on an empty file
    | WrongFieldCount(count: nat)   // ValueError from unpacking a row into 11 names
    | NotAFloat(text: string)       // ValueError from `float(...)`
    | NotAnInt(text: string)        // ValueError from `int(linestring_id)`

  const FieldsPerRow: nat := 11

  /** The values a data row contributes: its id and the two endpoints, before the library stores them. */
  datatype EdgeRow = EdgeRow(id: int, start: Position, end: Position)

  /** `float(text)`: a ValueError names the text it could not parse. */
  function ParseFloat(lib: Builtins, text: string): (r: Result<real, ConversionError>)
    ensures r.Ok? <==> lib.parseFloat(text).Some?
    ensures r.Ok? ==> r.value == lib.parseFloat(text).value
    ensures r.Err? ==> r.error == NotAFloat(text)
  {
    match lib.parseFloat(text)
    case Some(x) => Ok(x)
    case None => Err(NotAFloat(text))
  }

  /** `int(text)`: a ValueError names the text it could not parse. */
  function ParseInt(lib: Builtins, text: string): (r: Result<int, ConversionError>)
    ensures r.Ok? <==> lib.parseInt(text).Some?
    ensures r.Ok? ==> r.value == lib.parseInt(text).value
    ensures r.Err? ==> r.error == NotAnInt(text)
  {
    match lib.parseInt(text)
    case Some(n) => Ok(n)
    case None => Err(NotAnInt(text))
  }

  /**
   * Unpacking one row, in the order the converter converts its fields:
   * `long1`, `lat1`, `long2`, `lat2`, then `int(linestring_id)`.
   */
  function ParseRow(lib: Builtins, row: seq<string>): (r: Result<EdgeRow, ConversionError>)
    ensures |row| != FieldsPerRow ==> r == Err(WrongFieldCount(|row|))
    ensures r.Ok? ==> |row| == FieldsPerRow && lib.parseInt(row[0]) == Some(r.value.id)
    ensures r.Ok? ==> lib.parseFloat(row[1]) == Some(r.value.start.0) && lib.parseFloat(row[2]) == Some(r.value.start.1)
    ensures r.Ok? ==> lib.parseFloat(row[3]) == Some(r.value.end.0) && lib.parseFloat(row[4]) == Some(r.value.end.1)
  {
    if |row| != FieldsPerRow then Err(WrongFieldCount(|row|))
    else
      var long1 :- ParseFloat(lib, row[1]);
      var lat1 :- ParseFloat(lib, row[2]);
      var long2 :- ParseFloat(lib, row[3]);
      var lat2 :- ParseFloat(lib, row[4]);
      var id :- ParseInt(lib, row[0]);
      Ok(EdgeRow(id, (long1, lat1), (long2, lat2)))
  }

  /** `Feature(geometry=LineString([...]), properties={'linestring_id': id})`. */
  function EdgeFeature(lib: Builtins, e: EdgeRow): (r: Json)
    ensures r.JDict? && r.fields.Keys == {"type", "geometry", "properties"} && r.fields["type"] == JStr("Feature")
    ensures r.fields["geometry"] == LineStringJson(lib, e.start, e.end)
    ensures Subscript(r.fields["properties"], "linestring_id") == Ok(JInt(e.id))
    ensures r.fields["properties"].JDict? && r.fields["properties"].fields.Keys == {"linestring_id"}
  {
    FeatureJson(LineStringJson(lib, e.start, e.end), JDict(map["linestring_id" := JInt(e.id)]))
  }

  function RowToFeature(lib: Builtins, row: seq<string>): (r: Result<Json, ConversionError>)
    ensures |row| != FieldsPerRow ==> r == Err(WrongFieldCount(|row|))
  {
    var e :- ParseRow(lib, row);
    Ok(EdgeFeature(lib, e))
  }

  /** The conversion of one row: its Feature, or the error it raises. */
  type RowConversion = seq<string> -> Result<Json, ConversionError>

  /**
   * The loop over the data rows for any conversion of one row: each row
   * converted in turn, the Features appended, the first failure raised.
   */
  function ConvertEach(convert: RowConversion, rows: seq<seq<string>>): (r: Result<seq<Json>, ConversionError>)
    ensures r.Ok? ==> |r.value| == |rows|
  {
    if rows == [] then Ok([])
    else
      var f :- convert(rows[0]);
      var fs :- ConvertEach(convert, rows[1..]);
      Ok([f] + fs)
  }

  /** Converting `xs + ys` is converting `xs`, then, if that succeeded, `ys`. */
  lemma {:induction false} ConvertEachAppend(convert: RowConversion, xs: seq<seq<string>>, ys: seq<seq<string>>)
    ensures ConvertEach(convert, xs + ys) ==
      if ConvertEach(convert, xs).Err? then ConvertEach(convert, xs)
      else if ConvertEach(convert, ys).Err? then ConvertEach(convert, ys)
      else Ok(ConvertEach(convert, xs).value + ConvertEach(convert, ys).value)
  {
    if xs == [] {
      assert xs + ys == ys;
      if ConvertEach(convert, ys).Ok? {
        assert [] + ConvertEach(convert, ys).value == ConvertEach(convert, ys).value;
      }
    } else {
      assert (xs + ys)[0] == xs[0];
      assert (xs + ys)[1..] == xs[1..] + ys;
      ConvertEachAppend(convert, xs[1..], ys);
      if convert(xs[0]).Ok? && ConvertEach(convert, xs[1..]).Ok? && ConvertEach(convert, ys).Ok? {
        assert [convert(xs[0]).value] + (ConvertEach(convert, xs[1..]).value + ConvertEach(convert, ys).value)
            == ([convert(xs[0]).value] + ConvertEach(convert, xs[1..]).value) + ConvertEach(convert, ys).value;
      }
    }
  }

  /**
   * One turn of the loop: row `i` extends the Features of the first `i`
   * rows, and if it fails, the whole loop fails with its error.
   */
  lemma ConvertEachStep(convert: RowConversion, rows: seq<seq<string>>, i: int)
    requires 0 <= i < |rows| && ConvertEach(convert, rows[..i]).Ok?
    ensures convert(rows[i]).Ok? ==>
      ConvertEach(convert, rows[..i + 1]) == Ok(ConvertEach(convert, rows[..i]).value + [convert(rows[i]).value])
    ensures convert(rows[i]).Err? ==> ConvertEach(convert, rows) == Err(convert(rows[i]).error)
  {
    var row := rows[i];
    ConvertEachSingle(convert, row);
    assert rows[..i + 1] == rows[..i] + [row];
    ConvertEachAppend(convert, rows[..i], [row]);
    if convert(row).Err? {
      var prefix := rows[..i + 1];
      assert prefix + rows[i + 1..] == rows;
      ConvertEachAppend(convert, prefix, rows[i + 1..]);
    }
  }

  /** The loop over a single row. */
  lemma ConvertEachSingle(convert: RowConversion, row: seq<string>)
    ensures convert(row).Err? ==> ConvertEach(convert, [row]) == Err(convert(row).error)
    ensures convert(row).Ok? ==> ConvertEach(convert, [row]) == Ok([convert(row).value])
  {
    assert [row][0] == row;
    assert [row][1..] == [];
    if convert(row).Ok? {
      assert [convert(row).value] + [] == [convert(row).value];
    }
  }

  /** The `i`-th Feature of a successful loop is the one made from the `i`-th row. */
  lemma {:induction false} ConvertEachAt(convert: RowConversion, rows: seq<seq<string>>, i: int)
    requires ConvertEach(convert, rows).Ok? && 0 <= i < |rows|
    ensures convert(rows[i]) == Ok(ConvertEach(convert, rows).value[i])
  {
    if i > 0 {
      var tail := rows[1..];
      assert tail[i - 1] == rows[i];
      ConvertEachAt(convert, tail, i - 1);
      assert ConvertEach(convert, rows).value == [convert(rows[0]).value] + ConvertEach(convert, tail).value;
    }
  }

  /** A failed loop has a failing row. */
  lemma {:induction false} ConvertEachFailingRow(convert: RowConversion, rows: seq<seq<string>>) returns (j: int)
    requires ConvertEach(convert, rows).Err?
    ensures 0 <= j < |rows| && convert(rows[j]).Err?
  {
    if convert(rows[0]).Err? {
      j := 0;
    } else {
      var tail := rows[1..];
      var k := ConvertEachFailingRow(convert, tail);
      assert tail[k] == rows[k + 1];
      j := k + 1;
    }
  }

  /** If the rows before `j` convert and row `j` fails, the loop fails with row `j`'s error. */
  lemma {:induction false} ConvertEachStopsAt(convert: RowConversion, rows: seq<seq<string>>, j: int)
    requires 0 <= j < |rows| && convert(rows[j]).Err?
    requires forall i :: 0 <= i < j ==> convert(rows[i]).Ok?
    ensures ConvertEach(convert, rows) == Err(convert(rows[j]).error)
  {
    if j > 0 {
      var tail := rows[1..];
      assert tail[j - 1] == rows[j];
      assert convert(rows[0]).Ok?;
      forall i | 0 <= i < j - 1 ensures convert(tail[i]).Ok? {
        assert tail[i] == rows[i + 1];
      }
      ConvertEachStopsAt(convert, tail, j - 1);
    }
  }

  /** The conversion `RowToFeature` performs on each data row. */
  function FeatureOfRow(lib: Builtins): RowConversion {
    row => RowToFeature(lib, row)
  }

  /** The features of the data rows, in order, or the first row's error. */
  function RowsToFeatures(lib: Builtins, rows: seq<seq<string>>): (r: Result<seq<Json>, ConversionError>)
    ensures r.Ok? ==> |r.value| == |rows|
  {
    ConvertEach(FeatureOfRow(lib), rows)
  }

  /** The whole conversion of a file's rows, header included. */
  function ConvertRows(lib: Builtins, rows: seq<seq<string>>): (r: Result<Json, ConversionError>)
    ensures rows == [] ==> r == Err(NoHeader)
    ensures r.Ok? ==> r.value.JDict? && r.value.fields.Keys == {"type", "features"}
    ensures r.Ok? ==> r.value.fields["type"] == JStr("FeatureCollection") && r.value.fields["features"].JList? && |r.value.fields["features"].items| == |rows| - 1
  {
    if rows == [] then Err(NoHeader)
    else
      var features :- RowsToFeatures(lib, rows[1..]);
      Ok(FeatureCollectionJson(features))
  }

  /** The row loop: appends one Feature per row and stops at the first failing row. */
  method CollectFeatures(lib: Builtins, rows: seq<seq<string>>) returns (r: Result<seq<Json>, ConversionError>)
    ensures r == RowsToFeatures(lib, rows)
  {
    var features: seq<Json> := [];
    var i := 0;
    while i < |rows|
      invariant 0 <= i <= |rows|
      invariant RowsToFeatures(lib, rows[..i]) == Ok(features)
    {
      ConvertEachStep(FeatureOfRow(lib), rows, i);
      var feature := RowToFeature(lib, rows[i]);
      assert FeatureOfRow(lib)(rows[i]) == feature;
      if feature.Err? {
        return Err(feature.error);
      }
      features := features + [feature.value];
      i := i + 1;
    }
    assert rows[..i] == rows;
    r := Ok(features);
  }

  /**
   * A file on disk: either one the converter can read as CSV, given by the
   * rows `csv.reader` yields for it, or one it wrote, given by the GeoJSON
   * document whose text it holds.
   */
  datatype File = CsvText(rows: seq<seq<string>>) | GeoJsonText(doc: Json)

  /** The rows `csv.reader` yields when it reads the file. */
  function ReadRows(lib: Builtins, f: File): (r: seq<seq<string>>)
    ensures f.CsvText? ==> r == f.rows
  {
    match f
    case CsvText(rows) => rows
    case GeoJsonText(doc) => lib.csvRowsOfDocument(doc)
  }

  /** The files the converter reads and writes, one content per path. */
  class FileSystem {
    var files: map<string, File>

    constructor (files: map<string, File>)
      ensures this.files == files
    {
      this.files := files;
    }
  }

  /**
   * `convert_csv_to_geojson(csv_source, geojson_dest)`: on success the
   * destination (and nothing else) now holds the FeatureCollection of the
   * rows, replacing whatever it held, even when it is the source itself;
   * on any failure no file has changed.
   */
  method ConvertCsvToGeojson(lib: Builtins, fs: FileSystem, csvSource: string, geojsonDest: string)
    returns (r: Result<(), ConversionError>)
    modifies fs
    ensures csvSource !in old(fs.files) ==> r == Err(SourceMissing(csvSource)) && fs.files == old(fs.files)
    ensures csvSource in old(fs.files) ==>
      match ConvertRows(lib, ReadRows(lib, old(fs.files)[csvSource]))
      case Ok(collection) => r.Ok? && fs.files == old(fs.files)[geojsonDest := GeoJsonText(collection)]
      case Err(e) => r == Err(e) && fs.files == old(fs.files)
  {
    if csvSource !in fs.files {
      return Err(SourceMissing(csvSource));
    }
    var rows := ReadRows(lib, fs.files[csvSource]);
    if |rows| == 0 {
      return Err(NoHeader);
    }
    var features := CollectFeatures(lib, rows[1..]);
    if features.Err? {
      return Err(features.error);
    }
    var collection := FeatureCollectionJson(features.value);
    fs.files := fs.files[geojsonDest := GeoJsonText(collection)];
    r := Ok(());
  }

  /**
   * A row converts exactly when it has 11 fields, columns 1-4 parse as
   * floats and column 0 as an int; its Feature is the LineString from
   * (col1, col2) to (col3, col4) with properties exactly {linestring_id: int(col0)}.
   */
  lemma RowToFeatureSpec(lib: Builtins, row: seq<string>)
    ensures RowToFeature(lib, row).Ok? <==>
      && |row| == 11
      && lib.parseFloat(row[1]).Some? && lib.parseFloat(row[2]).Some?
      && lib.parseFloat(row[3]).Some? && lib.parseFloat(row[4]).Some?
      && lib.parseInt(row[0]).Some?
    ensures RowToFeature(lib, row).Ok? ==>
      RowToFeature(lib, row).value == FeatureJson(
        LineStringJson(lib, (lib.parseFloat(row[1]).value, lib.parseFloat(row[2]).value),
                            (lib.parseFloat(row[3]).value, lib.parseFloat(row[4]).value)),
        JDict(map["linestring_id" := JInt(lib.parseInt(row[0]).value)]))
    ensures |row| != 11 ==> RowToFeature(lib, row) == Err(WrongFieldCount(|row|))
  {
  }

  /** Columns 5-10 are read and discarded. */
  lemma AttributesDiscarded(lib: Builtins, row: seq<string>, row': seq<string>)
    requires |row| == |row'| == 11 && row[..5] == row'[..5]
    ensures RowToFeature(lib, row) == RowToFeature(lib, row')
  {
    assert forall k :: 0 <= k < 5 ==> row[k] == row[..5][k] == row'[..5][k] == row'[k];
  }

  /**
   * A successful conversion is a FeatureCollection with one Feature per row
   * after the header, in row order.
   */
  lemma RowsToFeaturesOnePerRow(lib: Builtins, rows: seq<seq<string>>)
    requires RowsToFeatures(lib, rows).Ok?
    ensures |RowsToFeatures(lib, rows).value| == |rows|
    ensures forall i :: 0 <= i < |rows| ==> RowToFeature(lib, rows[i]) == Ok(RowsToFeatures(lib, rows).value[i])
  {
    forall i | 0 <= i < |rows| ensures RowToFeature(lib, rows[i]) == Ok(RowsToFeatures(lib, rows).value[i]) {
      ConvertEachAt(FeatureOfRow(lib), rows, i);
    }
  }

  /** The rows convert exactly when each of them does; otherwise the first failing row's error is raised. */
  lemma RowsToFeaturesFails(lib: Builtins, rows: seq<seq<string>>)
    ensures RowsToFeatures(lib, rows).Ok? <==> forall i :: 0 <= i < |rows| ==> RowToFeature(lib, rows[i]).Ok?
    ensures forall j :: 0 <= j < |rows| && RowToFeature(lib, rows[j]).Err? && (forall i :: 0 <= i < j ==> RowToFeature(lib, rows[i]).Ok?)
              ==> RowsToFeatures(lib, rows) == Err(RowToFeature(lib, rows[j]).error)
  {
    var convert := FeatureOfRow(lib);
    if RowsToFeatures(lib, rows).Ok? {
      forall i | 0 <= i < |rows| ensures RowToFeature(lib, rows[i]).Ok? {
        ConvertEachAt(convert, rows, i);
      }
    } else {
      var j := ConvertEachFailingRow(convert, rows);
      assert convert(rows[j]) == RowToFeature(lib, rows[j]);
    }
    forall j | 0 <= j < |rows| && RowToFeature(lib, rows[j]).Err? && (forall i :: 0 <= i < j ==> RowToFeature(lib, rows[i]).Ok?)
      ensures RowsToFeatures(lib, rows) == Err(RowToFeature(lib, rows[j]).error)
    {
      forall i | 0 <= i < j ensures convert(rows[i]).Ok? {
        assert convert(rows[i]) == RowToFeature(lib, rows[i]);
      }
      ConvertEachStopsAt(convert, rows, j);
    }
  }

  /**
   * The first row is a header: it never becomes a feature and its content
   * does not matter; input with no rows fails; every later row yields one
   * Feature, in order, and any bad row aborts the whole conversion.
   */
  lemma ConvertRowsSpec(lib: Builtins, rows: seq<seq<string>>)
    ensures rows == [] ==> ConvertRows(lib, rows) == Err(NoHeader)
    ensures ConvertRows(lib, rows).Ok? <==> rows != [] && forall i :: 1 <= i < |rows| ==> RowToFeature(lib, rows[i]).Ok?
    ensures ConvertRows(lib, rows).Ok? ==>
      exists features: seq<Json> ::
        && ConvertRows(lib, rows).value == FeatureCollectionJson(features)
        && |features| == |rows| - 1
        && forall i :: 1 <= i < |rows| ==> RowToFeature(lib, rows[i]) == Ok(features[i - 1])
  {
    if rows != [] {
      var data := rows[1..];
      RowsToFeaturesFails(lib, data);
      assert ConvertRows(lib, rows).Ok? <==> RowsToFeatures(lib, data).Ok?;
      if forall i :: 1 <= i < |rows| ==> RowToFeature(lib, rows[i]).Ok? {
        forall j | 0 <= j < |data| ensures RowToFeature(lib, data[j]).Ok? {
          assert data[j] == rows[j + 1];
        }
      }
      if RowsToFeatures(lib, data).Ok? {
        RowsToFeaturesOnePerRow(lib, data);
        var features := RowsToFeatures(lib, data).value;
        forall i | 1 <= i < |rows| ensures RowToFeature(lib, rows[i]) == Ok(features[i - 1]) {
          assert rows[i] == data[i - 1];
        }
        assert ConvertRows(lib, rows).value == FeatureCollectionJson(features);
      }
    }
  }

  /** The header's content never matters. */
  lemma HeaderIgnored(lib: Builtins, h: seq<string>, h': seq<string>, data: seq<seq<string>>)
    ensures ConvertRows(lib, [h] + data) == ConvertRows(lib, [h'] + data)
  {
    assert ([h] + data)[1..] == data == ([h'] + data)[1..];
  }

  /**
   * The row ("7", "10.0", "20.0", "15.0", "25.0", "a", ..., "f") becomes the
   * LineString [[10.0, 20.0], [15.0, 25.0]] with properties {linestring_id: 7}.
   */
  lemma RowExample(lib: Builtins)
    requires lib.parseInt("7") == Some(7)
    requires lib.parseFloat("10.0") == Some(10.0) && lib.parseFloat("20.0") == Some(20.0)
    requires lib.parseFloat("15.0") == Some(15.0) && lib.parseFloat("25.0") == Some(25.0)
    ensures RowToFeature(lib, ["7", "10.0", "20.0", "15.0", "25.0", "a", "b", "c", "d", "e", "f"])
         == Ok(FeatureJson(LineStringJson(lib, (10.0, 20.0), (15.0, 25.0)), JDict(map["linestring_id" := JInt(7)])))
  {
    var row := ["7", "10.0", "20.0", "15.0", "25.0", "a", "b", "c", "d", "e", "f"];
    assert row[0] == "7" && row[1] == "10.0" && row[2] == "20.0" && row[3] == "15.0" && row[4] == "25.0";
    assert ParseRow(lib, row) == Ok(EdgeRow(7, (10.0, 20.0), (15.0, 25.0)));
  }
}
