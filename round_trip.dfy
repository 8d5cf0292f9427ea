/**
 * End to end: rows converted to a FeatureCollection, and that collection
 * walked by the importer, give one edge record per data row, in row order.
 * The GeoJSON text written by the converter is assumed to load back as the
 * same JSON value.
 */
module RoundTrip {
  import opened Wrappers
  import opened PyJson
  import opened GeoJson
  import opened FeatureTree
  import opened CsvToGeoJson

  /** The record the importer makes from a row's Feature. */
  function RowRecord(lib: Builtins, row: seq<string>): (r: Insert)
    requires ParseRow(lib, row).Ok?
    ensures lib.parseInt(row[0]) == Some(r.id)
    ensures r.geometry == lib.dumps(LineStringJson(lib,
      (lib.parseFloat(row[1]).value, lib.parseFloat(row[2]).value),
      (lib.parseFloat(row[3]).value, lib.parseFloat(row[4]).value)))
  {
    var e := ParseRow(lib, row).value;
    Insert(e.id, lib.dumps(LineStringJson(lib, e.start, e.end)))
  }

  /** A converted row's Feature yields exactly its own record. */
  lemma EdgeFeatureFlattens(lib: Builtins, row: seq<string>)
    requires RowToFeature(lib, row).Ok?
    ensures Flatten(lib, RowToFeature(lib, row).value) == Ok([RowRecord(lib, row)])
  {
    var e := ParseRow(lib, row).value;
    var props := map["linestring_id" := JInt(e.id)];
    var fields := map["type" := JStr("Feature"), "geometry" := LineStringJson(lib, e.start, e.end), "properties" := JDict(props)];
    assert RowToFeature(lib, row).value == JDict(fields);
    assert IsFeature(fields);
    assert Subscript(JDict(props), "linestring_id") == Ok(JInt(e.id));
    assert FeatureInsert(lib, fields) == Ok(RowRecord(lib, row));
  }

  lemma DataRowsFlatten(lib: Builtins, data: seq<seq<string>>)
    requires RowsToFeatures(lib, data).Ok?
    ensures forall i :: 0 <= i < |RowsToFeatures(lib, data).value| ==> Flatten(lib, RowsToFeatures(lib, data).value[i]).Ok?
    ensures |ConcatFlattened(lib, RowsToFeatures(lib, data).value)| == |data|
    ensures forall i :: 0 <= i < |data| ==>
      ParseRow(lib, data[i]).Ok? && ConcatFlattened(lib, RowsToFeatures(lib, data).value)[i] == RowRecord(lib, data[i])
  {
    var fs := RowsToFeatures(lib, data).value;
    RowsToFeaturesOnePerRow(lib, data);
    forall i | 0 <= i < |data| ensures ParseRow(lib, data[i]).Ok? && Flatten(lib, fs[i]) == Ok([RowRecord(lib, data[i])]) {
      EdgeFeatureFlattens(lib, data[i]);
    }
    ConcatSingletons(lib, fs);
  }

  /**
   * Flattening what the converter produced yields, for every data row in
   * order, the record `(int(col0), dumps(LineString(col1..col4)))`.
   */
  lemma CsvToEdgeRecords(lib: Builtins, rows: seq<seq<string>>)
    requires ConvertRows(lib, rows).Ok?
    ensures Flatten(lib, ConvertRows(lib, rows).value).Ok?
    ensures |Flatten(lib, ConvertRows(lib, rows).value).value| == |rows| - 1
    ensures forall i :: 1 <= i < |rows| ==>
      ParseRow(lib, rows[i]).Ok? && Flatten(lib, ConvertRows(lib, rows).value).value[i - 1] == RowRecord(lib, rows[i])
  {
    var data := rows[1..];
    var features := RowsToFeatures(lib, data).value;
    var fields := map["type" := JStr("FeatureCollection"), "features" := JList(features)];
    assert ConvertRows(lib, rows).value == JDict(fields);
    DataRowsFlatten(lib, data);
    CollectionConcatenates(lib, fields, features);
    forall i | 1 <= i < |rows|
      ensures ParseRow(lib, rows[i]).Ok? && Flatten(lib, ConvertRows(lib, rows).value).value[i - 1] == RowRecord(lib, rows[i])
    {
      assert rows[i] == data[i - 1];
    }
  }
}
