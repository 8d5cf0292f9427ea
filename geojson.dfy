/**
 * The dicts the `geojson` library builds, with their `type` tags as the
 * library sets them (its `Feature` gets no `id` key unless one is given).
 */
module GeoJson {
  import opened PyJson

  type Position = (real, real)

  /** A position is stored as a two-element list `[lon, lat]`. */
  function PositionJson(p: Position): (r: Json)
    ensures r.JList? && |r.items| == 2 && r.items[0] == JFloat(p.0) && r.items[1] == JFloat(p.1)
  {
    JList([JFloat(p.0), JFloat(p.1)])
  }

  /** `LineString([p, q])`; the library rounds each coordinate it stores. */
  function LineStringJson(lib: Builtins, p: Position, q: Position): (r: Json)
    ensures r.JDict? && r.fields.Keys == {"type", "coordinates"} && r.fields["type"] == JStr("LineString")
    ensures r.fields["coordinates"].JList? && |r.fields["coordinates"].items| == 2
    ensures r.fields["coordinates"].items[0] == JList([JFloat(lib.roundCoordinate(p.0)), JFloat(lib.roundCoordinate(p.1))])
    ensures r.fields["coordinates"].items[1] == JList([JFloat(lib.roundCoordinate(q.0)), JFloat(lib.roundCoordinate(q.1))])
  {
    var p' := (lib.roundCoordinate(p.0), lib.roundCoordinate(p.1));
    var q' := (lib.roundCoordinate(q.0), lib.roundCoordinate(q.1));
    JDict(map["type" := JStr("LineString"), "coordinates" := JList([PositionJson(p'), PositionJson(q')])])
  }

  /** `Feature(geometry=g, properties=props)`. */
  function FeatureJson(geometry: Json, properties: Json): (r: Json)
    ensures r.JDict? && r.fields.Keys == {"type", "geometry", "properties"} && r.fields["type"] == JStr("Feature")
    ensures r.fields["geometry"] == geometry && r.fields["properties"] == properties
  {
    JDict(map["type" := JStr("Feature"), "geometry" := geometry, "properties" := properties])
  }

  /** `FeatureCollection(features)`. */
  function FeatureCollectionJson(features: seq<Json>): (r: Json)
    ensures r.JDict? && r.fields.Keys == {"type", "features"} && r.fields["type"] == JStr("FeatureCollection")
    ensures r.fields["features"] == JList(features)
  {
    JDict(map["type" := JStr("FeatureCollection"), "features" := JList(features)])
  }
}
