/**
 * The Python importer as it runs: a recursive walk that executes one
 * INSERT per Feature on a cursor, inside a `with con:` block that commits the
 * transaction when the walk returns and rolls it back when it raises.
 * The database is reduced to the edge rows it holds; what the SQL engine does
 * with each row (ST_GeomFromGeoJSON, SRID 4326) is not modelled.
 */
module EdgeImport {
  import opened Wrappers
  import opened PyJson
  import opened FeatureTree

  /** A database connection: the committed edge rows and the open transaction's rows. */
  class Connection {
    var table: seq<Insert>
    var pending: seq<Insert>

    constructor (rows: seq<Insert>)
      ensures table == rows && pending == []
    {
      table := rows;
      pending := [];
    }

    /** `con.commit()`. */
    method Commit()
      modifies this
      ensures table == old(table) + old(pending) && pending == []
    {
      table := table + pending;
      pending := [];
    }

    /** The rollback `with con:` performs when its body raises. */
    method Rollback()
      modifies this
      ensures table == old(table) && pending == []
    {
      pending := [];
    }
  }

  /** `con.cursor()`: statements it executes join the connection's transaction. */
  class Cursor {
    const con: Connection

    constructor (con: Connection)
      ensures this.con == con
    {
      this.con := con;
    }

    /** `cursor.execute(ROUTING_INSERT_STATEMENT, (linestring_id, geojson))`. */
    method Execute(ins: Insert)
      modifies con
      ensures con.pending == old(con.pending) + [ins] && con.table == old(con.table)
    {
      con.pending := con.pending + [ins];
    }
  }

  /**
   * `_import_routing_feature_from_json(cursor, feature_data)`: executes, in
   * order, exactly the inserts of the specification walk and raises its
   * exception, if any; inserts executed before the exception stay pending.
   */
  method ImportFeature(lib: Builtins, cursor: Cursor, node: Json) returns (raised: Option<PyError>)
    modifies cursor.con
    ensures cursor.con.pending == old(cursor.con.pending) + Walk(lib, node).emitted
    ensures cursor.con.table == old(cursor.con.table)
    ensures raised == Walk(lib, node).raised
    decreases node
  {
    if !node.JDict? {
      return Some(NotADict);
    }
    var fields := node.fields;
    var ty := DictGet(fields, "type");
    if ty == Some(JStr("FeatureCollection")) {
      if "features" !in fields {
        return Some(MissingKey("features"));
      }
      var features := fields["features"];
      assert Walk(lib, node) == WalkIterable(lib, features);
      match features {
        case JList(items) =>
          var i := 0;
          while i < |items|
            invariant 0 <= i <= |items|
            invariant WalkSeq(lib, items[..i]).raised.None?
            invariant cursor.con.pending == old(cursor.con.pending) + WalkSeq(lib, items[..i]).emitted
            invariant cursor.con.table == old(cursor.con.table)
          {
            WalkSeqStep(lib, items, i);
            raised := ImportFeature(lib, cursor, items[i]);
            if raised.Some? {
              return;
            }
            i := i + 1;
          }
          assert items[..i] == items;
          raised := None;
        case JStr(s) =>
          // iterating a str yields str items, and `.get` fails on the first one
          raised := if s == "" then None else Some(NotADict);
        case JDict(m) =>
          // iterating a dict yields its keys, which are str
          raised := if m == map[] then None else Some(NotADict);
        case _ =>
          raised := Some(NotIterable);
      }
    } else if ty == Some(JStr("Feature")) {
      assert Walk(lib, node) == match FeatureInsert(lib, fields) case Ok(ins) => Trace([ins], None) case Err(e) => Raise(e);
      if "geometry" !in fields {
        return Some(MissingKey("geometry"));
      }
      var geojson := lib.dumps(fields["geometry"]);
      if "properties" !in fields {
        return Some(MissingKey("properties"));
      }
      var idValue := Subscript(fields["properties"], "linestring_id");
      if idValue.Err? {
        return Some(idValue.error);
      }
      var id := PyInt(lib, idValue.value);
      if id.None? {
        return Some(NotAnInteger);
      }
      assert FeatureInsert(lib, fields) == Ok(Insert(id.value, geojson));
      cursor.Execute(Insert(id.value, geojson));
      raised := None;
    } else {
      raised := None;
    }
  }

  /**
   * `import_routing_geometry_into_edges_table(con, feature_data)`: all or
   * nothing. On success the table gains every record of the walk, in order
   * (after whatever the transaction already held); when the walk raises, the
   * exception propagates and the table is left as it was.
   */
  method ImportRoutingGeometry(lib: Builtins, con: Connection, data: Json) returns (r: Result<(), PyError>)
    modifies con
    ensures con.pending == []
    ensures Flatten(lib, data).Ok? ==> r.Ok? && con.table == old(con.table) + old(con.pending) + Flatten(lib, data).value
    ensures Flatten(lib, data).Err? ==> r == Err(Flatten(lib, data).error) && con.table == old(con.table)
  {
    var cursor := new Cursor(con);
    var raised := ImportFeature(lib, cursor, data);
    if raised.Some? {
      con.Rollback();
      return Err(raised.value);
    }
    con.Commit();
    r := Ok(());
  }
}
