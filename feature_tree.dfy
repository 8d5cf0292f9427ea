/**
 * `_import_routing_feature_from_json` as a specification: the inserts the
 * recursive walk executes, in order, and the exception it ends with.
 * Both copies of the importer (RoutingBuilder and RoutingManager) share it.
 */
module FeatureTree {
  import opened Wrappers
  import opened PyJson

  /** One `cursor.execute(INSERT ..., (linestring_id, geojson))`. */
  datatype Insert = Insert(id: int, geometry: string)

  /** What a walk does: the inserts it executed, in order, and the exception, if any, it ended with. */
  datatype Trace = Trace(emitted: seq<Insert>, raised: Option<PyError>)

  const Done := Trace([], None)

  function Raise(e: PyError): Trace {
    Trace([], Some(e))
  }

  /** `feature_data.get('type') == 'FeatureCollection'`. */
  predicate IsCollection(fields: map<string, Json>)
    ensures IsCollection(fields) <==> "type" in fields && fields["type"] == JStr("FeatureCollection")
    ensures IsCollection(fields) ==> !IsFeature(fields)
  {
    DictGet(fields, "type") == Some(JStr("FeatureCollection"))
  }

  /** `feature_data.get('type') == 'Feature'`. */
  predicate IsFeature(fields: map<string, Json>)
    ensures IsFeature(fields) <==> "type" in fields && fields["type"] == JStr("Feature")
  {
    DictGet(fields, "type") == Some(JStr("Feature"))
  }

  /**
   * The work on a `Feature` node, in the order the Python importer does it:
   * `feature_data['geometry']`, `feature_data['properties']`,
   * `["linestring_id"]`, then `int(...)`.
   */
  function FeatureInsert(lib: Builtins, fields: map<string, Json>): (r: Result<Insert, PyError>)
    ensures "geometry" !in fields ==> r == Err(MissingKey("geometry"))
    ensures "geometry" in fields && "properties" !in fields ==> r == Err(MissingKey("properties"))
    ensures ("geometry" in fields && "properties" in fields && Subscript(fields["properties"], "linestring_id").Err?)
      ==> r == Err(Subscript(fields["properties"], "linestring_id").error)
    ensures ("geometry" in fields && "properties" in fields && Subscript(fields["properties"], "linestring_id").Ok?
             && PyInt(lib, Subscript(fields["properties"], "linestring_id").value).None?)
      ==> r == Err(NotAnInteger)
    ensures r.Ok? ==> r.value.geometry == lib.dumps(fields["geometry"])
    ensures r.Ok? ==> Subscript(fields["properties"], "linestring_id").Ok?
    ensures r.Ok? ==> PyInt(lib, fields["properties"].fields["linestring_id"]) == Some(r.value.id)
  {
    if "geometry" !in fields then Err(MissingKey("geometry"))
    else if "properties" !in fields then Err(MissingKey("properties"))
    else
      var idValue :- Subscript(fields["properties"], "linestring_id");
      match PyInt(lib, idValue)
      case None => Err(NotAnInteger)
      case Some(id) => Ok(Insert(id, lib.dumps(fields["geometry"])))
  }

  /** The walk of one node. */
  function Walk(lib: Builtins, node: Json): (r: Trace)
    ensures !node.JDict? ==> r == Raise(NotADict)
    ensures node.JDict? && !IsCollection(node.fields) && !IsFeature(node.fields) ==> r == Done
    ensures node.JDict? && IsCollection(node.fields) && "features" !in node.fields ==> r == Raise(MissingKey("features"))
    decreases node
  {
    match node
    case JDict(fields) =>
      if IsCollection(fields) then
        if "features" in fields then WalkIterable(lib, fields["features"]) else Raise(MissingKey("features"))
      else if IsFeature(fields) then
        match FeatureInsert(lib, fields)
        case Ok(ins) => Trace([ins], None)
        case Err(e) => Raise(e)
      else Done
    case _ => Raise(NotADict)
  }

  /**
   * `for feature in feature_data['features']`: a list is walked item by
   * item; iterating a str or a dict yields str items, whose `.get` fails,
   * unless it is empty; any other value is not iterable.
   */
  function WalkIterable(lib: Builtins, features: Json): (r: Trace)
    ensures !features.JList? ==> r.emitted == []
    ensures features.JNull? || features.JBool? || features.JInt? || features.JFloat? ==> r == Raise(NotIterable)
    decreases features
  {
    match features
    case JList(items) => WalkSeq(lib, items)
    case JStr(s) => if s == "" then Done else Raise(NotADict)
    case JDict(m) => if m == map[] then Done else Raise(NotADict)
    case _ => Raise(NotIterable)
  }

  /** The loop body over the children, stopping at the first exception. */
  function WalkSeq(lib: Builtins, items: seq<Json>): (r: Trace)
    ensures r.raised.None? ==> forall i :: 0 <= i < |items| ==> Walk(lib, items[i]).raised.None?
    decreases items
  {
    if items == [] then Done
    else
      var first := Walk(lib, items[0]);
      if first.raised.Some? then first
      else
        var rest := WalkSeq(lib, items[1..]);
        Trace(first.emitted + rest.emitted, rest.raised)
  }

  /** The records an import produces, or the exception that aborts it. */
  function Flatten(lib: Builtins, node: Json): (r: Result<seq<Insert>, PyError>)
    ensures r.Ok? <==> Walk(lib, node).raised.None?
    ensures r.Ok? ==> r.value == Walk(lib, node).emitted
    ensures r.Err? ==> Walk(lib, node).raised == Some(r.error)
  {
    var t := Walk(lib, node);
    if t.raised.Some? then Err(t.raised.value) else Ok(t.emitted)
  }

  /** Walking `xs + ys` is walking `xs`, then, if it raised nothing, `ys`. */
  lemma {:induction false} WalkSeqAppend(lib: Builtins, xs: seq<Json>, ys: seq<Json>)
    ensures WalkSeq(lib, xs + ys) ==
      if WalkSeq(lib, xs).raised.Some? then WalkSeq(lib, xs)
      else Trace(WalkSeq(lib, xs).emitted + WalkSeq(lib, ys).emitted, WalkSeq(lib, ys).raised)
  {
    if xs == [] {
      assert xs + ys == ys;
    } else {
      var first := Walk(lib, xs[0]);
      assert (xs + ys)[0] == xs[0];
      assert (xs + ys)[1..] == xs[1..] + ys;
      if first.raised.None? {
        WalkSeqAppend(lib, xs[1..], ys);
        var rest := WalkSeq(lib, xs[1..]);
        assert WalkSeq(lib, xs) == Trace(first.emitted + rest.emitted, rest.raised);
        if rest.raised.None? {
          assert first.emitted + (rest.emitted + WalkSeq(lib, ys).emitted)
              == (first.emitted + rest.emitted) + WalkSeq(lib, ys).emitted;
        }
      }
    }
  }

  /**
   * One turn of the loop over the children: child `i` extends the walk of
   * the first `i`, and if it raises, the whole loop ends with that.
   */
  lemma WalkSeqStep(lib: Builtins, items: seq<Json>, i: int)
    requires 0 <= i < |items| && WalkSeq(lib, items[..i]).raised.None?
    ensures WalkSeq(lib, items[..i + 1]) == Trace(WalkSeq(lib, items[..i]).emitted + Walk(lib, items[i]).emitted, Walk(lib, items[i]).raised)
    ensures Walk(lib, items[i]).raised.Some? ==> WalkSeq(lib, items) == WalkSeq(lib, items[..i + 1])
  {
    assert items[..i + 1] == items[..i] + [items[i]];
    WalkSeqAppend(lib, items[..i], [items[i]]);
    assert WalkSeq(lib, [items[i]]) == Walk(lib, items[i]) by {
      assert [items[i]][1..] == [];
    }
    WalkSeqAppend(lib, items[..i + 1], items[i + 1..]);
    assert items[..i + 1] + items[i + 1..] == items;
  }

  /** The in-order concatenation of the children's records. */
  function ConcatFlattened(lib: Builtins, items: seq<Json>): (r: seq<Insert>)
    requires forall i :: 0 <= i < |items| ==> Flatten(lib, items[i]).Ok?
    ensures items == [] ==> r == []
    ensures |items| == 1 ==> r == Flatten(lib, items[0]).value
    ensures items != [] ==> Flatten(lib, items[0]).value <= r
  {
    if items == [] then []
    else
      assert forall i :: 0 <= i < |items[1..]| ==> items[1..][i] == items[i + 1];
      Flatten(lib, items[0]).value + ConcatFlattened(lib, items[1..])
  }

  /** Children that each flatten to one record concatenate to those records, in order. */
  lemma {:induction false} ConcatSingletons(lib: Builtins, items: seq<Json>)
    requires forall i :: 0 <= i < |items| ==> Flatten(lib, items[i]).Ok? && |Flatten(lib, items[i]).value| == 1
    ensures |ConcatFlattened(lib, items)| == |items|
    ensures forall i :: 0 <= i < |items| ==> ConcatFlattened(lib, items)[i] == Flatten(lib, items[i]).value[0]
  {
    if items != [] {
      var tail := items[1..];
      assert forall i :: 0 <= i < |tail| ==> tail[i] == items[i + 1];
      ConcatSingletons(lib, tail);
      assert ConcatFlattened(lib, items) == Flatten(lib, items[0]).value + ConcatFlattened(lib, tail);
      forall i | 0 < i < |items| ensures ConcatFlattened(lib, items)[i] == Flatten(lib, items[i]).value[0] {
        assert items[i] == tail[i - 1];
      }
    }
  }

  lemma {:induction false} WalkSeqConcatenates(lib: Builtins, items: seq<Json>)
    ensures WalkSeq(lib, items).raised.None? <==> forall i :: 0 <= i < |items| ==> Flatten(lib, items[i]).Ok?
    ensures WalkSeq(lib, items).raised.None? ==> WalkSeq(lib, items).emitted == ConcatFlattened(lib, items)
    ensures forall j :: 0 <= j < |items| && Flatten(lib, items[j]).Err? && (forall i :: 0 <= i < j ==> Flatten(lib, items[i]).Ok?)
              ==> WalkSeq(lib, items).raised == Some(Flatten(lib, items[j]).error)
  {
    if items != [] {
      var tail := items[1..];
      assert forall i :: 0 <= i < |tail| ==> tail[i] == items[i + 1];
      WalkSeqConcatenates(lib, tail);
      forall j | 0 < j < |items| && Flatten(lib, items[j]).Err? && (forall i :: 0 <= i < j ==> Flatten(lib, items[i]).Ok?)
        ensures WalkSeq(lib, items).raised == Some(Flatten(lib, items[j]).error)
      {
        assert Flatten(lib, items[0]).Ok?;
        assert tail[j - 1] == items[j];
        assert forall i :: 0 <= i < j - 1 ==> Flatten(lib, tail[i]).Ok?;
      }
      if WalkSeq(lib, items).raised.None? {
        assert Flatten(lib, items[0]).Ok?;
        forall i | 0 <= i < |items| ensures Flatten(lib, items[i]).Ok? {
          if i > 0 { assert items[i] == tail[i - 1]; }
        }
      }
      if forall i :: 0 <= i < |items| ==> Flatten(lib, items[i]).Ok? {
        assert Flatten(lib, items[0]).Ok?;
        assert forall i :: 0 <= i < |tail| ==> Flatten(lib, tail[i]).Ok?;
      }
    }
  }

  /**
   * A FeatureCollection yields the concatenation, in order, of what its
   * children yield; it fails exactly when a child fails, with the error of
   * the first child that fails.
   */
  lemma CollectionConcatenates(lib: Builtins, fields: map<string, Json>, items: seq<Json>)
    requires IsCollection(fields) && "features" in fields && fields["features"] == JList(items)
    ensures Flatten(lib, JDict(fields)).Ok? <==> forall i :: 0 <= i < |items| ==> Flatten(lib, items[i]).Ok?
    ensures Flatten(lib, JDict(fields)).Ok? ==> Flatten(lib, JDict(fields)).value == ConcatFlattened(lib, items)
    ensures forall j :: 0 <= j < |items| && Flatten(lib, items[j]).Err? && (forall i :: 0 <= i < j ==> Flatten(lib, items[i]).Ok?)
              ==> Flatten(lib, JDict(fields)) == Flatten(lib, items[j])
  {
    assert Walk(lib, JDict(fields)) == WalkSeq(lib, items);
    WalkSeqConcatenates(lib, items);
  }

  /**
   * A Feature yields exactly one record, `(int(properties["linestring_id"]),
   * dumps(geometry))`, and fails exactly when one of those is missing or the
   * id is not int-convertible, with the error `FeatureInsert` raises.
   */
  lemma FeatureYieldsOneInsert(lib: Builtins, fields: map<string, Json>)
    requires IsFeature(fields)
    ensures Flatten(lib, JDict(fields)).Ok? <==>
      && "geometry" in fields && "properties" in fields
      && fields["properties"].JDict? && "linestring_id" in fields["properties"].fields
      && PyInt(lib, fields["properties"].fields["linestring_id"]).Some?
    ensures Flatten(lib, JDict(fields)).Ok? ==>
      Flatten(lib, JDict(fields)).value ==
        [Insert(PyInt(lib, fields["properties"].fields["linestring_id"]).value, lib.dumps(fields["geometry"]))]
    ensures Flatten(lib, JDict(fields)).Err? ==> Flatten(lib, JDict(fields)) == Err(FeatureInsert(lib, fields).error)
  {
  }

  /** Keys of a Feature other than `type`, `geometry` and `properties` (its `features`, say) are never looked at. */
  lemma FeatureIgnoresOtherKeys(lib: Builtins, fields: map<string, Json>, k: string, v: Json)
    requires IsFeature(fields)
    requires k != "type" && k != "geometry" && k != "properties"
    ensures Walk(lib, JDict(fields[k := v])) == Walk(lib, JDict(fields))
  {
    assert IsFeature(fields[k := v]);
  }

  /** Properties other than `linestring_id` are never looked at. */
  lemma FeatureIgnoresOtherProperties(lib: Builtins, fields: map<string, Json>, props: map<string, Json>, k: string, v: Json)
    requires IsFeature(fields) && "properties" in fields && fields["properties"] == JDict(props)
    requires k != "linestring_id"
    ensures Walk(lib, JDict(fields["properties" := JDict(props[k := v])])) == Walk(lib, JDict(fields))
  {
    var fields' := fields["properties" := JDict(props[k := v])];
    assert IsFeature(fields');
    assert DictGet(props[k := v], "linestring_id") == DictGet(props, "linestring_id");
  }

  /** A dict whose `type` is missing or unrecognised yields nothing and raises nothing. */
  lemma UnrecognisedNodeIgnored(lib: Builtins, fields: map<string, Json>)
    requires !IsCollection(fields) && !IsFeature(fields)
    ensures Walk(lib, JDict(fields)) == Trace([], None)
    ensures Flatten(lib, JDict(fields)) == Ok([])
  {
  }

  /** The Feature dicts reachable from `node` through FeatureCollection lists only, depth-first. */
  function Features(node: Json): (r: seq<map<string, Json>>)
    ensures forall f :: f in r ==> IsFeature(f)
    decreases node
  {
    match node
    case JDict(fields) =>
      if IsCollection(fields) then
        if "features" in fields && fields["features"].JList? then FeaturesSeq(fields["features"].items) else []
      else if IsFeature(fields) then [fields]
      else []
    case _ => []
  }

  function FeaturesSeq(items: seq<Json>): (r: seq<map<string, Json>>)
    ensures forall f :: f in r ==> IsFeature(f)
    decreases items
  {
    if items == [] then [] else Features(items[0]) + FeaturesSeq(items[1..])
  }

  /** Makes an already-proved per-index correspondence for a concatenation. */
  lemma ConcatCorrespondence(lib: Builtins, fs1: seq<map<string, Json>>, xs1: seq<Insert>, fs2: seq<map<string, Json>>, xs2: seq<Insert>)
    requires |xs1| == |fs1| && forall i :: 0 <= i < |fs1| ==> FeatureInsert(lib, fs1[i]) == Ok(xs1[i])
    requires |xs2| == |fs2| && forall i :: 0 <= i < |fs2| ==> FeatureInsert(lib, fs2[i]) == Ok(xs2[i])
    ensures |xs1 + xs2| == |fs1 + fs2|
    ensures forall i :: 0 <= i < |fs1 + fs2| ==> FeatureInsert(lib, (fs1 + fs2)[i]) == Ok((xs1 + xs2)[i])
  {
    forall i | 0 <= i < |fs1 + fs2| ensures FeatureInsert(lib, (fs1 + fs2)[i]) == Ok((xs1 + xs2)[i]) {
      if i >= |fs1| {
        assert (fs1 + fs2)[i] == fs2[i - |fs1|];
        assert (xs1 + xs2)[i] == xs2[i - |xs1|];
      }
    }
  }

  /**
   * A successful import has one record per reachable Feature, and the i-th
   * record is the one the i-th Feature of the depth-first order makes.
   */
  lemma {:induction false} FlattenFollowsFeatures(lib: Builtins, node: Json)
    requires Flatten(lib, node).Ok?
    ensures |Flatten(lib, node).value| == |Features(node)|
    ensures forall i :: 0 <= i < |Features(node)| ==> FeatureInsert(lib, Features(node)[i]) == Ok(Flatten(lib, node).value[i])
    decreases node
  {
    match node
    case JDict(fields) =>
      if IsCollection(fields) {
        assert "features" in fields;
        var features := fields["features"];
        assert Walk(lib, node) == WalkIterable(lib, features);
        match features
        case JList(items) =>
          assert Walk(lib, node) == WalkSeq(lib, items);
          WalkSeqFollowsFeatures(lib, items);
        case JStr(_) =>
          assert Features(node) == [];
        case JDict(_) =>
          assert Features(node) == [];
        case _ =>
      }
  }

  lemma {:induction false} WalkSeqFollowsFeatures(lib: Builtins, items: seq<Json>)
    requires WalkSeq(lib, items).raised.None?
    ensures |WalkSeq(lib, items).emitted| == |FeaturesSeq(items)|
    ensures forall i :: 0 <= i < |FeaturesSeq(items)| ==> FeatureInsert(lib, FeaturesSeq(items)[i]) == Ok(WalkSeq(lib, items).emitted[i])
    decreases items
  {
    if items != [] {
      FlattenFollowsFeatures(lib, items[0]);
      WalkSeqFollowsFeatures(lib, items[1..]);
      ConcatCorrespondence(lib, Features(items[0]), Walk(lib, items[0]).emitted,
        FeaturesSeq(items[1..]), WalkSeq(lib, items[1..]).emitted);
    }
  }

  /**
   * A reachable Feature without a usable `linestring_id` (or `geometry`, or
   * `properties`) makes the whole import fail.
   */
  lemma BadFeatureAborts(lib: Builtins, node: Json, j: nat)
    requires j < |Features(node)| && FeatureInsert(lib, Features(node)[j]).Err?
    ensures Flatten(lib, node).Err?
  {
    if Flatten(lib, node).Ok? {
      FlattenFollowsFeatures(lib, node);
    }
  }

  /** The number of records is the number of Features reachable through FeatureCollections. */
  lemma InsertCountIsFeatureCount(lib: Builtins, node: Json)
    requires Flatten(lib, node).Ok?
    ensures |Flatten(lib, node).value| == |Features(node)|
  {
    FlattenFollowsFeatures(lib, node);
  }
}
