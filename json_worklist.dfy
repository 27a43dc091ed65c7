/**
 * The worklist REST side's JSON-to-dataset builder: each JSON key is set
 * with `setattr`, so a dictionary keyword becomes an element and any other
 * key a plain attribute; an object becomes a sequence of one item, an array
 * a sequence of items, and anything else is stored as it is. The missing
 * identifiers and schedule are filled in afterwards. pydicom's data
 * dictionary, the UID generator and the clock are parameters.
 */
module JsonWorklist {
  import opened Wrappers
  import opened DicomData

  /** A parsed JSON value. Objects keep their keys in document order. */
  datatype Json =
    | JNull
    | JBool(b: bool)
    | JInt(i: int)
    | JStr(s: string)
    | JArr(items: seq<Json>)
    | JObj(fields: seq<Field>)

  datatype Field = Field(key: string, value: Json)

  /** Keys are unique, as in a JSON object parsed into a Python dict. */
  predicate UniqueKeys(fields: seq<Field>) {
    forall i, j :: 0 <= i < j < |fields| ==> fields[i].key != fields[j].key
  }

  /** Some key of the JSON object is `kw`. */
  predicate KeyAt(fields: seq<Field>, kw: string) {
    exists i :: 0 <= i < |fields| && fields[i].key == kw
  }

  /** The attribute value a scalar JSON value is stored as; Python's `True`
      and `False` compare equal to 1 and 0. */
  function Scalar(v: Json): Value
    requires !v.JArr? && !v.JObj?
  {
    match v
    case JNull => Null
    case JBool(b) => Int(if b then 1 else 0)
    case JInt(i) => Int(i)
    case JStr(s) => Str(s)
  }

  /** The value `set_dataset_value` stores for a JSON value. An item keeps
      its elements; the plain attributes set on an item are not kept. */
  function Converted(dict: Dictionary, v: Json): Value
    decreases v, 1
  {
    match v
    case JObj(fields) => Sq([Filled(dict, EmptyObject, fields).ds])
    case JArr(items) => Sq(ItemsOf(dict, items))
    case _ => Scalar(v)
  }

  /** The items a JSON array becomes: objects are converted, anything else
      becomes an empty item. */
  function ItemsOf(dict: Dictionary, items: seq<Json>): seq<Dataset>
    decreases items, 0
  {
    seq(|items|, i requires 0 <= i < |items| =>
      if items[i].JObj? then Filled(dict, EmptyObject, items[i].fields).ds else EmptyDataset)
  }

  /** `set_dataset_value(o, key, value)`: `setattr` with the converted value. */
  function Assign(dict: Dictionary, o: DatasetObject, key: string, value: Json): (r: DatasetObject)
    requires Coherent(dict, o)
    ensures Coherent(dict, r)
    decreases value, 2
  {
    ObjSet(dict, o, key, Converted(dict, value))
  }

  /** The fields set one after the other into `o`. */
  function Filled(dict: Dictionary, o: DatasetObject, fields: seq<Field>): (r: DatasetObject)
    requires Coherent(dict, o)
    ensures Coherent(dict, r)
    decreases fields, 0
  {
    if fields == [] then o
    else
      var last := fields[|fields| - 1];
      Assign(dict, Filled(dict, o, fields[..|fields| - 1]), last.key, last.value)
  }

  /** `set_dataset_value`, recursing into objects and arrays and filling
      each item field by field. */
  method SetDatasetValue(dict: Dictionary, o: DatasetObject, key: string, value: Json) returns (r: DatasetObject)
    requires Coherent(dict, o)
    ensures r == Assign(dict, o, key, value)
    decreases value, 2
  {
    match value {
      case JObj(fields) =>
        var item := FillItem(dict, fields);
        r := ObjSet(dict, o, key, Sq([item.ds]));
      case JArr(items) =>
        var sq: seq<Dataset> := [];
        for k := 0 to |items|
          invariant sq == ItemsOf(dict, items[..k])
        {
          var item := EmptyObject;
          if items[k].JObj? {
            item := FillItem(dict, items[k].fields);
          }
          sq := sq + [item.ds];
        }
        assert items[..|items|] == items;
        r := ObjSet(dict, o, key, Sq(sq));
      case _ =>
        r := ObjSet(dict, o, key, Scalar(value));
    }
  }

  /** A fresh item with the fields of one JSON object. */
  method FillItem(dict: Dictionary, fields: seq<Field>) returns (item: DatasetObject)
    ensures item == Filled(dict, EmptyObject, fields)
    decreases fields, 1
  {
    item := EmptyObject;
    for k := 0 to |fields|
      invariant Coherent(dict, item)
      invariant item == Filled(dict, EmptyObject, fields[..k])
    {
      item := SetDatasetValue(dict, item, fields[k].key, fields[k].value);
      assert fields[..k + 1][..k] == fields[..k];
    }
    assert fields[..|fields|] == fields;
  }

  /** After filling, a dictionary keyword is an element exactly when it was
      one before or some field has it, and any other name is a plain
      attribute exactly when it was one before or some field has it; so
      `hasattr` holds exactly when it held before or some field has the name. */
  lemma {:induction false} FilledHas(dict: Dictionary, o: DatasetObject, fields: seq<Field>, kw: string)
    requires Coherent(dict, o)
    ensures Has(Filled(dict, o, fields).ds, kw) <==> Has(o.ds, kw) || (IsKeyword(dict, kw) && KeyAt(fields, kw))
    ensures kw in Filled(dict, o, fields).plain <==> kw in o.plain || (!IsKeyword(dict, kw) && KeyAt(fields, kw))
    ensures ObjHas(Filled(dict, o, fields), kw) <==> ObjHas(o, kw) || KeyAt(fields, kw)
  {
    if fields != [] {
      var init := fields[..|fields| - 1];
      var last := fields[|fields| - 1];
      FilledHas(dict, o, init, kw);
      assert KeyAt(fields, kw) <==> KeyAt(init, kw) || last.key == kw by {
        if KeyAt(fields, kw) {
          var i :| 0 <= i < |fields| && fields[i].key == kw;
          if i < |init| {
            assert init[i].key == kw;
          }
        }
        if KeyAt(init, kw) {
          var i :| 0 <= i < |init| && init[i].key == kw;
          assert fields[i].key == kw;
        }
      }
    }
  }

  /** With unique keys, `getattr` of every field's key gives its converted
      value, and names no field has keep theirs. */
  lemma {:induction false} FilledLookup(dict: Dictionary, o: DatasetObject, fields: seq<Field>)
    requires Coherent(dict, o) && UniqueKeys(fields)
    ensures forall i :: 0 <= i < |fields| ==>
      ObjLookup(Filled(dict, o, fields), fields[i].key) == Converted(dict, fields[i].value)
    ensures forall kw :: !KeyAt(fields, kw) ==> ObjLookup(Filled(dict, o, fields), kw) == ObjLookup(o, kw)
  {
    if fields != [] {
      var init := fields[..|fields| - 1];
      var last := fields[|fields| - 1];
      assert UniqueKeys(init);
      FilledLookup(dict, o, init);
      forall i | 0 <= i < |fields| - 1
        ensures ObjLookup(Filled(dict, o, fields), fields[i].key) == Converted(dict, fields[i].value)
      {
        assert init[i] == fields[i];
      }
      forall kw | !KeyAt(fields, kw)
        ensures ObjLookup(Filled(dict, o, fields), kw) == ObjLookup(o, kw)
      {
        assert !KeyAt(init, kw) by {
          forall i | 0 <= i < |init| ensures init[i].key != kw {
            assert init[i] == fields[i];
          }
        }
        assert last.key != kw;
      }
    }
  }

  /** An object value becomes a sequence of exactly one item. The item's
      elements are the object's keyword keys, each holding its converted
      value; a key that is no keyword leaves no element. */
  lemma ObjectBecomesOneItem(dict: Dictionary, o: DatasetObject, key: string, fields: seq<Field>)
    requires Coherent(dict, o) && UniqueKeys(fields)
    ensures var v := ObjLookup(Assign(dict, o, key, JObj(fields)), key);
      && v.Sq? && |v.items| == 1
      && (forall i :: 0 <= i < |fields| && IsKeyword(dict, fields[i].key) ==>
            Lookup(v.items[0], fields[i].key) == Converted(dict, fields[i].value))
      && (forall kw :: Has(v.items[0], kw) <==> IsKeyword(dict, kw) && KeyAt(fields, kw))
  {
    var item := Filled(dict, EmptyObject, fields);
    FilledLookup(dict, EmptyObject, fields);
    assert Converted(dict, JObj(fields)) == Sq([item.ds]);
    forall i | 0 <= i < |fields| && IsKeyword(dict, fields[i].key)
      ensures Lookup(item.ds, fields[i].key) == Converted(dict, fields[i].value)
    {
      CoherentHas(dict, item, fields[i].key);
    }
    forall kw ensures Has(item.ds, kw) <==> IsKeyword(dict, kw) && KeyAt(fields, kw) {
      FilledHas(dict, EmptyObject, fields, kw);
    }
  }

  /** An array value becomes a sequence with one item per element, in order:
      objects converted, anything else an empty item. */
  lemma ArrayKeepsItems(dict: Dictionary, o: DatasetObject, key: string, items: seq<Json>)
    requires Coherent(dict, o)
    ensures var v := ObjLookup(Assign(dict, o, key, JArr(items)), key);
      v.Sq? && |v.items| == |items|
      && forall i :: 0 <= i < |items| ==>
           v.items[i] == (if items[i].JObj? then Filled(dict, EmptyObject, items[i].fields).ds else EmptyDataset)
  {
    assert Converted(dict, JArr(items)) == Sq(ItemsOf(dict, items));
  }

  /** Any other value is stored as it is, as an element for a keyword and
      as a plain attribute otherwise. */
  lemma ScalarStored(dict: Dictionary, o: DatasetObject, key: string, v: Json)
    requires Coherent(dict, o) && !v.JArr? && !v.JObj?
    ensures ObjLookup(Assign(dict, o, key, v), key) == Scalar(v)
    ensures IsKeyword(dict, key) <==> Has(Assign(dict, o, key, v).ds, key)
  {
    CoherentHas(dict, Assign(dict, o, key, v), key);
  }

  /** The identifiers and schedule added when `hasattr` finds them missing. */
  function WithDefaults(dict: Dictionary, o: DatasetObject, uid: string, date: string, time: string): (r: DatasetObject)
    requires Coherent(dict, o)
    ensures Coherent(dict, r)
    ensures ObjLookup(r, "StudyInstanceUID") ==
      if ObjHas(o, "StudyInstanceUID") then ObjLookup(o, "StudyInstanceUID") else Str(uid)
    ensures ObjLookup(r, "ScheduledProcedureStepStartDate") ==
      if ObjHas(o, "ScheduledProcedureStepStartDate") then ObjLookup(o, "ScheduledProcedureStepStartDate") else Str(date)
    ensures ObjLookup(r, "ScheduledProcedureStepStartTime") ==
      if ObjHas(o, "ScheduledProcedureStepStartTime") then ObjLookup(o, "ScheduledProcedureStepStartTime") else Str(time)
    ensures ObjHas(r, "StudyInstanceUID") && ObjHas(r, "ScheduledProcedureStepStartDate")
            && ObjHas(r, "ScheduledProcedureStepStartTime")
  {
    var a := Default(dict, o, "StudyInstanceUID", Str(uid));
    var b := Default(dict, a, "ScheduledProcedureStepStartDate", Str(date));
    Default(dict, b, "ScheduledProcedureStepStartTime", Str(time))
  }

  /** `if not hasattr(o, name): setattr(o, name, v)`. */
  function Default(dict: Dictionary, o: DatasetObject, name: string, v: Value): (r: DatasetObject)
    requires Coherent(dict, o)
    ensures Coherent(dict, r)
    ensures ObjHas(r, name) && ObjLookup(r, name) == if ObjHas(o, name) then ObjLookup(o, name) else v
    ensures forall k :: k != name ==> ObjHas(r, k) == ObjHas(o, k) && ObjLookup(r, k) == ObjLookup(o, k)
    ensures forall k :: k != name ==> Has(r.ds, k) == Has(o.ds, k)
  {
    if ObjHas(o, name) then o else ObjSet(dict, o, name, v)
  }

  /** The three attributes `create_mwl_from_json` fills in. */
  predicate IsDefaulted(k: string) {
    k == "StudyInstanceUID" || k == "ScheduledProcedureStepStartDate" || k == "ScheduledProcedureStepStartTime"
  }

  /** `create_mwl_from_json`: the JSON fields set in document order, then the
      defaults. `dict` is pydicom's data dictionary, `uid` the generated UID,
      `date` and `time` the current date (YYYYMMDD) and time (HHMMSS). */
  method CreateMwlFromJson(dict: Dictionary, json: seq<Field>, uid: string, date: string, time: string)
    returns (o: DatasetObject)
    ensures o == WithDefaults(dict, Filled(dict, EmptyObject, json), uid, date, time)
  {
    o := EmptyObject;
    for k := 0 to |json|
      invariant Coherent(dict, o)
      invariant o == Filled(dict, EmptyObject, json[..k])
    {
      o := SetDatasetValue(dict, o, json[k].key, json[k].value);
      assert json[..k + 1][..k] == json[..k];
    }
    assert json[..|json|] == json;
    if !ObjHas(o, "StudyInstanceUID") {
      o := ObjSet(dict, o, "StudyInstanceUID", Str(uid));
    }
    if !ObjHas(o, "ScheduledProcedureStepStartDate") {
      o := ObjSet(dict, o, "ScheduledProcedureStepStartDate", Str(date));
    }
    if !ObjHas(o, "ScheduledProcedureStepStartTime") {
      o := ObjSet(dict, o, "ScheduledProcedureStepStartTime", Str(time));
    }
  }

  /** Only the top level counts: a default is added exactly when no top-level
      key names the attribute, and a supplied value is never overwritten. */
  lemma DefaultsOnlyWhenAbsent(dict: Dictionary, json: seq<Field>, uid: string, date: string, time: string)
    ensures var built := Filled(dict, EmptyObject, json);
      var r := WithDefaults(dict, built, uid, date, time);
      && (if KeyAt(json, "StudyInstanceUID") then ObjLookup(r, "StudyInstanceUID") == ObjLookup(built, "StudyInstanceUID")
          else ObjLookup(r, "StudyInstanceUID") == Str(uid))
      && (if KeyAt(json, "ScheduledProcedureStepStartDate")
          then ObjLookup(r, "ScheduledProcedureStepStartDate") == ObjLookup(built, "ScheduledProcedureStepStartDate")
          else ObjLookup(r, "ScheduledProcedureStepStartDate") == Str(date))
      && (if KeyAt(json, "ScheduledProcedureStepStartTime")
          then ObjLookup(r, "ScheduledProcedureStepStartTime") == ObjLookup(built, "ScheduledProcedureStepStartTime")
          else ObjLookup(r, "ScheduledProcedureStepStartTime") == Str(time))
  {
    FilledHas(dict, EmptyObject, json, "StudyInstanceUID");
    FilledHas(dict, EmptyObject, json, "ScheduledProcedureStepStartDate");
    FilledHas(dict, EmptyObject, json, "ScheduledProcedureStepStartTime");
  }

  /** `create_mwl_file`'s result: file meta information and the dataset. */
  datatype MwlFile = MwlFile(meta: DatasetObject, body: Dataset, filename: string)

  const WorklistSopClassUid := "1.2.840.10008.5.1.4.31"
  const ExplicitVrLittleEndian := "1.2.840.10008.1.2.1"

  /** The file meta information, set attribute by attribute. */
  function FileMeta(dict: Dictionary, instanceUid: string, implementationUid: string): (meta: DatasetObject)
    ensures ObjLookup(meta, "MediaStorageSOPClassUID") == Str(WorklistSopClassUid)
    ensures ObjLookup(meta, "MediaStorageSOPInstanceUID") == Str(instanceUid)
    ensures ObjLookup(meta, "ImplementationClassUID") == Str(implementationUid)
    ensures ObjLookup(meta, "TransferSyntaxUID") == Str(ExplicitVrLittleEndian)
  {
    var m1 := ObjSet(dict, EmptyObject, "MediaStorageSOPClassUID", Str(WorklistSopClassUid));
    var m2 := ObjSet(dict, m1, "MediaStorageSOPInstanceUID", Str(instanceUid));
    var m3 := ObjSet(dict, m2, "ImplementationClassUID", Str(implementationUid));
    ObjSet(dict, m3, "TransferSyntaxUID", Str(ExplicitVrLittleEndian))
  }

  /** `create_mwl_file`: the built dataset's elements, copied by
      `Dataset.update` into a file dataset with file meta information; its
      plain attributes stay behind. `instanceUid` and `implementationUid`
      are the two generated UIDs. `saved` is the path written to, only when
      a non-empty path is given. */
  method CreateMwlFile(dict: Dictionary, json: seq<Field>, outputPath: Option<string>, uid: string, date: string,
                       time: string, instanceUid: string, implementationUid: string)
    returns (file: MwlFile, saved: Option<string>)
    ensures ObjLookup(file.meta, "MediaStorageSOPClassUID") == Str(WorklistSopClassUid)
    ensures ObjLookup(file.meta, "TransferSyntaxUID") == Str(ExplicitVrLittleEndian)
    ensures ObjLookup(file.meta, "MediaStorageSOPInstanceUID") == Str(instanceUid)
    ensures file.body == WithDefaults(dict, Filled(dict, EmptyObject, json), uid, date, time).ds
    ensures saved.Some? <==> outputPath.Some? && outputPath.value != ""
    ensures saved.Some? ==> saved == outputPath && file.filename == outputPath.value
  {
    var o := CreateMwlFromJson(dict, json, uid, date, time);
    var meta := FileMeta(dict, instanceUid, implementationUid);
    var path := if outputPath.Some? then outputPath.value else "";
    file := MwlFile(meta, o.ds, path);
    saved := if path != "" then Some(path) else None;
  }

  /** The file's dataset has an element for a JSON key exactly when the key
      is a dictionary keyword: any other top-level key is not carried into
      the file. Apart from the three defaults, it has no other element. */
  lemma FileKeepsKeywordsOnly(dict: Dictionary, json: seq<Field>, uid: string, date: string, time: string, kw: string)
    requires !IsDefaulted(kw)
    ensures Has(WithDefaults(dict, Filled(dict, EmptyObject, json), uid, date, time).ds, kw)
            <==> IsKeyword(dict, kw) && KeyAt(json, kw)
  {
    FilledHas(dict, EmptyObject, json, kw);
    DefaultsKeepOthers(dict, Filled(dict, EmptyObject, json), uid, date, time, kw);
  }

  /** Filling in the defaults changes no other attribute. */
  lemma DefaultsKeepOthers(dict: Dictionary, o: DatasetObject, uid: string, date: string, time: string, k: string)
    requires Coherent(dict, o) && !IsDefaulted(k)
    ensures var r := WithDefaults(dict, o, uid, date, time);
      Has(r.ds, k) == Has(o.ds, k) && ObjHas(r, k) == ObjHas(o, k) && ObjLookup(r, k) == ObjLookup(o, k)
  {
  }

  /** `handle_mwl_request`: the REST side answers no worklist query. */
  function HandleMwlRequest(query: seq<Field>): (r: seq<Dataset>)
    ensures |r| == 0
  {
    []
  }
}
