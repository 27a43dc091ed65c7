/**
 * DICOM datasets as the handlers see them: a list of elements, each with a
 * keyword, a display name and a value, and a flag for the command group
 * (group 0x0000). Elements stay in the order they were decoded or added;
 * tags, and pydicom's ordering by tag, are not modelled. Attribute access
 * follows pydicom's `getattr(ds, keyword, default)` and `hasattr(ds, keyword)`
 * on a dataset's elements; a `DatasetObject` adds the plain instance
 * attributes that `setattr` creates for names that are no keyword.
 */
module DicomData {
  import opened Wrappers

  /** An element value: Python `None`, a string, an integer, a multi-valued
      string (VM > 1) or a sequence of item datasets (VR SQ). */
  datatype Value =
    | Null
    | Str(s: string)
    | Int(i: int)
    | Multi(vals: seq<string>)
    | Sq(items: seq<Dataset>)

  datatype Element = Element(command: bool, keyword: string, name: string, value: Value)

  datatype Dataset = Dataset(elems: seq<Element>)

  const EmptyDataset := Dataset([])

  /** Python truthiness of an element value. */
  predicate Truthy(v: Value) {
    match v
    case Null => false
    case Str(s) => s != ""
    case Int(i) => i != 0
    case Multi(vals) => vals != []
    case Sq(items) => items != []
  }

  /** `v in [None, '', []]`: the values a C-FIND query key leaves unconstrained. */
  predicate IsUniversal(v: Value) {
    v == Null || v == Str("") || v == Multi([]) || v == Sq([])
  }

  /** Python truthiness of a dataset: it has at least one element. */
  predicate NonEmpty(ds: Dataset) {
    ds.elems != []
  }

  /** The position of the element with keyword `kw`. Private elements have
      the empty keyword, which no attribute access reaches. */
  function IndexOfKeyword(ds: Dataset, kw: string): (r: Option<nat>)
    ensures r.Some? ==> kw != "" && r.value < |ds.elems| && ds.elems[r.value].keyword == kw
                        && forall j :: 0 <= j < r.value ==> ds.elems[j].keyword != kw
    ensures r.None? ==> kw == "" || forall j :: 0 <= j < |ds.elems| ==> ds.elems[j].keyword != kw
  {
    if kw == "" then None else FirstWithKeyword(ds.elems, kw)
  }

  function FirstWithKeyword(elems: seq<Element>, kw: string): (r: Option<nat>)
    ensures r.Some? ==> r.value < |elems| && elems[r.value].keyword == kw
                        && forall j :: 0 <= j < r.value ==> elems[j].keyword != kw
    ensures r.None? ==> forall j :: 0 <= j < |elems| ==> elems[j].keyword != kw
  {
    if |elems| == 0 then None
    else if elems[0].keyword == kw then Some(0)
    else match FirstWithKeyword(elems[1..], kw)
      case None => None
      case Some(i) => Some(i + 1)
  }

  /** `hasattr(ds, kw)`. */
  predicate Has(ds: Dataset, kw: string) {
    IndexOfKeyword(ds, kw).Some?
  }

  /** `getattr(ds, kw, default)`. */
  function GetAttr(ds: Dataset, kw: string, default: Value): Value {
    match IndexOfKeyword(ds, kw)
    case None => default
    case Some(i) => ds.elems[i].value
  }

  /** `getattr(ds, kw, None)`. */
  function Lookup(ds: Dataset, kw: string): Value {
    GetAttr(ds, kw, Null)
  }

  /** The element part of `setattr(ds, kw, v)` for a dictionary keyword `kw`
      whose display name is `name`: the element is replaced where it stands,
      or added at the end when absent. */
  function SetAttr(ds: Dataset, kw: string, name: string, v: Value): (r: Dataset)
    requires kw != ""
    ensures Has(r, kw) && Lookup(r, kw) == v
    ensures forall k :: k != kw ==> Has(r, k) == Has(ds, k) && Lookup(r, k) == Lookup(ds, k)
    ensures forall e :: e in r.elems ==> e in ds.elems || e == Element(false, kw, name, v)
  {
    var e := Element(false, kw, name, v);
    match IndexOfKeyword(ds, kw)
    case Some(i) =>
      var r := Dataset(ds.elems[i := e]);
      forall k ensures IndexOfKeyword(r, k) == IndexOfKeyword(ds, k) {
        SameKeywordsSameIndex(ds, r, k);
      }
      r
    case None =>
      var r := Dataset(ds.elems + [e]);
      forall k ensures k != kw ==> IndexOfKeyword(r, k) == IndexOfKeyword(ds, k) {
        AppendKeywordIndex(ds, e, k);
      }
      AppendKeywordIndex(ds, e, kw);
      r
  }

  /** pydicom's data dictionary: each keyword with its display name. */
  type Dictionary = map<string, string>

  predicate IsKeyword(dict: Dictionary, name: string) {
    name != "" && name in dict
  }

  /**
   * A pydicom `Dataset` object: its elements, and the plain instance
   * attributes that `setattr` leaves for names that are no dictionary
   * keyword. Iteration, `len`, the encoder and `Dataset.update` see the
   * elements only; `hasattr` and `getattr` see both.
   */
  datatype DatasetObject = DatasetObject(ds: Dataset, plain: map<string, Value>)

  const EmptyObject := DatasetObject(EmptyDataset, map[])

  /** What `setattr` keeps true: elements carry keywords, and plain
      attributes are named by anything else. */
  predicate Coherent(dict: Dictionary, o: DatasetObject) {
    && (forall k :: k in o.plain ==> !IsKeyword(dict, k))
    && (forall e :: e in o.ds.elems && e.keyword != "" ==> IsKeyword(dict, e.keyword))
  }

  /** `hasattr(o, name)`. */
  predicate ObjHas(o: DatasetObject, name: string) {
    name in o.plain || Has(o.ds, name)
  }

  /** `getattr(o, name, None)`: an instance attribute is found before
      pydicom's element lookup is consulted. */
  function ObjLookup(o: DatasetObject, name: string): Value {
    if name in o.plain then o.plain[name] else Lookup(o.ds, name)
  }

  /** `setattr(o, name, v)` as pydicom's `Dataset.__setattr__` does it: a
      dictionary keyword sets an element named by the dictionary, anything
      else a plain instance attribute that no element reflects. */
  function ObjSet(dict: Dictionary, o: DatasetObject, name: string, v: Value): (r: DatasetObject)
    requires Coherent(dict, o)
    ensures Coherent(dict, r)
    ensures ObjHas(r, name) && ObjLookup(r, name) == v
    ensures forall k :: k != name ==> ObjHas(r, k) == ObjHas(o, k) && ObjLookup(r, k) == ObjLookup(o, k)
    ensures IsKeyword(dict, name) ==> r.plain == o.plain && Has(r.ds, name)
    ensures !IsKeyword(dict, name) ==> r.ds == o.ds && name in r.plain
    ensures forall k :: k != name ==> Has(r.ds, k) == Has(o.ds, k) && (k in r.plain <==> k in o.plain)
  {
    if IsKeyword(dict, name) then DatasetObject(SetAttr(o.ds, name, dict[name], v), o.plain)
    else DatasetObject(o.ds, o.plain[name := v])
  }

  /** A dataset object's dictionary keywords are exactly its elements'. */
  lemma CoherentHas(dict: Dictionary, o: DatasetObject, name: string)
    requires Coherent(dict, o)
    ensures Has(o.ds, name) ==> IsKeyword(dict, name)
    ensures IsKeyword(dict, name) ==> (ObjHas(o, name) <==> Has(o.ds, name)) && ObjLookup(o, name) == Lookup(o.ds, name)
  {
    if Has(o.ds, name) {
      var i := IndexOfKeyword(o.ds, name).value;
      assert o.ds.elems[i] in o.ds.elems;
    }
  }

  lemma SameKeywordsSameIndex(ds: Dataset, es: Dataset, kw: string)
    requires |ds.elems| == |es.elems|
    requires forall i :: 0 <= i < |ds.elems| ==> ds.elems[i].keyword == es.elems[i].keyword
    ensures IndexOfKeyword(ds, kw) == IndexOfKeyword(es, kw)
  {
    if kw != "" {
      SameKeywordsSameFirst(ds.elems, es.elems, kw);
    }
  }

  lemma SameKeywordsSameFirst(d: seq<Element>, e: seq<Element>, kw: string)
    requires |d| == |e| && forall i :: 0 <= i < |d| ==> d[i].keyword == e[i].keyword
    ensures FirstWithKeyword(d, kw) == FirstWithKeyword(e, kw)
  {
    if |d| > 0 && d[0].keyword != kw {
      SameKeywordsSameFirst(d[1..], e[1..], kw);
    }
  }

  lemma AppendKeywordIndex(ds: Dataset, e: Element, kw: string)
    requires e.keyword != "" && IndexOfKeyword(ds, e.keyword).None?
    ensures kw != e.keyword ==> IndexOfKeyword(Dataset(ds.elems + [e]), kw) == IndexOfKeyword(ds, kw)
    ensures IndexOfKeyword(Dataset(ds.elems + [e]), e.keyword) == Some(|ds.elems|)
  {
    AppendFirst(ds.elems, e, kw);
  }

  lemma AppendFirst(d: seq<Element>, e: Element, kw: string)
    requires FirstWithKeyword(d, e.keyword).None?
    ensures kw != e.keyword ==> FirstWithKeyword(d + [e], kw) == FirstWithKeyword(d, kw)
    ensures FirstWithKeyword(d + [e], e.keyword) == Some(|d|)
  {
    if |d| > 0 {
      assert (d + [e])[1..] == d[1..] + [e];
      AppendFirst(d[1..], e, kw);
    }
  }

  /** Keywords are unique, as they are in a pydicom dataset keyed by tag. */
  predicate WellFormed(ds: Dataset) {
    forall i, j :: 0 <= i < j < |ds.elems| && ds.elems[i].keyword != "" ==>
      ds.elems[i].keyword != ds.elems[j].keyword
  }

  lemma LookupMember(ds: Dataset, i: nat)
    requires WellFormed(ds) && i < |ds.elems| && ds.elems[i].keyword != ""
    ensures Has(ds, ds.elems[i].keyword) && Lookup(ds, ds.elems[i].keyword) == ds.elems[i].value
  {
    var r := IndexOfKeyword(ds, ds.elems[i].keyword);
    assert r.Some?;
    assert r.value == i;
  }

  /**
   * The stored byte form of a dataset. The byte codec itself is not modelled:
   * a stored blob is either one the encoder produced, which decodes to the
   * dataset it came from, or bytes the decoder rejects.
   */
  datatype Blob = Encoded(ds: Dataset) | Unreadable(bytes: seq<bv8>)

  function Encode(ds: Dataset): Blob {
    Encoded(ds)
  }

  function Decode(b: Blob): Option<Dataset> {
    match b
    case Encoded(ds) => Some(ds)
    case Unreadable(_) => None
  }
}
