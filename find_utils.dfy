/**
 * The query client's C-FIND helpers: keeping the pending responses that
 * carry an identifier, and flattening a dataset into a Python dictionary
 * keyed by element names.
 */
module FindUtils {
  import opened Wrappers
  import opened DicomData
  import opened PyDict

  /** The Python values a flattened dataset holds. */
  datatype PyObj =
    | PyNone
    | PyStr(s: string)
    | PyInt(i: int)
    | PyList(items: seq<PyObj>)
    | PyMap(entries: seq<(string, PyObj)>)

  const StatusPending := 0xFF00

  /** One C-FIND response: the Status of its status dataset (`None` when the
      status dataset is missing or empty) and its identifier dataset. */
  datatype FindResponse = FindResponse(status: Option<int>, identifier: Option<Dataset>)

  /** `status and status.Status == 0xFF00`, then `if dataset:`. */
  predicate IsResult(r: FindResponse) {
    r.status == Some(StatusPending) && r.identifier.Some? && NonEmpty(r.identifier.value)
  }

  // ---------------------------------------------------------------------
  // dataset_to_dict
  // ---------------------------------------------------------------------

  /** The dictionary `dataset_to_dict` builds: each element in turn stored
      under its name, a later element with the same name overwriting the
      earlier one in place. */
  function Flattened(ds: Dataset): (d: Dict<string, PyObj>)
    decreases ds, 2
    ensures |d| <= |ds.elems|
  {
    FromPairs(ElementPairs(ds, |ds.elems|))
  }

  /** The assignments of the first `n` elements: each element's name and the
      value stored for it. */
  function ElementPairs(ds: Dataset, n: nat): (ps: seq<(string, PyObj)>)
    requires n <= |ds.elems|
    decreases ds, 1, n
    ensures |ps| == n
  {
    if n == 0 then [] else ElementPairs(ds, n - 1) + [(ds.elems[n - 1].name, ElementObj(ds, n - 1))]
  }

  lemma {:induction false} ElementPairsNames(ds: Dataset, n: nat)
    requires n <= |ds.elems|
    ensures forall i :: 0 <= i < n ==> ElementPairs(ds, n)[i].0 == ds.elems[i].name
  {
    if n > 0 {
      ElementPairsNames(ds, n - 1);
    }
  }

  lemma {:induction false} ElementPairsValue(ds: Dataset, n: nat, i: nat)
    requires i < n <= |ds.elems|
    ensures ElementPairs(ds, n)[i].1 == ElementObj(ds, i)
  {
    if i < n - 1 {
      ElementPairsValue(ds, n - 1, i);
    }
  }

  /** The value stored for element `i`: a sequence becomes the list of its
      items' dictionaries, a multi-valued element the list of its values,
      any other element its value. */
  function ElementObj(ds: Dataset, i: nat): (o: PyObj)
    requires i < |ds.elems|
    decreases ds, 0, i
  {
    match ds.elems[i].value
    case Null => PyNone
    case Str(s) => PyStr(s)
    case Int(n) => PyInt(n)
    case Multi(vals) => PyList(StrObjs(vals))
    case Sq(items) =>
      PyList(ItemDicts(items))
  }

  function StrObjs(vals: seq<string>): (r: seq<PyObj>)
    ensures |r| == |vals| && forall k :: 0 <= k < |vals| ==> r[k] == PyStr(vals[k])
  {
    if vals == [] then [] else StrObjs(vals[..|vals| - 1]) + [PyStr(vals[|vals| - 1])]
  }

  /** `[dataset_to_dict(item) for item in elem.value]`. */
  function ItemDicts(items: seq<Dataset>): (r: seq<PyObj>)
    decreases items, 3
  {
    if items == [] then [] else ItemDicts(items[..|items| - 1]) + [PyMap(Flattened(items[|items| - 1]))]
  }

  lemma {:induction false} ItemDictsLength(items: seq<Dataset>)
    ensures |ItemDicts(items)| == |items|
  {
    if items != [] {
      ItemDictsLength(items[..|items| - 1]);
    }
  }

  /** Item `k` of a sequence becomes the dictionary of that item. */
  lemma {:induction false} ItemDictsAt(items: seq<Dataset>, k: nat)
    requires k < |items|
    ensures |ItemDicts(items)| == |items| && ItemDicts(items)[k] == PyMap(Flattened(items[k]))
  {
    var init := items[..|items| - 1];
    ItemDictsLength(init);
    if k < |init| {
      ItemDictsAt(init, k);
    }
  }

  /** `dataset_to_dict`: a loop over the elements, recursing into the items
      of a sequence element. */
  method DatasetToDict(ds: Dataset) returns (result: Dict<string, PyObj>)
    decreases ds, 1
    ensures result == Flattened(ds)
  {
    result := [];
    for i := 0 to |ds.elems|
      invariant result == FromPairs(ElementPairs(ds, i))
    {
      var o := ElementToObj(ds, i);
      assert ElementPairs(ds, i + 1)[..i] == ElementPairs(ds, i);
      result := Put(result, ds.elems[i].name, o);
    }
  }

  /** The value one iteration of `dataset_to_dict` stores. */
  method ElementToObj(ds: Dataset, i: nat) returns (o: PyObj)
    requires i < |ds.elems|
    decreases ds, 0
    ensures o == ElementObj(ds, i)
  {
    var elem := ds.elems[i];
    match elem.value {
      case Sq(items) =>
        var converted := [];
        for k := 0 to |items|
          invariant converted == ItemDicts(items[..k])
        {
          assert items[k] in items && items[k] < elem.value < elem < ds;
          var item := DatasetToDict(items[k]);
          assert items[..k + 1][..k] == items[..k];
          converted := converted + [PyMap(item)];
        }
        assert items[..|items|] == items;
        o := PyList(converted);
      case Multi(vals) =>
        o := PyList(StrObjs(vals));
      case Null =>
        o := PyNone;
      case Str(s) =>
        o := PyStr(s);
      case Int(n) =>
        o := PyInt(n);
    }
  }

  /** The last of the first `n` elements carrying a given name, if any. */
  function LastNamed(elems: seq<Element>, n: nat, name: string): (r: Option<nat>)
    requires n <= |elems|
    ensures r.Some? ==> r.value < n && elems[r.value].name == name
                        && forall j :: r.value < j < n ==> elems[j].name != name
    ensures r.None? ==> forall j :: 0 <= j < n ==> elems[j].name != name
  {
    if n == 0 then None
    else if elems[n - 1].name == name then Some(n - 1)
    else LastNamed(elems, n - 1, name)
  }

  lemma {:induction false} LastKeyedIsLastNamed(ps: seq<(string, PyObj)>, elems: seq<Element>, n: nat, name: string)
    requires n <= |ps| == |elems|
    requires forall i :: 0 <= i < |ps| ==> ps[i].0 == elems[i].name
    ensures LastKeyed(ps[..n], name) == LastNamed(elems, n, name)
  {
    if n > 0 {
      LastKeyedIsLastNamed(ps, elems, n - 1, name);
      assert ps[..n][..n - 1] == ps[..n - 1];
    }
  }

  /** The dictionary maps each element name to the value of the last element
      with that name, and holds no other key. */
  lemma FlattenedLookup(ds: Dataset, name: string)
    ensures match LastNamed(ds.elems, |ds.elems|, name)
      case None => Get(Flattened(ds), name).None?
      case Some(i) => Get(Flattened(ds), name) == Some(ElementObj(ds, i))
  {
    var ps := ElementPairs(ds, |ds.elems|);
    ElementPairsNames(ds, |ds.elems|);
    FromPairsLookup(ps, name);
    LastKeyedIsLastNamed(ps, ds.elems, |ds.elems|, name);
    assert ps[..|ds.elems|] == ps;
    if LastKeyed(ps, name).Some? {
      ElementPairsValue(ds, |ds.elems|, LastKeyed(ps, name).value);
    }
  }

  /** Keys are unique and each one is an element name. */
  lemma FlattenedKeys(ds: Dataset)
    ensures UniqueKeys(Flattened(ds))
    ensures forall k :: k in Keys(Flattened(ds)) <==> exists i :: 0 <= i < |ds.elems| && ds.elems[i].name == k
  {
    var ps := ElementPairs(ds, |ds.elems|);
    ElementPairsNames(ds, |ds.elems|);
    FromPairsKeys(ps);
  }

  /** An empty dataset flattens to `{}`. */
  lemma EmptyFlattensToEmpty()
    ensures Flattened(EmptyDataset) == []
  {
  }

  /** A sequence element stored under its name becomes a list with one
      dictionary per item, in item order. */
  lemma SequenceBecomesList(ds: Dataset, name: string)
    requires LastNamed(ds.elems, |ds.elems|, name).Some?
    requires ds.elems[LastNamed(ds.elems, |ds.elems|, name).value].value.Sq?
    ensures var items := ds.elems[LastNamed(ds.elems, |ds.elems|, name).value].value.items;
      && Get(Flattened(ds), name).Some?
      && Get(Flattened(ds), name).value.PyList?
      && |Get(Flattened(ds), name).value.items| == |items|
      && forall k :: 0 <= k < |items| ==> Get(Flattened(ds), name).value.items[k] == PyMap(Flattened(items[k]))
  {
    var i := LastNamed(ds.elems, |ds.elems|, name).value;
    var items := ds.elems[i].value.items;
    FlattenedLookup(ds, name);
    assert ElementObj(ds, i) == PyList(ItemDicts(items));
    var v := Get(Flattened(ds), name);
    assert v == Some(PyList(ItemDicts(items)));
    ItemDictsLength(items);
    forall k | 0 <= k < |items| ensures v.value.items[k] == PyMap(Flattened(items[k])) {
      ItemDictsAt(items, k);
    }
  }

  // ---------------------------------------------------------------------
  // handle_c_find_response
  // ---------------------------------------------------------------------

  /** The responses kept, in order. */
  function Kept(responses: seq<FindResponse>): (r: seq<FindResponse>)
    ensures |r| <= |responses|
    ensures forall i :: 0 <= i < |r| ==> IsResult(r[i])
  {
    if responses == [] then []
    else
      var k := Kept(responses[..|responses| - 1]);
      var last := responses[|responses| - 1];
      if IsResult(last) then k + [last] else k
  }

  /** `handle_c_find_response`: the dictionaries of the kept responses. */
  method HandleCFindResponse(responses: seq<FindResponse>) returns (results: seq<Dict<string, PyObj>>)
    ensures |results| == |Kept(responses)|
    ensures forall i :: 0 <= i < |results| ==> results[i] == Flattened(Kept(responses)[i].identifier.value)
  {
    results := [];
    for i := 0 to |responses|
      invariant |results| == |Kept(responses[..i])|
      invariant forall j :: 0 <= j < |results| ==> results[j] == Flattened(Kept(responses[..i])[j].identifier.value)
    {
      assert responses[..i + 1][..i] == responses[..i];
      var r := responses[i];
      if r.status.Some? && r.status.value == StatusPending {
        if r.identifier.Some? && NonEmpty(r.identifier.value) {
          var d := DatasetToDict(r.identifier.value);
          results := results + [d];
        }
      }
    }
    assert responses[..|responses|] == responses;
  }

  /** Exactly the pending responses with a non-empty identifier are kept. */
  lemma {:induction false} KeptMembers(responses: seq<FindResponse>, r: FindResponse)
    ensures r in Kept(responses) <==> r in responses && IsResult(r)
  {
    if responses != [] {
      var init := responses[..|responses| - 1];
      KeptMembers(init, r);
      assert responses == init + [responses[|responses| - 1]];
    }
  }

  /** Keeping distributes over concatenation, so the input order survives. */
  lemma {:induction false} KeptAppend(a: seq<FindResponse>, b: seq<FindResponse>)
    ensures Kept(a + b) == Kept(a) + Kept(b)
    decreases |b|
  {
    if b == [] {
      assert a + b == a;
    } else {
      var init := b[..|b| - 1];
      KeptAppend(a, init);
      assert (a + b)[..|a + b| - 1] == a + init;
    }
  }
}
