/**
 * The static resource registry: the catalog built from the parsed entries of
 * a resources manifest, and the dictionary a resource reports about itself.
 * The file system is a map from path to the file's size and text.
 */
module Resources {
  import opened Wrappers
  import opened PyDict

  /** One manifest entry; `None` is a key the entry does not have. */
  datatype ManifestEntry = ManifestEntry(
    id: Option<string>,
    filename: Option<string>,
    name: Option<string>,
    description: Option<string>,
    mediaType: Option<string>,
    tags: Option<seq<string>>,
    homepage: Option<string>)

  datatype StaticResource = StaticResource(
    id: string,
    name: string,
    description: string,
    path: Option<string>,
    mediaType: string,
    tags: seq<string>,
    homepage: Option<string>)

  datatype FileInfo = FileInfo(size: nat, text: string)

  /** The `content` entry: the parsed document of a JSON resource whose text
      parses, the text otherwise. */
  datatype Content = JsonDocument(source: string) | PlainText(text: string)

  /** The dictionary `to_dict` returns. */
  datatype ResourceView = ResourceView(
    id: string,
    name: string,
    description: string,
    mediaType: string,
    tags: seq<string>,
    homepage: Option<string>,
    relativePath: Option<string>,
    sizeBytes: nat,
    hasLocalContent: bool,
    content: Option<Content>)

  /** `resources_dir / filename`. */
  function JoinPath(dir: string, file: string): string {
    dir + "/" + file
  }

  /** `Path(p).name`: the text after the last `/`. */
  function BaseName(p: string): (r: string)
    ensures |r| <= |p| && r == p[|p| - |r|..]
    ensures '/' !in r
    ensures '/' !in p ==> r == p
  {
    if p == [] || p[|p| - 1] == '/' then []
    else
      var init := BaseName(p[..|p| - 1]);
      assert p[..|p| - 1][|p| - 1 - |init|..] + [p[|p| - 1]] == p[|p| - (|init| + 1)..];
      init + [p[|p| - 1]]
  }

  /** The resource an entry with an id describes, with the defaults filled
      in; it has a path exactly when the entry names a non-empty file. */
  function ResourceOf(dir: string, e: ManifestEntry): (r: StaticResource)
    requires e.id.Some?
    ensures r.id == e.id.value
    ensures r.name == e.name.GetOr(e.id.value) && r.description == e.description.GetOr("")
    ensures r.mediaType == e.mediaType.GetOr("text/plain") && r.tags == e.tags.GetOr([])
    ensures r.homepage == e.homepage
    ensures r.path.Some? <==> e.filename.Some? && e.filename.value != ""
    ensures r.path.Some? ==> r.path.value == JoinPath(dir, e.filename.value)
  {
    StaticResource(
      e.id.value,
      e.name.GetOr(e.id.value),
      e.description.GetOr(""),
      if e.filename.Some? && e.filename.value != "" then Some(JoinPath(dir, e.filename.value)) else None,
      e.mediaType.GetOr("text/plain"),
      e.tags.GetOr([]),
      e.homepage)
  }

  /** The catalog after the first `n` entries: each entry with an id stored
      under it, a later entry overwriting an earlier one with the same id. */
  function CatalogOf(dir: string, entries: seq<ManifestEntry>, n: nat): Dict<string, StaticResource>
    requires n <= |entries|
  {
    if n == 0 then []
    else
      var c := CatalogOf(dir, entries, n - 1);
      var e := entries[n - 1];
      if e.id.Some? then Put(c, e.id.value, ResourceOf(dir, e)) else c
  }

  /** `load_resource_catalog`: the manifest's existence and its parsed
      `resources` list (`None` when the manifest is empty or has no such key)
      are the inputs. */
  method LoadResourceCatalog(dir: string, manifestExists: bool, resources: Option<seq<ManifestEntry>>)
    returns (catalog: Dict<string, StaticResource>)
    ensures !manifestExists || resources.None? ==> catalog == []
    ensures manifestExists && resources.Some? ==> catalog == CatalogOf(dir, resources.value, |resources.value|)
  {
    catalog := [];
    if !manifestExists {
      return;
    }
    var entries := resources.GetOr([]);
    for i := 0 to |entries|
      invariant catalog == CatalogOf(dir, entries, i)
    {
      var entry := entries[i];
      if entry.id.None? {
        continue;
      }
      var resourceId := entry.id.value;
      var path: Option<string> := None;
      if entry.filename.Some? && entry.filename.value != "" {
        path := Some(JoinPath(dir, entry.filename.value));
      }
      catalog := Put(catalog, resourceId, StaticResource(
        resourceId,
        entry.name.GetOr(resourceId),
        entry.description.GetOr(""),
        path,
        entry.mediaType.GetOr("text/plain"),
        entry.tags.GetOr([]),
        entry.homepage));
    }
  }

  /** The last of the first `n` entries carrying a given id, if any. */
  function LastWithId(entries: seq<ManifestEntry>, n: nat, id: string): (r: Option<nat>)
    requires n <= |entries|
    ensures r.Some? ==> r.value < n && entries[r.value].id == Some(id)
                        && forall j :: r.value < j < n ==> entries[j].id != Some(id)
    ensures r.None? ==> forall j :: 0 <= j < n ==> entries[j].id != Some(id)
  {
    if n == 0 then None
    else if entries[n - 1].id == Some(id) then Some(n - 1)
    else LastWithId(entries, n - 1, id)
  }

  /** Looking an id up in the catalog finds the resource of the last entry
      with that id, and nothing when no entry has it: entries without an id
      are skipped, later duplicates win. */
  lemma {:induction false} CatalogLookup(dir: string, entries: seq<ManifestEntry>, n: nat, id: string)
    requires n <= |entries|
    ensures match LastWithId(entries, n, id)
      case None => Get(CatalogOf(dir, entries, n), id).None?
      case Some(i) => Get(CatalogOf(dir, entries, n), id) == Some(ResourceOf(dir, entries[i]))
  {
    if n > 0 {
      CatalogLookup(dir, entries, n - 1, id);
    }
  }

  /** Every key is held once, and the keys are exactly the ids present. */
  lemma {:induction false} CatalogKeys(dir: string, entries: seq<ManifestEntry>, n: nat)
    requires n <= |entries|
    ensures UniqueKeys(CatalogOf(dir, entries, n))
    ensures forall k :: k in Keys(CatalogOf(dir, entries, n)) <==> exists i :: 0 <= i < n && entries[i].id == Some(k)
  {
    if n > 0 {
      var c := CatalogOf(dir, entries, n - 1);
      CatalogKeys(dir, entries, n - 1);
      var e := entries[n - 1];
      if e.id.Some? {
        PutKeys(c, e.id.value, ResourceOf(dir, e));
      }
    }
  }

  /** `to_dict(include_content)`: the size and the local-content flag come
      from the file when the path is set and exists; the content only when
      it is asked for and the file exists. `jsonParses` says whether the
      file's text is a JSON document. */
  method ToDict(r: StaticResource, includeContent: bool, fs: map<string, FileInfo>, jsonParses: bool)
    returns (data: ResourceView)
    ensures data.id == r.id && data.name == r.name && data.description == r.description
    ensures data.mediaType == r.mediaType && data.tags == r.tags && data.homepage == r.homepage
    ensures data.relativePath == if r.path.Some? then Some(BaseName(r.path.value)) else None
    ensures data.hasLocalContent <==> r.path.Some? && r.path.value in fs
    ensures data.sizeBytes == if data.hasLocalContent then fs[r.path.value].size else 0
    ensures data.content.Some? <==> includeContent && data.hasLocalContent
    ensures data.content.Some? ==>
      data.content.value == if EndsWithJson(r.mediaType) && jsonParses
        then JsonDocument(fs[r.path.value].text) else PlainText(fs[r.path.value].text)
  {
    var exists_ := r.path.Some? && r.path.value in fs;
    var size := if exists_ then fs[r.path.value].size else 0;
    data := ResourceView(
      r.id, r.name, r.description, r.mediaType, r.tags, r.homepage,
      if r.path.Some? then Some(BaseName(r.path.value)) else None,
      size, exists_, None);
    if includeContent && exists_ {
      var text := fs[r.path.value].text;
      if EndsWithJson(r.mediaType) {
        if jsonParses {
          data := data.(content := Some(JsonDocument(text)));
        } else {
          data := data.(content := Some(PlainText(text)));
        }
      } else {
        data := data.(content := Some(PlainText(text)));
      }
    }
  }

  /** `media_type.endswith("json")`. */
  predicate EndsWithJson(mediaType: string) {
    |mediaType| >= 4 && mediaType[|mediaType| - 4..] == "json"
  }

  /** A missing manifest, or one without resources, gives an empty catalog;
      so does a manifest whose entries all lack an id. */
  lemma {:induction false} NoIdsEmptyCatalog(dir: string, entries: seq<ManifestEntry>, n: nat)
    requires n <= |entries| && forall i :: 0 <= i < n ==> entries[i].id.None?
    ensures CatalogOf(dir, entries, n) == []
  {
    if n > 0 {
      NoIdsEmptyCatalog(dir, entries, n - 1);
    }
  }
}
