# dicom-mcp: a verified model of its worklist, procedure-step and helper logic

This project is a Dafny model of the parts of dicom-mcp that decide what the
system does, once I/O is taken away. The central piece is the Modality
Worklist (MWL) and Modality Performed Procedure Step (MPPS) service. It
answers worklist C-FIND queries from the `mwl` table, records N-CREATE
requests in the `mpps` table, and applies N-SET requests to that table. A
procedure step that completes or is discontinued marks its worklist entries
completed. These services are defined in DICOM PS3.4, Annex K (worklist) and
Annex F (procedure step).

Around the service, the model covers these helpers:

- the worklist REST side's record helpers and its JSON-to-dataset builder;
- the attribute presets used for C-FIND;
- the C-FIND response filter and the dataset-to-dictionary flattening;
- view parsing, image numbering and prompt assembly in the synthetic CR device;
- the paged patient query of the mini-RIS client;
- the server-selection state;
- the connection settings of the query client;
- the static resource catalog.

Modules:

| module | models |
|---|---|
| `Wrappers` | `Option` (Python `None`) and `Result` (a value or the exception raised) |
| `Text` | ASCII `strip`, `lower`, `in`, `split`, `str(n)` and `int(s)` |
| `PyDict` | an insertion-ordered Python `dict` as a list of pairs |
| `DicomData` | DICOM datasets as lists of elements with `getattr` and `hasattr`; pydicom `Dataset` objects, whose `setattr` makes an element of a dictionary keyword and a plain attribute of any other name; the byte codec as an `Encode`/`Decode` pair |
| `Store` | the `mwl` and `mpps` tables and every SQL statement issued against them, as the class `Datastore` |
| `WorklistService` | `matches_query`, `handle_mwl`, `handle_n_create` and `handle_n_set` |
| `WorklistRecords` | the row helpers of the worklist REST side |
| `JsonWorklist` | `create_mwl_from_json`, `create_mwl_file` and `handle_mwl_request` |
| `Attributes` | `ATTRIBUTE_PRESETS` and `get_attributes_for_level` |
| `FindUtils` | `dataset_to_dict` and `handle_c_find_response` |
| `VirtualCr` | `_parse_views`, the image mode and numbering of `create_study`, and `_build_ai_prompt` |
| `MysqlClient` | `MiniRisClient.list_patients` |
| `ServerConfig` | `ServerConfigManager`, as a class |
| `DicomConfig` | `DicomServerConfig`: `from_env`, `to_dict` and `from_dict` |
| `Resources` | `load_resource_catalog` and `StaticResource.to_dict` |

How the model treats state and external effects:

- **Handlers change tables in place.** Each handler is a method that
  modifies a `Datastore` object. Its postcondition gives the complete new
  state of both tables as functions of the old state.
- **Failure is one input.** Any exception from the database driver or the
  byte codec is a single `fault` input.
- **Time and UIDs are parameters.** The clock (`NOW()`, `datetime.now()`)
  and the UID generator are passed in.
- **Files and YAML are parameters.** Which files exist, their contents,
  and the already-parsed YAML documents are passed in.

Behaviour of the code that a reader might not expect, which the model keeps:

- **N-SET without a status.** The code writes SQL NULL as the status
  (`dicom-mwl-mpps/docker/mwl-mpps/app.py:236` and `:253-265`).
- **Failed cascade.** The code's only commit comes after the cascade
  (`app.py:313`), so a failure during the cascade leaves *both* tables
  unchanged, the procedure step included.
- **End of the C-FIND stream.** A blob that does not decode also ends the
  stream, not only a database error. The decode happens inside the same
  `try` (`app.py:71`, `:86-88`).
- **Empty C-FIND results.** `handle_c_find_response` drops responses whose
  identifier is an *empty* dataset as well as absent ones. `if dataset:`
  tests the dataset's length (`src/utils.py:58`).

## Model

| member | source | states |
|---|---|---|
| WorklistService.MatchesQueryAll | dicom-mwl-mpps/docker/mwl-mpps/app.py:43-54 | a candidate matches iff every query element outside group 0x0000 whose value is not None, '' or [] has the same value in the candidate, an absent attribute reading as None; an empty query matches everything |
| WorklistService.MatchesFromAll | dicom-mwl-mpps/docker/mwl-mpps/app.py:45-54 | the early-return loop from element `from` onward accepts iff every later constraining element agrees (both directions) |
| WorklistService.MissingAttributeMismatches | dicom-mwl-mpps/docker/mwl-mpps/app.py:48-53 | a candidate lacking a constrained attribute is rejected |
| WorklistService.MatchesWellFormedQuery | dicom-mwl-mpps/docker/mwl-mpps/app.py:43-54 | for a query with unique keywords, matching is equality with each non-command, non-universal query value |
| WorklistService.Stream | dicom-mwl-mpps/docker/mwl-mpps/app.py:69-80 | the yielded responses are never more than the fetched rows |
| WorklistService.HandleMwl | dicom-mwl-mpps/docker/mwl-mpps/app.py:56-88 | C-FIND yields the stream over the pending rows, or nothing when the database is unavailable; it reads the tables without changing them |
| WorklistService.AnswerRows | dicom-mwl-mpps/docker/mwl-mpps/app.py:68-80 | the counting loop over fetched rows yields exactly the stream |
| WorklistService.StreamAt | dicom-mwl-mpps/docker/mwl-mpps/app.py:69-80 | one row's step: an undecodable blob ends the stream, otherwise the row's answer precedes the rest |
| WorklistService.StreamSound | dicom-mwl-mpps/docker/mwl-mpps/app.py:69-79 | every response has status 0xFF00 and carries a matching dataset decoded from one of the rows |
| WorklistService.StreamAppend | dicom-mwl-mpps/docker/mwl-mpps/app.py:69-80 | over readable rows the stream of a concatenation is the concatenation of the streams, so datastore order is kept |
| WorklistService.StreamOne | dicom-mwl-mpps/docker/mwl-mpps/app.py:75-77 | a readable row contributes (0xFF00, its dataset) iff it matches, and nothing otherwise |
| WorklistService.StreamStops | dicom-mwl-mpps/docker/mwl-mpps/app.py:69-88 | rows after an undecodable blob are never answered |
| WorklistService.CompletedNotFound | dicom-mwl-mpps/docker/mwl-mpps/app.py:64-84 | after the rows of an accession number are marked completed, no C-FIND answer comes from a row with that accession number |
| WorklistService.CreateStatus | dicom-mwl-mpps/docker/mwl-mpps/app.py:108-114 | N-CREATE maps 'COMPLETED' and 'DISCONTINUED' to themselves and every other hashable value (absent included) to IN_PROGRESS; an unhashable value raises |
| WorklistService.SetStatus | dicom-mwl-mpps/docker/mwl-mpps/app.py:230-236 | N-SET writes NULL for a falsy status, maps 'IN PROGRESS', and passes any other value through unchanged; an unhashable value raises |
| WorklistService.SetStatusTerminal | dicom-mwl-mpps/docker/mwl-mpps/app.py:236-273 | the new status is COMPLETED or DISCONTINUED iff the request said so |
| WorklistService.LinkedWorklist | dicom-mwl-mpps/docker/mwl-mpps/app.py:127-136 | a link exists iff the accession number is non-empty and some pending row has it; it is the id of the first such row |
| WorklistService.HandleNCreate | dicom-mwl-mpps/docker/mwl-mpps/app.py:90-206 | on success: (0x0000, the dataset), exactly one mpps row appended with the mapped status and the link, mwl untouched; on failure: (0xC000, None) and no table changes |
| WorklistService.ResolveUid | dicom-mwl-mpps/docker/mwl-mpps/app.py:215-220 | the request's UID, or the modification list's SOPInstanceUID when the request has none and the list is non-empty |
| WorklistService.CascadeOnlyCompletes | dicom-mwl-mpps/docker/mwl-mpps/app.py:273-284 | the cascade keeps every row except its completed flag, never clears one, and sets it exactly on rows with the step's non-empty accession number |
| WorklistService.HandleNSet | dicom-mwl-mpps/docker/mwl-mpps/app.py:209-327 | no UID or any failure gives (0xC000, None) with both tables unchanged; otherwise the steps are updated, the worklist cascades, and the result is (0x0000, the list) or (0xC001, None) by the number of matched rows |
| WorklistService.UnknownStepUnchanged | dicom-mwl-mpps/docker/mwl-mpps/app.py:253-322 | an N-SET for a UID no step has changes neither table |
| WorklistService.StepsAfterSetRows | dicom-mwl-mpps/docker/mwl-mpps/app.py:250-269 | each step with the UID gets the status (NULL included) and the time, and the blob only for a non-empty list; other steps and columns are unchanged |
| WorklistService.StartThenComplete | dicom-mwl-mpps/docker/mwl-mpps/tests/test_mpps_integration.py:161-223 | for a new UID and at most one pending worklist row with the accession number: N-CREATE 'IN PROGRESS' and then N-SET 'COMPLETED' both return 0x0000; the new step is linked and COMPLETED, and no pending worklist row has the accession number |
| WorklistService.AccessionOfNewStep | dicom-mwl-mpps/docker/mwl-mpps/app.py:274-280 | the accession number read back for a UID that only the newest step has is that step's |
| Store.Pending | dicom-mwl-mpps/docker/mwl-mpps/app.py:64 | `WHERE completed = 0` keeps exactly the rows not completed |
| Store.FirstPendingWithAccession | dicom-mwl-mpps/docker/mwl-api/db_utils.py:107-110 | the first pending row whose accession number equals the parameter (NULL equals nothing), or none |
| Store.AccessionForUid | dicom-mwl-mpps/docker/mwl-mpps/app.py:274-278 | a row is found iff some step has the UID |
| Store.UpdateStatusNoMatch | dicom-mwl-mpps/docker/mwl-mpps/app.py:253-268 | an update that matches no row leaves the table as it was |
| Store.CountUidZero | dicom-mwl-mpps/docker/mwl-mpps/app.py:268-269 | the row count is zero iff no row has the UID |
| Store.AccessionForUidAfterUpdate | dicom-mwl-mpps/docker/mwl-mpps/app.py:268-278 | the status update does not change which accession number a UID reads back |
| Store.NoPendingAfterMarkCompleted | dicom-mwl-mpps/docker/mwl-mpps/app.py:281-284 | after the cascade, no pending row has the accession number |
| Store.MarkCompletedIds | dicom-mwl-mpps/docker/mwl-mpps/app.py:281-284 | the cascade keeps every row id |
| Store.UpdateStatusIds | dicom-mwl-mpps/docker/mwl-mpps/app.py:253-265 | the status update keeps every row id |
| Store.Datastore.InsertMwl | dicom-mwl-mpps/docker/mwl-api/db_utils.py:63-84 | appends the row with the next auto-increment id and returns that id; mpps unchanged |
| Store.Datastore.InsertMpps | dicom-mwl-mpps/docker/mwl-mpps/app.py:147-195 | appends the row with the next auto-increment id and returns that id; mwl unchanged |
| Store.Datastore.SetCompleted | dicom-mwl-mpps/docker/mwl-mpps/app.py:281-284 | marks rows with the accession number completed and reports how many rows there were; mpps unchanged |
| Store.Datastore.SetStatus | dicom-mwl-mpps/docker/mwl-mpps/app.py:253-269 | updates the steps with the UID and reports their number as the row count; mwl unchanged |
| Store.Datastore.SelectPendingId | dicom-mwl-mpps/docker/mwl-mpps/app.py:129-135 | the id of the first pending row with the accession number |
| Store.Datastore.SelectAccessionForUid | dicom-mwl-mpps/docker/mwl-mpps/app.py:274-278 | the accession number of the first step with the UID |
| Store.Datastore.Restore | dicom-mwl-mpps/docker/mwl-api/db_utils.py:88-92 | rollback: the tables and counters become the saved ones again |
| WorklistRecords.PyStr | dicom-mwl-mpps/docker/mwl-api/db_utils.py:30 | `str()` keeps a string as it is and renders the other scalars as strings |
| WorklistRecords.ExtractMwlFields | dicom-mwl-mpps/docker/mwl-api/db_utils.py:24-33 | the two scheduling fields are always None; a missing PatientName is ''; the identifiers are read as they are |
| WorklistRecords.ExtractScheduledFields | dicom-mwl-mpps/docker/mwl-api/db_utils.py:35-46 | (None, None) when the sequence is absent or empty, else the first item's start date and station AE; an integer that cannot be indexed raises |
| WorklistRecords.InsertMwlRecord | dicom-mwl-mpps/docker/mwl-api/db_utils.py:48-97 | appends exactly one pending row with the extracted fields and returns its id; on failure returns None and changes nothing |
| WorklistRecords.GetMwlByAccession | dicom-mwl-mpps/docker/mwl-api/db_utils.py:99-119 | only ever returns a pending row with the accession number, namely the first; None on failure |
| WorklistRecords.FindInserted | dicom-mwl-mpps/docker/mwl-api/db_utils.py:107-110 | a newly inserted pending row is found by its accession number when no earlier pending row has it |
| WorklistRecords.MarkMwlCompleted | dicom-mwl-mpps/docker/mwl-api/db_utils.py:121-143 | every row with the accession number and no other becomes completed; returns rowcount > 0; False and no change on failure |
| WorklistRecords.CountAccessionPositive | dicom-mwl-mpps/docker/mwl-api/db_utils.py:129-134 | the row count is positive iff some row has the accession number |
| WorklistRecords.RecordedStep | dicom-mwl-mpps/docker/mwl-api/db_utils.py:154-181 | the status is stored exactly as given, IN_PROGRESS only when absent; the blob decodes to the dataset |
| WorklistRecords.InsertMppsRecord | dicom-mwl-mpps/docker/mwl-api/db_utils.py:145-199 | appends exactly one step and returns its id; on failure returns None and changes nothing |
| WorklistRecords.UpdateMppsStatus | dicom-mwl-mpps/docker/mwl-api/db_utils.py:201-238 | writes the status as given to every step with the UID, the blob only for a non-empty dataset; returns rowcount > 0; False and no change on failure |
| JsonWorklist.SetDatasetValue | dicom-mwl-mpps/docker/mwl-api/mwl_handler.py:14-36 | the recursive setter computes the specified assignment: `setattr` of the converted value, an element for a dictionary keyword and a plain attribute otherwise |
| JsonWorklist.FillItem | dicom-mwl-mpps/docker/mwl-api/mwl_handler.py:18-31 | a new item filled key by key equals the specified filling of an empty dataset object |
| JsonWorklist.FilledHas | dicom-mwl-mpps/docker/mwl-api/mwl_handler.py:39-44 | after filling, a dictionary keyword is an element iff it was or some key names it; any other name is a plain attribute iff it was or some key names it; so `hasattr` holds iff it held or some key names the attribute |
| JsonWorklist.FilledLookup | dicom-mwl-mpps/docker/mwl-api/mwl_handler.py:39-44 | `getattr` of each key gives its converted value; names no key has keep theirs |
| JsonWorklist.ObjectBecomesOneItem | dicom-mwl-mpps/docker/mwl-api/mwl_handler.py:16-23 | an object becomes a sequence of exactly one item whose elements are exactly the object's keyword keys, each holding its converted value |
| JsonWorklist.ArrayKeepsItems | dicom-mwl-mpps/docker/mwl-api/mwl_handler.py:24-33 | an array becomes a sequence of the same length and order; objects are converted, anything else becomes an empty item |
| JsonWorklist.ScalarStored | dicom-mwl-mpps/docker/mwl-api/mwl_handler.py:34-36 | any other value is read back unchanged by `getattr`; it is an element iff the key is a dictionary keyword |
| JsonWorklist.WithDefaults | dicom-mwl-mpps/docker/mwl-api/mwl_handler.py:46-54 | StudyInstanceUID and the start date and time are added only when `hasattr` finds them absent, and supplied values are kept |
| JsonWorklist.Default | dicom-mwl-mpps/docker/mwl-api/mwl_handler.py:47-48 | `if not hasattr(o, name): setattr(o, name, v)`: afterwards the name is present with its old value if it had one, else v; nothing else changes |
| JsonWorklist.CreateMwlFromJson | dicom-mwl-mpps/docker/mwl-api/mwl_handler.py:8-56 | the result is the dataset object the JSON fills key by key in document order, then the defaults; keyword keys are elements, other keys plain attributes |
| JsonWorklist.DefaultsOnlyWhenAbsent | dicom-mwl-mpps/docker/mwl-api/mwl_handler.py:46-54 | a default is added exactly when no top-level key names the attribute; a nested date does not count |
| JsonWorklist.DefaultsKeepOthers | dicom-mwl-mpps/docker/mwl-api/mwl_handler.py:46-54 | filling in the defaults changes no other element or attribute |
| JsonWorklist.FileMeta | dicom-mwl-mpps/docker/mwl-api/mwl_handler.py:66-70 | `getattr` on the meta information gives the worklist SOP class, Explicit VR Little Endian and the two generated UIDs |
| JsonWorklist.CreateMwlFile | dicom-mwl-mpps/docker/mwl-api/mwl_handler.py:58-83 | the file has those meta fields and the built object's elements only (what `Dataset.update` copies), and is written iff a non-empty output path is given |
| JsonWorklist.FileKeepsKeywordsOnly | dicom-mwl-mpps/docker/mwl-api/mwl_handler.py:73-74 | apart from the three defaults, the file's dataset has an element for a name iff it is a dictionary keyword and a top-level JSON key; other keys are not carried into the file |
| JsonWorklist.HandleMwlRequest | dicom-mwl-mpps/docker/mwl-api/mwl_handler.py:85-102 | every query gets an empty answer |
| Attributes.PresetTableShape | src/dicom_mcp/attributes.py:8-151 | the table defines exactly the presets minimal, standard and extended, each with the four levels |
| Attributes.PresetsNoDuplicates | src/dicom_mcp/attributes.py:8-151 | no preset list names an attribute twice |
| Attributes.BaseList | src/dicom_mcp/attributes.py:171-179 | a known preset gives its list and an unknown preset the standard list; a level other than the four raises |
| Attributes.GetAttributesForLevel | src/dicom_mcp/attributes.py:154-191 | fails iff the level is unknown; otherwise the base list with the additions merged in and the exclusions filtered out |
| Attributes.MergedContents | src/dicom_mcp/attributes.py:181-185 | after the merge, an attribute is present iff it is in the base list or in the additional list |
| Attributes.MergedShape | src/dicom_mcp/attributes.py:181-185 | the base list stays a prefix, and no duplicate is added, even by repeats in the additional list |
| Attributes.WithoutContents | src/dicom_mcp/attributes.py:187-189 | an attribute survives the filter iff it was present and is not excluded |
| Attributes.WithoutOrder | src/dicom_mcp/attributes.py:187-189 | the survivors keep their relative order |
| Attributes.WithoutNoDuplicates | src/dicom_mcp/attributes.py:187-189 | filtering does not create duplicates |
| Attributes.AttributesForLevel | src/dicom_mcp/attributes.py:171-191 | for a known level the result holds exactly the non-excluded base and additional attributes, has no duplicates, and keeps merge order |
| FindUtils.Flattened | src/utils.py:23-42 | the dictionary has no more keys than the dataset has elements |
| FindUtils.ElementPairs | src/utils.py:24-37 | one assignment per element |
| FindUtils.StrObjs | src/utils.py:32-34 | `list(elem.value)` of a multi-valued element keeps its values in order |
| FindUtils.ItemDictsLength | src/utils.py:25-27 | a sequence has as many dictionaries as items |
| FindUtils.ItemDictsAt | src/utils.py:25-27 | item k becomes the flattened dictionary of item k |
| FindUtils.DatasetToDict | src/utils.py:10-42 | the loop builds the flattened dictionary |
| FindUtils.ElementToObj | src/utils.py:25-37 | the value stored for one element |
| FindUtils.FlattenedLookup | src/utils.py:24-37 | each name maps to the value of the last element with that name, and names no element has are absent |
| FindUtils.FlattenedKeys | src/utils.py:23-37 | keys are unique and are exactly the element names |
| FindUtils.EmptyFlattensToEmpty | src/utils.py:20-21 | an empty dataset gives {} |
| FindUtils.SequenceBecomesList | src/utils.py:25-27 | a sequence element becomes a list of the same length whose k-th entry is item k's dictionary |
| FindUtils.Kept | src/utils.py:56-59 | only pending responses with a non-empty identifier are kept, and the output is never longer than the input |
| FindUtils.HandleCFindResponse | src/utils.py:45-61 | one dictionary per kept response, in order |
| FindUtils.KeptMembers | src/utils.py:56-59 | a response is kept iff it is in the input, pending, and has a non-empty identifier |
| FindUtils.KeptAppend | src/utils.py:54-61 | filtering distributes over concatenation, so input order survives; empty input gives empty output |
| VirtualCr.Repeat | src/dicom_mcp/virtual_cr.py:148 | `['AP'] * count` has max(count, 0) copies |
| VirtualCr.SliceTo | src/dicom_mcp/virtual_cr.py:164 | `views[:count]` with Python's reading of a negative bound |
| VirtualCr.FirstSeparator | src/dicom_mcp/virtual_cr.py:152-155 | the first separator present in the order ' and ', ', ', '/', or none |
| VirtualCr.StripAll | src/dicom_mcp/virtual_cr.py:154 | every piece is stripped |
| VirtualCr.Pieces | src/dicom_mcp/virtual_cr.py:151-158 | the written views are never an empty list |
| VirtualCr.ParseViews | src/dicom_mcp/virtual_cr.py:145-164 | `_parse_views` computes the specified views |
| VirtualCr.SplitViews | src/dicom_mcp/virtual_cr.py:151-158 | the separator loop computes the written views |
| VirtualCr.FitViews | src/dicom_mcp/virtual_cr.py:161-164 | the padding loop and slice compute the fitted views |
| VirtualCr.ViewsFitCount | src/dicom_mcp/virtual_cr.py:161-164 | for count >= 0 there are exactly count views: the written ones in order, padded with the last |
| VirtualCr.EmptyViewsAreAp | src/dicom_mcp/virtual_cr.py:147-148 | an empty view string gives count copies of 'AP' |
| VirtualCr.SeparatorPrecedence | src/dicom_mcp/virtual_cr.py:152-155 | only the first separator present splits, even when a later one occurs too |
| VirtualCr.ViewsStripped | src/dicom_mcp/virtual_cr.py:154-158 | no view starts or ends with whitespace |
| VirtualCr.NoSeparatorOneView | src/dicom_mcp/virtual_cr.py:157-158 | without a separator the result is the one stripped string |
| VirtualCr.ResolveMode | src/dicom_mcp/virtual_cr.py:65-66 | 'auto' becomes 'ai' iff an API key is set, 'simple' otherwise; other modes are kept |
| VirtualCr.ImageCount | src/dicom_mcp/virtual_cr.py:71 | a non-zero num_images wins; otherwise the stored count, 1 when absent; it raises iff the stored count is not an integer |
| VirtualCr.StoredCountRead | src/dicom_mcp/virtual_cr.py:71 | a stored count `str(n)` is read as n |
| VirtualCr.ModeAfterMeaning | src/dicom_mcp/virtual_cr.py:83-101 | the final mode is 'simple' iff it started 'ai' and some image's AI generation raised; otherwise it is unchanged |
| VirtualCr.CreateStudy | src/dicom_mcp/virtual_cr.py:46-143 | fails iff the count is invalid; otherwise one file per parsed view numbered 1..n in view order, num_images equal to the number of files, the resolved and possibly fallen-back mode, and the given or generated study UID |
| VirtualCr.CreateFiles | src/dicom_mcp/virtual_cr.py:82-134 | the loop creates file i+1 for view i and tracks the fallback mode |
| VirtualCr.BodyText | src/dicom_mcp/virtual_cr.py:306-316 | the body text never contains an upper-case letter |
| VirtualCr.NormalIsUnremarkable | src/dicom_mcp/virtual_cr.py:327-330 | an empty description, or 'normal' in any case, gives the unremarkable clause |
| VirtualCr.FindingsDistinguished | src/dicom_mcp/virtual_cr.py:327-328 | two different shown descriptions give two different prompts |
| VirtualCr.PromptIgnoresModality | src/dicom_mcp/virtual_cr.py:302-336 | the modality argument does not affect the prompt |
| MysqlClient.ClampLimit | src/dicom_mcp/mysql_client.py:83 | the limit is clamped into [1, 100] and kept when already inside |
| MysqlClient.ClampOffset | src/dicom_mcp/mysql_client.py:84 | the offset is clamped to >= 0 and kept when already non-negative |
| MysqlClient.WhereClause | src/dicom_mcp/mysql_client.py:98 | the WHERE clause is empty iff there are no filters |
| MysqlClient.JoinFiltersPlaceholders | src/dicom_mcp/mysql_client.py:98 | joining with " AND " adds no placeholder |
| MysqlClient.BuildPatientQuery | src/dicom_mcp/mysql_client.py:83-123 | the statement over the given filters, and the filter parameters followed by the clamped limit and offset |
| MysqlClient.ListPatients | src/dicom_mcp/mysql_client.py:73-141 | count equals the number of returned rows, and the clamped limit and offset and the filters are echoed |
| MysqlClient.ParametersMatchPlaceholders | src/dicom_mcp/mysql_client.py:89-123 | the number of parameters equals the number of `%s` placeholders in the statement |
| MysqlClient.FixedPlaceholders | src/dicom_mcp/mysql_client.py:90-121 | the mrn filter has one placeholder, the name filter two, the paging tail two, the column list none |
| MysqlClient.FilterShape | src/dicom_mcp/mysql_client.py:89-98 | no WHERE clause iff neither filter is given; the mrn parameter comes first; the name filter binds `%name%` twice |
| ServerConfig.DefaultServer | src/dicom_mcp/server_config.py:50-54 | the configured name if it names a server, otherwise the first key; always a key |
| ServerConfig.LoadConfig | src/dicom_mcp/server_config.py:32-57 | fails iff the file is missing (FileNotFound), the document is not a non-empty mapping, or there are no servers; otherwise the table and a default that is a key |
| ServerConfig.CurrentEntry | src/dicom_mcp/server_config.py:65-68 | an entry iff a non-empty current name names a server, and then that server's entry |
| ServerConfig.ServerConfigManager.Loaded | src/dicom_mcp/server_config.py:15-30 | after loading, current equals default, and both name servers |
| ServerConfig.ServerConfigManager.GetCurrentServer | src/dicom_mcp/server_config.py:59-68 | the current entry of the loaded table and selection |
| ServerConfig.ServerConfigManager.SetCurrentServer | src/dicom_mcp/server_config.py:70-83 | returns True iff the name is a server, and only then selects it; the table and default never change |
| ServerConfig.ServerConfigManager.ListServers | src/dicom_mcp/server_config.py:85-91 | the loaded table |
| ServerConfig.Open | src/dicom_mcp/server_config.py:15-30 | the constructor fails exactly as loading does; otherwise a fresh, valid manager with current equal to the default |
| ServerConfig.SelectedIsCurrent | src/dicom_mcp/server_config.py:65-83 | a selected non-empty server name makes its entry current |
| ServerConfig.UnknownDefaultFallsBack | src/dicom_mcp/server_config.py:52-54 | an unknown configured current_server falls back to the first server |
| DicomConfig.EnvString | src/config.py:47-48 | the variable's value when it is set, else the default |
| DicomConfig.EnvInt | src/config.py:50-54 | `int()` of the variable when it is set and parses, else the default |
| DicomConfig.FromEnv | src/config.py:37-65 | the field-by-field override computes the specified configuration |
| DicomConfig.EnvReadsOnlyPrefixed | src/config.py:45-63 | only the four prefixed variables are read |
| DicomConfig.EnvDefaults | src/config.py:14-17 | with none set, the defaults 127.0.0.1, 11112, MCPSCU and 30 |
| DicomConfig.EnvIntegers | src/config.py:50-63 | a port or timeout `str(n)` is read as n; a non-integer keeps the default |
| DicomConfig.ToDict | src/config.py:19-21 | the keys are the four field names in declaration order |
| DicomConfig.UnexpectedKey | src/config.py:27-30 | finds a key that is not a field name, or confirms there is none |
| DicomConfig.FromDict | src/config.py:27-30 | raises iff some key is not a field name; otherwise each field is the given value or its default |
| DicomConfig.FromDictToDict | src/config.py:19-30 | `from_dict(to_dict(c)) == c` |
| DicomConfig.ToDictFromDict | src/config.py:19-30 | every value a dictionary supplies is what `to_dict` of the loaded configuration reports |
| Resources.BaseName | src/dicom_mcp/resources.py:34 | `Path.name` is the slash-free suffix of the path |
| Resources.ResourceOf | src/dicom_mcp/resources.py:61-72 | the defaults for name, description, media_type, tags and homepage; a path iff a non-empty filename |
| Resources.LoadResourceCatalog | src/dicom_mcp/resources.py:49-76 | empty for a missing manifest or no resources; otherwise the catalog the entries build |
| Resources.CatalogLookup | src/dicom_mcp/resources.py:59-74 | an id finds the resource of the last entry with that id, and nothing when no entry has it |
| Resources.CatalogKeys | src/dicom_mcp/resources.py:59-74 | keys are unique and are exactly the ids present; entries without an id are skipped |
| Resources.NoIdsEmptyCatalog | src/dicom_mcp/resources.py:59-74 | a manifest whose entries all lack an id gives an empty catalog |
| Resources.ToDict | src/dicom_mcp/resources.py:25-46 | has_local_content iff a path is set and exists; size 0 otherwise; content only when asked for and present, parsed for a JSON type whose text parses |
| DicomData.SetAttr | dicom-mwl-mpps/docker/mwl-api/mwl_handler.py:36 | the element part of `setattr` for a keyword: the element is present with the new value, every other keyword is unchanged, and no element other than the new one appears |
| DicomData.ObjSet | dicom-mwl-mpps/docker/mwl-api/mwl_handler.py:23 | `setattr` on a pydicom dataset: afterwards `getattr` gives the value and nothing else changes; a dictionary keyword becomes an element named by the dictionary and leaves the plain attributes alone, any other name becomes a plain attribute and leaves the elements alone |
| DicomData.CoherentHas | dicom-mwl-mpps/docker/mwl-api/mwl_handler.py:47 | on an object built by `setattr`, only dictionary keywords are elements, and for a keyword `hasattr` and `getattr` read the elements |
| PyDict.Put | src/utils.py:27-37 | `d[k] = v` sets k, leaves other keys, keeps a present key's position and appends a new one |
| PyDict.FromPairsLookup | src/utils.py:24-37 | after assigning pairs in turn, a key reads the value of its last pair |
| PyDict.FromPairsKeys | src/utils.py:24-37 | after assigning pairs in turn, keys are unique and exactly the assigned keys |
| PyDict.PutKeys | src/dicom_mcp/resources.py:64 | assigning a key adds that key and keeps the others |
| Text.Strip | src/dicom_mcp/virtual_cr.py:154-158 | `strip()` removes exactly the leading and trailing whitespace |
| Text.Lower | src/dicom_mcp/virtual_cr.py:316 | `lower()` maps each character |
| Text.Split | src/dicom_mcp/virtual_cr.py:154 | `split(sep)` gives at least one piece, and the whole string when sep is absent |
| Text.JoinSplit | src/dicom_mcp/virtual_cr.py:154 | joining the pieces of a split gives the string back |
| Text.ParseIntToString | src/config.py:50-63 | `int(str(n)) == n` |

## Left out

- The DIMSE transport, the AE setup and server start (`app.py:329-345`), and logging and tracebacks. Each handler is one atomic step, and concurrency between associations is not modelled.
- The pydicom byte codec. A stored blob is either one the encoder produced, which decodes to its dataset, or unreadable bytes. That `Decode(Encode(d)) == Some(d)` is an assumption built into the representation, not a proof.
- The legacy-schema branches of N-CREATE and N-SET (`app.py:142-143`, `165-189`, `245-246`, `286-311`). The `mpps` table is taken to exist. The legacy branches depend on `str()` of pydicom values.
- Faults are one boolean per call. The model does not say which statement failed, because the only commit is the last step.
- The `rowcount` of an update is taken to be the number of rows whose key equals the parameter. MySQL's default "affected rows" would not count rows already holding the new values.
- WorklistRecords.GetMwlByAccession: the selects that fetch one row (`db_utils.py:107-110`, `Store.Datastore.SelectPendingId` for `app.py:129-133` and `Store.Datastore.SelectAccessionForUid` for `app.py:274-278`) are modelled as reading the first matching row. mysql-connector's unbuffered cursor raises "Unread result found" at the next statement when more rows matched. It does so at `app.py:142` in N-CREATE (two pending rows with the accession number), at `app.py:281` or the commit at `app.py:313` in N-SET (two steps with the UID), and in the `finally` close at `db_utils.py:116-117`, where `get_mwl_by_accession` raises instead of returning. The handlers then answer 0xC000; the model answers as if the first row were the only one. WorklistService.StartThenComplete requires at most one pending row with the accession number for this reason.
- VirtualCr.StudyRequest and Resources.ManifestEntry: an absent key and a key present with value null are the same `None`. The source differs: `int(mwl_data.get('typical_image_count', 1))` raises TypeError on a stored null (`virtual_cr.py:71`), where VirtualCr.ImageCount reads 1, and `entry.get("name", resource_id)` gives None for `name: null` (`resources.py:66`), where Resources.ResourceOf gives the id.
- Equality in SQL is exact. MySQL's case-insensitive collation is not modelled. NULL equals nothing.
- Rollback restores the auto-increment counters. MySQL does not reuse an id that an aborted insert consumed.
- Rows are stored as the fields extracted at insert. SQL column types and truncation are not modelled.
- WorklistRecords.PyStr: `str()` of multi-valued and sequence values is left unrendered, because pydicom's textual rendering is not modelled.
- Python values are limited to what the model's datatypes hold. There are no floats in JSON or datasets. The configuration fields hold a string or an integer only. `int()` is applied to strings only.
- The YAML parser. The parsed document is an input. The `servers` value is assumed to be a mapping of names to entries, and manifest entries are assumed to be mappings. A `resources` key holding null or a non-list makes the source raise TypeError; that case is not modelled.
- ServerConfig.LoadConfig: the source wraps the invalid-format and no-servers errors, like any other, in a RuntimeError. The model keeps them as two error kinds.
- Paths join as `dir + "/" + file`. There is no normalisation of absolute file names or repeated slashes.
- The file system in `StaticResource.to_dict` is a map from path to size and text. Whether a JSON resource parses is an input flag.
- The SQL statement of `list_patients` is modelled as text fragments and placeholders, so that placeholders can be counted. The database's answer is an input.
- VirtualCr: image drawing, noise, sample images, the OpenAI call, `_create_dicom_file` and `send_to_pacs` are not modelled (floats, randomness, the network). Whether AI generation raises for an image is an input, as is a missing `modality_code`.
- VirtualCr prompt lemmas are stated over `Assemble`, so they hold for any opening and closing text. `BuildAiPrompt` is `Assemble` over the source's fixed text.
- JsonWorklist.Assign: pydicom's value conversion on `setattr` is not modelled. A text value is stored as given; pydicom would split one containing `\` into a multi-value and check it against the keyword's VR. A repeater keyword, which makes `setattr` raise, and the warning for a camel-case name that is no keyword are not modelled either.
- JsonWorklist.Converted: an item of a sequence keeps its elements only. Plain attributes that a non-keyword key sets on an item are dropped, since sequence items are element lists here. Nothing in the code reads them, and the encoder does not write them.
- DicomData.SetAttr: a new element is appended, so element order is insertion or decode order. pydicom keeps elements in tag order, which iteration (`app.py:45`, `src/utils.py:24`) and the encoder follow. Tags are not modelled. The dictionary that gives keywords and display names is an input. Sequence items are compared as ordered element lists, so two items holding the same elements in a different order are unequal here, where pydicom's tag-keyed `Dataset.__eq__` (used by the match at `app.py:51`) finds them equal.
- Text functions cover ASCII only. Whitespace is the ASCII set Python's `str.isspace` accepts; there is no Unicode case mapping.
- `load_from_file`, `save_to_file`, `to_json` and `from_json` in `src/config.py` are file and JSON I/O. They are not part of this model.
- The network clients, the web UI and LLM endpoints, the PDF report generator and the import-time configuration loaders are not part of this model.
