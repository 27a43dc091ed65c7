/**
 * The paged patient listing of the mini-RIS client: clamping the page
 * bounds, assembling the WHERE clause and its parameters, and reporting
 * the page. A statement is text fragments and `%s` placeholders, so that
 * placeholders can be counted against the parameters bound to them.
 */
module MysqlClient {
  import opened Wrappers

  datatype SqlPart = Sql(text: string) | Placeholder

  datatype SqlParam = PStr(s: string) | PInt(i: int)

  /** The patient columns the listing selects, ordered by `updated_at`. */
  const SelectHead: seq<SqlPart> := [Sql(
    "SELECT patient_id, mrn, given_name, family_name, date_of_birth, sex, country_code, "
    + "preferred_language, phone, email, city, state, postal_code, created_at, updated_at "
    + "FROM patients")]

  const PageTail: seq<SqlPart> :=
    [Sql(" ORDER BY updated_at DESC LIMIT "), Placeholder, Sql(" OFFSET "), Placeholder]

  /** The two conditions the listing can filter on. */
  datatype Filter = MrnEquals | NameLike

  function FilterSql(f: Filter): seq<SqlPart> {
    match f
    case MrnEquals => [Sql("mrn = "), Placeholder]
    case NameLike => [Sql("(given_name LIKE "), Placeholder, Sql(" OR family_name LIKE "), Placeholder, Sql(")")]
  }

  /** A patient row as the driver returns it; its columns are not inspected. */
  datatype PatientRow = PatientRow(columns: seq<(string, string)>)

  datatype PatientPage = PatientPage(
    count: nat,
    patients: seq<PatientRow>,
    limit: int,
    offset: int,
    mrn: Option<string>,
    nameQuery: Option<string>)

  function Placeholders(parts: seq<SqlPart>): (n: nat)
    ensures n <= |parts|
  {
    if parts == [] then 0
    else Placeholders(parts[..|parts| - 1]) + (if parts[|parts| - 1].Placeholder? then 1 else 0)
  }

  lemma {:induction false} PlaceholdersAppend(a: seq<SqlPart>, b: seq<SqlPart>)
    ensures Placeholders(a + b) == Placeholders(a) + Placeholders(b)
    decreases |b|
  {
    if b == [] {
      assert a + b == a;
    } else {
      PlaceholdersAppend(a, b[..|b| - 1]);
      assert (a + b)[..|a + b| - 1] == a + b[..|b| - 1];
    }
  }

  /** `" AND ".join(filters)` over statement fragments. */
  function JoinFilters(filters: seq<Filter>): seq<SqlPart> {
    if filters == [] then []
    else if |filters| == 1 then FilterSql(filters[0])
    else JoinFilters(filters[..|filters| - 1]) + [Sql(" AND ")] + FilterSql(filters[|filters| - 1])
  }

  function TotalPlaceholders(filters: seq<Filter>): nat {
    if filters == [] then 0
    else TotalPlaceholders(filters[..|filters| - 1]) + Placeholders(FilterSql(filters[|filters| - 1]))
  }

  /** Joining adds no placeholder of its own. */
  lemma {:induction false} JoinFiltersPlaceholders(filters: seq<Filter>)
    ensures Placeholders(JoinFilters(filters)) == TotalPlaceholders(filters)
  {
    if |filters| > 1 {
      var init := filters[..|filters| - 1];
      JoinFiltersPlaceholders(init);
      PlaceholdersAppend(JoinFilters(init) + [Sql(" AND ")], FilterSql(filters[|filters| - 1]));
      PlaceholdersAppend(JoinFilters(init), [Sql(" AND ")]);
    } else if |filters| == 1 {
      assert filters[..0] == [];
    }
  }

  /** `" WHERE " + " AND ".join(filters) if filters else ""`. */
  function WhereClause(filters: seq<Filter>): (w: seq<SqlPart>)
    ensures w == [] <==> filters == []
  {
    if filters == [] then [] else [Sql(" WHERE ")] + JoinFilters(filters)
  }

  function Min(a: int, b: int): int { if a <= b then a else b }

  function Max(a: int, b: int): int { if a >= b then a else b }

  /** `max(1, min(limit, 100))`: within [1, 100], and the limit itself when
      it already is. */
  function ClampLimit(limit: int): (r: int)
    ensures 1 <= r <= 100
    ensures 1 <= limit <= 100 ==> r == limit
    ensures limit < 1 ==> r == 1
    ensures limit > 100 ==> r == 100
  {
    Max(1, Min(limit, 100))
  }

  /** `max(0, offset)`: never negative, and the offset itself when it is not. */
  function ClampOffset(offset: int): (r: int)
    ensures r >= 0 && (offset >= 0 ==> r == offset) && (offset < 0 ==> r == 0)
  {
    Max(0, offset)
  }

  /** Python truthiness of an optional string. */
  predicate Given(s: Option<string>) {
    s.Some? && s.value != ""
  }

  /** The filters and their parameters, in the order the listing adds them. */
  function Filters(mrn: Option<string>, nameQuery: Option<string>): seq<Filter> {
    (if Given(mrn) then [MrnEquals] else [])
    + (if Given(nameQuery) then [NameLike] else [])
  }

  function FilterParams(mrn: Option<string>, nameQuery: Option<string>): seq<SqlParam> {
    (if Given(mrn) then [PStr(mrn.value)] else [])
    + (if Given(nameQuery) then [PStr("%" + nameQuery.value + "%"), PStr("%" + nameQuery.value + "%")] else [])
  }

  function Statement(filters: seq<Filter>): seq<SqlPart> {
    SelectHead + WhereClause(filters) + PageTail
  }

  /** The statement and parameters `list_patients` executes. */
  method BuildPatientQuery(mrn: Option<string>, nameQuery: Option<string>, limit: int, offset: int)
    returns (sql: seq<SqlPart>, params: seq<SqlParam>)
    ensures sql == Statement(Filters(mrn, nameQuery))
    ensures params == FilterParams(mrn, nameQuery) + [PInt(ClampLimit(limit)), PInt(ClampOffset(offset))]
  {
    var lim := Max(1, Min(limit, 100));
    var off := Max(0, offset);
    var filters: seq<Filter> := [];
    params := [];
    if mrn.Some? && mrn.value != "" {
      filters := filters + [MrnEquals];
      params := params + [PStr(mrn.value)];
    }
    if nameQuery.Some? && nameQuery.value != "" {
      filters := filters + [NameLike];
      var likeTerm := "%" + nameQuery.value + "%";
      params := params + [PStr(likeTerm), PStr(likeTerm)];
    }
    assert filters == Filters(mrn, nameQuery);
    sql := Statement(filters);
    params := params + [PInt(lim), PInt(off)];
  }

  /** `list_patients`: the rows are what the database returns for the
      statement, passed in. */
  method ListPatients(mrn: Option<string>, nameQuery: Option<string>, limit: int, offset: int,
                      rows: seq<PatientRow>)
    returns (page: PatientPage)
    ensures page.count == |page.patients| && page.patients == rows
    ensures 1 <= page.limit <= 100 && page.limit == ClampLimit(limit)
    ensures page.offset >= 0 && page.offset == ClampOffset(offset)
    ensures page.mrn == mrn && page.nameQuery == nameQuery
  {
    var sql, params := BuildPatientQuery(mrn, nameQuery, limit, offset);
    page := PatientPage(|rows|, rows, ClampLimit(limit), ClampOffset(offset), mrn, nameQuery);
  }

  /** Every placeholder of the statement has exactly one parameter. */
  lemma ParametersMatchPlaceholders(mrn: Option<string>, nameQuery: Option<string>, limit: int, offset: int)
    ensures var filters := Filters(mrn, nameQuery);
      Placeholders(Statement(filters))
        == |FilterParams(mrn, nameQuery) + [PInt(ClampLimit(limit)), PInt(ClampOffset(offset))]|
  {
    var filters := Filters(mrn, nameQuery);
    FixedPlaceholders();
    PlaceholdersAppend(SelectHead + WhereClause(filters), PageTail);
    PlaceholdersAppend(SelectHead, WhereClause(filters));
    if filters != [] {
      PlaceholdersAppend([Sql(" WHERE ")], JoinFilters(filters));
      JoinFiltersPlaceholders(filters);
      if Given(mrn) && Given(nameQuery) {
        assert filters == [MrnEquals, NameLike] && filters[..1] == [MrnEquals];
        assert TotalPlaceholders(filters) == TotalPlaceholders([MrnEquals]) + 2;
        assert TotalPlaceholders([MrnEquals]) == TotalPlaceholders([]) + 1;
      } else if Given(mrn) {
        assert filters == [MrnEquals] && filters[..0] == [];
      } else {
        assert filters == [NameLike] && filters[..0] == [];
      }
      assert TotalPlaceholders(filters) == |FilterParams(mrn, nameQuery)|;
    }
  }

  /** The fixed fragments: no placeholder in the column list, one in the
      mrn filter, two in the name filter and two in the paging tail. */
  lemma FixedPlaceholders()
    ensures Placeholders(SelectHead) == 0 && Placeholders([Sql(" WHERE ")]) == 0
    ensures Placeholders(FilterSql(MrnEquals)) == 1 && Placeholders(FilterSql(NameLike)) == 2
    ensures Placeholders(PageTail) == 2
  {
    PlaceholdersCounted(SelectHead);
    PlaceholdersCounted([Sql(" WHERE ")]);
    PlaceholdersCounted(FilterSql(MrnEquals));
    PlaceholdersCounted(FilterSql(NameLike));
    PlaceholdersCounted(PageTail);
  }

  lemma {:induction false} PlaceholdersCounted(parts: seq<SqlPart>)
    ensures Placeholders(parts) == multiset(parts)[Placeholder]
  {
    if parts != [] {
      PlaceholdersCounted(parts[..|parts| - 1]);
      assert parts == parts[..|parts| - 1] + [parts[|parts| - 1]];
    }
  }

  /** The WHERE clause is empty exactly when neither filter is given; the
      name filter binds the same `%name%` term to both name columns. */
  lemma FilterShape(mrn: Option<string>, nameQuery: Option<string>)
    ensures WhereClause(Filters(mrn, nameQuery)) == [] <==> !Given(mrn) && !Given(nameQuery)
    ensures Given(nameQuery) ==>
      var p := FilterParams(mrn, nameQuery);
      |p| >= 2 && p[|p| - 1] == p[|p| - 2] == PStr("%" + nameQuery.value + "%")
    ensures Given(mrn) ==> FilterParams(mrn, nameQuery)[0] == PStr(mrn.value)
  {
  }
}
