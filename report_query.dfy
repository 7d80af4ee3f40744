/** The query the reports hook sends for the signed-in user and the current
    report filters (`queryFn` in src/hooks/useReports.ts). The store that
    runs the query is not modelled: the result is the query itself. */
module ReportQuery {
  import opened Records

  datatype Period = Day | Month | Year | Custom

  /** The filter state of the reports page. An empty string means "no
      filter" for the four text fields; `period` only picks a preset in the
      page and is never sent. */
  datatype ReportFilters = ReportFilters(
    startDate: string,
    endDate: string,
    kind: string,
    categoryId: string,
    period: Period)

  /** The filters the page starts with. */
  const InitialFilters := ReportFilters("", "", "", "", Month)

  datatype Constraint =
    | Eq(column: string, value: string)
    | Gte(column: string, value: string)
    | Lte(column: string, value: string)

  datatype Ordering = Ordering(column: string, ascending: bool)

  /** A select on `transacoes` joined with its category, narrowed by
      `constraints` (all of which must hold) and sorted by `order`. */
  datatype Query = Query(table: string, constraints: seq<Constraint>, order: Ordering)

  /** How many of the four filter fields are set. */
  function SetFields(f: ReportFilters): nat {
    (if f.startDate != "" then 1 else 0) + (if f.endDate != "" then 1 else 0)
    + (if f.kind != "" then 1 else 0) + (if f.categoryId != "" then 1 else 0)
  }

  /** The constraints a query for `userId` and `f` may hold at all: none of
      them depends on `f.period`. */
  predicate FromFilters(c: Constraint, userId: string, f: ReportFilters) {
    || c == Eq("userid", userId)
    || (f.startDate != "" && c == Gte("quando", f.startDate))
    || (f.endDate != "" && c == Lte("quando", f.endDate))
    || (f.kind != "" && c == Eq("tipo", f.kind))
    || (f.categoryId != "" && c == Eq("category_id", f.categoryId))
  }

  /** The constraints the filter fields add after the user constraint, in
      the order the hook adds them. */
  function FilterConstraints(f: ReportFilters): seq<Constraint> {
    (if f.startDate != "" then [Gte("quando", f.startDate)] else [])
    + (if f.endDate != "" then [Lte("quando", f.endDate)] else [])
    + (if f.kind != "" then [Eq("tipo", f.kind)] else [])
    + (if f.categoryId != "" then [Eq("category_id", f.categoryId)] else [])
  }

  /** Each non-empty filter field adds one constraint and an empty one adds
      none. */
  lemma FilterConstraintsLength(f: ReportFilters)
    ensures |FilterConstraints(f)| == SetFields(f)
  {
  }

  /** Every constraint added comes from a non-empty field, never from the
      period, and none of them is on the user column. */
  lemma FilterConstraintsFromFilters(userId: string, f: ReportFilters)
    ensures forall c :: c in FilterConstraints(f) ==> FromFilters(c, userId, f) && c.column != "userid"
  {
  }

  /** The constraint of each field is present exactly when the field is
      set. */
  lemma FilterConstraintsPresence(f: ReportFilters)
    ensures Gte("quando", f.startDate) in FilterConstraints(f) <==> f.startDate != ""
    ensures Lte("quando", f.endDate) in FilterConstraints(f) <==> f.endDate != ""
    ensures Eq("tipo", f.kind) in FilterConstraints(f) <==> f.kind != ""
    ensures Eq("category_id", f.categoryId) in FilterConstraints(f) <==> f.categoryId != ""
  {
    forall c | c in FilterConstraints(f)
      ensures c.Gte? ==> c == Gte("quando", f.startDate) && f.startDate != ""
      ensures c.Lte? ==> c == Lte("quando", f.endDate) && f.endDate != ""
      ensures c.Eq? ==> (c == Eq("tipo", f.kind) && f.kind != "") || (c == Eq("category_id", f.categoryId) && f.categoryId != "")
    {
    }
  }

  /** No constraint is added twice. */
  lemma FilterConstraintsNoRepeats(f: ReportFilters)
    ensures forall i, j :: 0 <= i < j < |FilterConstraints(f)| ==> FilterConstraints(f)[i] != FilterConstraints(f)[j]
  {
  }

  /** The period preset never changes the query: only the four text fields
      do. */
  lemma FilterConstraintsIgnorePeriod(f: ReportFilters, p: Period)
    ensures FilterConstraints(f.(period := p)) == FilterConstraints(f)
  {
  }

  /** Builds the report query step by step. Without a user id (absent or
      empty) nothing is fetched. Otherwise the query reads `transacoes`,
      filters on the user first, then adds the constraints of the non-empty
      filter fields, and sorts by `quando`, newest first. */
  method BuildQuery(userId: Option<string>, filters: ReportFilters) returns (q: Option<Query>)
    ensures q.None? <==> !Truthy(userId)
    ensures q.Some? ==>
              q.value == Query("transacoes", [Eq("userid", userId.value)] + FilterConstraints(filters), Ordering("quando", false))
  {
    if !Truthy(userId) {
      return None;
    }
    var query := [Eq("userid", userId.value)];
    ghost var a := if filters.startDate != "" then [Gte("quando", filters.startDate)] else [];
    ghost var b := if filters.endDate != "" then [Lte("quando", filters.endDate)] else [];
    ghost var c := if filters.kind != "" then [Eq("tipo", filters.kind)] else [];
    ghost var d := if filters.categoryId != "" then [Eq("category_id", filters.categoryId)] else [];
    if filters.startDate != "" {
      query := query + [Gte("quando", filters.startDate)];
    }
    assert query == [Eq("userid", userId.value)] + a;
    if filters.endDate != "" {
      query := query + [Lte("quando", filters.endDate)];
    }
    assert query == [Eq("userid", userId.value)] + a + b;
    if filters.kind != "" {
      query := query + [Eq("tipo", filters.kind)];
    }
    assert query == [Eq("userid", userId.value)] + a + b + c;
    if filters.categoryId != "" {
      query := query + [Eq("category_id", filters.categoryId)];
    }
    assert query == [Eq("userid", userId.value)] + a + b + c + d;
    assert FilterConstraints(filters) == a + b + c + d;
    q := Some(Query("transacoes", query, Ordering("quando", false)));
  }
}
