/** The query of the structured listing route (`GET /api/jira/:projectKey/issues`): a project
    clause, one AND clause per filter present, and a fixed ORDER BY suffix. Filter values are
    placed between double quotes exactly as received, without escaping. */
module ListingQuery {
  import opened Wrappers
  import opened Text
  import JqlBounds

  /** A query-string parameter: one value (`?status=Open`), or several when the parameter is
      repeated (`?status=Open&status=Done`), which Express hands over as an array. */
  datatype FilterValue = Single(value: string) | Multiple(values: seq<string>)

  datatype ListingFilters = ListingFilters(
    status: Option<FilterValue>,
    priority: Option<FilterValue>,
    assignee: Option<string>,
    createdAfter: Option<string>,
    createdBefore: Option<string>)

  const OrderSuffix: string := " ORDER BY created DESC"

  /** JavaScript truthiness of a parameter: absent and `''` are falsy, every array is truthy. */
  predicate FilterGiven(f: Option<FilterValue>) {
    match f
    case None => false
    case Some(Single(v)) => v != ""
    case Some(Multiple(_)) => true
  }

  predicate Given(v: Option<string>) {
    v.Some? && v.value != ""
  }

  function Quote(v: string): string {
    "\"" + v + "\""
  }

  /** The items between the parentheses of an `in (...)` clause: an array is mapped to quoted
      values joined with commas, a single value is quoted alone. */
  function InItems(f: FilterValue): string {
    match f
    case Single(v) => Quote(v)
    case Multiple(vs) => Join(seq(|vs|, i requires 0 <= i < |vs| => Quote(vs[i])), ",")
  }

  function InClause(field: string, f: FilterValue): string {
    " AND " + field + " in (" + InItems(f) + ")"
  }

  /** The clause each filter contributes: empty when the filter is not given. */
  function StatusPart(f: ListingFilters): string {
    if FilterGiven(f.status) then InClause("status", f.status.value) else ""
  }

  function PriorityPart(f: ListingFilters): string {
    if FilterGiven(f.priority) then InClause("priority", f.priority.value) else ""
  }

  function AssigneePart(f: ListingFilters): string {
    if Given(f.assignee) then " AND assignee = " + Quote(f.assignee.value) else ""
  }

  function CreatedAfterPart(f: ListingFilters): string {
    if Given(f.createdAfter) then " AND created >= " + Quote(f.createdAfter.value) else ""
  }

  function CreatedBeforePart(f: ListingFilters): string {
    if Given(f.createdBefore) then " AND created <= " + Quote(f.createdBefore.value) else ""
  }

  /** The listing query as a whole: the project clause, the filter clauses in their fixed
      order, the ordering suffix. It always starts with the project clause and ends with the
      ordering. */
  function Listing(projectKey: string, f: ListingFilters): (r: string)
    ensures "project = " + projectKey <= r
    ensures |r| >= |OrderSuffix| && r[|r| - |OrderSuffix|..] == OrderSuffix
  {
    var p := "project = " + projectKey;
    var q := p + StatusPart(f) + PriorityPart(f) + AssigneePart(f) + CreatedAfterPart(f) + CreatedBeforePart(f);
    PrefixOfAppend(p, StatusPart(f));
    PrefixOfAppend(p + StatusPart(f), PriorityPart(f));
    PrefixOfAppend(p + StatusPart(f) + PriorityPart(f), AssigneePart(f));
    PrefixOfAppend(p + StatusPart(f) + PriorityPart(f) + AssigneePart(f), CreatedAfterPart(f));
    PrefixOfAppend(p + StatusPart(f) + PriorityPart(f) + AssigneePart(f) + CreatedAfterPart(f), CreatedBeforePart(f));
    PrefixOfAppend(q, OrderSuffix);
    assert (q + OrderSuffix)[|q|..] == OrderSuffix;
    q + OrderSuffix
  }

  /** The route's construction, one `+=` per filter present. */
  method BuildListingQuery(projectKey: string, f: ListingFilters) returns (jql: string)
    ensures jql == Listing(projectKey, f)
  {
    jql := "project = " + projectKey;
    ghost var built := jql;
    if FilterGiven(f.status) {
      jql := jql + InClause("status", f.status.value);
    }
    Appended(built, StatusPart(f), jql);
    built := built + StatusPart(f);
    if FilterGiven(f.priority) {
      jql := jql + InClause("priority", f.priority.value);
    }
    Appended(built, PriorityPart(f), jql);
    built := built + PriorityPart(f);
    if Given(f.assignee) {
      jql := jql + (" AND assignee = " + Quote(f.assignee.value));
    }
    Appended(built, AssigneePart(f), jql);
    built := built + AssigneePart(f);
    if Given(f.createdAfter) {
      jql := jql + (" AND created >= " + Quote(f.createdAfter.value));
    }
    Appended(built, CreatedAfterPart(f), jql);
    built := built + CreatedAfterPart(f);
    if Given(f.createdBefore) {
      jql := jql + (" AND created <= " + Quote(f.createdBefore.value));
    }
    Appended(built, CreatedBeforePart(f), jql);
    jql := jql + OrderSuffix;
  }

  /** One step of the construction: the text so far followed by a possibly empty clause. */
  lemma Appended(before: string, part: string, after: string)
    requires after == before + part || (part == "" && after == before)
    ensures after == before + part
  {
    if part == "" {
      assert before + part == before;
    }
  }

  // ---- Properties of the listing query ----

  lemma PrefixOfAppend(a: string, b: string)
    ensures a <= a + b
  {
    assert (a + b)[..|a|] == a;
  }

  /** A filter contributes its clause exactly when it is given. */
  lemma PartsPresentWhenGiven(f: ListingFilters)
    ensures StatusPart(f) != "" <==> FilterGiven(f.status)
    ensures PriorityPart(f) != "" <==> FilterGiven(f.priority)
    ensures AssigneePart(f) != "" <==> Given(f.assignee)
    ensures CreatedAfterPart(f) != "" <==> Given(f.createdAfter)
    ensures CreatedBeforePart(f) != "" <==> Given(f.createdBefore)
  {
  }

  /** With no filter given the query is the project clause and the ordering alone. */
  lemma NoFilters(projectKey: string, f: ListingFilters)
    requires !FilterGiven(f.status) && !FilterGiven(f.priority)
    requires !Given(f.assignee) && !Given(f.createdAfter) && !Given(f.createdBefore)
    ensures Listing(projectKey, f) == "project = " + projectKey + " ORDER BY created DESC"
  {
  }

  /** A single value renders exactly like a one-element array: one quoted item. */
  lemma SingleLikeOneElementArray(v: string)
    ensures InItems(Single(v)) == InItems(Multiple([v]))
    ensures InItems(Single(v)) == "\"" + v + "\""
  {
  }

  /** Several values render as `"v1","v2",...`: quoted, comma-joined, no spaces. */
  lemma {:induction false} ItemsAppend(vs: seq<string>, v: string)
    requires vs != []
    ensures InItems(Multiple(vs + [v])) == InItems(Multiple(vs)) + "," + Quote(v)
    decreases |vs|
  {
    var qs := seq(|vs|, i requires 0 <= i < |vs| => Quote(vs[i]));
    var qs' := seq(|vs| + 1, i requires 0 <= i < |vs| + 1 => Quote((vs + [v])[i]));
    assert qs' == qs + [Quote(v)];
    JoinAppend(qs, Quote(v), ",");
  }

  lemma {:induction false} JoinAppend(parts: seq<string>, p: string, sep: string)
    requires parts != []
    ensures Join(parts + [p], sep) == Join(parts, sep) + sep + p
    decreases |parts|
  {
    if |parts| == 1 {
      assert parts + [p] == [parts[0], p];
    } else {
      assert (parts + [p])[1..] == parts[1..] + [p];
      JoinAppend(parts[1..], p, sep);
    }
  }

  /** Every listing query already carries a project clause, so the free-form route's bounding
      step would leave it unchanged. */
  lemma ListingIsBounded(projectKey: string, f: ListingFilters)
    ensures JqlBounds.IsBounded(Listing(projectKey, f))
    ensures JqlBounds.BoundQuery(Some(Listing(projectKey, f))) == Listing(projectKey, f)
  {
    var q := Listing(projectKey, f);
    PrefixOfAppend("project = ", projectKey);
    assert "project = " <= q;
    ProjectPrefixBounded(q);
  }

  /** Text that starts with `project = ` passes the project-restriction test. */
  lemma ProjectPrefixBounded(q: string)
    requires "project = " <= q
    ensures JqlBounds.IsBounded(q)
  {
    LowerFixed("project = ");
    LowerPrefix("project = ", q);
    var low := Lower(q);
    assert low[..10] == "project = ";
    assert low[..7] == "project" && low[7..8] == " ";
    assert "=" in JqlBounds.ProjectOps && "=" <= low[8..];
    assert JqlBounds.ClauseAt(low, "project", JqlBounds.ProjectOps, 0, 8);
  }

  /** Without the single-valued filters the query is the project clause, the two list clauses
      and the ordering. */
  lemma ListsOnly(projectKey: string, f: ListingFilters)
    requires !Given(f.assignee) && !Given(f.createdAfter) && !Given(f.createdBefore)
    ensures Listing(projectKey, f) == "project = " + projectKey + StatusPart(f) + PriorityPart(f) + OrderSuffix
  {
    var p := "project = " + projectKey + StatusPart(f) + PriorityPart(f);
    assert p + "" + "" + "" == p;
  }

  /** `GET /api/jira/ABC/issues?status=Open&priority=High`. */
  lemma StatusAndPriorityExample(f: ListingFilters)
    requires f == ListingFilters(Some(Single("Open")), Some(Single("High")), None, None, None)
    ensures Listing("ABC", f)
         == "project = ABC" + " AND status in (\"Open\")" + " AND priority in (\"High\")" + " ORDER BY created DESC"
  {
    ListsOnly("ABC", f);
    assert StatusPart(f) == " AND status in (\"Open\")";
    assert PriorityPart(f) == " AND priority in (\"High\")";
    assert "project = " + "ABC" == "project = ABC";
  }

  /** A value is spliced between double quotes exactly as received, so a value that holds a
      double quote ends the literal early. */
  lemma ValuesNotEscaped(v: string)
    requires v != ""
    ensures var a := AssigneePart(ListingFilters(None, None, Some(v), None, None));
      && |a| == |v| + 18
      && a[..17] == " AND assignee = \""
      && a[17..|a| - 1] == v
      && a[|a| - 1] == '"'
  {
  }
}
