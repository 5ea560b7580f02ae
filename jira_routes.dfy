/** The decisions of the Jira route handlers around the upstream calls: which parameters the two
    search routes send to `/rest/api/3/search/jql`, how the page that comes back is normalised
    into `{issues, startAt, maxResults, total}`, and the guards of the status-transition and
    board-configuration routes. The upstream calls themselves are values handed in. */
module JiraRoutes {
  import opened Wrappers
  import opened Text
  import JqlBounds
  import ListingQuery

  /** An issue is passed through untouched; only its key identifies it. */
  datatype Issue = Issue(key: string)

  /** The parts of a `/search/jql` reply the routes read; either may be missing or null. */
  datatype UpstreamPage = UpstreamPage(issues: Option<seq<Issue>>, total: Option<int>)

  /** The envelope both search routes answer with. */
  datatype SearchResult = SearchResult(issues: seq<Issue>, startAt: int, maxResults: int, total: int)

  /** The parameters of the upstream `/search/jql` call. */
  datatype UpstreamSearch = UpstreamSearch(jql: string, startAt: int, maxResults: int, fields: string)

  /** The body of `POST /api/jira/search`; `startAt` and `maxResults` are already parsed. */
  datatype SearchBody = SearchBody(
    jql: Option<string>, startAt: Option<int>, maxResults: Option<int>, fields: Option<seq<string>>)

  const DefaultStartAt: int := 0
  const DefaultMaxResults: int := 50

  /** The fields the free-form search asks for when the request names none. */
  const DefaultSearchFields: seq<string> :=
    ["summary", "description", "status", "priority", "assignee", "created", "updated", "project"]

  /** The fixed field list of the listing route. */
  const ListingFields: string := "summary,status,priority,assignee,created,updated,description,duedate,project"

  /** `{ issues: data.issues || [], startAt, maxResults, total: data.total ?? data.issues?.length ?? 0 }`. */
  function Normalize(page: UpstreamPage, startAt: int, maxResults: int): (r: SearchResult)
    ensures r.issues == (if page.issues.Some? then page.issues.value else [])
    ensures r.startAt == startAt && r.maxResults == maxResults
    ensures page.total.Some? ==> r.total == page.total.value
    ensures page.total.None? ==> r.total == |r.issues|
  {
    SearchResult(
      page.issues.GetOr([]), startAt, maxResults,
      match page.total
      case Some(t) => t
      case None => match page.issues case Some(l) => |l| case None => 0)
  }

  /** An envelope handed back as an upstream page normalises to itself. */
  lemma NormalizeFixedPoint(page: UpstreamPage, startAt: int, maxResults: int)
    ensures var r := Normalize(page, startAt, maxResults);
      Normalize(UpstreamPage(Some(r.issues), Some(r.total)), r.startAt, r.maxResults) == r
  {
  }

  /** When upstream reports no total, as the `/search/jql` endpoint does, the total is the
      number of issues on the page, and zero when the issue list is missing too. */
  lemma TotalFallsBack(page: UpstreamPage, startAt: int, maxResults: int)
    requires page.total.None?
    ensures Normalize(page, startAt, maxResults).total
         == (if page.issues.Some? then |page.issues.value| else 0)
  {
  }

  /** The upstream call of the free-form search route. */
  function SearchRequest(body: SearchBody): (r: UpstreamSearch)
    ensures r.jql == JqlBounds.BoundQuery(body.jql)
    ensures r.startAt == body.startAt.GetOr(DefaultStartAt) && r.maxResults == body.maxResults.GetOr(DefaultMaxResults)
  {
    UpstreamSearch(
      JqlBounds.BoundQuery(body.jql),
      body.startAt.GetOr(DefaultStartAt),
      body.maxResults.GetOr(DefaultMaxResults),
      Join(body.fields.GetOr(DefaultSearchFields), ","))
  }

  /** The field list travels as one comma-joined string that splits back into the requested
      fields, or into the default fields when none were requested. */
  lemma SearchFieldsRecoverable(body: SearchBody)
    requires body.fields.Some? ==> body.fields.value != [] && forall p :: p in body.fields.value ==> ',' !in p
    ensures Split(SearchRequest(body).fields, ',') == body.fields.GetOr(DefaultSearchFields)
  {
    var fs := body.fields.GetOr(DefaultSearchFields);
    if body.fields.None? {
      assert forall p :: p in DefaultSearchFields ==> ',' !in p;
    }
    SplitJoin(fs, ',');
  }

  /** The request `{jql: "project = ABC"}` reaches upstream with its query verbatim. */
  lemma ProjectSearchScenario(body: SearchBody)
    requires body.jql == Some("project = ABC")
    ensures SearchRequest(body).jql == "project = ABC"
  {
    JqlBounds.ProjectQueryExample();
  }

  /** The free-form search route's answer to an upstream page. */
  function SearchResponse(body: SearchBody, page: UpstreamPage): (r: SearchResult)
    ensures var q := SearchRequest(body); r.startAt == q.startAt && r.maxResults == q.maxResults
    ensures r == Normalize(page, SearchRequest(body).startAt, SearchRequest(body).maxResults)
  {
    Normalize(page, body.startAt.GetOr(DefaultStartAt), body.maxResults.GetOr(DefaultMaxResults))
  }

  /** The query string of `GET /api/jira/:projectKey/issues`, besides the filters. */
  datatype ListingParams = ListingParams(
    startAt: Option<int>, maxResults: Option<int>, filters: ListingQuery.ListingFilters)

  /** The upstream call of the listing route. */
  function ListingRequest(projectKey: string, p: ListingParams): (r: UpstreamSearch)
    ensures r.jql == ListingQuery.Listing(projectKey, p.filters)
    ensures r.startAt == p.startAt.GetOr(DefaultStartAt) && r.maxResults == p.maxResults.GetOr(DefaultMaxResults)
    ensures r.fields == ListingFields
  {
    UpstreamSearch(
      ListingQuery.Listing(projectKey, p.filters),
      p.startAt.GetOr(DefaultStartAt),
      p.maxResults.GetOr(DefaultMaxResults),
      ListingFields)
  }

  /** Both routes answer with the same envelope for the same upstream page and paging. */
  lemma RoutesShareEnvelope(body: SearchBody, projectKey: string, p: ListingParams, page: UpstreamPage)
    requires body.startAt == p.startAt && body.maxResults == p.maxResults
    ensures SearchResponse(body, page)
         == Normalize(page, ListingRequest(projectKey, p).startAt, ListingRequest(projectKey, p).maxResults)
  {
  }

  // ---- Guards ----

  /** What `POST /api/jira/issue/:issueKey/transitions` does with its body. */
  datatype TransitionPlan =
    | RejectTransition(status: int, error: string)
    | PostTransition(path: string, transitionId: string)

  /** A falsy `transitionId` (absent, null or empty) is answered with 400 before any upstream
      call; otherwise the transition is posted to the issue's transitions resource. */
  function PlanTransition(issueKey: string, transitionId: Option<string>): (r: TransitionPlan)
    ensures r.RejectTransition? <==> (transitionId.None? || transitionId.value == "")
    ensures r.RejectTransition? ==> r.status == 400 && r.error == "Transition ID is required"
    ensures r.PostTransition? ==>
      r.transitionId == transitionId.value && r.path == "/rest/api/3/issue/" + issueKey + "/transitions"
  {
    if transitionId.None? || transitionId.value == "" then
      RejectTransition(400, "Transition ID is required")
    else
      PostTransition("/rest/api/3/issue/" + issueKey + "/transitions", transitionId.value)
  }

  datatype Board = Board(id: int)

  /** What the board route does with the boards upstream lists for the project. */
  datatype BoardPlan =
    | NoBoard(status: int, error: string)
    | FetchConfiguration(boardId: int)
    | MissingValues

  /** An empty `values` list is answered with 404; otherwise the first board's configuration is
      fetched. A reply whose `values` is absent or null makes `values.length` throw, and the error travels to
      the error-handling middleware. */
  function PlanBoard(values: Option<seq<Board>>): (r: BoardPlan)
    ensures r.MissingValues? <==> values.None?
    ensures r.NoBoard? <==> values == Some([])
    ensures r.NoBoard? ==> r.status == 404 && r.error == "No board found for this project"
    ensures r.FetchConfiguration? ==> |values.value| > 0 && r.boardId == values.value[0].id
  {
    match values
    case None => MissingValues
    case Some(vs) =>
      if |vs| == 0 then NoBoard(404, "No board found for this project")
      else FetchConfiguration(vs[0].id)
  }

  /** Boards after the first are never consulted. */
  lemma FirstBoardWins(first: Board, rest: seq<Board>, other: seq<Board>)
    ensures PlanBoard(Some([first] + rest)) == PlanBoard(Some([first] + other)) == FetchConfiguration(first.id)
  {
  }
}
