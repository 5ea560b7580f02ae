# Jira dashboard adapter — a Dafny model of its decision logic

The adapter is an Express server between a dashboard and Jira Cloud. It forwards most requests
unchanged. This project models the parts that decide something:

- **Search bounding** (`JqlBounds`). The `/search/jql` endpoint refuses unbounded queries. So
  before forwarding a free-form query, the search route tests the lower-cased text with two
  regular expressions, `project\s*(=|in)\s*` and `created\s*(>=|<=|>|<|=)\s*`. When neither
  matches, it puts `created >= -365d` in front of the query. The glue is a single space for a
  query that begins with `ORDER BY`, and ` AND ` for any other non-blank query. A blank query is
  replaced by the restriction.
  - Each regular expression is a ghost predicate stating what a match is (`MatchesClause`).
  - The computable scan is proved to decide exactly that predicate.
- **Listing query** (`ListingQuery`). The structured listing route builds its query with one
  `+=` per filter present. The filters are status, priority, assignee, created-after and
  created-before. The query always ends with ` ORDER BY created DESC`.
  - The method `BuildListingQuery` performs these steps.
  - It is proved equal to the function `Listing`, and the lemmas are stated about `Listing`.
- **Route decisions** (`JiraRoutes`):
  - the upstream parameters of both search routes, with their default paging and fields;
  - the normalisation of an upstream page into `{issues, startAt, maxResults, total}`;
  - the guard that answers a transition without `transitionId` with 400;
  - the guard that answers a project without boards with 404.
- **Priority overlay** (`PriorityStore`). A JSON file maps issue keys to labels chosen in the
  dashboard.
  - The file is the class `PriorityFile`.
  - Its `priorities` field is a `map<string, string>` that each route method reassigns.
  - Three flags say whether the file exists, whether its text parses, and whether writing it
    succeeds. Startup writes `{}` only over a missing file. A corrupt file survives, fails every
    read route with 500, and only a clear repairs it.
  - The pure function `Apply` gives the map after one change. Each method's postcondition
    connects to it.
  - `Replay` gives the map after a series of changes. Lemmas about it prove last-writer-wins
    per key, and that clear forgets history.
- **Error translation** (`ErrorHandling`). The last two middlewares are the 404 answer for
  unmatched routes and the translator from a forwarded error to a status and an
  `{error: {message, details, status}}` body.
- **Shared text operations** (`Text`). These model the JavaScript string operations the routes
  use:
  - `\s` and `String.prototype.trim`, over the same ECMAScript whitespace set;
  - `toLowerCase` and `toUpperCase`;
  - `Array.prototype.join` and its inverse split.

Request values that JavaScript tests for truthiness are `Option`s: `jql`, `assignee`,
`createdAfter` and `createdBefore` are `Option<string>`, `status` and `priority` are
`Option<FilterValue>`, and `fields` is `Option<seq<string>>`. `None` stands for absent or
`null`, and also for every other falsy value (`""`, `0`, `false`), since the source reads each
of these values only through `||` or an `if`/`&&` truthiness test, where all falsy values
behave alike.

The transition and board handlers answer their refusals themselves, with `{error: '<text>'}`,
and these never reach the error translator. `PlanTransition` and `PlanBoard` carry that status
and that text.

A property assignment on the object that `JSON.parse` returns goes to the inherited
`__proto__` setter when the key is `__proto__` and the object has no such key of its own. That
setter ignores a string. So setting the priority of `__proto__` stores nothing and still answers
200. `Apply` and `PriorityFile.Set` model this, and `ProtoKeyIgnored` states it.

## Model

| member | source | states |
|---|---|---|
| JqlBounds.BoundQuery | routes/jira.js:67-82 | the query sent upstream: a bounded query unchanged; otherwise text that starts with `created >= -365d` and, unless it is exactly the restriction, ends with the original query |
| JqlBounds.IsBounded | routes/jira.js:67-72 | true exactly when the lower-cased query matches the project regular expression or the creation-date regular expression |
| JqlBounds.BoundedIgnoresCase | routes/jira.js:67-69 | the bounding test is case-insensitive: a query upper-cased or lower-cased first is bounded exactly when the original is |
| JqlBounds.IsOrderByLed | routes/jira.js:75 | `jql.trim().toUpperCase().startsWith('ORDER BY')`, proved to hold exactly when the text with leading whitespace removed starts with ORDER BY once upper-cased; trailing whitespace never matters |
| JqlBounds.HasProjectRestriction | routes/jira.js:67-68 | the scan answers true exactly when the lower-cased query holds `project`, optional whitespace, then `=` or `in` |
| JqlBounds.HasCreatedRestriction | routes/jira.js:69 | the scan answers true exactly when the lower-cased query holds `created`, optional whitespace, then one of `>=`, `<=`, `>`, `<`, `=` |
| JqlBounds.FindClauseFromCorrect | routes/jira.js:68-69 | scanning from position i with a greedy whitespace skip finds a clause exactly when the regular expression has a match starting at or after i |
| JqlBounds.BoundedUnchanged | routes/jira.js:67-72 | the query is sent unchanged if and only if it already has a project or creation-date clause |
| JqlBounds.BlankUnbounded | routes/jira.js:67-72 | a whitespace-only query has neither clause |
| JqlBounds.OrderByLedQuery | routes/jira.js:73-76 | an unbounded query whose trimmed, upper-cased text starts with ORDER BY becomes `created >= -365d ` followed by its untrimmed text, with no AND |
| JqlBounds.ClauseQuery | routes/jira.js:77-78 | an unbounded, non-blank query not led by ORDER BY becomes `created >= -365d AND ` followed by the query |
| JqlBounds.BlankQuery | routes/jira.js:79-80 | an absent, empty or whitespace-only query becomes exactly `created >= -365d` |
| JqlBounds.RestrictionBounded | routes/jira.js:73 | any text that starts with the restriction passes the creation-date test, and so the bounding test |
| JqlBounds.BoundQueryIsBounded | routes/jira.js:69-81 | every query sent upstream passes the bounding test, and every query the route changed passes the creation-date test |
| JqlBounds.BoundQueryIdempotent | routes/jira.js:67-82 | bounding an already bounded query yields the same query |
| JqlBounds.OrderByOnlyExample | routes/jira.js:74-76 | `ORDER BY created DESC` is sent as `created >= -365d ORDER BY created DESC` |
| JqlBounds.ProjectQueryExample | routes/jira.js:67-72 | `project = ABC` is sent verbatim |
| Text.Trim | routes/jira.js:75 | `String.prototype.trim`: the result is the text between a leading and a trailing run of ECMAScript whitespace, and neither starts nor ends with whitespace itself |
| Text.TrimEndPrefix | routes/jira.js:75 | the trailing half of `trim` keeps a prefix of its input and removes only whitespace |
| Text.Lower | routes/jira.js:67 | `toLowerCase` on ASCII: same length, each capital becomes its small letter (code point plus 32), every other character kept |
| Text.LowerForgetsCase | routes/jira.js:67 | lower-casing forgets the case the text was written in: `toLowerCase` after `toUpperCase`, or twice, equals `toLowerCase` once |
| Text.Upper | routes/jira.js:75 | `toUpperCase` on ASCII: same length, each small letter becomes its capital (code point minus 32), every other character kept |
| Text.Join | routes/jira.js:102 | `Array.prototype.join`: an empty list gives the empty string; otherwise the first part leads, followed by the separator when more parts follow |
| Text.TrimBlank | routes/jira.js:77 | `jql.trim()` is empty exactly when the query is all whitespace |
| Text.SplitJoin | routes/jira.js:102 | joining comma-free, non-empty field lists with commas loses nothing: splitting at commas gives the list back |
| ListingQuery.BuildListingQuery | routes/jira.js:139-145 | the step-by-step construction yields exactly the project clause, each given filter's clause in fixed order, then the ordering suffix |
| ListingQuery.Listing | routes/jira.js:139-145 | the listing query is the project clause, each given filter's clause in fixed order, then the ordering; it always starts with `project = <key>` and ends with ` ORDER BY created DESC` |
| ListingQuery.PartsPresentWhenGiven | routes/jira.js:140-144 | each filter contributes a non-empty clause if and only if it is truthy |
| ListingQuery.NoFilters | routes/jira.js:139-145 | with no filter given, the query is `project = <key> ORDER BY created DESC` |
| ListingQuery.SingleLikeOneElementArray | routes/jira.js:140-141 | a single value renders as one quoted item, like a one-element array |
| ListingQuery.ItemsAppend | routes/jira.js:140-141 | one more array value adds `,"v"` to the items: values are quoted and comma-joined with no spaces |
| ListingQuery.ListingIsBounded | routes/jira.js:139 | every listing query passes the search route's bounding test, and bounding leaves it unchanged |
| ListingQuery.ListsOnly | routes/jira.js:139-145 | without assignee and date filters, the query is the project clause, the two list clauses and the ordering |
| ListingQuery.StatusAndPriorityExample | routes/jira.js:139-145 | `?status=Open&priority=High` on ABC gives `project = ABC AND status in ("Open") AND priority in ("High") ORDER BY created DESC` |
| ListingQuery.ValuesNotEscaped | routes/jira.js:142 | the assignee value appears verbatim between the two double quotes of its clause |
| JiraRoutes.Normalize | routes/jira.js:107-112 | issues are the upstream list or empty, paging is echoed, and the total is the upstream total when present (0 included), else the page length |
| JiraRoutes.NormalizeFixedPoint | routes/jira.js:157-162 | an envelope taken as an upstream page normalises to itself |
| JiraRoutes.TotalFallsBack | routes/jira.js:111 | without an upstream total, the total is the issue count, or 0 when the list is missing too |
| JiraRoutes.SearchRequest | routes/jira.js:97-104 | the free-form search sends the bounded query, and the requested paging or the defaults 0 and 50 |
| JiraRoutes.SearchFieldsRecoverable | routes/jira.js:86-102 | the field parameter splits back into the requested fields, or into the eight default fields |
| JiraRoutes.ProjectSearchScenario | routes/jira.js:67-72 | a search body with `project = ABC` reaches upstream with that query |
| JiraRoutes.SearchResponse | routes/jira.js:107-112 | the search answer echoes the paging it sent upstream |
| JiraRoutes.ListingRequest | routes/jira.js:147-154 | the listing route sends the listing query, the paging or its defaults, and the fixed nine-field list |
| JiraRoutes.RoutesShareEnvelope | routes/jira.js:157-162 | both routes answer the same page with the same envelope for the same paging |
| JiraRoutes.PlanTransition | routes/jira.js:201-207 | a falsy transition id is refused with 400 "Transition ID is required" if and only if no transition is posted; otherwise the id goes to the issue's transitions resource |
| JiraRoutes.PlanBoard | routes/jira.js:223-227 | an empty board list is answered with 404 "No board found for this project"; a missing list fails; otherwise the first board's id is used |
| JiraRoutes.FirstBoardWins | routes/jira.js:227 | boards after the first never change the outcome |
| PriorityStore.Apply | routes/priorities.js:49-82 | a put sets the key and keeps every other entry, except that a put of `__proto__` on a map without it changes nothing; a delete removes only the key; a clear empties the map |
| PriorityStore.Replay | routes/priorities.js:37-88 | the map after a series of changes; every label it holds was there at the start or put by one of the changes |
| PriorityStore.ProtoKeyIgnored | routes/priorities.js:49 | setting `__proto__` on a map that lacks it stores nothing, even right after a clear |
| PriorityStore.ReplayIsLastWrite | routes/priorities.js:37-88 | after any series of changes, each key holds what the last change touching it left, or its original value |
| PriorityStore.ClearForgetsHistory | routes/priorities.js:80-88 | after a clear, the map depends only on later changes |
| PriorityStore.DeleteAbsentIsNoOp | routes/priorities.js:68 | deleting a key that is not stored changes nothing |
| PriorityStore.PutThenDelete | routes/priorities.js:49-68 | setting and then deleting a key is the same as deleting it alone |
| PriorityStore.PriorityFile.constructor | routes/priorities.js:6 | the store starts with the file state found at startup |
| PriorityStore.PriorityFile.Initialize | routes/priorities.js:9-20 | writes an empty map only when the file is missing and the write succeeds; an existing file, parsable or not, is left untouched |
| PriorityStore.PriorityFile.GetAll | routes/priorities.js:26-34 | answers exactly the stored map, or 500 "Failed to read priorities" when the file is missing or does not parse |
| PriorityStore.PriorityFile.Set | routes/priorities.js:37-58 | a falsy priority gives 400 and an unchanged map; a missing or corrupt file or a failed write gives 500 and an unchanged map; otherwise the key maps to the priority (except the ignored `__proto__`) and every other key is unchanged |
| PriorityStore.PriorityFile.Remove | routes/priorities.js:61-77 | removes the key, even when absent, keeping every other key; a missing or corrupt file or a failed write gives 500 and an unchanged map |
| PriorityStore.PriorityFile.Clear | routes/priorities.js:80-88 | the map becomes empty whatever it held, and the file then exists and parses, even if it was corrupt; a failed write gives 500 and changes nothing |
| ErrorHandling.Translate | index.js:82-117 | axios errors give the upstream status or 500, the upstream data or the message; a validation error gives 400; anything else gives 500, with details only in development |
| ErrorHandling.AxiosTakesPrecedence | index.js:90-107 | an axios error named ValidationError is still a Jira API error |
| ErrorHandling.NoReplyIsServerError | index.js:90-97 | an axios error without an upstream reply is a 500 whose details are the message |
| ErrorHandling.TranslatedStatus | index.js:89-116 | the translator invents only 400 and 500; any other status is the upstream one, and 400 means validation or upstream 400 |
| ErrorHandling.ModeOnlyHidesInternalDetails | index.js:111-116 | the mode changes nothing but the details of an internal error |
| ErrorHandling.NotFound | index.js:72-78 | an unmatched route gets 404 "Not found" with details `Route <method> <url> not found` |
| ErrorHandling.NotFoundDetailsInjective | index.js:76 | for space-free method names, the details text determines the method and the URL |

## Left out

- Text.Lower, Text.Upper: `toLowerCase` and `toUpperCase` are modelled on ASCII letters only, and other characters map to themselves. JavaScript applies full Unicode case mapping, including special casing that can produce ASCII letters. For example, `toUpperCase` turns U+1E99 into `Y` followed by U+030A, so `order b` followed by U+1E99 takes the ORDER BY branch in the source but the AND branch in the model.
- Request values are modelled with one shape each: `status` and `priority` are a string or an array of strings; `assignee`, `createdAfter`, `createdBefore` and the body's `jql` are strings or absent; the body's `fields` is an array of strings or absent; paging values go through the integer parse. Falsy values of any type (`0`, `false`, `""`) act exactly like an absent value and so are covered by `None`: for `jql`, routes/jira.js:67 reads `(jql || '')` and the guards at 75 and 77 fail, giving `created >= -365d`. Truthy values of another type (`true`, `5`, `{}`, `[]` for `jql`) are not modelled; on `jql` they make `toLowerCase` at routes/jira.js:67 throw, and the request answers 500.
- A repeated `assignee`, `createdAfter` or `createdBefore` query parameter is not modelled. Express then delivers an array, and the template literals at routes/jira.js:142-144 render it as its elements joined by commas, such as `assignee = "a,b"`.
- A truthy `fields` body value that is not an array (a non-empty string, say) is not modelled. `join` is then not a function, so routes/jira.js:102 throws a TypeError and the request answers 500 through the error translator. A falsy `fields` (`""`, `0`, `false`) gets the eight default fields through `fields ||` at routes/jira.js:86, as `None` does.
- `parseInt` of `startAt` and `maxResults`: paging values are integers that are already parsed. NaN is not modelled.
- The HTTP client and the network. The upstream reply is a value handed to `Normalize`, `PlanBoard` and `Translate`, and the upstream call is the request record (`UpstreamSearch`, `PostTransition`, `FetchConfiguration`).
- File-system calls, `mkdir`, and JSON parsing and printing of the priorities file. The file is the `priorities` map plus three flags: it exists, it parses, writes succeed. A file whose text parses to JSON other than an object of strings (an array, a number, non-string values) is not modelled.
- The read-modify-write race between concurrent priority requests. These are asynchronous handlers, and the model is sequential.
- The pass-through routes (projects, issue details, transition list, statuses, users). They forward a request and its answer and decide nothing.
- Client construction, the base-URL trimming, the fatal exit on a missing base URL, and the startup connectivity check. These are configuration and process plumbing.
- CORS, request logging, `/health`, logging of errors and `listen`.
- `app.js`, a duplicate of the server wiring, is not part of this model.
- `test-connection.js`, a diagnostic network script, is not part of this model.
- Quote escaping in listing values: there is none in the source. Values are spliced verbatim, and `ValuesNotEscaped` states exactly that.
- The failure of a board reply whose `values` is absent or null is `PlanBoard`'s `MissingValues`. The thrown error that then travels to the translator is not modelled further. A `values` of another type is not modelled: an object has an undefined `length` and gets the 404 at routes/jira.js:223-225, and a non-empty string goes on to `values[0].id`.
