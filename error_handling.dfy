/** The application's last two middlewares: the 404 answer for a route nothing matched, and the
    error translator that turns whatever a handler forwarded with `next(error)` into a status
    and an `{error: {message, details, ...}}` body. */
module ErrorHandling {
  import opened Wrappers

  /** A JSON value as it may come back in an upstream error body. */
  datatype Json =
    | JNull
    | JBool(b: bool)
    | JNumber(n: int)
    | JString(s: string)
    | JArray(items: seq<Json>)
    | JObject(members: map<string, Json>)

  /** JavaScript truthiness of a JSON value: `null`, `false`, `0` and `''` are falsy. */
  predicate Truthy(v: Json) {
    match v
    case JNull => false
    case JBool(b) => b
    case JNumber(n) => n != 0
    case JString(s) => s != ""
    case JArray(_) => true
    case JObject(_) => true
  }

  /** The upstream reply attached to an axios error, when there was one. */
  datatype UpstreamReply = UpstreamReply(status: Option<int>, data: Option<Json>)

  /** The fields of a forwarded error that the translator reads. */
  datatype Failure = Failure(isAxiosError: bool, response: Option<UpstreamReply>, name: string, message: string)

  /** The `error` object of the body. `details` and `status` are left out of the JSON when they
      are undefined, modelled as None. */
  datatype ErrorBody = ErrorBody(message: string, details: Option<Json>, status: Option<int>)

  datatype Reply = Reply(status: int, error: ErrorBody)

  /** `err.response?.status`. */
  function UpstreamStatus(err: Failure): Option<int> {
    if err.response.Some? then err.response.value.status else None
  }

  /** `err.response?.data`. */
  function UpstreamData(err: Failure): Option<Json> {
    if err.response.Some? then err.response.value.data else None
  }

  /** The error-handling middleware; `nodeEnv` is the value of NODE_ENV. */
  function Translate(err: Failure, nodeEnv: Option<string>): (r: Reply)
    // An axios error: the upstream status when it is truthy, else 500; the upstream data when
    // it is truthy, else the error's message.
    ensures err.isAxiosError ==>
      && r.error.message == "Jira API error"
      && r.status == (if UpstreamStatus(err).Some? && UpstreamStatus(err).value != 0 then UpstreamStatus(err).value else 500)
      && r.error.status == UpstreamStatus(err)
      && r.error.details == Some(if UpstreamData(err).Some? && Truthy(UpstreamData(err).value)
                                 then UpstreamData(err).value else JString(err.message))
    // A validation error that is not an axios error.
    ensures !err.isAxiosError && err.name == "ValidationError" ==>
      r == Reply(400, ErrorBody("Validation error", Some(JString(err.message)), None))
    // Anything else: the message is shown only in development mode.
    ensures !err.isAxiosError && err.name != "ValidationError" ==>
      && r.status == 500 && r.error.message == "Internal server error" && r.error.status.None?
      && (r.error.details.Some? <==> nodeEnv == Some("development"))
      && (r.error.details.Some? ==> r.error.details.value == JString(err.message))
  {
    if err.isAxiosError then
      var status := UpstreamStatus(err);
      var data := UpstreamData(err);
      Reply(
        if status.Some? && status.value != 0 then status.value else 500,
        ErrorBody(
          "Jira API error",
          Some(if data.Some? && Truthy(data.value) then data.value else JString(err.message)),
          status))
    else if err.name == "ValidationError" then
      Reply(400, ErrorBody("Validation error", Some(JString(err.message)), None))
    else
      Reply(500, ErrorBody(
        "Internal server error",
        if nodeEnv == Some("development") then Some(JString(err.message)) else None,
        None))
  }

  /** The axios test comes first: an axios error named ValidationError is still reported as a
      Jira API error. */
  lemma AxiosTakesPrecedence(err: Failure, nodeEnv: Option<string>)
    requires err.isAxiosError && err.name == "ValidationError"
    ensures Translate(err, nodeEnv).error.message == "Jira API error"
  {
  }

  /** An axios error without any upstream reply (a timeout, a refused connection) is a 500
      whose details are the error's own message. */
  lemma NoReplyIsServerError(err: Failure, nodeEnv: Option<string>)
    requires err.isAxiosError && err.response.None?
    ensures Translate(err, nodeEnv) == Reply(500, ErrorBody("Jira API error", Some(JString(err.message)), None))
  {
  }

  /** A translated error never answers with a success status unless upstream sent one, and the
      only statuses it invents are 400 and 500. */
  lemma TranslatedStatus(err: Failure, nodeEnv: Option<string>)
    ensures var s := Translate(err, nodeEnv).status;
      s == 400 || s == 500 || (err.isAxiosError && UpstreamStatus(err) == Some(s))
    ensures Translate(err, nodeEnv).status == 400 ==>
      err.name == "ValidationError" || UpstreamStatus(err) == Some(400)
  {
  }

  /** The mode decides nothing but the details of an internal error. */
  lemma ModeOnlyHidesInternalDetails(err: Failure, env1: Option<string>, env2: Option<string>)
    ensures var r1, r2 := Translate(err, env1), Translate(err, env2);
      r1.status == r2.status && r1.error.message == r2.error.message && r1.error.status == r2.error.status
    ensures err.isAxiosError || err.name == "ValidationError" ==> Translate(err, env1) == Translate(err, env2)
  {
  }

  /** The 404 handler's details text. */
  function RouteNotFoundDetails(verb: string, url: string): string {
    "Route " + verb + " " + url + " not found"
  }

  /** The 404 handler: every request no route answered. */
  function NotFound(verb: string, url: string): (r: Reply)
    ensures r.status == 404 && r.error.message == "Not found" && r.error.status.None?
    ensures r.error.details == Some(JString(RouteNotFoundDetails(verb, url)))
  {
    Reply(404, ErrorBody("Not found", Some(JString(RouteNotFoundDetails(verb, url))), None))
  }

  /** An HTTP method name has no space, so the details text names the method and the URL
      unambiguously. */
  lemma {:induction false} NotFoundDetailsInjective(m1: string, u1: string, m2: string, u2: string)
    requires ' ' !in m1 && ' ' !in m2
    requires RouteNotFoundDetails(m1, u1) == RouteNotFoundDetails(m2, u2)
    ensures m1 == m2 && u1 == u2
  {
    var d := RouteNotFoundDetails(m1, u1);
    assert d == "Route " + (m1 + (" " + (u1 + " not found")));
    assert d == "Route " + (m2 + (" " + (u2 + " not found")));
    var t := d[6..];
    assert t == m1 + (" " + (u1 + " not found"));
    assert t == m2 + (" " + (u2 + " not found"));
    SpaceSplit(m1, " " + (u1 + " not found"), m2, " " + (u2 + " not found"));
    var n := |m1|;
    assert t[n + 1..] == u1 + " not found" == u2 + " not found";
    assert u1 == (u1 + " not found")[..|u1|];
    assert |u1| == |u2|;
    assert u2 == (u2 + " not found")[..|u2|];
  }

  /** When two space-led suffixes follow space-free words in the same text, the words agree. */
  lemma SpaceSplit(a: string, x: string, b: string, y: string)
    requires ' ' !in a && ' ' !in b
    requires |x| > 0 && x[0] == ' ' && |y| > 0 && y[0] == ' '
    requires a + x == b + y
    ensures a == b && x == y
  {
    var t := a + x;
    assert t[|a|] == ' ' && t[|b|] == ' ';
    assert a == t[..|a|] && b == t[..|b|];
  }
}
