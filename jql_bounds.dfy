/** The bounding step of the free-form search route (`POST /api/jira/search`): Jira's
    `/search/jql` endpoint refuses unbounded queries, so a query that restricts neither the
    project nor the creation date receives the default restriction `created >= -365d`. */
module JqlBounds {
  import opened Wrappers
  import opened Text

  /** The clause added to an unbounded query: issues created in the last 365 days. */
  const Restriction: string := "created >= -365d"

  /** The alternatives of `project\s*(=|in)\s*`. */
  const ProjectOps: seq<string> := ["=", "in"]

  /** The alternatives of `created\s*(>=|<=|>|<|=)\s*`. */
  const CreatedOps: seq<string> := [">=", "<=", ">", "<", "="]

  predicate StartsWithAny(t: string, ops: seq<string>) {
    exists op :: op in ops && op <= t
  }

  /** Every alternative begins with a character that `\s` does not match, so a greedy skip of
      whitespace finds the only place where one can start. */
  predicate OperatorsLed(ops: seq<string>) {
    forall op :: op in ops ==> |op| > 0 && !IsWhitespace(op[0])
  }

  lemma CreatedOpsLed()
    ensures OperatorsLed(CreatedOps)
  {
    assert forall op :: op in CreatedOps ==> op[0] in "<>=";
  }

  /** The regular expression `kw\s*(op1|op2|...)\s*` matches `s` with `kw` at `i` and the
      operator at `k`. The trailing `\s*` can always match the empty string, so it adds no
      condition. */
  ghost predicate ClauseAt(s: string, kw: string, ops: seq<string>, i: int, k: int) {
    && 0 <= i && i + |kw| <= k <= |s|
    && kw <= s[i..]
    && AllWhitespace(s[i + |kw|..k])
    && StartsWithAny(s[k..], ops)
  }

  /** What `RegExp.prototype.test` answers for that expression. */
  ghost predicate MatchesClause(s: string, kw: string, ops: seq<string>) {
    exists i, k :: ClauseAt(s, kw, ops, i, k)
  }

  /** Scans the start positions from `i` on, skipping whitespace greedily after the keyword. */
  function FindClauseFrom(s: string, kw: string, ops: seq<string>, i: nat): bool
    requires i <= |s|
    decreases |s| - i
  {
    || (kw <= s[i..] && StartsWithAny(s[SkipWhitespace(s, i + |kw|)..], ops))
    || (i < |s| && FindClauseFrom(s, kw, ops, i + 1))
  }

  /** The scan finds a clause at or after `i` exactly when the regular expression matches
      there. */
  lemma {:induction false} FindClauseFromCorrect(s: string, kw: string, ops: seq<string>, i: nat)
    requires i <= |s|
    requires OperatorsLed(ops)
    ensures FindClauseFrom(s, kw, ops, i) <==> exists i', k :: i <= i' && ClauseAt(s, kw, ops, i', k)
    decreases |s| - i
  {
    if i < |s| {
      FindClauseFromCorrect(s, kw, ops, i + 1);
    }
    if kw <= s[i..] {
      var j := SkipWhitespace(s, i + |kw|);
      if StartsWithAny(s[j..], ops) {
        assert ClauseAt(s, kw, ops, i, j);
      }
      forall k | ClauseAt(s, kw, ops, i, k)
        ensures k == j
      {
        ClauseEndsAtSkip(s, kw, ops, i, k);
      }
    }
    forall i', k | i <= i' && ClauseAt(s, kw, ops, i', k)
      ensures i' == i || (i < |s| && i + 1 <= i')
    {
    }
  }

  /** A match's operator starts where the greedy whitespace skip stops. */
  lemma ClauseEndsAtSkip(s: string, kw: string, ops: seq<string>, i: int, k: int)
    requires OperatorsLed(ops)
    requires ClauseAt(s, kw, ops, i, k)
    ensures k == SkipWhitespace(s, i + |kw|)
  {
    var j := SkipWhitespace(s, i + |kw|);
    var op :| op in ops && op <= s[k..];
    assert k < |s| && s[k] == op[0];
    assert forall m :: i + |kw| <= m < k ==> s[m] == s[i + |kw|..k][m - (i + |kw|)];
  }

  /** `project\s*(=|in)\s*` tested on `low`. */
  function HasProjectRestriction(low: string): (r: bool)
    ensures r <==> MatchesClause(low, "project", ProjectOps)
  {
    FindClauseFromCorrect(low, "project", ProjectOps, 0);
    FindClauseFrom(low, "project", ProjectOps, 0)
  }

  /** `created\s*(>=|<=|>|<|=)\s*` tested on `low`. */
  function HasCreatedRestriction(low: string): (r: bool)
    ensures r <==> MatchesClause(low, "created", CreatedOps)
  {
    FindClauseFromCorrect(low, "created", CreatedOps, 0);
    FindClauseFrom(low, "created", CreatedOps, 0)
  }

  /** The query already restricts the project or the creation date: both tests run on the
      lower-cased, untrimmed text. */
  function IsBounded(jql: string): (r: bool)
    ensures r <==> MatchesClause(Lower(jql), "project", ProjectOps) || MatchesClause(Lower(jql), "created", CreatedOps)
  {
    var low := Lower(jql);
    HasProjectRestriction(low) || HasCreatedRestriction(low)
  }

  /** The bounding test ignores case: a query written in capitals, or already lower-cased, is
      bounded exactly when the original is. */
  lemma BoundedIgnoresCase(s: string)
    ensures IsBounded(Upper(s)) == IsBounded(s)
    ensures IsBounded(Lower(s)) == IsBounded(s)
  {
    LowerForgetsCase(s);
  }

  /** `jql.trim().toUpperCase().startsWith('ORDER BY')`. Only the leading whitespace matters:
      the `Y` of `BY` keeps trimming at the end away from the prefix. */
  function IsOrderByLed(jql: string): (r: bool)
    ensures r <==> "ORDER BY" <= Upper(TrimStart(jql))
  {
    UpperLedIgnoresEnd("ORDER BY", TrimStart(jql));
    "ORDER BY" <= Upper(Trim(jql))
  }

  /** Trimming the end cannot cut into a prefix whose last character is not whitespace. */
  lemma UpperLedIgnoresEnd(p: string, t: string)
    requires |t| > 0 ==> !IsWhitespace(t[0])
    requires |p| > 0 && !IsWhitespace(p[|p| - 1])
    ensures p <= Upper(TrimEnd(t)) <==> p <= Upper(t)
  {
    TrimEndKeepsStart(t);
    var e := TrimEnd(t);
    if p <= Upper(e) {
      PrefixOfUpperPrefix(p, e, t);
    }
    if p <= Upper(t) {
      TrimEndKeepsPrefix(p, t);
      SamePrefixSameUpper(p, e, t);
    }
  }

  lemma TrimEndKeepsPrefix(p: string, t: string)
    requires |p| > 0 && !IsWhitespace(p[|p| - 1])
    requires p <= Upper(t)
    ensures |p| <= |TrimEnd(t)|
  {
    var k := |p| - 1;
    NotWhitespaceUnderUpper(t, k, p[k]);
    TrimEndKeepsUpTo(t, k);
  }

  lemma NotWhitespaceUnderUpper(t: string, k: nat, d: char)
    requires k < |t| && Upper(t)[k] == d && !IsWhitespace(d)
    ensures !IsWhitespace(t[k])
  {
    UpperKeepsWhitespace(t, k);
  }

  lemma PrefixOfUpperPrefix(p: string, e: string, t: string)
    requires e <= t && p <= Upper(e)
    ensures p <= Upper(t)
  {
    assert forall i :: 0 <= i < |p| ==> Upper(t)[i] == Upper(e)[i];
  }

  lemma SamePrefixSameUpper(p: string, e: string, t: string)
    requires e <= t && |p| <= |e| && p <= Upper(t)
    ensures p <= Upper(e)
  {
    assert forall i :: 0 <= i < |p| ==> Upper(e)[i] == Upper(t)[i];
  }

  /** Upper-casing keeps whitespace where it is. */
  lemma UpperKeepsWhitespace(t: string, k: nat)
    requires k < |t|
    ensures IsWhitespace(t[k]) ==> Upper(t)[k] == t[k]
  {
    if IsWhitespace(t[k]) {
      assert !('a' <= t[k] <= 'z');
    }
  }

  /** The query sent upstream by the search route, from the request's `jql` field (absent,
      `null` and `''` are all falsy). A bounded query is kept; otherwise the query starts with
      the restriction, and the original text, when kept, ends it. */
  function BoundQuery(jql: Option<string>): (r: string)
    ensures IsBounded(jql.GetOr("")) ==> r == jql.GetOr("")
    ensures !IsBounded(jql.GetOr("")) ==> Restriction <= r
    ensures !IsBounded(jql.GetOr("")) && r != Restriction ==>
      var s := jql.GetOr(""); |s| < |r| && r[|r| - |s|..] == s
  {
    var s := jql.GetOr("");
    if IsBounded(s) then s
    else if s != "" && IsOrderByLed(s) then
      Enclosed(" ", s);
      Restriction + " " + s
    else if s != "" && Trim(s) != "" then
      Enclosed(" AND ", s);
      Restriction + " AND " + s
    else Restriction
  }

  /** The restriction, some glue and the query: the restriction leads and the query closes. */
  lemma Enclosed(glue: string, s: string)
    ensures var r := Restriction + glue + s;
      Restriction <= r && |r| == |Restriction + glue| + |s| && r[|Restriction + glue|..] == s
  {
    var r := Restriction + glue + s;
    assert r[..|Restriction|] == Restriction;
  }

  // ---- Properties of the bounding step ----

  /** A query with a project clause or a creation-date comparison is sent unchanged, and only
      such a query is. */
  lemma BoundedUnchanged(s: string)
    ensures BoundQuery(Some(s)) == s <==> IsBounded(s)
  {
    if !IsBounded(s) && !(s != "" && IsOrderByLed(s)) && !(s != "" && Trim(s) != "") {
      RestrictionBounded("");
      assert Restriction + "" == Restriction;
    }
  }

  /** An unbounded query that begins, after trimming, with ORDER BY gets the restriction and a
      single space in front of its untrimmed text; no AND is inserted. */
  lemma OrderByLedQuery(s: string)
    requires !IsBounded(s) && IsOrderByLed(s)
    ensures BoundQuery(Some(s)) == "created >= -365d " + s
  {
    assert s != "";
    assert BoundQuery(Some(s)) == Restriction + " " + s;
  }

  /** An unbounded, non-blank query that does not begin with ORDER BY is joined to the
      restriction with AND. */
  lemma ClauseQuery(s: string)
    requires !IsBounded(s) && !IsOrderByLed(s) && !AllWhitespace(s)
    ensures BoundQuery(Some(s)) == "created >= -365d AND " + s
  {
    NotBlankTrims(s);
    assert BoundQuery(Some(s)) == Restriction + " AND " + s;
  }

  lemma NotBlankTrims(s: string)
    requires !AllWhitespace(s)
    ensures s != "" && Trim(s) != ""
  {
    TrimBlank(s);
  }

  /** An absent, empty or whitespace-only query becomes the restriction alone. */
  lemma BlankQuery(jql: Option<string>)
    requires jql.None? || AllWhitespace(jql.value)
    ensures BoundQuery(jql) == "created >= -365d"
  {
    var s := jql.GetOr("");
    BlankUnbounded(s);
    TrimBlank(s);
    if s != "" {
      assert Upper(Trim(s)) == "";
    }
  }

  /** Neither keyword can start inside whitespace, so a blank query is unbounded. */
  lemma BlankUnbounded(s: string)
    requires AllWhitespace(s)
    ensures !IsBounded(s)
  {
    LowerWhitespace(s);
    forall i | 0 <= i < |s| ensures !("project" <= s[i..]) && !("created" <= s[i..]) {
      assert IsWhitespace(s[i..][0]);
    }
  }

  /** Any text that starts with the restriction is bounded: `created`, one space, `>=`. */
  lemma RestrictionBounded(rest: string)
    ensures HasCreatedRestriction(Lower(Restriction + rest))
    ensures IsBounded(Restriction + rest)
  {
    var s := Restriction + rest;
    LowerConcat(Restriction, rest);
    RestrictionLowered();
    var low := Lower(s);
    assert low == Restriction + Lower(rest);
    assert low[7..8] == " ";
    assert ">=" in CreatedOps && ">=" <= low[8..];
    assert ClauseAt(low, "created", CreatedOps, 0, 8);
  }

  /** The restriction is written in lower case already. */
  lemma RestrictionLowered()
    ensures Lower(Restriction) == Restriction
  {
    var r := Restriction;
    forall i | 0 <= i < |r| ensures !('A' <= r[i] <= 'Z') {
    }
    LowerFixed(r);
  }

  /** Every query the search route sends upstream passes its own bounding test, and every query
      it had to change passes the creation-date test in particular. */
  lemma BoundQueryIsBounded(jql: Option<string>)
    ensures IsBounded(BoundQuery(jql))
    ensures !IsBounded(jql.GetOr("")) ==> HasCreatedRestriction(Lower(BoundQuery(jql)))
  {
    var s := jql.GetOr("");
    if !IsBounded(s) {
      if s != "" && IsOrderByLed(s) {
        RestrictionBounded(" " + s);
        assert Restriction + " " + s == Restriction + (" " + s);
      } else if s != "" && Trim(s) != "" {
        RestrictionBounded(" AND " + s);
        assert Restriction + " AND " + s == Restriction + (" AND " + s);
      } else {
        RestrictionBounded("");
        assert Restriction + "" == Restriction;
      }
    }
  }

  /** Bounding an already bounded query changes nothing. */
  lemma BoundQueryIdempotent(jql: Option<string>)
    ensures BoundQuery(Some(BoundQuery(jql))) == BoundQuery(jql)
  {
    BoundQueryIsBounded(jql);
  }

  /** A request whose query is just `ORDER BY created DESC`. */
  lemma OrderByOnlyExample(s: string)
    requires s == "ORDER BY created DESC"
    ensures BoundQuery(Some(s)) == "created >= -365d ORDER BY created DESC"
  {
    OrderByTextLed(s);
    OrderByTextUnbounded(s);
    OrderByLedQuery(s);
    assert "created >= -365d " + s == "created >= -365d ORDER BY created DESC" by {
      PrefixedOrderBy(s);
    }
  }

  lemma PrefixedOrderBy(s: string)
    requires s == "ORDER BY created DESC"
    ensures "created >= -365d " + s == "created >= -365d ORDER BY created DESC"
  {
  }

  lemma OrderByTextUnbounded(s: string)
    requires s == "ORDER BY created DESC"
    ensures !IsBounded(s)
  {
    OrderByTextLed(s);
    var low := Lower(s);
    OrderByTextNoProject(low);
    OrderByTextNoCreated(low);
  }

  lemma OrderByTextLed(s: string)
    requires s == "ORDER BY created DESC"
    ensures Lower(s) == "order by created desc"
    ensures IsOrderByLed(s)
  {
    OrderByTextLower(s);
    assert TrimStart(s) == s;
    UpperKeeps("ORDER BY", s);
  }

  lemma OrderByTextLower(s: string)
    requires s == "ORDER BY created DESC"
    ensures Lower(s) == "order by created desc"
  {
    var low := "order by created desc";
    forall i | 0 <= i < |s| ensures Lower(s)[i] == low[i] {
      assert Lower(s)[i] == LowerChar(s[i]);
    }
  }

  /** A prefix without lower-case ASCII letters survives upper-casing. */
  lemma UpperKeeps(p: string, s: string)
    requires p <= s
    requires forall i :: 0 <= i < |p| ==> !('a' <= p[i] <= 'z')
    ensures p <= Upper(s)
  {
    assert forall i :: 0 <= i < |p| ==> Upper(s)[i] == p[i];
  }

  /** `order by created desc` has no `p`, so no project clause. */
  lemma OrderByTextNoProject(low: string)
    requires low == "order by created desc"
    ensures !MatchesClause(low, "project", ProjectOps)
  {
    forall i | 0 <= i < |low| ensures !("project" <= low[i..]) {
      // splitting the index range in two is only a hint that keeps the solver's case split small
      if i < 11 {
        assert low[i] != 'p';
      } else {
        assert low[i] != 'p';
      }
    }
  }

  /** The one `created` in `order by created desc` is followed by a space and `d`, not by a
      comparison. */
  lemma OrderByTextNoCreated(low: string)
    requires low == "order by created desc"
    ensures !MatchesClause(low, "created", CreatedOps)
  {
    OnlyCreatedAtNine(low);
    assert SkipWhitespace(low, 16) == 17;
    CreatedOpsLed();
    forall k | ClauseAt(low, "created", CreatedOps, 9, k) ensures k == 17 {
      ClauseEndsAtSkip(low, "created", CreatedOps, 9, k);
    }
    assert !StartsWithAny(low[17..], CreatedOps);
  }

  lemma OnlyCreatedAtNine(low: string)
    requires low == "order by created desc"
    ensures forall i :: 0 <= i < |low| && "created" <= low[i..] ==> i == 9
  {
    forall i | 0 <= i < 15 && i != 9 ensures !("created" <= low[i..]) {
      assert (low[i], low[i + 1]) != ('c', 'r');
    }
  }

  /** A request whose query already names a project is sent verbatim. */
  lemma ProjectQueryExample()
    ensures BoundQuery(Some("project = ABC")) == "project = ABC"
  {
    var low := Lower("project = ABC");
    assert low == "project = abc";
    assert low[7..8] == " ";
    assert "=" in ProjectOps && "=" <= low[8..];
    assert ClauseAt(low, "project", ProjectOps, 0, 8);
  }
}
