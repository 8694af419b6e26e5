/**
 * Building the GraphQL query for one round: one sub-query per connection, each asking for
 * the first 100 open items with their first 10 assignees, optionally continuing after a
 * cursor, embedded in a `repository(owner:, name:)` selection.
 */
module Query {
  import opened Wrappers
  import opened Text
  import opened GitHub
  import opened QueryText
  import opened Pagination

  /** The request body: `{"query": ...}`. */
  datatype GitHubGraphqlRequest = GitHubGraphqlRequest(query: string)

  /** The sub-query for one connection; a missing paging (the first round) adds no cursor. */
  function BuildQueryFor(kind: Assignable, paging: Option<Paging>): (q: string)
    ensures IsPrefix(Indent + ConnectionName(kind) + Arguments, q)
  {
    var pagingQuery := if paging.Some? then AsQuery(paging.value) else "";
    var connection := ConnectionName(kind);
    Indent + connection + Arguments + pagingQuery + Selection
  }

  /** The whole query: issues first, then pull requests. Building never fails. */
  function BuildQuery(owner: string, repoName: string, issuesPaging: Option<Paging>, prsPaging: Option<Paging>)
    : (r: Result<GitHubGraphqlRequest, string>)
    ensures r.Success?
  {
    var issuesQuery := BuildQueryFor(Issue, issuesPaging);
    var prsQuery := BuildQueryFor(PullRequest, prsPaging);
    var qs := Header + owner + NameArgument + repoName + Open + issuesQuery + Separator + prsQuery + Footer;
    Success(GitHubGraphqlRequest(qs))
  }

  // ---------------------------------------------------------------------------
  // What the query says
  // ---------------------------------------------------------------------------

  /**
   * A sub-query reads back as its connection and the cursor of its paging: the cursor is there
   * exactly when the paging carries a non-empty one, whatever `hasNextPage` says.
   */
  lemma BuildQueryForReadsBack(kind: Assignable, paging: Option<Paging>, rest: string)
    requires paging.Some? ==> '"' !in paging.value.endCursor
    ensures ReadSubQuery(BuildQueryFor(kind, paging) + rest)
         == Some((SubQuery(ConnectionName(kind), After(paging)), rest))
  {
    var connection := ConnectionName(kind);
    if paging.Some? && paging.value.endCursor != "" {
      var cursor := paging.value.endCursor;
      assert BuildQueryFor(kind, paging) + rest
          == Indent + connection + Arguments + AfterArgument + cursor + ClosingQuote + Selection + rest;
      ReadCursorSubQuery(connection, cursor, rest);
    } else {
      assert BuildQueryFor(kind, paging) + rest == Indent + connection + Arguments + Selection + rest;
      ReadPlainSubQuery(connection, rest);
    }
  }

  /**
   * The query reads back as the owner and repository name, verbatim, then the issues sub-query,
   * then the pull requests sub-query, each with the cursor of its own paging.
   */
  lemma BuildQueryReadsBack(owner: string, repoName: string, issuesPaging: Option<Paging>, prsPaging: Option<Paging>)
    requires '"' !in owner && '"' !in repoName
    requires issuesPaging.Some? ==> '"' !in issuesPaging.value.endCursor
    requires prsPaging.Some? ==> '"' !in prsPaging.value.endCursor
    ensures ReadQuery(BuildQuery(owner, repoName, issuesPaging, prsPaging).value.query)
         == Some(RepositoryQuery(owner, repoName,
                                 SubQuery("issues", After(issuesPaging)),
                                 SubQuery("pullRequests", After(prsPaging))))
  {
    var issuesQuery := BuildQueryFor(Issue, issuesPaging);
    var prsQuery := BuildQueryFor(PullRequest, prsPaging);
    BuildQueryForReadsBack(Issue, issuesPaging, Separator + (prsQuery + Footer));
    BuildQueryForReadsBack(PullRequest, prsPaging, Footer);
    ReadRepositoryQuery(owner, repoName, issuesQuery, prsQuery,
                        SubQuery("issues", After(issuesPaging)), SubQuery("pullRequests", After(prsPaging)));
  }

  /** A non-empty cursor appears verbatim, quoted, right after the fixed arguments. */
  lemma CursorArgumentAt(kind: Assignable, p: Paging)
    requires p.endCursor != ""
    ensures OccursAt(AfterArgument + p.endCursor + ClosingQuote, BuildQueryFor(kind, Some(p)),
                     |Indent + ConnectionName(kind) + Arguments|)
  {
    var front := Indent + ConnectionName(kind) + Arguments;
    var argument := AfterArgument + p.endCursor + ClosingQuote;
    AsQueryOfCursor(p);
    assert BuildQueryFor(kind, Some(p)) == front + argument + Selection;
    OccursInConcat(argument, front, Selection);
  }

  /** Continuing from an empty cursor asks for the same page as the first round does. */
  lemma EmptyCursorIsFirstPage(kind: Assignable, hasNextPage: bool)
    ensures BuildQueryFor(kind, Some(Paging("", hasNextPage))) == BuildQueryFor(kind, None)
  {
  }

  /**
   * Two queries are the same text exactly when they name the same owner and repository and
   * continue after the same cursors: `hasNextPage` never reaches the query.
   */
  lemma BuildQueryInjective(owner: string, repoName: string, ip: Option<Paging>, pp: Option<Paging>,
                            owner': string, repoName': string, ip': Option<Paging>, pp': Option<Paging>)
    requires '"' !in owner && '"' !in repoName && '"' !in owner' && '"' !in repoName'
    requires ip.Some? ==> '"' !in ip.value.endCursor
    requires pp.Some? ==> '"' !in pp.value.endCursor
    requires ip'.Some? ==> '"' !in ip'.value.endCursor
    requires pp'.Some? ==> '"' !in pp'.value.endCursor
    ensures BuildQuery(owner, repoName, ip, pp) == BuildQuery(owner', repoName', ip', pp')
        <==> owner == owner' && repoName == repoName' && After(ip) == After(ip') && After(pp) == After(pp')
  {
    BuildQueryReadsBack(owner, repoName, ip, pp);
    BuildQueryReadsBack(owner', repoName', ip', pp');
    if owner == owner' && repoName == repoName' && After(ip) == After(ip') && After(pp) == After(pp') {
      assert BuildQueryFor(Issue, ip) == BuildQueryFor(Issue, ip');
      assert BuildQueryFor(PullRequest, pp) == BuildQueryFor(PullRequest, pp');
    }
  }
}
