/**
 * The command itself: the four-setting environment it validates, and the run loop that pages
 * through a repository's open issues and pull requests, one round per request, tallying every
 * page and printing the merged tally as metric lines once no connection has a next page.
 *
 * The responses the server would send are a parameter: the `i`-th element is the response to
 * the `i`-th request. Running out of responses stands for a failed request, after which the
 * program exits without a report. The clock reading is a parameter too.
 */
module Program {
  import opened Wrappers
  import opened Text
  import opened Tally
  import opened Metric
  import opened GitHub
  import opened QueryText
  import opened Pagination
  import Query
  import Stat
  import Env

  /** The configuration of the command (no metric prefix: it is fixed). */
  datatype Environment = Environment(gitHubEndpoint: string, gitHubToken: string, repoName: string, owner: string)

  /** The settings in the order `NewEnvironment` checks them. */
  function CheckOrder(owner: string, repoName: string, githubEndpoint: string, githubToken: string): seq<Env.Setting>
  {
    [Env.Setting("owner", owner), Env.Setting("repoName", repoName),
     Env.Setting("githubToken", githubToken), Env.Setting("githubEndpoint", githubEndpoint)]
  }

  /**
   * Validates the settings: fails with `<name> required` for the first empty one in the order
   * owner, repoName, githubToken, githubEndpoint; otherwise gives exactly those settings.
   */
  function NewEnvironment(owner: string, repoName: string, githubEndpoint: string, githubToken: string)
    : (r: Result<Environment, string>)
    ensures r.Success? <==> owner != "" && repoName != "" && githubEndpoint != "" && githubToken != ""
    ensures r.Success? ==>
              r.value.owner == owner && r.value.repoName == repoName
              && r.value.gitHubEndpoint == githubEndpoint && r.value.gitHubToken == githubToken
  {
    if owner == "" then Failure(Env.Required("owner"))
    else if repoName == "" then Failure(Env.Required("repoName"))
    else if githubToken == "" then Failure(Env.Required("githubToken"))
    else if githubEndpoint == "" then Failure(Env.Required("githubEndpoint"))
    else Success(Environment(githubEndpoint, githubToken, repoName, owner))
  }

  /** The error is `<name> required` for exactly the first empty setting in check order. */
  lemma NewEnvironmentNamesFirstMissing(owner: string, repoName: string, githubEndpoint: string, githubToken: string)
    ensures var r := NewEnvironment(owner, repoName, githubEndpoint, githubToken);
            match Env.FirstMissing(CheckOrder(owner, repoName, githubEndpoint, githubToken))
            case None => r.Success?
            case Some(name) => r == Failure(Env.Required(name))
  {
    var d := Env.Setting("githubEndpoint", githubEndpoint);
    var c := Env.Setting("githubToken", githubToken);
    var b := Env.Setting("repoName", repoName);
    var a := Env.Setting("owner", owner);
    assert CheckOrder(owner, repoName, githubEndpoint, githubToken) == [a] + ([b] + ([c] + [d]));
    Env.FirstMissingCons(d, []);
    Env.FirstMissingCons(c, [d]);
    Env.FirstMissingCons(b, [c] + [d]);
    Env.FirstMissingCons(a, [b] + ([c] + [d]));
  }

  /**
   * The query for the environment's repository: issues first, then pull requests, each
   * continuing after its paging's cursor, if any. Building never fails.
   */
  function BuildQuery(env: Environment, issuesPaging: Option<Paging>, prsPaging: Option<Paging>)
    : (r: Result<Query.GitHubGraphqlRequest, string>)
    ensures r.Success?
    ensures '"' !in env.owner && '"' !in env.repoName
            && (issuesPaging.Some? ==> '"' !in issuesPaging.value.endCursor)
            && (prsPaging.Some? ==> '"' !in prsPaging.value.endCursor)
            ==> ReadQuery(r.value.query)
                == Some(RepositoryQuery(env.owner, env.repoName,
                                        SubQuery("issues", After(issuesPaging)),
                                        SubQuery("pullRequests", After(prsPaging))))
  {
    var r := Query.BuildQuery(env.owner, env.repoName, issuesPaging, prsPaging);
    if '"' !in env.owner && '"' !in env.repoName
       && (issuesPaging.Some? ==> '"' !in issuesPaging.value.endCursor)
       && (prsPaging.Some? ==> '"' !in prsPaging.value.endCursor)
    then
      Query.BuildQueryReadsBack(env.owner, env.repoName, issuesPaging, prsPaging);
      r
    else
      r
  }

  /** The metric name prefix of every report line. */
  const MetricPrefix := "assigned_tasks_count"

  /** The report of a tally under the fixed prefix: one line per key, keys ascending. */
  method AsMetric(s: Tally, now: int) returns (buf: string)
    ensures buf == Report(MetricPrefix, s, now)
  {
    buf := Stat.AsMetric(s, MetricPrefix, now);
  }

  // ---------------------------------------------------------------------------
  // The rounds of a run, as specification
  // ---------------------------------------------------------------------------

  /** Neither connection has a next page: the round after which the run stops. */
  predicate Exhausted(r: Response)
  {
    !r.issues.pageInfo.hasNextPage && !r.pullRequests.pageInfo.hasNextPage
  }

  /** The index of the first exhausted response, or the number of responses when there is none. */
  function StopRound(rs: seq<Response>): (n: nat)
    ensures n <= |rs|
    ensures n < |rs| ==> Exhausted(rs[n])
    ensures forall i :: 0 <= i < n ==> !Exhausted(rs[i])
  {
    if rs == [] then 0
    else if Exhausted(rs[0]) then 0
    else
      var n := 1 + StopRound(rs[1..]);
      assert forall i :: 1 <= i < n ==> rs[i] == rs[1..][i - 1];
      n
  }

  /** The paging a connection's page info sets up for the next round. */
  function NextPaging(info: PageInfo): Paging
  {
    Paging(info.endCursor, info.hasNextPage)
  }

  /** The issues paging of round `i`: none in the first round, else from the previous response. */
  function IssuesPagingAt(rs: seq<Response>, i: nat): Option<Paging>
    requires i <= |rs|
  {
    if i == 0 then None else Some(NextPaging(rs[i - 1].issues.pageInfo))
  }

  /** The pull requests paging of round `i`: none in the first round, else from the previous response. */
  function PrsPagingAt(rs: seq<Response>, i: nat): Option<Paging>
    requires i <= |rs|
  {
    if i == 0 then None else Some(NextPaging(rs[i - 1].pullRequests.pageInfo))
  }

  /** The query text of round `i`. */
  function RoundQuery(env: Environment, rs: seq<Response>, i: nat): string
    requires i <= |rs|
  {
    BuildQuery(env, IssuesPagingAt(rs, i), PrsPagingAt(rs, i)).value.query
  }

  /** The queries of the first `n` rounds, in order. */
  function Queries(env: Environment, rs: seq<Response>, n: nat): (qs: seq<string>)
    requires n <= |rs| + 1
    ensures |qs| == n
  {
    if n == 0 then [] else Queries(env, rs, n - 1) + [RoundQuery(env, rs, n - 1)]
  }

  /** The per-page tallies of the responses, issues then pull requests, round after round. */
  function PageTallies(rs: seq<Response>): (ts: seq<Tally>)
    ensures |ts| == 2 * |rs|
  {
    if rs == [] then []
    else
      var last := rs[|rs| - 1];
      PageTallies(rs[..|rs| - 1]) + [PageTally(last.issues.nodes), PageTally(last.pullRequests.nodes)]
  }

  /** The tally a completed run reports: every page of every round up to the stop round, merged. */
  function RunTally(rs: seq<Response>): Tally
    requires StopRound(rs) < |rs|
  {
    MergeAll(PageTallies(rs[..StopRound(rs) + 1]))
  }

  lemma PageTalliesSnoc(rs: seq<Response>, i: nat)
    requires i < |rs|
    ensures PageTallies(rs[..i + 1])
         == PageTallies(rs[..i]) + [PageTally(rs[i].issues.nodes), PageTally(rs[i].pullRequests.nodes)]
  {
    assert rs[..i + 1][..i] == rs[..i];
  }

  lemma MergeAllSnoc(ts: seq<Tally>, t: Tally)
    ensures MergeAll(ts + [t]) == Merge(MergeAll(ts), t)
  {
    assert (ts + [t])[..|ts|] == ts;
  }

  /** Merging the running tally with a round's two pages is merging every page so far. */
  lemma MergeRound(ts: seq<Tally>, a: Tally, b: Tally)
    ensures MergeAll([MergeAll(ts), a, b]) == MergeAll(ts + [a, b])
  {
    var x := MergeAll(ts);
    MergeIdentity(x);
    assert [] + [x] == [x] && [x] + [a] == [x, a] && [x, a] + [b] == [x, a, b];
    MergeAllSnoc([], x);
    MergeAllSnoc([x], a);
    MergeAllSnoc([x, a], b);
    assert ts + [a] + [b] == ts + [a, b];
    MergeAllSnoc(ts, a);
    MergeAllSnoc(ts + [a], b);
  }

  // ---------------------------------------------------------------------------
  // The run loop
  // ---------------------------------------------------------------------------

  /**
   * Sends one query per round and tallies its response, until the first response in which
   * neither connection has a next page; then reports the merged tally. Returns the queries sent,
   * in order, and the report, which is missing when a request got no response.
   */
  method Run(env: Environment, responses: seq<Response>, now: int) returns (sent: seq<string>, report: Option<string>)
    ensures sent == Queries(env, responses, StopRound(responses) + 1)
    ensures report.Some? <==> StopRound(responses) < |responses|
    ensures report.Some? ==> report.value == Report(MetricPrefix, RunTally(responses), now)
  {
    var issuesPaging: Option<Paging> := None;
    var prsPaging: Option<Paging> := None;
    var assignedIssues: Tally := map[];
    var round := 0;
    sent := [];
    while true
      invariant round <= StopRound(responses)
      invariant sent == Queries(env, responses, round)
      invariant issuesPaging == IssuesPagingAt(responses, round)
      invariant prsPaging == PrsPagingAt(responses, round)
      invariant assignedIssues == MergeAll(PageTallies(responses[..round]))
      decreases |responses| - round
    {
      var query := BuildQuery(env, issuesPaging, prsPaging);
      assert query.value.query == RoundQuery(env, responses, round);
      sent := sent + [query.value.query];
      assert sent == Queries(env, responses, round + 1);
      if round == |responses| {
        assert round == StopRound(responses);
        report := None;
        return;
      }
      var parsed := responses[round];
      var issuesStats := Stat.StatsFor(Issue, parsed);
      var prsStats := Stat.StatsFor(PullRequest, parsed);
      MergeRound(PageTallies(responses[..round]), issuesStats, prsStats);
      PageTalliesSnoc(responses, round);
      assignedIssues := Stat.MergeStats([assignedIssues, issuesStats, prsStats]);
      var issuesPageInfo := parsed.issues.pageInfo;
      var prsPageInfo := parsed.pullRequests.pageInfo;
      if !issuesPageInfo.hasNextPage && !prsPageInfo.hasNextPage {
        assert Exhausted(responses[round]);
        assert round == StopRound(responses);
        break;
      }
      issuesPaging := Some(Paging(issuesPageInfo.endCursor, issuesPageInfo.hasNextPage));
      prsPaging := Some(Paging(prsPageInfo.endCursor, prsPageInfo.hasNextPage));
      round := round + 1;
    }
    var out := AsMetric(assignedIssues, now);
    report := Some(out);
  }

  // ---------------------------------------------------------------------------
  // What a run sends and reports
  // ---------------------------------------------------------------------------

  /** The `i`-th query sent is the query of round `i`. */
  lemma {:induction false} QueriesAt(env: Environment, rs: seq<Response>, n: nat, i: nat)
    requires n <= |rs| + 1 && i < n
    ensures Queries(env, rs, n)[i] == RoundQuery(env, rs, i)
    decreases n
  {
    if i < n - 1 {
      QueriesAt(env, rs, n - 1, i);
      IndexInFront(Queries(env, rs, n - 1), RoundQuery(env, rs, n - 1), i);
    }
  }

  lemma IndexInFront(front: seq<string>, last: string, i: nat)
    requires i < |front|
    ensures (front + [last])[i] == front[i]
  {
  }

  /**
   * Round `i` asks for the owner's repository, issues then pull requests; the first round
   * continues after no cursor, every later one after the end cursors of the previous response,
   * taken as they are whether or not that connection had a next page (an empty one gives none).
   */
  lemma RoundQueryReadsBack(env: Environment, rs: seq<Response>, i: nat)
    requires i <= |rs|
    requires '"' !in env.owner && '"' !in env.repoName
    requires i > 0 ==> '"' !in rs[i - 1].issues.pageInfo.endCursor && '"' !in rs[i - 1].pullRequests.pageInfo.endCursor
    ensures i == 0 ==>
              ReadQuery(RoundQuery(env, rs, i))
              == Some(RepositoryQuery(env.owner, env.repoName, SubQuery("issues", None), SubQuery("pullRequests", None)))
    ensures i > 0 ==>
              var issuesCursor := rs[i - 1].issues.pageInfo.endCursor;
              var prsCursor := rs[i - 1].pullRequests.pageInfo.endCursor;
              ReadQuery(RoundQuery(env, rs, i))
              == Some(RepositoryQuery(env.owner, env.repoName,
                                      SubQuery("issues", if issuesCursor == "" then None else Some(issuesCursor)),
                                      SubQuery("pullRequests", if prsCursor == "" then None else Some(prsCursor))))
  {
  }

  /** The keys of every page of the responses, round after round, issues before pull requests. */
  function RoundsUnits(rs: seq<Response>): seq<Login>
  {
    if rs == [] then []
    else
      var last := rs[|rs| - 1];
      RoundsUnits(rs[..|rs| - 1]) + PageUnits(last.issues.nodes) + PageUnits(last.pullRequests.nodes)
  }

  /** Merging the page tallies counts every key of every page once. */
  lemma {:induction false} MergedPagesCount(rs: seq<Response>)
    ensures MergeAll(PageTallies(rs)) == CountOf(RoundsUnits(rs))
    decreases |rs|
  {
    if rs == [] {
      assert CountOf([]) == map[];
    } else {
      var front := rs[..|rs| - 1];
      var last := rs[|rs| - 1];
      var a := PageTally(last.issues.nodes);
      var b := PageTally(last.pullRequests.nodes);
      MergedPagesCount(front);
      assert PageTallies(rs) == PageTallies(front) + [a] + [b];
      MergeAllSnoc(PageTallies(front), a);
      MergeAllSnoc(PageTallies(front) + [a], b);
      CountOfAppend(RoundsUnits(front), PageUnits(last.issues.nodes));
      CountOfAppend(RoundsUnits(front) + PageUnits(last.issues.nodes), PageUnits(last.pullRequests.nodes));
    }
  }

  /**
   * The reported tally counts, for every key, its units over all pages fetched up to the stop
   * round: one per assignment and one `_nobody` per unassigned item. So its total is the number
   * of those units.
   */
  lemma RunTallyCounts(rs: seq<Response>)
    requires StopRound(rs) < |rs|
    ensures forall k :: Get(RunTally(rs), k) == Occurrences(RoundsUnits(rs[..StopRound(rs) + 1]), k)
    ensures Total(RunTally(rs)) == |RoundsUnits(rs[..StopRound(rs) + 1])|
  {
    var units := RoundsUnits(rs[..StopRound(rs) + 1]);
    MergedPagesCount(rs[..StopRound(rs) + 1]);
    forall k
      ensures Get(RunTally(rs), k) == Occurrences(units, k)
    {
      GetCountOf(units, k);
    }
    TotalCountOf(units);
  }

  // ---------------------------------------------------------------------------
  // Two scripted runs
  // ---------------------------------------------------------------------------

  /**
   * Issues spread over two pages and pull requests over one: the run stops after the second
   * round, which continues the issues after the first page's cursor.
   */
  lemma TwoPageRun(env: Environment)
    requires '"' !in env.owner && '"' !in env.repoName
    ensures var rs := [Response(Connection([["alice"]], PageInfo(true, "c1")), Connection([], PageInfo(false, ""))),
                       Response(Connection([[]], PageInfo(false, "c2")), Connection([], PageInfo(false, "")))];
            && StopRound(rs) == 1
            && ReadQuery(RoundQuery(env, rs, 1))
               == Some(RepositoryQuery(env.owner, env.repoName, SubQuery("issues", Some("c1")), SubQuery("pullRequests", None)))
  {
    var rs := [Response(Connection([["alice"]], PageInfo(true, "c1")), Connection([], PageInfo(false, ""))),
               Response(Connection([[]], PageInfo(false, "c2")), Connection([], PageInfo(false, "")))];
    assert rs[1..] == [rs[1]];
    RoundQueryReadsBack(env, rs, 1);
  }

  lemma DistinctLogins()
    ensures "alice" != "bob" && "alice" != Nobody && "bob" != Nobody
  {
    assert "alice"[0] == 'a' && "bob"[0] == 'b' && Nobody[0] == '_';
  }

  lemma CountOfFour(a: Login, b: Login, c: Login, d: Login)
    ensures CountOf([a, b, c, d]) == Add(Add(Add(Add(map[], a, 1), b, 1), c, 1), d, 1)
  {
    assert [] + [a] == [a] && [a] + [b] == [a, b] && [a, b] + [c] == [a, b, c] && [a, b, c] + [d] == [a, b, c, d];
    assert CountOf([]) == map[];
    CountOfSnoc([], a);
    CountOfSnoc([a], b);
    CountOfSnoc([a, b], c);
    CountOfSnoc([a, b, c], d);
  }

  lemma ScenarioCount()
    ensures CountOf(["alice", Nobody, "alice", "bob"]) == map["alice" := 2, "bob" := 1, Nobody := 1]
  {
    DistinctLogins();
    CountOfFour("alice", Nobody, "alice", "bob");
  }

  /**
   * Two open issues, one assigned to alice and one to nobody, and one pull request assigned to
   * alice and bob, all on one page: alice is counted twice, bob and `_nobody` once each.
   */
  lemma SinglePageRun()
    ensures var rs := [Response(Connection([["alice"], []], PageInfo(false, "")),
                                Connection([["alice", "bob"]], PageInfo(false, "")))];
            && StopRound(rs) == 0
            && RunTally(rs) == map["alice" := 2, "bob" := 1, Nobody := 1]
  {
    var rs := [Response(Connection([["alice"], []], PageInfo(false, "")),
                        Connection([["alice", "bob"]], PageInfo(false, "")))];
    assert rs[..1] == rs;
    assert PageUnits([["alice"], []]) == ["alice", Nobody] by {
      assert [["alice"], []][..1] == [["alice"]];
      assert [["alice"]][..0] == [];
    }
    assert PageUnits([["alice", "bob"]]) == ["alice", "bob"] by {
      assert [["alice", "bob"]][..0] == [];
    }
    assert rs[..0] == [];
    assert RoundsUnits(rs) == ["alice", Nobody, "alice", "bob"];
    MergedPagesCount(rs);
    ScenarioCount();
  }

  /** The keys of that tally are reported in the order `_nobody`, `alice`, `bob`. */
  lemma SinglePageReportOrder()
    ensures SortedKeys({"alice", "bob", Nobody}) == [Nobody, "alice", "bob"]
  {
    DistinctLogins();
    var order := [Nobody, "alice", "bob"];
    assert LessEq(Nobody, "alice") && LessEq("alice", "bob") && LessEq(Nobody, "bob");
    AscendingUnique(order, SortedKeys({"alice", "bob", Nobody}));
  }

  /**
   * A script in which the issues connection is done after the first round and the pull requests
   * after the third: the issues page after the last one is empty and reports an empty end cursor,
   * and the server then answers a query without cursor with the first page again.
   */
  function RefetchScript(): seq<Response>
  {
    [Response(Connection([["alice"]], PageInfo(false, "c1")), Connection([], PageInfo(true, "p1"))),
     Response(Connection([], PageInfo(false, "")), Connection([], PageInfo(true, "p2"))),
     Response(Connection([["alice"]], PageInfo(false, "c1")), Connection([], PageInfo(false, "p3")))]
  }

  lemma RefetchStopRound()
    ensures StopRound(RefetchScript()) == 2
  {
    var rs := RefetchScript();
    assert rs[1..][1..] == [rs[2]];
    assert StopRound([rs[2]]) == 0;
    assert StopRound(rs[1..]) == 1;
  }

  /**
   * Cursors are taken from every response, also for a connection that has no next page. Once
   * such a connection reports an empty end cursor, the following round asks for its first page
   * again.
   */
  lemma RefetchAfterEmptyCursor(env: Environment)
    requires '"' !in env.owner && '"' !in env.repoName
    ensures StopRound(RefetchScript()) == 2
    ensures ReadQuery(RoundQuery(env, RefetchScript(), 2)).value.first == SubQuery("issues", None)
  {
    RefetchStopRound();
    RoundQueryReadsBack(env, RefetchScript(), 2);
  }

  /** The items on a page fetched again are counted again: the one issue, alice's, counts twice. */
  lemma RefetchCountsTwice()
    ensures StopRound(RefetchScript()) == 2
    ensures RunTally(RefetchScript()) == map["alice" := 2]
  {
    var rs := RefetchScript();
    RefetchStopRound();
    RefetchUnits();
    MergedPagesCount(rs);
    CountOfTwice("alice");
    assert rs[..3] == rs;
  }

  lemma RefetchUnits()
    ensures RoundsUnits(RefetchScript()) == ["alice", "alice"]
  {
    var rs := RefetchScript();
    assert rs[..2] == [rs[0], rs[1]] && [rs[0], rs[1]][..1] == [rs[0]] && [rs[0]][..0] == [];
    assert PageUnits([["alice"]]) == ["alice"] by {
      assert [["alice"]][..0] == [];
    }
    assert RoundsUnits([rs[0]]) == ["alice"];
    assert RoundsUnits([rs[0], rs[1]]) == ["alice"];
  }

  lemma CountOfTwice(a: Login)
    ensures CountOf([a, a]) == map[a := 2]
  {
    assert [] + [a] == [a] && [a] + [a] == [a, a];
    assert CountOf([]) == map[];
    CountOfSnoc([], a);
    CountOfSnoc([a], a);
  }
}
