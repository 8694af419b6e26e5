# report-github-assignee-stats, modelled in Dafny

`report-github-assignee-stats` counts how many open issues and pull requests of a GitHub
repository are assigned to each user. It pages through the repository's open issues and pull
requests with the GitHub GraphQL API, 100 items per page and up to 10 assignees per item. It
counts one unit per assignee of every item, and one unit under `_nobody` for every item without
an assignee. It merges the per-page tallies into a running total. When no connection has a next
page, it prints the total as metric lines `<prefix>.<login> <count> <unix time>`, one per login,
in ascending login order.

The repository holds two versions of the program:

- `main.go`, the older one. It hard-codes the prefix `assigned_tasks_count` and holds the run loop.
- `stat.go`, `query.go` and `env.go`, the newer one. It takes the prefix as a setting and validates it.

The model follows that split, one module per source file:

| module | file | models |
|---|---|---|
| `Program` | program.dfy | main.go: the four-setting `environment`, `buildQuery`, `asMetric` with the fixed prefix, and the `run` loop |
| `Stat` | stat.dfy | stat.go: `StatsFor`, `MergeStats`, `asMetric(prefix)` as the loops the code runs |
| `Query` | query.dfy | query.go: `buildQueryFor`, `BuildQuery` |
| `Env` | env.dfy | env.go: the five-setting `Environment` and `NewEnvironment` |
| `Pagination` | paging.dfy | main.go: `Paging` and `asQuery`, which query.go uses too |
| `GitHub` | github.dfy | main.go's `Assignable`, and the part of a GraphQL response the program reads |

`main.go` repeats three functions of the newer files word for word:

- `statsFor` (main.go:201-226) is `StatsFor` (stat.go:28-53).
- `mergeStats` (main.go:228-236) is `MergeStats` (stat.go:55-63).
- `buildQueryFor` (main.go:117-150) is `buildQueryFor` (query.go:26-59), apart from an unused receiver.

The model defines each of them once, in `Stat` and `Query`.
`Program` calls those definitions, as the older program would call its own copies.

Specification modules hold the meaning the operations are proved against:

- `Tally` defines counting and key-wise merging of `map<string, int>` tallies, and their laws.
- `Metric` defines the report text, the keys in ascending order, and a reader that parses the
  report back.
- `QueryText` holds the fixed pieces of the GraphQL document and a reader that takes a document
  apart again.
- `Text` defines Go's string order, `sort.Strings` (as an insertion sort), and `%v` rendering of
  integers with its read-back.

The loops are methods proved equal to these functions:

- `Stat.StatsFor` computes `PageTally`.
- `Stat.MergeStats` computes `MergeAll`.
- `Stat.AsMetric` computes `Report`.
- `Program.Run` sends the queries `Queries` and reports `Report` of `RunTally`.

The laws are lemmas about those functions. Go map iteration has no fixed order, so the loops
over a map pick an arbitrary remaining key (`:|`). They are proved correct for every order.

The server is a parameter of `Program.Run`: a sequence of typed responses, the `i`-th answering
the `i`-th request. When the sequence runs out before the run stops, that stands for a failed
request. The program then exits without a report (`report == None`). The clock reading `now` is
a parameter too.

The cursors of both connections are overwritten from every response, also for a connection
that has no next page (main.go:272-273). `Program.RoundQueryReadsBack` states this for every
round.

`Program.RefetchAfterEmptyCursor` and `Program.RefetchCountsTwice` show where this leads. A
connection whose page after its last one comes back empty reports an empty end cursor. The next
round then asks for that connection's first page again. If the server serves that page, its
items are counted a second time.

## Model

| member | source | states |
|---|---|---|
| GitHub.ConnectionName | main.go:125-132 | `Issue` selects `issues`, `PullRequest` selects `pullRequests`, any other kind selects nothing; a connection name holds no `(` or `"` |
| Pagination.AsQuery | main.go:105-110 | the `after:` argument is empty exactly when the cursor is empty, even for a non-nil paging, and otherwise starts `, after: "` |
| Pagination.AsQueryOfCursor | main.go:109 | a non-empty cursor gives `, after: "<cursor>"` |
| Pagination.AsQueryReadsBack | main.go:105-110 | the argument reads back as exactly the paging's cursor when it is non-empty, and as no cursor when it is empty |
| Query.BuildQueryFor | query.go:26-59 | a sub-query starts with its connection name followed by `(first: 100, states: [OPEN] ` |
| Query.BuildQueryForReadsBack | query.go:26-59 | a sub-query reads back as its connection (`issues` or `pullRequests`) and a cursor exactly when the paging is non-nil with a non-empty cursor; `hasNextPage` does not matter |
| Query.CursorArgumentAt | query.go:43-57 | a non-empty cursor appears verbatim and quoted as `, after: "<cursor>"` right after `states: [OPEN] ` |
| Query.EmptyCursorIsFirstPage | query.go:27-32 | a paging with an empty cursor gives the same sub-query as no paging at all |
| Query.BuildQuery | query.go:9-24 | building the query never fails |
| Query.BuildQueryReadsBack | query.go:9-24 | the query reads back as `repository(owner:, name:)` with owner and name verbatim, then the issues sub-query, then the pull requests sub-query, each with its own paging's cursor |
| Query.BuildQueryInjective | query.go:9-24 | two queries are the same text exactly when owner, name and both effective cursors agree |
| Env.NewEnvironment | env.go:13-37 | succeeds exactly when all five settings are non-empty, and then holds exactly those settings, the metric prefix included |
| Env.NewEnvironmentNamesFirstMissing | env.go:14-28 | on failure the error is `<name> required` for the first empty setting in the order owner, repoName, githubToken, githubEndpoint, metricPrefix |
| Env.FirstMissing | env.go:14-28 | the first empty setting in check order: none exactly when all are set, and otherwise an empty setting before which all are set |
| Program.NewEnvironment | main.go:33-53 | succeeds exactly when owner, repoName, githubToken and githubEndpoint are all non-empty, and then holds exactly those settings |
| Program.NewEnvironmentNamesFirstMissing | main.go:33-45 | on failure the error is `<name> required` for the first empty setting in the order owner, repoName, githubToken, githubEndpoint |
| Program.BuildQuery | main.go:152-167 | never fails; the query reads back as the receiver's owner and repository name, then issues, then pull requests, each with its own paging's cursor |
| Stat.StatsFor | stat.go:28-53 | the tally of a connection is `PageTally` of its items: one unit per assignee, one `_nobody` per unassigned item |
| Tally.PageTallyUnassigned | stat.go:42-43 | an item without assignees adds exactly one to `_nobody` and changes nothing else |
| Tally.PageTallyAssigned | stat.go:44-48 | an item with N ≥ 1 assignees adds to each login its number of occurrences, leaves `_nobody` alone unless it is one of the logins, and adds N to the total |
| Tally.PageTallyTotal | stat.go:40-50 | the total of a page's tally is the sum over its items of max(1, number of assignees) |
| Tally.PageTallyPositive | stat.go:40-50 | every key of a page's tally has a count of at least 1 |
| Tally.CountOfSnoc | stat.go:47 | `m[login]++` on the tally of a list is the tally of the list with that login appended |
| Stat.MergeStats | stat.go:55-63 | the loop computes `MergeAll` of the tallies, whatever order the maps are iterated in |
| Tally.MergeAllKeyWise | stat.go:55-63 | the merged keys are the union of the inputs' keys, and each key's count is the sum of its counts, absent counting as zero; no tallies merge to the empty tally |
| Tally.MergeAllPermutation | stat.go:55-63 | merging does not depend on the order of the tallies |
| Tally.MergeAllAppend | stat.go:55-63 | merging a concatenation is merging the two merges |
| Tally.MergeCommutative | stat.go:58-60 | merging two tallies is commutative |
| Tally.MergeAssociative | stat.go:58-60 | merging tallies is associative |
| Tally.MergeIdentity | stat.go:58-60 | merging with the empty tally changes nothing |
| Tally.TotalMerge | stat.go:58-60 | the total of a merge is the sum of the totals |
| Tally.TotalMergeAll | stat.go:55-63 | the total of the merged tally is the sum of the input totals |
| Text.SortStrings | stat.go:20 | the keys come out in ascending string order and as a permutation of the keys that went in |
| Text.SortedSetIsAscending | stat.go:16-20 | sorted map keys are strictly ascending and are exactly the map's keys |
| Text.AscendingUnique | stat.go:16-20 | there is one strictly ascending listing of a key set, so the report does not depend on map iteration order |
| Text.DecimalRoundTrip | stat.go:23 | `%v` of a count or timestamp reads back as that number |
| Stat.AsMetric | stat.go:13-26 | the text is `Report(prefix, tally, now)`: one line `<prefix>.<key> <count> <now>` per key, keys ascending |
| Metric.SortedKeys | stat.go:16-20 | the report's key order is strictly ascending and lists exactly the tally's keys |
| Metric.ReportReadBack | stat.go:15-25 | the report splits into one line per key; parsed back it gives each key once, in strictly ascending order, with its count and the one shared timestamp |
| Metric.ReportEmpty | stat.go:15-25 | an empty tally gives the empty text |
| Program.AsMetric | main.go:61-75 | the text is `Report` under the fixed prefix `assigned_tasks_count` |
| Program.SinglePageReportOrder | main.go:69 | the keys `alice`, `bob`, `_nobody` are reported in the order `_nobody`, `alice`, `bob` |
| Program.StopRound | main.go:269-271 | the stop round is the first response in which neither connection has a next page, or the number of responses when there is none |
| Program.Run | main.go:238-279 | sends the query of every round up to the stop round, in order; reports exactly when a response ends the run, and then reports the merge of every page's tally up to that round |
| Program.MergeRound | main.go:260-264 | merging the running tally with a round's two page tallies is merging every page tally so far |
| Program.QueriesAt | main.go:245 | the `i`-th query sent is the query of round `i` |
| Program.RoundQueryReadsBack | main.go:272-273 | round 0 sends no cursors; round `i` continues after exactly the end cursors of response `i - 1`, whether or not that connection had a next page |
| Program.MergedPagesCount | main.go:258-264 | merging all page tallies counts each unit of every page once |
| Program.RunTallyCounts | main.go:258-264 | each key's reported count is its number of units over all pages fetched up to the stop round, and the total is the number of units |
| Program.TwoPageRun | main.go:269-273 | issues on two pages and pull requests on one: the run stops after the second round, which continues the issues after `c1` |
| Program.SinglePageRun | main.go:258-264 | alice on one issue and one pull request, bob on that pull request, one unassigned issue: alice 2, bob 1, `_nobody` 1 |
| Program.RefetchAfterEmptyCursor | main.go:272-273 | a connection that reported an empty end cursor is asked for its first page again in the next round |
| Program.RefetchCountsTwice | main.go:258-264 | items on a page fetched again are counted again |

## Left out

- HTTP is not modelled: building the request (main.go:169-180), JSON marshalling, the bearer
  header, and the transport with `InsecureSkipVerify` (main.go:182-199). A request that fails is
  modelled as the response sequence running out.
- gjson navigation (main.go:212, 266-267; stat.go:39) is replaced by the typed `GitHub.Response`.
  A connection missing from the JSON reads as no items and an empty page info, which is what
  gjson yields. As in the code, a missing connection is not an error.
- `time.Now` is the parameter `now`. `time.Sleep` between rounds is left out: it does not affect
  what is sent or reported.
- Flag parsing, `main`, `onError` and all logging are left out (main.go:77-98, 112-115, 244, 268).
  So is the `currentPage` counter, which is only logged.
- `Pagination.GoQuoted` wraps a string in double quotes. Go's `%#v` also escapes quotes, backslashes
  and control characters; that escaping is not modelled. The read-back lemmas therefore require
  that owner, repository name and cursors contain no `"`.
- `Text.Decimal` renders an integer like `%v`. Go's own formatting code is not modelled.
- `Text.SortStrings` is an insertion sort specified by sortedness and permutation. The algorithm
  inside `sort.Strings` is left out, and the slice is not sorted in place.
- Stat.StatsFor, Stat.MergeStats: counts are unbounded integers. Go's 64-bit `int` wrap-around
  would need more than 2^63 assignments and is not modelled.
- Program.Run: the report is returned as a value. The code passes it to `fmt.Fprintf` as the
  format string (main.go:278), which would reinterpret a `%` in a login or the prefix; that
  reinterpretation is not modelled.
- The error branches after `buildQuery` (main.go:246-248) are not modelled. `BuildQuery` never
  fails, so those branches cannot be taken.
- The endpoint and token settings are validated but otherwise used only by the HTTP request.
  How the newer version's `Environment.MetricPrefix` reaches `asMetric` is not part of this model.
