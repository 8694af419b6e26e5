/**
 * The part of a GraphQL response the program reads, as typed values instead of gjson path
 * lookups: for each connection the assignee logins of every item, and the page info.
 * A connection missing from the JSON reads, through gjson, as no items, `hasNextPage`
 * false and an empty `endCursor`; here that is simply such a connection value.
 */
module GitHub {
  import opened Tally

  /** Go's `Assignable`, an `int` with two named values; any other value selects nothing. */
  type Assignable = int

  const Issue: Assignable := 0
  const PullRequest: Assignable := 1

  /** The connection field a kind selects: `issues`, `pullRequests`, or nothing at all. */
  function ConnectionName(kind: Assignable): (r: string)
    ensures r == "issues" <==> kind == Issue
    ensures r == "pullRequests" <==> kind == PullRequest
    ensures r == "" <==> kind != Issue && kind != PullRequest
    ensures '(' !in r && '"' !in r
  {
    if kind == Issue then "issues" else if kind == PullRequest then "pullRequests" else ""
  }

  /** `pageInfo { hasNextPage endCursor }` of one connection. */
  datatype PageInfo = PageInfo(hasNextPage: bool, endCursor: string)

  /** `nodes[].assignees.nodes[].login` and `pageInfo` of one connection. */
  datatype Connection = Connection(nodes: seq<Item>, pageInfo: PageInfo)

  /** `data.repository` of one response: the `issues` and `pullRequests` connections. */
  datatype Response = Response(issues: Connection, pullRequests: Connection)

  /**
   * The items under `data.repository.<connection>.nodes` for a kind. For a kind that names no
   * connection the path has an empty segment, matches nothing, and gives no items.
   */
  function Nodes(r: Response, kind: Assignable): seq<Item>
  {
    if kind == Issue then r.issues.nodes
    else if kind == PullRequest then r.pullRequests.nodes
    else []
  }
}
