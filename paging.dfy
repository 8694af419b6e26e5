/**
 * Paging through a connection: where the previous round ended, and the `after:` argument
 * that continues from there.
 */
module Pagination {
  import opened Wrappers
  import opened Text
  import opened QueryText

  /** Where the previous round of one connection ended, and whether there is more. */
  datatype Paging = Paging(endCursor: string, hasNextPage: bool)

  /** `%#v` of a string: the string in double quotes (Go's escaping is not modelled). */
  function GoQuoted(s: string): string
  {
    "\"" + s + "\""
  }

  /** The `after:` argument for a paging, empty when there is no cursor to continue from. */
  function AsQuery(p: Paging): (r: string)
    ensures r == "" <==> p.endCursor == ""
    ensures r != "" ==> IsPrefix(AfterArgument, r)
  {
    if p.endCursor == "" then "" else ", after: " + GoQuoted(p.endCursor)
  }

  /** The cursor a sub-query continues after: only a paging with a non-empty cursor gives one. */
  function After(paging: Option<Paging>): Option<string>
  {
    if paging.Some? && paging.value.endCursor != "" then Some(paging.value.endCursor) else None
  }

  // ---------------------------------------------------------------------------
  // What the argument says
  // ---------------------------------------------------------------------------

  /** A non-empty cursor gives `, after: "<cursor>"`. */
  lemma AsQueryOfCursor(p: Paging)
    requires p.endCursor != ""
    ensures AsQuery(p) == AfterArgument + p.endCursor + ClosingQuote
  {
  }

  /** The `after:` argument reads back as exactly the cursor, and its absence as none. */
  lemma {:induction false} AsQueryReadsBack(p: Paging, rest: string)
    requires '"' !in p.endCursor
    ensures ReadCursor(AsQuery(p) + Selection + rest)
         == Some((After(Some(p)), Selection + rest))
  {
    if p.endCursor == "" {
      assert AsQuery(p) + Selection + rest == Selection + rest;
      ReadNoCursor(rest);
    } else {
      AsQueryOfCursor(p);
      assert AsQuery(p) + Selection + rest == AfterArgument + p.endCursor + ClosingQuote + (Selection + rest);
      ReadCursorOf(p.endCursor, Selection + rest);
    }
  }
}
