/**
 * The GraphQL document the program sends: its fixed pieces, written once here and assembled
 * by the query builders, and a reader that takes such a document apart again. The reader
 * recognises every fixed piece verbatim and extracts the variable ones: the repository owner
 * and name and, for each of the two sub-queries, its connection field and its `after:`
 * cursor, if any.
 */
module QueryText {
  import opened Wrappers
  import opened Text

  /** A sub-query as read back: the connection it selects and its `after:` cursor, if any. */
  datatype SubQuery = SubQuery(connection: string, after: Option<string>)

  /** A whole query as read back, sub-queries in document order. */
  datatype RepositoryQuery = RepositoryQuery(owner: string, name: string, first: SubQuery, second: SubQuery)

  /** Indentation in front of a sub-query. */
  const Indent := "\n\t\t"

  /** The arguments every sub-query passes before the optional cursor. */
  const Arguments := "(first: 100, states: [OPEN] "

  /** The start of the optional cursor argument, up to the cursor's opening quote. */
  const AfterArgument := ", after: \""

  /** Everything of a sub-query after its arguments. */
  const Selection := ")" + SelectionBody

  /** The selection set of a sub-query: its page info and every item's first ten assignee logins. */
  const SelectionBody := " {\n\t\t\tpageInfo {\n\t\t\t\thasNextPage\n\t\t\t\tendCursor\n\t\t\t}\n\t\t\tnodes {\n\t\t\t\tassignees(first: 10) {\n\t\t\t\t\tnodes {\n\t\t\t\t\t\tlogin\n\t\t\t\t\t}\n\t\t\t\t}\n\t\t\t}\n\t\t}\n\t"

  const Header := "\nquery {\n  repository(owner: \""
  const NameArgument := "\", name: \""
  const Open := "\") {\n\t\t"
  const Footer := "\n  }\n}\n\t"

  /** Between the two sub-queries. */
  const Separator := "\n\t\t"

  /** Closes the cursor argument. */
  const ClosingQuote := "\""

  lemma ConstantsStart()
    ensures Arguments != [] && Arguments[0] == '('
    ensures ClosingQuote != [] && ClosingQuote[0] == '"'
    ensures NameArgument != [] && NameArgument[0] == '"'
    ensures Open != [] && Open[0] == '"'
    ensures AfterArgument != [] && Selection != [] && AfterArgument[0] != Selection[0]
  {
    assert AfterArgument[0] == ',';
    assert Selection[0] == ')';
  }

  /** Reads the indentation, the connection field and the fixed arguments of a sub-query. */
  function ReadConnection(s: string): Option<(string, string)>
  {
    match Strip(Indent, s)
    case None => None
    case Some(s1) =>
      var connection := TakeUntil(s1, '(');
      match Strip(Arguments, s1[|connection|..])
      case None => None
      case Some(s2) => Some((connection, s2))
  }

  /** Reads the optional `after:` argument; text without one reads as no cursor. */
  function ReadCursor(s: string): Option<(Option<string>, string)>
  {
    match Strip(AfterArgument, s)
    case None => Some((None, s))
    case Some(s1) =>
      var cursor := TakeUntil(s1, '"');
      match Strip(ClosingQuote, s1[|cursor|..])
      case None => None
      case Some(s2) => Some((Some(cursor), s2))
  }

  /** Reads one sub-query from the front of `s`; gives it and the text that follows it. */
  function ReadSubQuery(s: string): Option<(SubQuery, string)>
  {
    match ReadConnection(s)
    case None => None
    case Some((connection, s1)) =>
      match ReadCursor(s1)
      case None => None
      case Some((after, s2)) =>
        match Strip(Selection, s2)
        case None => None
        case Some(s3) => Some((SubQuery(connection, after), s3))
  }

  /** Reads the header of a repository query up to its first sub-query. */
  function ReadRepository(q: string): Option<(string, string, string)>
  {
    match Strip(Header, q)
    case None => None
    case Some(s1) =>
      var owner := TakeUntil(s1, '"');
      match Strip(NameArgument, s1[|owner|..])
      case None => None
      case Some(s2) =>
        var name := TakeUntil(s2, '"');
        match Strip(Open, s2[|name|..])
        case None => None
        case Some(s3) => Some((owner, name, s3))
  }

  /** Reads a whole repository query; anything but the footer after the second sub-query is refused. */
  function ReadQuery(q: string): Option<RepositoryQuery>
  {
    match ReadRepository(q)
    case None => None
    case Some((owner, name, s1)) =>
      match ReadSubQuery(s1)
      case None => None
      case Some((first, s2)) =>
        match Strip(Separator, s2)
        case None => None
        case Some(s3) =>
          match ReadSubQuery(s3)
          case None => None
          case Some((second, s4)) =>
            if s4 == Footer then Some(RepositoryQuery(owner, name, first, second)) else None
  }

  // ---------------------------------------------------------------------------
  // Reading back what was written
  // ---------------------------------------------------------------------------

  /** A prefix ending in a delimiter that `a` does not contain is found right after `a`. */
  lemma DelimitedBy(a: string, p: string, rest: string)
    requires p != [] && p[0] !in a
    ensures TakeUntil(a + p + rest, p[0]) == a
    ensures (a + p + rest)[|a|..] == p + rest
  {
    assert a + p + rest == a + [p[0]] + (p[1..] + rest);
    TakeUntilDelimited(a, p[0], p[1..] + rest);
  }

  /** Text that starts differently from `p` does not start with `p`. */
  lemma StripMismatch(p: string, s: string)
    requires p != [] && s != [] && p[0] != s[0]
    ensures Strip(p, s) == None
  {
  }

  lemma ReadConnectionOf(connection: string, rest: string)
    requires '(' !in connection
    ensures ReadConnection(Indent + connection + Arguments + rest) == Some((connection, rest))
  {
    ConstantsStart();
    assert Indent + connection + Arguments + rest == Indent + (connection + Arguments + rest);
    StripConcat(Indent, connection + Arguments + rest);
    DelimitedBy(connection, Arguments, rest);
    StripConcat(Arguments, rest);
  }

  lemma ReadNoCursor(rest: string)
    ensures ReadCursor(Selection + rest) == Some((None, Selection + rest))
  {
    ConstantsStart();
    StripMismatch(AfterArgument, Selection + rest);
  }

  lemma ReadCursorOf(cursor: string, rest: string)
    requires '"' !in cursor
    ensures ReadCursor(AfterArgument + cursor + ClosingQuote + rest) == Some((Some(cursor), rest))
  {
    ConstantsStart();
    assert AfterArgument + cursor + ClosingQuote + rest == AfterArgument + (cursor + ClosingQuote + rest);
    StripConcat(AfterArgument, cursor + ClosingQuote + rest);
    DelimitedBy(cursor, ClosingQuote, rest);
    StripConcat(ClosingQuote, rest);
  }

  /** A sub-query without a cursor argument reads back with no cursor. */
  lemma ReadPlainSubQuery(connection: string, rest: string)
    requires '(' !in connection
    ensures ReadSubQuery(Indent + connection + Arguments + Selection + rest)
         == Some((SubQuery(connection, None), rest))
  {
    assert Indent + connection + Arguments + Selection + rest == Indent + connection + Arguments + (Selection + rest);
    ReadConnectionOf(connection, Selection + rest);
    ReadNoCursor(rest);
    StripConcat(Selection, rest);
  }

  /** A sub-query with a cursor argument reads back with that cursor. */
  lemma ReadCursorSubQuery(connection: string, cursor: string, rest: string)
    requires '(' !in connection && '"' !in cursor
    ensures ReadSubQuery(Indent + connection + Arguments + AfterArgument + cursor + ClosingQuote + Selection + rest)
         == Some((SubQuery(connection, Some(cursor)), rest))
  {
    var tail := AfterArgument + cursor + ClosingQuote + (Selection + rest);
    assert Indent + connection + Arguments + AfterArgument + cursor + ClosingQuote + Selection + rest
        == Indent + connection + Arguments + tail;
    ReadConnectionOf(connection, tail);
    ReadCursorOf(cursor, Selection + rest);
    StripConcat(Selection, rest);
  }

  lemma ReadRepositoryOf(owner: string, name: string, rest: string)
    requires '"' !in owner && '"' !in name
    ensures ReadRepository(Header + owner + NameArgument + name + Open + rest) == Some((owner, name, rest))
  {
    ConstantsStart();
    var t2 := name + Open + rest;
    var t1 := owner + NameArgument + t2;
    assert Header + owner + NameArgument + name + Open + rest == Header + t1;
    StripConcat(Header, t1);
    DelimitedBy(owner, NameArgument, t2);
    StripConcat(NameArgument, t2);
    DelimitedBy(name, Open, rest);
    StripConcat(Open, rest);
  }

  lemma Regroup(a: string, b: string, c: string, d: string, e: string, f: string, g: string, h: string, k: string)
    ensures a + b + c + d + e + f + g + h + k == a + b + c + d + e + (f + (g + (h + k)))
  {
  }

  /**
   * A repository query reads back into its owner, name and two sub-queries, in order, when
   * each sub-query text reads back on its own followed by whatever comes after it.
   */
  lemma ReadRepositoryQuery(owner: string, name: string, q1: string, q2: string, s1: SubQuery, s2: SubQuery)
    requires '"' !in owner && '"' !in name
    requires ReadSubQuery(q1 + (Separator + (q2 + Footer))) == Some((s1, Separator + (q2 + Footer)))
    requires ReadSubQuery(q2 + Footer) == Some((s2, Footer))
    ensures ReadQuery(Header + owner + NameArgument + name + Open + q1 + Separator + q2 + Footer)
         == Some(RepositoryQuery(owner, name, s1, s2))
  {
    Regroup(Header, owner, NameArgument, name, Open, q1, Separator, q2, Footer);
    ReadRepositoryOf(owner, name, q1 + (Separator + (q2 + Footer)));
    StripConcat(Separator, q2 + Footer);
  }
}
