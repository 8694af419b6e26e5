/**
 * The tallying half of the program: counting one page of a response per assignee, merging
 * tallies key by key, and rendering a tally as metric lines. Each method is the loop the
 * program runs, proved equal to the specification function of module `Tally` or `Metric`
 * whose properties are proved there.
 */
module Stat {
  import opened Text
  import opened Tally
  import opened Metric
  import opened GitHub

  /**
   * Counts one connection of a response: one unit per assignee of every item, and one unit
   * under `_nobody` for every item that has none.
   */
  method StatsFor(kind: Assignable, jsonResult: Response) returns (assignedIssuesStat: Tally)
    ensures assignedIssuesStat == PageTally(Nodes(jsonResult, kind))
  {
    var got := Nodes(jsonResult, kind);
    assignedIssuesStat := map[];
    for i := 0 to |got|
      invariant assignedIssuesStat == PageTally(got[..i])
    {
      var assignees := got[i];
      assert got[..i + 1] == got[..i] + [assignees];
      if |assignees| == 0 {
        PageTallyUnassigned(got[..i]);
        assignedIssuesStat := Add(assignedIssuesStat, Nobody, 1);
      } else {
        ghost var before := PageUnits(got[..i]);
        assert before + assignees[..0] == before;
        for j := 0 to |assignees|
          invariant assignedIssuesStat == CountOf(before + assignees[..j])
        {
          var assigneeName := assignees[j];
          assert before + assignees[..j + 1] == (before + assignees[..j]) + [assigneeName];
          CountOfSnoc(before + assignees[..j], assigneeName);
          assignedIssuesStat := Add(assignedIssuesStat, assigneeName, 1);
        }
        assert assignees[..|assignees|] == assignees;
        PageUnitsSnoc(got[..i], assignees);
      }
    }
    assert got[..|got|] == got;
  }

  /** Adds every tally into an initially empty one, key by key, in list order. */
  method MergeStats(stats: seq<Tally>) returns (total: Tally)
    ensures total == MergeAll(stats)
  {
    total := map[];
    for i := 0 to |stats|
      invariant total == MergeAll(stats[..i])
    {
      var st := stats[i];
      ghost var start := total;
      MergeIdentity(start);
      assert st - st.Keys == map[];
      var pending := st.Keys;
      while pending != {}
        invariant pending <= st.Keys
        invariant total == Merge(start, st - pending)
        decreases |pending|
      {
        var name :| name in pending;
        var count := st[name];
        ghost var done := st - (pending - {name});
        assert done - {name} == st - pending;
        MergeTakeOut(start, done, name);
        total := Add(total, name, count);
        pending := pending - {name};
      }
      assert st - pending == st;
      assert stats[..i + 1][..i] == stats[..i];
    }
    assert stats[..|stats|] == stats;
  }

  /**
   * Renders a tally as one line `<prefix>.<name> <count> <now>` per key, the keys in ascending
   * string order.
   */
  method AsMetric(s: Tally, prefix: string, now: int) returns (buf: string)
    ensures buf == Report(prefix, s, now)
  {
    buf := "";
    var keys: seq<Login> := [];
    var pending := s.Keys;
    while pending != {}
      invariant pending <= s.Keys
      invariant multiset(keys) == multiset(s.Keys - pending)
      decreases |pending|
    {
      var k :| k in pending;
      assert s.Keys - (pending - {k}) == (s.Keys - pending) + {k};
      keys := keys + [k];
      pending := pending - {k};
    }
    assert s.Keys - pending == s.Keys;
    keys := SortStrings(keys);
    SortedSetIsAscending(keys, s.Keys);
    AscendingUnique(keys, SortedKeys(s.Keys));
    for i := 0 to |keys|
      invariant buf == Concat(LinesFor(prefix, s, keys[..i], now))
    {
      var name := keys[i];
      var count := Get(s, name);
      LinesForSnoc(prefix, s, keys, now, i);
      ConcatSnoc(LinesFor(prefix, s, keys[..i], now), Line(prefix, name, count, now));
      buf := buf + Line(prefix, name, count, now);
    }
    assert keys[..|keys|] == keys;
  }
}
