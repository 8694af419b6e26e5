/**
 * The assignee tally (Go's `AssignedIssuesStat`, a `map[string]int`) and the laws of the two
 * operations that build it: counting the items of one page, where an item adds one to each
 * of its assignees or, when it has none, one to the sentinel `_nobody`; and merging tallies
 * key by key. These are the specification functions that the loops of `statsFor`/`StatsFor`
 * and `mergeStats`/`MergeStats` are proved against.
 */
module Tally {

  type Login = string

  /** Go's `AssignedIssuesStat`: assignee login to number of open items. */
  type Tally = map<Login, int>

  /** The assignee logins of one open issue or pull request, in response order. */
  type Item = seq<Login>

  /** The key that counts items without any assignee. */
  const Nobody: Login := "_nobody"

  /** A Go map read: a missing key reads as zero. */
  function Get(t: Tally, k: Login): int
  {
    if k in t then t[k] else 0
  }

  /** Go's `t[k] += n`, which also creates a missing key. */
  function Add(t: Tally, k: Login, n: int): Tally
  {
    t[k := Get(t, k) + n]
  }

  // ---------------------------------------------------------------------------
  // Counting one page
  // ---------------------------------------------------------------------------

  /** The keys one item is counted under: its assignees, or `_nobody` when it has none. */
  function Units(item: Item): seq<Login>
  {
    if item == [] then [Nobody] else item
  }

  /** The keys of all items of a page, item after item. */
  function PageUnits(items: seq<Item>): seq<Login>
  {
    if items == [] then [] else PageUnits(items[..|items| - 1]) + Units(items[|items| - 1])
  }

  /** How many units a page contributes: the sum over its items of max(1, number of assignees). */
  function UnitCount(items: seq<Item>): nat
  {
    if items == [] then 0
    else UnitCount(items[..|items| - 1]) + (if items[|items| - 1] == [] then 1 else |items[|items| - 1]|)
  }

  /** How often `k` occurs in `s`. */
  function Occurrences(s: seq<Login>, k: Login): nat
  {
    if s == [] then 0 else Occurrences(s[..|s| - 1], k) + (if s[|s| - 1] == k then 1 else 0)
  }

  /** The tally that counts each login of `s` once per occurrence. */
  function CountOf(s: seq<Login>): Tally
  {
    map k | k in s :: Occurrences(s, k)
  }

  /** The tally of one page of items: what `statsFor` computes. */
  function PageTally(items: seq<Item>): Tally
  {
    CountOf(PageUnits(items))
  }

  lemma {:induction false} OccurrencesAppend(s: seq<Login>, t: seq<Login>, k: Login)
    ensures Occurrences(s + t, k) == Occurrences(s, k) + Occurrences(t, k)
    decreases |t|
  {
    if t == [] {
      assert s + t == s;
    } else {
      assert (s + t)[..|s + t| - 1] == s + t[..|t| - 1];
      OccurrencesAppend(s, t[..|t| - 1], k);
    }
  }

  lemma {:induction false} OccurrencesPositive(s: seq<Login>, k: Login)
    ensures Occurrences(s, k) > 0 <==> k in s
    decreases |s|
  {
    if s != [] {
      OccurrencesPositive(s[..|s| - 1], k);
      assert s == s[..|s| - 1] + [s[|s| - 1]];
    }
  }

  /** Reading any key of `CountOf(s)` gives its number of occurrences in `s`. */
  lemma GetCountOf(s: seq<Login>, k: Login)
    ensures Get(CountOf(s), k) == Occurrences(s, k)
  {
    OccurrencesPositive(s, k);
  }

  /** Counting one more login is Go's `t[login]++`. */
  lemma CountOfSnoc(s: seq<Login>, x: Login)
    ensures CountOf(s + [x]) == Add(CountOf(s), x, 1)
  {
    forall k
      ensures Get(CountOf(s + [x]), k) == Get(Add(CountOf(s), x, 1), k)
    {
      GetCountOf(s + [x], k);
      GetCountOf(s, k);
      OccurrencesAppend(s, [x], k);
      assert [x][..0] == [];
    }
    MapsEqual(CountOf(s + [x]), Add(CountOf(s), x, 1));
  }

  /** Counting two sequences one after the other is merging their tallies. */
  lemma CountOfAppend(s: seq<Login>, t: seq<Login>)
    ensures CountOf(s + t) == Merge(CountOf(s), CountOf(t))
  {
    forall k
      ensures Get(CountOf(s + t), k) == Get(Merge(CountOf(s), CountOf(t)), k)
    {
      GetCountOf(s + t, k);
      GetCountOf(s, k);
      GetCountOf(t, k);
      OccurrencesAppend(s, t, k);
    }
    MapsEqual(CountOf(s + t), Merge(CountOf(s), CountOf(t)));
  }

  /** Two tallies with the same keys that read alike are equal. */
  lemma MapsEqual(a: Tally, b: Tally)
    requires a.Keys == b.Keys
    requires forall k :: Get(a, k) == Get(b, k)
    ensures a == b
  {
    forall k | k in a
      ensures a[k] == b[k]
    {
      assert Get(a, k) == Get(b, k);
    }
  }

  lemma {:induction false} PageUnitsLength(items: seq<Item>)
    ensures |PageUnits(items)| == UnitCount(items)
    decreases |items|
  {
    if items != [] {
      PageUnitsLength(items[..|items| - 1]);
    }
  }

  lemma PageUnitsSnoc(items: seq<Item>, item: Item)
    ensures PageUnits(items + [item]) == PageUnits(items) + Units(item)
  {
    assert (items + [item])[..|items|] == items;
  }

  /** Every key of a page tally was counted at least once: no zero entries. */
  lemma PageTallyPositive(items: seq<Item>)
    ensures forall k :: k in PageTally(items) ==> PageTally(items)[k] >= 1
  {
    forall k | k in PageTally(items)
      ensures PageTally(items)[k] >= 1
    {
      OccurrencesPositive(PageUnits(items), k);
    }
  }

  /** An item without assignees adds exactly one to `_nobody` and changes nothing else. */
  lemma PageTallyUnassigned(items: seq<Item>)
    ensures PageTally(items + [[]]) == Add(PageTally(items), Nobody, 1)
  {
    PageUnitsSnoc(items, []);
    CountOfSnoc(PageUnits(items), Nobody);
  }

  /**
   * An item with assignees adds one to each assignee entry, so the tally grows by the number
   * of entries; `_nobody` changes only if it occurs among the logins.
   */
  lemma PageTallyAssigned(items: seq<Item>, item: Item)
    requires item != []
    ensures forall k :: Get(PageTally(items + [item]), k) == Get(PageTally(items), k) + Occurrences(item, k)
    ensures Nobody !in item ==> Get(PageTally(items + [item]), Nobody) == Get(PageTally(items), Nobody)
    ensures Total(PageTally(items + [item])) == Total(PageTally(items)) + |item|
  {
    PageUnitsSnoc(items, item);
    CountOfAppend(PageUnits(items), item);
    forall k
      ensures Get(PageTally(items + [item]), k) == Get(PageTally(items), k) + Occurrences(item, k)
    {
      GetCountOf(item, k);
    }
    OccurrencesPositive(item, Nobody);
    TotalMerge(PageTally(items), CountOf(item));
    TotalCountOf(item);
  }

  /** Conservation: a page tally's counts add up to the number of units its items contribute. */
  lemma PageTallyTotal(items: seq<Item>)
    ensures Total(PageTally(items)) == UnitCount(items)
  {
    TotalCountOf(PageUnits(items));
    PageUnitsLength(items);
  }

  // ---------------------------------------------------------------------------
  // Merging
  // ---------------------------------------------------------------------------

  /** Key-wise sum; a key missing from one side counts as zero there. */
  function Merge(a: Tally, b: Tally): Tally
  {
    map k | k in a.Keys + b.Keys :: Get(a, k) + Get(b, k)
  }

  /** What `mergeStats` computes: the tallies merged into an empty one from first to last. */
  function MergeAll(ts: seq<Tally>): Tally
  {
    if ts == [] then map[] else Merge(MergeAll(ts[..|ts| - 1]), ts[|ts| - 1])
  }

  lemma MergeCommutative(a: Tally, b: Tally)
    ensures Merge(a, b) == Merge(b, a)
  {
  }

  lemma MergeAssociative(a: Tally, b: Tally, c: Tally)
    ensures Merge(Merge(a, b), c) == Merge(a, Merge(b, c))
  {
    MapsEqual(Merge(Merge(a, b), c), Merge(a, Merge(b, c)));
  }

  lemma MergeIdentity(t: Tally)
    ensures Merge(t, map[]) == t
    ensures Merge(map[], t) == t
  {
    MapsEqual(Merge(t, map[]), t);
    MapsEqual(Merge(map[], t), t);
  }

  /** The keys that occur in any of the tallies. */
  function KeysOf(ts: seq<Tally>): set<Login>
  {
    if ts == [] then {} else KeysOf(ts[..|ts| - 1]) + ts[|ts| - 1].Keys
  }

  /** The sum of the counts of `k` across the tallies, absent counting as zero. */
  function SumAt(ts: seq<Tally>, k: Login): int
  {
    if ts == [] then 0 else SumAt(ts[..|ts| - 1], k) + Get(ts[|ts| - 1], k)
  }

  /**
   * `mergeStats` is a key-wise sum: its keys are the union of the inputs' keys, and each key
   * reads as the sum of its counts. In particular an empty list merges to the empty tally.
   */
  lemma {:induction false} MergeAllKeyWise(ts: seq<Tally>)
    ensures MergeAll(ts).Keys == KeysOf(ts)
    ensures forall k :: Get(MergeAll(ts), k) == SumAt(ts, k)
    decreases |ts|
  {
    if ts != [] {
      MergeAllKeyWise(ts[..|ts| - 1]);
    }
  }

  lemma {:induction false} MergeAllAppend(xs: seq<Tally>, ys: seq<Tally>)
    ensures MergeAll(xs + ys) == Merge(MergeAll(xs), MergeAll(ys))
    decreases |ys|
  {
    if ys == [] {
      assert xs + ys == xs;
      MergeIdentity(MergeAll(xs));
    } else {
      var last := ys[|ys| - 1];
      assert (xs + ys)[..|xs + ys| - 1] == xs + ys[..|ys| - 1];
      MergeAllAppend(xs, ys[..|ys| - 1]);
      MergeAssociative(MergeAll(xs), MergeAll(ys[..|ys| - 1]), last);
    }
  }

  /** `mergeStats` does not depend on the order of its inputs. */
  lemma {:induction false} MergeAllPermutation(xs: seq<Tally>, ys: seq<Tally>)
    requires multiset(xs) == multiset(ys)
    ensures MergeAll(xs) == MergeAll(ys)
    decreases |xs|
  {
    if xs == [] {
      assert |ys| == |multiset(ys)| == 0;
    } else {
      var x := xs[|xs| - 1];
      var front := xs[..|xs| - 1];
      assert xs == front + [x];
      assert x in multiset(ys);
      var i :| 0 <= i < |ys| && ys[i] == x;
      var before, after := ys[..i], ys[i + 1..];
      assert ys == before + [x] + after;
      assert multiset(xs) == multiset(front) + multiset{x};
      assert multiset(ys) == multiset(before) + multiset{x} + multiset(after);
      assert multiset(front) == multiset(xs) - multiset{x};
      assert multiset(before + after) == multiset(ys) - multiset{x};
      MergeAllPermutation(front, before + after);
      MergeAllAppend(before + [x], after);
      MergeAllAppend(before, after);
      assert MergeAll(before + [x]) == Merge(MergeAll(before), x);
      MergeAssociative(MergeAll(before), x, MergeAll(after));
      MergeCommutative(x, MergeAll(after));
      MergeAssociative(MergeAll(before), MergeAll(after), x);
    }
  }

  // ---------------------------------------------------------------------------
  // The total count
  // ---------------------------------------------------------------------------

  /** The sum of all counts of a tally. */
  ghost function Total(t: Tally): int
    decreases |t|
  {
    if t == map[] then 0
    else
      var k :| k in t;
      assert (t - {k}).Keys == t.Keys - {k};
      t[k] + Total(t - {k})
  }

  /** The total can be computed by taking out any key first. */
  lemma {:induction false} TotalRemove(t: Tally, k: Login)
    requires k in t
    ensures Total(t) == t[k] + Total(t - {k})
    decreases |t|
  {
    var j :| j in t && Total(t) == t[j] + Total(t - {j});
    if j != k {
      assert (t - {j}).Keys == t.Keys - {j};
      TotalRemove(t - {j}, k);
      TotalRemove(t - {k}, j);
      assert t - {j} - {k} == t - {k} - {j};
    }
  }

  lemma TotalAdd(t: Tally, k: Login, n: int)
    ensures Total(Add(t, k, n)) == Total(t) + n
  {
    TotalRemove(Add(t, k, n), k);
    assert Add(t, k, n) - {k} == t - {k};
    if k in t {
      TotalRemove(t, k);
    } else {
      assert t - {k} == t;
    }
  }

  lemma MergeTakeOut(a: Tally, b: Tally, k: Login)
    requires k in b
    ensures Merge(a, b) == Add(Merge(a, b - {k}), k, b[k])
  {
    MapsEqual(Merge(a, b), Add(Merge(a, b - {k}), k, b[k]));
  }

  /** Conservation for merging: the total of a merge is the sum of the totals. */
  lemma {:induction false} TotalMerge(a: Tally, b: Tally)
    ensures Total(Merge(a, b)) == Total(a) + Total(b)
    decreases |b|
  {
    if b == map[] {
      MergeIdentity(a);
    } else {
      var k :| k in b;
      var rest := b - {k};
      assert rest.Keys == b.Keys - {k};
      TotalMerge(a, rest);
      TotalRemove(b, k);
      MergeTakeOut(a, b, k);
      TotalAdd(Merge(a, rest), k, b[k]);
    }
  }

  /** Conservation for counting: a tally of `s` has total `|s|`. */
  lemma {:induction false} TotalCountOf(s: seq<Login>)
    ensures Total(CountOf(s)) == |s|
    decreases |s|
  {
    if s == [] {
    } else {
      var front := s[..|s| - 1];
      assert s == front + [s[|s| - 1]];
      TotalCountOf(front);
      CountOfSnoc(front, s[|s| - 1]);
      TotalAdd(CountOf(front), s[|s| - 1], 1);
    }
  }

  /** The sum of the totals of the tallies. */
  ghost function TotalOfAll(ts: seq<Tally>): int
  {
    if ts == [] then 0 else TotalOfAll(ts[..|ts| - 1]) + Total(ts[|ts| - 1])
  }

  /** Conservation for `mergeStats`: the merged total is the sum of the input totals. */
  lemma {:induction false} TotalMergeAll(ts: seq<Tally>)
    ensures Total(MergeAll(ts)) == TotalOfAll(ts)
    decreases |ts|
  {
    if ts != [] {
      TotalMergeAll(ts[..|ts| - 1]);
      TotalMerge(MergeAll(ts[..|ts| - 1]), ts[|ts| - 1]);
    }
  }
}
