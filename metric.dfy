/**
 * The metrics report that `asMetric` renders from a tally: one line
 * `<prefix>.<name> <count> <now>\n` per key, keys in ascending order, one timestamp for all
 * lines. `Report` is the specification the `asMetric` loops are proved against; `ReadReport`
 * reads such a text back into (name, value, timestamp) samples, and the round trip between
 * the two states what the report means.
 */
module Metric {
  import opened Wrappers
  import opened Text
  import opened Tally

  /** One report line: Go's `fmt.Sprintf("%s.%s %v %v\n", prefix, name, count, now)`. */
  function Line(prefix: string, name: Login, count: int, now: int): string
  {
    prefix + "." + name + " " + Decimal(count) + " " + Decimal(now) + "\n"
  }

  /** The lines for `keys`, in that order, each with the key's count in `t`. */
  function LinesFor(prefix: string, t: Tally, keys: seq<Login>, now: int): seq<string>
  {
    seq(|keys|, i requires 0 <= i < |keys| => Line(prefix, keys[i], Get(t, keys[i]), now))
  }

  /** The lines written one after the other. */
  function Concat(lines: seq<string>): string
  {
    if lines == [] then "" else lines[0] + Concat(lines[1..])
  }

  lemma {:induction false} ConcatSnoc(lines: seq<string>, line: string)
    ensures Concat(lines + [line]) == Concat(lines) + line
    decreases |lines|
  {
    if lines == [] {
      assert Concat([line]) == line + Concat([]);
    } else {
      assert (lines + [line])[1..] == lines[1..] + [line];
      ConcatSnoc(lines[1..], line);
    }
  }

  lemma LinesForSnoc(prefix: string, t: Tally, keys: seq<Login>, now: int, i: nat)
    requires i < |keys|
    ensures LinesFor(prefix, t, keys[..i + 1], now)
         == LinesFor(prefix, t, keys[..i], now) + [Line(prefix, keys[i], Get(t, keys[i]), now)]
  {
  }

  // ---------------------------------------------------------------------------
  // The keys in ascending order
  // ---------------------------------------------------------------------------

  /** `m` is a key of `keys` that sorts at or below every other. */
  ghost predicate IsMinimum(m: Login, keys: set<Login>)
  {
    m in keys && forall k :: k in keys ==> LessEq(m, k)
  }

  lemma {:induction false} MinimumExists(keys: set<Login>)
    requires keys != {}
    ensures exists m :: IsMinimum(m, keys)
    decreases |keys|
  {
    var x :| x in keys;
    var rest := keys - {x};
    LessEqReflexive(x);
    if rest == {} {
      assert forall k :: k in keys ==> k in rest || k == x;
      assert IsMinimum(x, keys);
    } else {
      MinimumExists(rest);
      var m :| IsMinimum(m, rest);
      LessEqTotal(m, x);
      if LessEq(m, x) {
        assert IsMinimum(m, keys);
      } else {
        forall k | k in rest
          ensures LessEq(x, k)
        {
          LessEqTransitive(x, m, k);
        }
        assert IsMinimum(x, keys);
      }
    }
  }

  /** The least key in Go's string order. */
  ghost function Minimum(keys: set<Login>): (m: Login)
    requires keys != {}
    ensures m in keys && forall k :: k in keys ==> LessEq(m, k)
  {
    MinimumExists(keys);
    var m :| IsMinimum(m, keys);
    m
  }

  /** The keys of a tally, each once, in ascending order: what `sort.Strings(keys)` yields. */
  ghost function SortedKeys(keys: set<Login>): (r: seq<Login>)
    ensures Ascending(r)
    ensures forall k :: k in r <==> k in keys
    decreases |keys|
  {
    if keys == {} then []
    else
      var m := Minimum(keys);
      var rest := SortedKeys(keys - {m});
      assert Ascending([m] + rest) by {
        forall j | 0 <= j < |rest|
          ensures LessEq(m, rest[j]) && m != rest[j]
        {
          assert rest[j] in keys - {m};
        }
      }
      [m] + rest
  }

  /** The report lines of a tally. */
  ghost function ReportLines(prefix: string, t: Tally, now: int): seq<string>
  {
    LinesFor(prefix, t, SortedKeys(t.Keys), now)
  }

  /** The whole report: what `asMetric` returns. */
  ghost function Report(prefix: string, t: Tally, now: int): string
  {
    Concat(ReportLines(prefix, t, now))
  }

  /** An empty tally renders as the empty text. */
  lemma ReportEmpty(prefix: string, now: int)
    ensures Report(prefix, map[], now) == ""
  {
    assert SortedKeys({}) == [];
  }

  // ---------------------------------------------------------------------------
  // Reading a report back
  // ---------------------------------------------------------------------------

  /** A metric sample as an ingestion sink receives it. */
  datatype Sample = Sample(name: Login, value: int, timestamp: int)

  /** The text cut after every newline, without the newlines. */
  function SplitLines(s: string): seq<string>
    decreases |s|
  {
    if s == [] then []
    else
      var line := TakeUntil(s, '\n');
      if |line| == |s| then [line] else [line] + SplitLines(s[|line| + 1..])
  }

  /** Reads `<prefix>.<name> <value> <timestamp>`. */
  function ReadLine(prefix: string, line: string): Option<Sample>
  {
    match Strip(prefix + ".", line)
    case None => None
    case Some(rest) =>
      var name := TakeUntil(rest, ' ');
      if |name| == |rest| then None
      else
        var numbers := rest[|name| + 1..];
        var value := TakeUntil(numbers, ' ');
        if |value| == |numbers| then None
        else Some(Sample(name, DecimalValue(value), DecimalValue(numbers[|value| + 1..])))
  }

  function ReadLines(prefix: string, lines: seq<string>): Option<seq<Sample>>
  {
    if lines == [] then Some([])
    else
      match (ReadLine(prefix, lines[0]), ReadLines(prefix, lines[1..]))
      case (Some(s), Some(ss)) => Some([s] + ss)
      case _ => None
  }

  /** Reads a whole report, line by line. */
  function ReadReport(prefix: string, text: string): Option<seq<Sample>>
  {
    ReadLines(prefix, SplitLines(text))
  }

  /** The line of a sample without its newline. */
  function LineBody(prefix: string, name: Login, count: int, now: int): string
  {
    prefix + "." + name + " " + Decimal(count) + " " + Decimal(now)
  }

  lemma DecimalHasNoBlank(n: int)
    ensures ' ' !in Decimal(n) && '\n' !in Decimal(n)
  {
  }

  /** Reading `<prefix>.<name> <c> <n>` when neither `name` nor `c` holds a blank. */
  lemma ReadFields(prefix: string, name: Login, c: string, n: string)
    requires ' ' !in name && ' ' !in c
    ensures ReadLine(prefix, (prefix + ".") + (name + [' '] + (c + [' '] + n)))
         == Some(Sample(name, DecimalValue(c), DecimalValue(n)))
  {
    var numbers := c + [' '] + n;
    var rest := name + [' '] + numbers;
    StripConcat(prefix + ".", rest);
    TakeUntilDelimited(name, ' ', numbers);
    assert rest[|name| + 1..] == numbers;
    TakeUntilDelimited(c, ' ', n);
    assert numbers[|c| + 1..] == n;
  }

  lemma ReadLineBody(prefix: string, name: Login, count: int, now: int)
    requires ' ' !in name
    ensures ReadLine(prefix, LineBody(prefix, name, count, now)) == Some(Sample(name, count, now))
  {
    var c, n := Decimal(count), Decimal(now);
    DecimalHasNoBlank(count);
    DecimalRoundTrip(count);
    DecimalRoundTrip(now);
    assert LineBody(prefix, name, count, now) == (prefix + ".") + (name + [' '] + (c + [' '] + n));
    ReadFields(prefix, name, c, n);
  }

  /** Every line ends in a newline and holds no other newline. */
  predicate Terminated(lines: seq<string>)
  {
    forall i :: 0 <= i < |lines| ==> lines[i] != [] && lines[i][|lines[i]| - 1] == '\n' && '\n' !in lines[i][..|lines[i]| - 1]
  }

  lemma {:induction false} SplitConcat(lines: seq<string>)
    requires Terminated(lines)
    ensures SplitLines(Concat(lines)) == seq(|lines|, i requires 0 <= i < |lines| => lines[i][..|lines[i]| - 1])
    decreases |lines|
  {
    if lines != [] {
      var first := lines[0];
      var body := first[..|first| - 1];
      var rest := Concat(lines[1..]);
      assert Terminated(lines[1..]) by {
        forall i | 0 <= i < |lines[1..]|
          ensures lines[1..][i] != [] && lines[1..][i][|lines[1..][i]| - 1] == '\n'
          ensures '\n' !in lines[1..][i][..|lines[1..][i]| - 1]
        {
          assert lines[1..][i] == lines[i + 1];
        }
      }
      SplitConcat(lines[1..]);
      assert first == body + ['\n'];
      assert Concat(lines) == body + ['\n'] + rest;
      TakeUntilDelimited(body, '\n', rest);
      assert Concat(lines)[|body| + 1..] == rest;
    }
  }

  /** What reading the rendered lines for `keys` gives back. */
  function SamplesFor(t: Tally, keys: seq<Login>, now: int): seq<Sample>
  {
    seq(|keys|, i requires 0 <= i < |keys| => Sample(keys[i], Get(t, keys[i]), now))
  }

  /** The rendered lines for `keys` without their newlines. */
  function BodiesFor(prefix: string, t: Tally, keys: seq<Login>, now: int): seq<string>
  {
    seq(|keys|, i requires 0 <= i < |keys| => LineBody(prefix, keys[i], Get(t, keys[i]), now))
  }

  lemma ForTail(prefix: string, t: Tally, keys: seq<Login>, now: int)
    requires keys != []
    ensures BodiesFor(prefix, t, keys, now)[1..] == BodiesFor(prefix, t, keys[1..], now)
    ensures SamplesFor(t, keys, now) == [Sample(keys[0], Get(t, keys[0]), now)] + SamplesFor(t, keys[1..], now)
  {
  }

  lemma {:induction false} ReadLinesFor(prefix: string, t: Tally, keys: seq<Login>, now: int)
    requires forall i :: 0 <= i < |keys| ==> ' ' !in keys[i]
    ensures ReadLines(prefix, BodiesFor(prefix, t, keys, now)) == Some(SamplesFor(t, keys, now))
    decreases |keys|
  {
    if keys != [] {
      ReadLineBody(prefix, keys[0], Get(t, keys[0]), now);
      ReadLinesFor(prefix, t, keys[1..], now);
      ForTail(prefix, t, keys, now);
    }
  }

  /**
   * Reading a report back recovers, line by line, each key of the tally in ascending order
   * with its count and the one shared timestamp. Keys and prefix must be free of the
   * separators the format uses (GitHub logins and the sentinel are).
   */
  lemma RenderedLinesReadBack(prefix: string, t: Tally, keys: seq<Login>, now: int)
    requires '\n' !in prefix
    requires forall i :: 0 <= i < |keys| ==> ' ' !in keys[i] && '\n' !in keys[i]
    ensures |SplitLines(Concat(LinesFor(prefix, t, keys, now)))| == |keys|
    ensures ReadReport(prefix, Concat(LinesFor(prefix, t, keys, now))) == Some(SamplesFor(t, keys, now))
  {
    var lines := LinesFor(prefix, t, keys, now);
    forall i | 0 <= i < |lines|
      ensures lines[i] != [] && lines[i][|lines[i]| - 1] == '\n'
      ensures '\n' !in lines[i][..|lines[i]| - 1]
      ensures lines[i][..|lines[i]| - 1] == LineBody(prefix, keys[i], Get(t, keys[i]), now)
    {
      var body := LineBody(prefix, keys[i], Get(t, keys[i]), now);
      assert lines[i] == body + "\n";
      DecimalHasNoBlank(Get(t, keys[i]));
      DecimalHasNoBlank(now);
      assert body == prefix + "." + keys[i] + " " + Decimal(Get(t, keys[i])) + " " + Decimal(now);
      assert '\n' !in body;
    }
    SplitConcat(lines);
    ReadLinesFor(prefix, t, keys, now);
    assert seq(|lines|, i requires 0 <= i < |lines| => lines[i][..|lines[i]| - 1])
        == BodiesFor(prefix, t, keys, now);
  }

  /**
   * What the report of a tally says: it has one line per key; read back, the lines name the
   * keys in strictly ascending order, each exactly once, each with its count, and all with
   * the same timestamp.
   */
  lemma ReportReadBack(prefix: string, t: Tally, now: int)
    requires '\n' !in prefix
    requires forall k :: k in t ==> ' ' !in k && '\n' !in k
    ensures |SplitLines(Report(prefix, t, now))| == |t|
    ensures ReadReport(prefix, Report(prefix, t, now)).Some?
    ensures var samples := ReadReport(prefix, Report(prefix, t, now)).value;
      && |samples| == |t|
      && (forall i, j :: 0 <= i < j < |samples| ==> LessEq(samples[i].name, samples[j].name) && samples[i].name != samples[j].name)
      && (forall i :: 0 <= i < |samples| ==> samples[i].name in t && samples[i].value == t[samples[i].name])
      && (forall i :: 0 <= i < |samples| ==> samples[i].timestamp == now)
      && (forall k :: k in t ==> exists i :: 0 <= i < |samples| && samples[i].name == k)
  {
    var keys := SortedKeys(t.Keys);
    SortedSetLength(keys, t.Keys);
    RenderedLinesReadBack(prefix, t, keys, now);
    var samples := SamplesFor(t, keys, now);
    forall k | k in t
      ensures exists i :: 0 <= i < |samples| && samples[i].name == k
    {
      var i :| 0 <= i < |keys| && keys[i] == k;
      assert samples[i].name == k;
    }
  }

  /** A strictly ascending listing of a set has one entry per element. */
  lemma SortedSetLength(keys: seq<Login>, s: set<Login>)
    requires Ascending(keys)
    requires forall k :: k in keys <==> k in s
    ensures |keys| == |s|
  {
    assert forall i, j :: 0 <= i < j < |keys| ==> keys[i] != keys[j];
    DistinctLength(keys, s);
  }

  lemma {:induction false} DistinctLength(keys: seq<Login>, s: set<Login>)
    requires forall i, j :: 0 <= i < j < |keys| ==> keys[i] != keys[j]
    requires forall k :: k in keys <==> k in s
    ensures |keys| == |s|
    decreases |keys|
  {
    if keys == [] {
      assert forall k :: k !in s;
    } else {
      var x := keys[|keys| - 1];
      var front := keys[..|keys| - 1];
      assert keys == front + [x];
      assert x !in front;
      DistinctLength(front, s - {x});
    }
  }
}
