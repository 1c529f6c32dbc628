/** benchmark/benchmark/utils.py: the file and directory names the benchmark
    scripts agree on (`PathMaker`), and the bar drawn by `progress_bar`. */
module Paths {
  import opened Wrappers
  import opened Text

  /** `a` with a separator appended unless it is empty or already ends with one. */
  function DirPrefix(a: string): (d: string)
    ensures |a| > 0 && a[|a| - 1] != '/' ==> d == a + "/"
    ensures |a| <= |d| && d[..|a|] == a
  {
    if a == [] || a[|a| - 1] == '/' then a else a + "/"
  }

  /** `os.path.join(a, b)` for a relative `b`. */
  function Join(a: string, b: string): string
  {
    DirPrefix(a) + b
  }

  /** Joining onto the same directory keeps distinct names distinct. */
  lemma JoinInjective(a: string, b1: string, b2: string)
    ensures Join(a, b1) == Join(a, b2) ==> b1 == b2
  {
    var d := DirPrefix(a);
    assert b1 == Join(a, b1)[|d|..];
    assert b2 == Join(a, b2)[|d|..];
  }

  function ExecuteFile(): string { "main" }

  function CommitteeFile(): string { ".committee.json" }

  function ParametersFile(): string { ".parameters.json" }

  /** `.node-key-<i>.json`; the source asserts `i >= 0`. */
  function KeyFile(i: nat): string
  {
    ".node-key-" + NatToString(i) + ".json"
  }

  /** `.node-ts-key-<i>.json`. */
  function ThresholdKeyFile(i: nat): string
  {
    ".node-ts-key-" + NatToString(i) + ".json"
  }

  /** `db-<i>`. */
  function DbPath(i: nat): string
  {
    "db-" + NatToString(i)
  }

  function LogsPath(ts: string): string { "logs/" + ts }

  function ResultsPath(ts: string): string { "results/" + ts }

  /** The file name of node `i`'s log of one level (`info`, `debug`, `warn`
      or `error`). */
  function NodeLogName(level: string, i: nat): string
  {
    "node-" + level + "-" + NatToString(i) + ".log"
  }

  function NodeLogInfoFile(i: nat, ts: string): string { Join(LogsPath(ts), NodeLogName("info", i)) }

  function NodeLogDebugFile(i: nat, ts: string): string { Join(LogsPath(ts), NodeLogName("debug", i)) }

  function NodeLogWarnFile(i: nat, ts: string): string { Join(LogsPath(ts), NodeLogName("warn", i)) }

  function NodeLogErrorFile(i: nat, ts: string): string { Join(LogsPath(ts), NodeLogName("error", i)) }

  /** `results/<ts>/bench-<nodes>-<rate>-<tx_size>-<batch_size>-<faults>.txt`. */
  function ResultFile(nodes: int, rate: int, txSize: int, batchSize: int, faults: int, ts: string): string
  {
    Join(ResultsPath(ts), "bench-" + Dashed([nodes, rate, txSize, batchSize, faults]) + ".txt")
  }

  /** `s` ends with `suffix`. */
  predicate EndsWith(s: string, suffix: string)
  {
    |suffix| <= |s| && s[|s| - |suffix|..] == suffix
  }

  /** A numeral and the text after it can be told apart, since the text
      after it starts with a character that is not a digit. */
  lemma NumeralPrefix(a: nat, b: nat, x: string, y: string)
    requires |x| > 0 && |y| > 0 && !IsDigit(x[0]) && !IsDigit(y[0])
    requires NatToString(a) + x == NatToString(b) + y
    ensures a == b && x == y
  {
    var s, t := NatToString(a), NatToString(b);
    var m := if |s| < |t| then |s| else |t|;
    assert (s + x)[m] == (t + y)[m];
    assert |s| == |t|;
    assert s == (s + x)[..|s|];
    assert t == (t + y)[..|t|];
    NatToStringInjective(a, b);
    assert x == (s + x)[|s|..];
    assert y == (t + y)[|t|..];
  }

  /** Distinct nodes get distinct key files, threshold key files and
      stores. */
  lemma KeyFilesInjective(i: nat, j: nat)
    ensures KeyFile(i) == KeyFile(j) ==> i == j
    ensures ThresholdKeyFile(i) == ThresholdKeyFile(j) ==> i == j
    ensures DbPath(i) == DbPath(j) ==> i == j
  {
    if KeyFile(i) == KeyFile(j) {
      PrefixedNumeralInjective(".node-key-", i, j, ".json");
    }
    if ThresholdKeyFile(i) == ThresholdKeyFile(j) {
      PrefixedNumeralInjective(".node-ts-key-", i, j, ".json");
    }
    if DbPath(i) == DbPath(j) {
      DropPrefix("db-", NatToString(i), NatToString(j));
      NatToStringInjective(i, j);
    }
  }

  /** A numeral between a fixed prefix and a fixed suffix that does not
      start with a digit determines the number. */
  lemma PrefixedNumeralInjective(p: string, i: nat, j: nat, x: string)
    requires |x| > 0 && !IsDigit(x[0])
    requires p + NatToString(i) + x == p + NatToString(j) + x
    ensures i == j
  {
    assert p + NatToString(i) + x == p + (NatToString(i) + x);
    assert p + NatToString(j) + x == p + (NatToString(j) + x);
    DropPrefix(p, NatToString(i) + x, NatToString(j) + x);
    NumeralPrefix(i, j, x, x);
  }

  /** The `node-info-*.log` pattern the log parser globs for, on a file name. */
  predicate MatchesInfoGlob(name: string)
  {
    && |name| >= 14
    && name[..10] == "node-info-"
    && EndsWith(name, ".log")
    && forall k :: 0 <= k < |name| ==> name[k] != '/'
  }

  /** Node `i`'s info log lies in the run's log directory under a name the
      parser's glob matches. */
  lemma InfoFileGlobbed(i: nat, ts: string)
    ensures MatchesInfoGlob(NodeLogName("info", i))
    ensures NodeLogInfoFile(i, ts) == DirPrefix(LogsPath(ts)) + NodeLogName("info", i)
  {
    var name := NodeLogName("info", i);
    var digits := NatToString(i);
    assert name == "node-info-" + digits + ".log";
    forall k | 0 <= k < |name| ensures name[k] != '/' {
      if 10 <= k < 10 + |digits| {
        assert name[k] == digits[k - 10];
      }
    }
    assert name[|name| - 4..] == ".log";
  }

  /** No two nodes share an info log. */
  lemma InfoFileInjective(i: nat, j: nat, ts: string)
    ensures NodeLogInfoFile(i, ts) == NodeLogInfoFile(j, ts) ==> i == j
  {
    var a, b := NodeLogName("info", i), NodeLogName("info", j);
    JoinInjective(LogsPath(ts), a, b);
    if a == b {
      assert a[10..] == NatToString(i) + ".log";
      assert b[10..] == NatToString(j) + ".log";
      NumeralPrefix(i, j, ".log", ".log");
    }
  }

  /** The dash-separated numerals of a list of numbers. */
  function Dashed(xs: seq<int>): string
    requires |xs| > 0
  {
    if |xs| == 1 then IntToString(xs[0]) else IntToString(xs[0]) + "-" + Dashed(xs[1..])
  }

  /** Non-negative numbers can be read back from their dashed numerals,
      whatever non-digit text follows. */
  lemma {:induction false} DashedInjective(xs: seq<int>, ys: seq<int>, sfx: string)
    requires |xs| == |ys| > 0 && |sfx| > 0 && !IsDigit(sfx[0]) && sfx[0] != '-'
    requires forall k :: 0 <= k < |xs| ==> xs[k] >= 0 && ys[k] >= 0
    requires Dashed(xs) + sfx == Dashed(ys) + sfx
    ensures xs == ys
    decreases |xs|
  {
    if |xs| == 1 {
      NumeralPrefix(xs[0], ys[0], sfx, sfx);
    } else {
      var x, y := "-" + (Dashed(xs[1..]) + sfx), "-" + (Dashed(ys[1..]) + sfx);
      DashedUnfold(xs, sfx);
      DashedUnfold(ys, sfx);
      NumeralPrefix(xs[0], ys[0], x, y);
      assert x[1..] == Dashed(xs[1..]) + sfx;
      assert y[1..] == Dashed(ys[1..]) + sfx;
      DashedInjective(xs[1..], ys[1..], sfx);
      assert xs == [xs[0]] + xs[1..] && ys == [ys[0]] + ys[1..];
    }
  }

  lemma DashedUnfold(xs: seq<int>, sfx: string)
    requires |xs| > 1 && xs[0] >= 0
    ensures Dashed(xs) + sfx == NatToString(xs[0]) + ("-" + (Dashed(xs[1..]) + sfx))
  {
    assert IntToString(xs[0]) == NatToString(xs[0]);
  }

  /** Runs with different non-negative parameters write different result
      files. */
  lemma ResultFileInjective(n1: nat, r1: nat, t1: nat, b1: nat, f1: nat, n2: nat, r2: nat, t2: nat, b2: nat, f2: nat, ts: string)
    requires ResultFile(n1, r1, t1, b1, f1, ts) == ResultFile(n2, r2, t2, b2, f2, ts)
    ensures (n1, r1, t1, b1, f1) == (n2, r2, t2, b2, f2)
  {
    var xs: seq<int>, ys: seq<int> := [n1, r1, t1, b1, f1], [n2, r2, t2, b2, f2];
    JoinInjective(ResultsPath(ts), "bench-" + Dashed(xs) + ".txt", "bench-" + Dashed(ys) + ".txt");
    BenchNameInjective(xs, ys);
    assert xs[0] == ys[0] && xs[1] == ys[1] && xs[2] == ys[2] && xs[3] == ys[3] && xs[4] == ys[4];
  }

  /** The `bench-...txt` name tells its non-negative parameters apart. */
  lemma BenchNameInjective(xs: seq<int>, ys: seq<int>)
    requires |xs| == |ys| > 0
    requires forall k :: 0 <= k < |xs| ==> xs[k] >= 0 && ys[k] >= 0
    requires "bench-" + Dashed(xs) + ".txt" == "bench-" + Dashed(ys) + ".txt"
    ensures xs == ys
  {
    var u, v := Dashed(xs) + ".txt", Dashed(ys) + ".txt";
    assert "bench-" + Dashed(xs) + ".txt" == "bench-" + u;
    assert "bench-" + Dashed(ys) + ".txt" == "bench-" + v;
    DropPrefix("bench-", u, v);
    DashedInjective(xs, ys, ".txt");
  }

  lemma DropPrefix(p: string, u: string, v: string)
    requires p + u == p + v
    ensures u == v
  {
    assert u == (p + u)[|p|..];
    assert v == (p + v)[|p|..];
  }

  // ---------------------------------------------------------------------
  // progress_bar
  // ---------------------------------------------------------------------

  /** The bar of `printProgressBar(iteration)`: `length * iteration //
      total` fill characters, then dashes up to `length`. An empty iterable
      (`total == 0`) raises ZeroDivisionError at the first bar. */
  function Bar(iteration: nat, total: nat, length: nat, fill: char): (r: Option<string>)
    ensures total == 0 <==> r.None?
  {
    if total == 0 then None
    else
      var filled := length * iteration / total;
      Some(Repeat([fill], filled) + Repeat("-", length - filled))
  }

  /** The number of positions of `s` holding `c`. */
  function CountChar(s: string, c: char): nat
  {
    if s == [] then 0 else CountChar(s[..|s| - 1], c) + (if s[|s| - 1] == c then 1 else 0)
  }

  lemma {:induction false} CountRepeat(c: char, d: char, n: nat)
    ensures CountChar(Repeat([c], n), d) == (if c == d then n else 0)
    decreases n
  {
    if n > 0 {
      var r := Repeat([c], n);
      assert r[..|r| - 1] == Repeat([c], n - 1) by {
        var r' := Repeat([c], n - 1);
        assert |r'| == n - 1;
        forall k | 0 <= k < n - 1 ensures r[k] == r'[k] {}
      }
      CountRepeat(c, d, n - 1);
    }
  }

  lemma {:induction false} CountConcat(s: string, t: string, c: char)
    ensures CountChar(s + t, c) == CountChar(s, c) + CountChar(t, c)
    decreases |t|
  {
    if t == [] {
      assert s + t == s;
    } else {
      assert (s + t)[..|s + t| - 1] == s + t[..|t| - 1];
      assert (s + t)[|s + t| - 1] == t[|t| - 1];
      CountConcat(s, t[..|t| - 1], c);
    }
  }

  /** For an iteration within the total, the bar is exactly `length`
      characters, of which `length * iteration // total` are the fill
      character (when it is not a dash). */
  lemma BarShape(iteration: nat, total: nat, length: nat, fill: char)
    requires 0 < total && iteration <= total && fill != '-'
    ensures var r := Bar(iteration, total, length, fill);
      && r.Some? && |r.value| == length
      && CountChar(r.value, fill) == length * iteration / total
  {
    FilledAtMost(iteration, total, length);
    BarOf(length * iteration / total, length, fill);
  }

  lemma FilledAtMost(iteration: nat, total: nat, length: nat)
    requires 0 < total && iteration <= total
    ensures length * iteration / total <= length
  {
    MulLeft(length, iteration, total);
    DivBound(length * iteration, total, length);
  }

  /** `filled` fill characters padded with dashes to `length`. */
  lemma BarOf(filled: nat, length: nat, fill: char)
    requires filled <= length && fill != '-'
    ensures |Repeat([fill], filled) + Repeat("-", length - filled)| == length
    ensures CountChar(Repeat([fill], filled) + Repeat("-", length - filled), fill) == filled
  {
    CountConcat(Repeat([fill], filled), Repeat("-", length - filled), fill);
    CountRepeat(fill, fill, filled);
    CountRepeat('-', fill, length - filled);
  }

  lemma MulLeft(a: nat, b: nat, c: nat)
    requires b <= c
    ensures a * b <= a * c
  {
  }

  /** Floor division by `d` of a number at most `y * d` is at most `y`. */
  lemma DivBound(x: nat, d: nat, y: nat)
    requires d > 0 && x <= y * d
    ensures x / d <= y
  {
    var q := x / d;
    assert x == d * q + x % d;
    if q > y {
      MulLeft(d, y + 1, q);
    }
  }

  /** The bar never shrinks as the iteration advances. */
  lemma BarGrows(i: nat, j: nat, total: nat, length: nat, fill: char)
    requires 0 < total && i <= j <= total && fill != '-'
    ensures CountChar(Bar(i, total, length, fill).value, fill) <= CountChar(Bar(j, total, length, fill).value, fill)
  {
    BarShape(i, total, length, fill);
    BarShape(j, total, length, fill);
    MulLeft(length, i, j);
    DivMonotone(length * i, length * j, total);
  }

  /** Floor division by a positive number is monotone. */
  lemma DivMonotone(a: nat, b: nat, d: nat)
    requires a <= b && d > 0
    ensures a / d <= b / d
  {
    var q1, q2 := a / d, b / d;
    assert a == d * q1 + a % d;
    assert b == d * q2 + b % d;
    if q1 > q2 {
      MulLeft(d, q2 + 1, q1);
    }
  }

  /** `progress_bar`: the items are passed through unchanged, and a bar is
      drawn before the first and after each one. */
  method ProgressBar<T>(items: seq<T>, length: nat, fill: char) returns (yielded: seq<T>, bars: seq<string>, failed: bool)
    ensures failed <==> |items| == 0
    ensures !failed ==> yielded == items && |bars| == |items| + 1
    ensures !failed ==> forall k :: 0 <= k < |bars| ==> Bar(k, |items|, length, fill) == Some(bars[k])
  {
    var total := |items|;
    var first := Bar(0, total, length, fill);
    if first.None? {
      return [], [], true;
    }
    yielded, bars, failed := [], [first.value], false;
    var i := 0;
    while i < total
      invariant 0 <= i <= total
      invariant yielded == items[..i] && |bars| == i + 1
      invariant forall k :: 0 <= k < |bars| ==> Bar(k, total, length, fill) == Some(bars[k])
    {
      yielded := yielded + [items[i]];
      bars := bars + [Bar(i + 1, total, length, fill).value];
      i := i + 1;
    }
    assert items[..i] == items;
  }
}
