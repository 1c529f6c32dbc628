/** benchmark/benchmark/logs.py: the benchmark log analyser. Each node's log
    yields three tables from batch id to timestamp (batch arrivals, block
    proposals, block commits) and a configuration snapshot; the per-node
    tables are merged, and the summary numbers are computed from the merged
    tables. The regular expressions and `strptime` are abstract matchers. */
module Logs {
  import opened Wrappers
  import opened Text

  /** The Python exceptions that escape the analyser. */
  datatype Exception = ParseError | AttributeError | ValueError | ZeroDivisionError

  type Outcome<T> = Result<T, Exception>

  /** One timestamp table: batch id (the digits as text) to a POSIX time. */
  type Table = map<string, real>

  // ---------------------------------------------------------------------
  // Merging tables
  // ---------------------------------------------------------------------

  /** One step of `_merge_results`: a pair is stored unless the key already
      holds a value that is not smaller. */
  function Insert(t: Table, p: (string, real)): (t': Table)
    ensures t'.Keys == t.Keys + {p.0}
  {
    if p.0 !in t || t[p.0] < p.1 then t[p.0 := p.1] else t
  }

  /** The pairs of `ps`, in order, inserted into `t`. */
  function Fold(t: Table, ps: seq<(string, real)>): Table
  {
    if ps == [] then t else Insert(Fold(t, ps[..|ps| - 1]), ps[|ps| - 1])
  }

  /** The table `_merge_results` builds from its list of item lists. */
  function Merge(input: seq<seq<(string, real)>>): Table
  {
    if input == [] then map[] else Fold(Merge(input[..|input| - 1]), input[|input| - 1])
  }

  /** `_merge_results`: the nested loop over the lists and their pairs. */
  method MergeResults(input: seq<seq<(string, real)>>) returns (merged: Table)
    ensures merged == Merge(input)
    ensures IsMaxTable(merged, Pairs(input))
  {
    merged := map[];
    var i := 0;
    while i < |input|
      invariant 0 <= i <= |input|
      invariant merged == Merge(input[..i])
    {
      var x := input[i];
      assert input[..i + 1][..i] == input[..i];
      var j := 0;
      while j < |x|
        invariant 0 <= j <= |x|
        invariant merged == Fold(Merge(input[..i]), x[..j])
      {
        assert x[..j + 1][..j] == x[..j];
        var k, v := x[j].0, x[j].1;
        if !(k in merged) || merged[k] < v {
          merged := merged[k := v];
        }
        j := j + 1;
      }
      assert x[..j] == x;
      i := i + 1;
    }
    assert input[..i] == input;
    MergeIsMax(input);
  }

  /** Every pair of every list of `input`. */
  function Pairs(input: seq<seq<(string, real)>>): set<(string, real)>
  {
    set x, p | x in input && p in x :: p
  }

  function SeqPairs(ps: seq<(string, real)>): set<(string, real)>
  {
    set p | p in ps
  }

  /** `t` is the table of the largest value per key of the pairs `ps`: its
      keys are theirs, no pair exceeds its entry, and each entry is one of
      the pairs. */
  ghost predicate IsMaxTable(t: Table, ps: set<(string, real)>)
  {
    && t.Keys == (set p | p in ps :: p.0)
    && (forall p :: p in ps ==> p.0 in t && t[p.0] >= p.1)
    && (forall k :: k in t ==> (k, t[k]) in ps)
  }

  lemma InsertIsMax(t: Table, ps: set<(string, real)>, p: (string, real))
    requires IsMaxTable(t, ps)
    ensures IsMaxTable(Insert(t, p), ps + {p})
  {
    var t' := Insert(t, p);
    assert (set q | q in ps + {p} :: q.0) == (set q | q in ps :: q.0) + {p.0};
    forall q | q in ps + {p} ensures q.0 in t' && t'[q.0] >= q.1 {
      if q != p {
        assert q in ps;
      }
    }
    forall k | k in t' ensures (k, t'[k]) in ps + {p} {
      if k != p.0 {
        assert t'[k] == t[k];
      } else if t'[k] != p.1 {
        assert t'[k] == t[k];
      }
    }
  }

  lemma SeqPairsLast(xs: seq<(string, real)>)
    requires xs != []
    ensures SeqPairs(xs) == SeqPairs(xs[..|xs| - 1]) + {xs[|xs| - 1]}
  {
    assert xs == xs[..|xs| - 1] + [xs[|xs| - 1]];
  }

  lemma {:induction false} FoldIsMax(t: Table, ps: set<(string, real)>, xs: seq<(string, real)>)
    requires IsMaxTable(t, ps)
    ensures IsMaxTable(Fold(t, xs), ps + SeqPairs(xs))
    decreases |xs|
  {
    if xs != [] {
      var front := xs[..|xs| - 1];
      FoldIsMax(t, ps, front);
      InsertIsMax(Fold(t, front), ps + SeqPairs(front), xs[|xs| - 1]);
      SeqPairsLast(xs);
    }
  }

  /** The merged table holds, for every key of any list, the largest value
      given for it: the largest timestamp, though the source's comment says
      the earliest is kept. */
  lemma {:induction false} MergeIsMax(input: seq<seq<(string, real)>>)
    ensures IsMaxTable(Merge(input), Pairs(input))
    decreases |input|
  {
    if input == [] {
      assert Pairs(input) == {};
    } else {
      var front := input[..|input| - 1];
      var last := input[|input| - 1];
      MergeIsMax(front);
      FoldIsMax(Merge(front), Pairs(front), last);
      assert Pairs(front) + SeqPairs(last) == Pairs(input) by {
        assert input == front + [last];
        forall p | p in Pairs(input) ensures p in Pairs(front) + SeqPairs(last) {
          var x :| x in input && p in x;
          if x != last {
            assert x in front;
          }
        }
      }
    }
  }

  /** A set of pairs has one table of maxima. */
  lemma MaxTableUnique(t1: Table, t2: Table, ps: set<(string, real)>)
    requires IsMaxTable(t1, ps) && IsMaxTable(t2, ps)
    ensures t1 == t2
  {
    forall k | k in t1 ensures t1[k] == t2[k] {
      assert (k, t1[k]) in ps && (k, t2[k]) in ps;
    }
  }

  /** Merging does not depend on the order of the lists or of the pairs in
      them, nor on repeated pairs: only the set of pairs counts. So the node
      order and the iteration order of the proposal set make no difference. */
  lemma MergeOrderFree(a: seq<seq<(string, real)>>, b: seq<seq<(string, real)>>)
    requires Pairs(a) == Pairs(b)
    ensures Merge(a) == Merge(b)
  {
    MergeIsMax(a);
    MergeIsMax(b);
    MaxTableUnique(Merge(a), Merge(b), Pairs(a));
  }

  /** Merging the items of a merged table once more changes nothing. */
  lemma MergeIdempotent(input: seq<seq<(string, real)>>, items: seq<(string, real)>)
    requires SeqPairs(items) == Entries(Merge(input))
    ensures Merge(input + [items]) == Merge(input)
  {
    MergeIsMax(input);
    assert Pairs(input + [items]) == Pairs(input) by {
      forall p | p in Pairs(input + [items]) ensures p in Pairs(input) {
        var x :| x in input + [items] && p in x;
        if x == items {
          assert p in SeqPairs(items);
        } else {
          assert x in input;
        }
      }
      forall p | p in Pairs(input) ensures p in Pairs(input + [items]) {
        var x :| x in input && p in x;
        assert x in input + [items];
      }
    }
    MergeOrderFree(input + [items], input);
  }

  /** A dict comprehension over pairs: a later pair overwrites an earlier
      one. */
  function Latest(ps: seq<(string, real)>): (t: Table)
    ensures t.Keys == set p | p in ps :: p.0
  {
    if ps == [] then map[]
    else
      var front := ps[..|ps| - 1];
      var last := ps[|ps| - 1];
      assert (set p | p in ps :: p.0) == (set p | p in front :: p.0) + {last.0} by {
        assert ps == front + [last];
      }
      Latest(front)[last.0 := last.1]
  }

  /** Each entry of `Latest(ps)` is the value of the last pair with its key. */
  lemma {:induction false} LatestIsLast(ps: seq<(string, real)>, i: int)
    requires 0 <= i < |ps| && LastFor(ps, ps[i].0, i)
    ensures ps[i].0 in Latest(ps) && Latest(ps)[ps[i].0] == ps[i].1
    decreases |ps|
  {
    var front := ps[..|ps| - 1];
    if i < |ps| - 1 {
      assert ps[|ps| - 1].0 != ps[i].0;
      assert front[i] == ps[i];
      assert LastFor(front, front[i].0, i) by {
        forall j | i < j < |front| ensures front[j].0 != front[i].0 {
          assert front[j] == ps[j];
        }
      }
      LatestIsLast(front, i);
    }
  }

  /** Position `i` is the last in `ps` with key `k`. */
  predicate LastFor(ps: seq<(string, real)>, k: string, i: int)
    requires 0 <= i < |ps|
  {
    forall j :: i < j < |ps| ==> ps[j].0 != k
  }

  // ---------------------------------------------------------------------
  // Parsing one node's log
  // ---------------------------------------------------------------------

  /** A line matcher: the time text and the batch id of a matching line. */
  type LineMatcher = string -> Option<(string, string)>

  /** A number matcher: the integer captured in a matching line. */
  type NumberMatcher = string -> Option<nat>

  /** The grammar of the node logs: the three batch-id line patterns, the
      four configuration line patterns and the time parser (None where
      `strptime` raises ValueError). */
  datatype Grammar = Grammar(
    batch: LineMatcher, proposal: LineMatcher, commit: LineMatcher,
    faults: NumberMatcher, txSize: NumberMatcher, batchSize: NumberMatcher, rate: NumberMatcher,
    toPosix: string -> Option<real>)

  datatype Config = Config(faults: nat, txSize: nat, batchSize: nat, rate: nat)

  datatype NodeLog = NodeLog(batchs: Table, proposals: Table, commits: Table, config: Config)

  /** `findall`: the (time, id) captures of the matching lines, in order. */
  function Matches(lines: seq<string>, m: LineMatcher): (ms: seq<(string, string)>)
    ensures |ms| <= |lines|
    ensures forall c :: c in ms ==> exists i :: 0 <= i < |lines| && m(lines[i]) == Some(c)
  {
    if lines == [] then []
    else
      var front := Matches(lines[..|lines| - 1], m);
      var last := m(lines[|lines| - 1]);
      assert forall c :: c in front ==> exists i :: 0 <= i < |lines| && m(lines[i]) == Some(c) by {
        forall c | c in front ensures exists i :: 0 <= i < |lines| && m(lines[i]) == Some(c) {
          var i :| 0 <= i < |lines| - 1 && m(lines[..|lines| - 1][i]) == Some(c);
          assert lines[..|lines| - 1][i] == lines[i];
        }
      }
      front + (if last.Some? then [last.value] else [])
  }

  /** The captures with their times converted, id first; None when some time
      does not parse. */
  function Stamped(ms: seq<(string, string)>, toPosix: string -> Option<real>): (r: Option<seq<(string, real)>>)
    ensures r.None? <==> exists i :: 0 <= i < |ms| && toPosix(ms[i].0).None?
    ensures r.Some? ==> |r.value| == |ms| && forall i :: 0 <= i < |ms| ==> r.value[i] == (ms[i].1, toPosix(ms[i].0).value)
  {
    if ms == [] then Some([])
    else
      var front := Stamped(ms[..|ms| - 1], toPosix);
      var t := toPosix(ms[|ms| - 1].0);
      assert forall i :: 0 <= i < |ms| - 1 ==> ms[..|ms| - 1][i] == ms[i];
      if front.None? then None
      else if t.None? then None
      else
        Some(front.value + [(ms[|ms| - 1].1, t.value)])
  }

  /** `search(...).group(1)`: the number of the first matching line; None is
      the AttributeError of `.group` on None. */
  function FirstNumber(lines: seq<string>, m: NumberMatcher): (r: Option<nat>)
    ensures r.None? <==> forall i :: 0 <= i < |lines| ==> m(lines[i]).None?
    ensures r.Some? ==> exists i :: 0 <= i < |lines| && m(lines[i]) == r && forall j :: 0 <= j < i ==> m(lines[j]).None?
  {
    if lines == [] then None
    else if m(lines[0]).Some? then m(lines[0])
    else
      var r := FirstNumber(lines[1..], m);
      assert forall i :: 1 <= i < |lines| ==> lines[1..][i - 1] == lines[i];
      r
  }

  /** `search(r'panic', log)`. */
  predicate Panicked(lines: seq<string>)
  {
    exists i :: 0 <= i < |lines| && Contains(lines[i], "panic")
  }

  /** `_parse_nodes`. A log mentioning `panic` raises ParseError; a time
      that does not parse raises ValueError, which the caller turns into
      ParseError; a missing configuration line raises AttributeError.
      Otherwise batch arrivals keep their last time, proposals and commits
      their largest. */
  function ParseNode(lines: seq<string>, g: Grammar): (r: Outcome<NodeLog>)
    ensures Panicked(lines) ==> r == Err(ParseError)
    ensures r == Err(ParseError) <==>
      || Panicked(lines)
      || Stamped(Matches(lines, g.batch), g.toPosix).None?
      || Stamped(Matches(lines, g.proposal), g.toPosix).None?
      || Stamped(Matches(lines, g.commit), g.toPosix).None?
    ensures r == Err(AttributeError) <==>
      && !(r == Err(ParseError))
      && (|| FirstNumber(lines, g.faults).None? || FirstNumber(lines, g.txSize).None?
          || FirstNumber(lines, g.batchSize).None? || FirstNumber(lines, g.rate).None?)
    ensures r.Ok? || r == Err(ParseError) || r == Err(AttributeError)
    ensures r.Ok? ==> r.value.config == Config(
      FirstNumber(lines, g.faults).value, FirstNumber(lines, g.txSize).value,
      FirstNumber(lines, g.batchSize).value, FirstNumber(lines, g.rate).value)
  {
    if Panicked(lines) then Err(ParseError)
    else
      var batchs := Stamped(Matches(lines, g.batch), g.toPosix);
      var proposals := Stamped(Matches(lines, g.proposal), g.toPosix);
      var commits := Stamped(Matches(lines, g.commit), g.toPosix);
      if batchs.None? || proposals.None? || commits.None? then Err(ParseError)
      else
        var faults := FirstNumber(lines, g.faults);
        var txSize := FirstNumber(lines, g.txSize);
        var batchSize := FirstNumber(lines, g.batchSize);
        var rate := FirstNumber(lines, g.rate);
        if faults.None? || txSize.None? || batchSize.None? || rate.None? then Err(AttributeError)
        else
          Ok(NodeLog(Latest(batchs.value), Merge([proposals.value]), Merge([commits.value]),
                     Config(faults.value, txSize.value, batchSize.value, rate.value)))
  }

  /** A parsed node's proposal and commit tables hold the largest time per
      batch id, and its batch table the last one. */
  lemma ParsedNodeTables(lines: seq<string>, g: Grammar)
    requires ParseNode(lines, g).Ok?
    ensures IsMaxTable(ParseNode(lines, g).value.proposals, SeqPairs(Stamped(Matches(lines, g.proposal), g.toPosix).value))
    ensures IsMaxTable(ParseNode(lines, g).value.commits, SeqPairs(Stamped(Matches(lines, g.commit), g.toPosix).value))
    ensures ParseNode(lines, g).value.batchs == Latest(Stamped(Matches(lines, g.batch), g.toPosix).value)
  {
    MergeOneIsMax(Stamped(Matches(lines, g.proposal), g.toPosix).value);
    MergeOneIsMax(Stamped(Matches(lines, g.commit), g.toPosix).value);
  }

  lemma MergeOneIsMax(ps: seq<(string, real)>)
    ensures IsMaxTable(Merge([ps]), SeqPairs(ps))
  {
    MergeIsMax([ps]);
    assert Pairs([ps]) == SeqPairs(ps);
  }

  // ---------------------------------------------------------------------
  // The analyser over all nodes
  // ---------------------------------------------------------------------

  datatype Parser = Parser(batchs: Table, proposals: Table, commits: Table, config: Config, committeeSize: nat)

  /** The values of the outcomes in order, or the error of the first one
      that failed. */
  function Collect<T>(rs: seq<Outcome<T>>): (r: Outcome<seq<T>>)
    ensures r.Ok? <==> forall i :: 0 <= i < |rs| ==> rs[i].Ok?
    ensures r.Ok? ==> |r.value| == |rs| && forall i :: 0 <= i < |rs| ==> rs[i] == Ok(r.value[i])
    ensures r.Err? ==> exists i :: 0 <= i < |rs| && rs[i] == Err(r.error) && forall j :: 0 <= j < i ==> rs[j].Ok?
  {
    if rs == [] then Ok([])
    else if rs[0].Err? then Err(rs[0].error)
    else
      var rest := Collect(rs[1..]);
      assert forall i :: 1 <= i < |rs| ==> rs[1..][i - 1] == rs[i];
      if rest.Err? then
        var i :| 0 <= i < |rs| - 1 && rs[1..][i] == Err(rest.error) && forall j :: 0 <= j < i ==> rs[1..][j].Ok?;
        assert rs[i + 1] == Err(rest.error) && forall j :: 0 <= j < i + 1 ==> rs[j].Ok?;
        Err(rest.error)
      else
        Ok([rs[0].value] + rest.value)
  }

  /** Every node's log parsed, in order. */
  function ParseNodes(logs: seq<seq<string>>, g: Grammar): (rs: seq<Outcome<NodeLog>>)
    ensures |rs| == |logs| && forall i :: 0 <= i < |logs| ==> rs[i] == ParseNode(logs[i], g)
  {
    seq(|logs|, i requires 0 <= i < |logs| => ParseNode(logs[i], g))
  }

  /** The three kinds of timestamp table a node log yields. */
  datatype Kind = Batchs | Proposals | Commits

  function TableOf(n: NodeLog, kind: Kind): Table
  {
    match kind
    case Batchs => n.batchs
    case Proposals => n.proposals
    case Commits => n.commits
  }

  /** `[x.items() for x in tables]` for one table kind, node by node. */
  ghost function KindItems(ns: seq<NodeLog>, kind: Kind): seq<seq<(string, real)>>
  {
    seq(|ns|, i requires 0 <= i < |ns| => Items(TableOf(ns[i], kind)))
  }

  /** Every (batch id, time) entry of one table kind over all the nodes. */
  ghost function NodeEntries(ns: seq<NodeLog>, kind: Kind): set<(string, real)>
  {
    set i, p | 0 <= i < |ns| && p in Entries(TableOf(ns[i], kind)) :: p
  }

  lemma KindItemsPairs(ns: seq<NodeLog>, kind: Kind)
    ensures Pairs(KindItems(ns, kind)) == NodeEntries(ns, kind)
  {
    var items := KindItems(ns, kind);
    forall p | p in Pairs(items) ensures p in NodeEntries(ns, kind) {
      var x :| x in items && p in x;
      var i :| 0 <= i < |ns| && items[i] == x;
      assert p in SeqPairs(Items(TableOf(ns[i], kind)));
    }
    forall p | p in NodeEntries(ns, kind) ensures p in Pairs(items) {
      var i :| 0 <= i < |ns| && p in Entries(TableOf(ns[i], kind));
      assert p in SeqPairs(items[i]);
      assert items[i] in items;
    }
  }

  /** The node logs, when every one of them parsed. */
  ghost function ParsedLogs(logs: seq<seq<string>>, g: Grammar): (ns: seq<NodeLog>)
    requires forall i :: 0 <= i < |logs| ==> ParseNode(logs[i], g).Ok?
  {
    seq(|logs|, i requires 0 <= i < |logs| => ParseNode(logs[i], g).value)
  }

  /** The (key, value) pairs of a table. */
  function Entries(t: Table): set<(string, real)>
  {
    set k | k in t :: (k, t[k])
  }

  /** `dict.items()`: the pairs of a table, in some order. */
  ghost function Items(t: Table): (ps: seq<(string, real)>)
    ensures SeqPairs(ps) == Entries(t)
    decreases |t.Keys|
  {
    if t == map[] then []
    else
      var k :| k in t;
      var rest := t - {k};
      assert rest.Keys == t.Keys - {k};
      var ps := Items(rest) + [(k, t[k])];
      assert SeqPairs(ps) == SeqPairs(Items(rest)) + {(k, t[k])};
      assert Entries(t) == Entries(rest) + {(k, t[k])} by {
        forall q | q in Entries(t) ensures q in Entries(rest) + {(k, t[k])} {
          if q.0 != k {
            assert q.0 in rest;
          }
        }
      }
      ps
  }

  /** `LogParser.__init__`. Each node's error is raised (ParseError for a
      panic or a bad time, AttributeError for a missing configuration line);
      with no logs, unpacking the empty zip raises ValueError. Otherwise the
      three kinds of tables are merged across the nodes and the
      configuration is the first node's. */
  ghost function Parse(logs: seq<seq<string>>, g: Grammar): (r: Outcome<Parser>)
    ensures logs == [] ==> r == Err(ValueError)
    ensures r.Err? && logs != [] ==> exists i :: 0 <= i < |logs| && ParseNode(logs[i], g) == Err(r.error)
    ensures r.Ok? ==>
      && |logs| >= 1
      && (forall i :: 0 <= i < |logs| ==> ParseNode(logs[i], g).Ok?)
      && r.value.config == ParseNode(logs[0], g).value.config
      && r.value.committeeSize == |logs|
      && IsMaxTable(r.value.batchs, NodeEntries(ParsedLogs(logs, g), Batchs))
      && IsMaxTable(r.value.proposals, NodeEntries(ParsedLogs(logs, g), Proposals))
      && IsMaxTable(r.value.commits, NodeEntries(ParsedLogs(logs, g), Commits))
  {
    var nodes := Collect(ParseNodes(logs, g));
    if nodes.Err? then Err(nodes.error)
    else if nodes.value == [] then Err(ValueError)
    else
      var ns := nodes.value;
      assert ns == ParsedLogs(logs, g);
      MergeIsMax(KindItems(ns, Batchs));
      MergeIsMax(KindItems(ns, Proposals));
      MergeIsMax(KindItems(ns, Commits));
      KindItemsPairs(ns, Batchs);
      KindItemsPairs(ns, Proposals);
      KindItemsPairs(ns, Commits);
      Ok(Parser(Merge(KindItems(ns, Batchs)), Merge(KindItems(ns, Proposals)), Merge(KindItems(ns, Commits)), ns[0].config, |logs|))
  }

  /** A log that mentions a panic makes the whole analysis fail. */
  lemma PanicFails(logs: seq<seq<string>>, g: Grammar, i: int)
    requires 0 <= i < |logs| && Panicked(logs[i])
    ensures Parse(logs, g).Err?
  {
    assert ParseNode(logs[i], g).Err?;
  }

  /** The merged commit table covers every node's commits, with a time no
      earlier than that node's. */
  lemma ParsedCommitsCover(logs: seq<seq<string>>, g: Grammar, i: int, k: string)
    requires Parse(logs, g).Ok? && 0 <= i < |logs|
    requires k in ParseNode(logs[i], g).value.commits
    ensures k in Parse(logs, g).value.commits
    ensures Parse(logs, g).value.commits[k] >= ParseNode(logs[i], g).value.commits[k]
  {
    var ns := ParsedLogs(logs, g);
    assert ns[i] == ParseNode(logs[i], g).value;
    assert (k, ns[i].commits[k]) in Entries(TableOf(ns[i], Commits));
  }

  // ---------------------------------------------------------------------
  // The metrics
  // ---------------------------------------------------------------------

  /** The smallest value of `t` at the keys `ks` (`min` over a dict's values). */
  ghost function MinOver(t: Table, ks: set<string>): (r: real)
    requires ks != {} && ks <= t.Keys
    ensures (exists k :: k in ks && t[k] == r) && forall k :: k in ks ==> r <= t[k]
    decreases |ks|
  {
    var k :| k in ks;
    if ks == {k} then t[k]
    else
      var m := MinOver(t, ks - {k});
      if t[k] <= m then t[k] else m
  }

  /** The largest value of `t` at the keys `ks`. */
  ghost function MaxOver(t: Table, ks: set<string>): (r: real)
    requires ks != {} && ks <= t.Keys
    ensures (exists k :: k in ks && t[k] == r) && forall k :: k in ks ==> t[k] <= r
    decreases |ks|
  {
    var k :| k in ks;
    if ks == {k} then t[k]
    else
      var m := MaxOver(t, ks - {k});
      if m <= t[k] then t[k] else m
  }

  /** The sum of `ends[k] - starts[k]` over `ks`. */
  ghost function SumDiff(ends: Table, starts: Table, ks: set<string>): real
    requires ks <= ends.Keys && ks <= starts.Keys
    decreases |ks|
  {
    if ks == {} then 0.0
    else
      var k :| k in ks;
      (ends[k] - starts[k]) + SumDiff(ends, starts, ks - {k})
  }

  /** `x` added `n` times. */
  function Scaled(n: nat, x: real): (r: real)
    ensures n == 0 ==> r == 0.0
  {
    if n == 0 then 0.0 else Scaled(n - 1, x) + x
  }

  lemma {:induction false} ScaledIsProduct(n: nat, x: real)
    ensures Scaled(n, x) == n as real * x
  {
    if n > 0 {
      ScaledIsProduct(n - 1, x);
      assert n as real * x == (n - 1) as real * x + x;
    }
  }

  /** A sum of differences each between `lo` and `hi` lies between `|ks|`
      times each. */
  lemma {:induction false} SumDiffBounds(ends: Table, starts: Table, ks: set<string>, lo: real, hi: real)
    requires ks <= ends.Keys && ks <= starts.Keys
    requires forall k :: k in ks ==> lo <= ends[k] - starts[k] <= hi
    ensures Scaled(|ks|, lo) <= SumDiff(ends, starts, ks) <= Scaled(|ks|, hi)
    decreases |ks|
  {
    if ks != {} {
      var k :| k in ks && SumDiff(ends, starts, ks) == (ends[k] - starts[k]) + SumDiff(ends, starts, ks - {k});
      var rest := ks - {k};
      SumDiffBounds(ends, starts, rest, lo, hi);
      assert |ks| == |rest| + 1;
    }
  }

  /** The ids of `ends` also in `starts`. */
  function Common(ends: Table, starts: Table): set<string>
  {
    set k | k in ends && k in starts
  }

  /** `_consensus_latency` (starts = proposals) and `_end_to_end_latency`
      (starts = batch arrivals): the mean of commit minus start over the ids
      in both tables, 0 when there are none. */
  ghost function Latency(commits: Table, starts: Table): (r: real)
    ensures Common(commits, starts) == {} ==> r == 0.0
  {
    var ks := Common(commits, starts);
    if ks == {} then 0.0 else SumDiff(commits, starts, ks) / |ks| as real
  }

  /** The latency is the mean of the differences: it lies between the
      smallest and the largest, so it is never negative when no commit
      precedes its start. */
  lemma LatencyBetween(commits: Table, starts: Table, lo: real, hi: real)
    requires forall k :: k in Common(commits, starts) ==> lo <= commits[k] - starts[k] <= hi
    requires Common(commits, starts) != {}
    ensures lo <= Latency(commits, starts) <= hi
  {
    var ks := Common(commits, starts);
    SumDiffBounds(commits, starts, ks, lo, hi);
    ScaledIsProduct(|ks|, lo);
    ScaledIsProduct(|ks|, hi);
    MeanBetween(SumDiff(commits, starts, ks), |ks| as real, lo, hi);
  }

  /** A total between `n * lo` and `n * hi` has its mean over `n` between
      `lo` and `hi`. */
  lemma MeanBetween(total: real, n: real, lo: real, hi: real)
    requires n > 0.0 && n * lo <= total <= n * hi
    ensures lo <= total / n <= hi
  {
    assert total / n * n == total;
  }

  /** `_consensus_throughput` (starts = proposals) and
      `_end_to_end_throughput` (starts = batch arrivals): (0, 0) without
      commits; otherwise the duration from the earliest start to the latest
      commit and the committed transactions per second. `min` of no starts
      raises ValueError and a zero duration ZeroDivisionError. */
  ghost function Throughput(commits: Table, starts: Table, batchSize: nat): (r: Outcome<(real, real)>)
    ensures commits == map[] ==> r == Ok((0.0, 0.0))
    ensures commits != map[] && starts == map[] ==> r == Err(ValueError)
    ensures commits != map[] && starts != map[] ==>
      var d := MaxOver(commits, commits.Keys) - MinOver(starts, starts.Keys);
      && (d == 0.0 <==> r == Err(ZeroDivisionError))
      && (r.Ok? ==> r.value.1 == d && r.value.0 * d == (|commits| * batchSize) as real)
    ensures r.Ok? || r == Err(ValueError) || r == Err(ZeroDivisionError)
  {
    if commits == map[] then Ok((0.0, 0.0))
    else if starts == map[] then Err(ValueError)
    else
      var duration := MaxOver(commits, commits.Keys) - MinOver(starts, starts.Keys);
      if duration == 0.0 then Err(ZeroDivisionError)
      else Ok(((|commits| * batchSize) as real / duration, duration))
  }

  /** When every commit is later than every start, the duration is positive
      and the throughput is not negative. */
  lemma ThroughputPositive(commits: Table, starts: Table, batchSize: nat)
    requires commits != map[] && starts != map[]
    requires forall c, s :: c in commits && s in starts ==> commits[c] > starts[s]
    ensures Throughput(commits, starts, batchSize).Ok?
    ensures Throughput(commits, starts, batchSize).value.1 > 0.0
    ensures Throughput(commits, starts, batchSize).value.0 >= 0.0
  {
    var hi := MaxOver(commits, commits.Keys);
    var lo := MinOver(starts, starts.Keys);
    var c :| c in commits.Keys && commits[c] == hi;
    var s :| s in starts.Keys && starts[s] == lo;
    assert commits[c] > starts[s];
  }

  /** The numbers of `result`: latencies in milliseconds, the throughputs,
      the execution time (the end-to-end duration) and the configuration. */
  datatype Summary = Summary(consensusLatency: real, consensusTps: real, endToEndTps: real,
                             duration: real, endToEndLatency: real, txSize: nat, batchSize: nat, rate: nat)

  /** `result`, without the text formatting: an error of either throughput
      is raised, the consensus one first. */
  ghost function Result(p: Parser): (r: Outcome<Summary>)
    ensures Throughput(p.commits, p.proposals, p.config.batchSize).Err? ==>
      r == Err(Throughput(p.commits, p.proposals, p.config.batchSize).error)
    ensures Throughput(p.commits, p.proposals, p.config.batchSize).Ok? && Throughput(p.commits, p.batchs, p.config.batchSize).Err? ==>
      r == Err(Throughput(p.commits, p.batchs, p.config.batchSize).error)
    ensures r.Ok? ==>
      && Throughput(p.commits, p.proposals, p.config.batchSize).Ok?
      && Throughput(p.commits, p.batchs, p.config.batchSize).Ok?
      && r.value.consensusLatency == Latency(p.commits, p.proposals) * 1000.0
      && r.value.endToEndLatency == Latency(p.commits, p.batchs) * 1000.0
      && r.value.consensusTps == Throughput(p.commits, p.proposals, p.config.batchSize).value.0
      && r.value.endToEndTps == Throughput(p.commits, p.batchs, p.config.batchSize).value.0
      && r.value.duration == Throughput(p.commits, p.batchs, p.config.batchSize).value.1
      && r.value.txSize == p.config.txSize && r.value.batchSize == p.config.batchSize && r.value.rate == p.config.rate
  {
    var consensusLatency := Latency(p.commits, p.proposals) * 1000.0;
    var consensus := Throughput(p.commits, p.proposals, p.config.batchSize);
    if consensus.Err? then Err(consensus.error)
    else
      var endToEnd := Throughput(p.commits, p.batchs, p.config.batchSize);
      if endToEnd.Err? then Err(endToEnd.error)
      else
        Ok(Summary(consensusLatency, consensus.value.0, endToEnd.value.0, endToEnd.value.1,
                   Latency(p.commits, p.batchs) * 1000.0, p.config.txSize, p.config.batchSize, p.config.rate))
  }
}
