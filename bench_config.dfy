/** benchmark/benchmark/config.py: the benchmark and node parameter records
    read from JSON, and the committee table written for the nodes. */
module BenchConfig {
  import opened Wrappers
  import opened Text
  import opened PyJson

  /** Why a ConfigError is raised. */
  datatype Reason = MissingKey(key: string) | InvalidNodes | MissingBatchSize | InvalidType

  /** A ConfigError, or a Python error no `except` clause catches. */
  datatype Failure = ConfigError(reason: Reason) | Uncaught(error: PyError)

  // ---------------------------------------------------------------------
  // BenchParameters
  // ---------------------------------------------------------------------

  datatype BenchParameters = BenchParameters(
    nodes: seq<int>, logLevel: int, rate: int, batchSizes: seq<int>,
    duration: int, runs: int, nodeInstance: int, protocol: Json)

  /** The `except` clauses of `BenchParameters.__init__`: KeyError and
      ValueError become ConfigError, TypeError escapes. */
  function BenchCatch<T>(r: Result<T, PyError>): (r': Result<T, Failure>)
    ensures r.Ok? <==> r'.Ok?
    ensures r.Ok? ==> r'.value == r.value
    ensures r.Err? && r.error.KeyError? ==> r' == Err(ConfigError(MissingKey(r.error.key)))
    ensures r == Err(ValueError) ==> r' == Err(ConfigError(InvalidType))
    ensures r == Err(TypeError) ==> r' == Err(Uncaught(TypeError))
  {
    match r
    case Ok(v) => Ok(v)
    case Err(KeyError(k)) => Err(ConfigError(MissingKey(k)))
    case Err(ValueError) => Err(ConfigError(InvalidType))
    case Err(TypeError) => Err(Uncaught(TypeError))
  }

  /** `any(x <= 0 for x in xs)`, left to right: true at the first number
      that is not positive; comparing a value that is not a number before
      that raises TypeError. */
  function AnyNonPositive(xs: seq<Json>): (r: Result<bool, PyError>)
    ensures r == Ok(false) <==> forall i :: 0 <= i < |xs| ==> Number(xs[i]).Some? && Number(xs[i]).value > 0.0
    ensures r == Ok(true) ==> exists i :: 0 <= i < |xs| && Number(xs[i]).Some? && Number(xs[i]).value <= 0.0
    ensures r.Err? ==> r.error == TypeError && exists i :: 0 <= i < |xs| && Number(xs[i]).None?
  {
    if xs == [] then Ok(false)
    else if Number(xs[0]).None? then Err(TypeError)
    else if Number(xs[0]).value <= 0.0 then Ok(true)
    else
      var rest := AnyNonPositive(xs[1..]);
      assert forall i :: 1 <= i < |xs| ==> xs[1..][i - 1] == xs[i];
      rest
  }

  /** `int(json[key])`. */
  function IntField(json: Json, key: string): (r: Result<int, PyError>)
    ensures r.Ok? <==> Get(json, key).Ok? && IntOf(Get(json, key).value).Ok?
    ensures r.Ok? ==> r.value == IntOf(json.fields[key]).value
  {
    var v :- Get(json, key);
    IntOf(v)
  }

  /** `int(json[key]) if key in json else 1`, on a dict. */
  function OptionalIntField(json: Json, key: string): (r: Result<int, PyError>)
    requires json.JDict?
    ensures key !in json.fields ==> r == Ok(1)
    ensures key in json.fields ==> r == IntOf(json.fields[key])
  {
    if key in json.fields then IntOf(json.fields[key]) else Ok(1)
  }

  /** `BenchParameters.__init__`. */
  function ParseBench(json: Json): (r: Result<BenchParameters, Failure>)
    ensures r.Ok? ==>
      && json.JDict? && "nodes" in json.fields && "batch_size" in json.fields
      && var nodes := AsList(json.fields["nodes"]);
      && |r.value.nodes| == |nodes| >= 1
      && (forall i :: 0 <= i < |nodes| ==>
            Number(nodes[i]).Some? && Number(nodes[i]).value > 0.0 && r.value.nodes[i] == Trunc(Number(nodes[i]).value))
      && |r.value.batchSizes| == |AsList(json.fields["batch_size"])| >= 1
    ensures r.Ok? ==>
      && BENCH_KEYS <= json.fields.Keys
      && IntOf(json.fields["log_level"]) == Ok(r.value.logLevel)
      && IntOf(json.fields["rate"]) == Ok(r.value.rate)
      && IntsOf(AsList(json.fields["batch_size"])) == Ok(r.value.batchSizes)
      && IntOf(json.fields["duration"]) == Ok(r.value.duration)
      && r.value.protocol == json.fields["protocol_name"]
    ensures r.Ok? && "runs" !in json.fields ==> r.value.runs == 1
    ensures r.Ok? && "runs" in json.fields ==> IntOf(json.fields["runs"]) == Ok(r.value.runs)
    ensures r.Ok? && "node_instance" !in json.fields ==> r.value.nodeInstance == 1
    ensures r.Ok? && "node_instance" in json.fields ==> IntOf(json.fields["node_instance"]) == Ok(r.value.nodeInstance)
    ensures r.Err? && r.error.Uncaught? ==> r.error.error == TypeError
  {
    var nodesJson :- BenchCatch(Get(json, "nodes"));
    var nodes := AsList(nodesJson);
    if nodes == [] then Err(ConfigError(InvalidNodes))
    else
      var bad :- BenchCatch(AnyNonPositive(nodes));
      if bad then Err(ConfigError(InvalidNodes))
      else
        var batchJson :- BenchCatch(Get(json, "batch_size"));
        var batch := AsList(batchJson);
        if batch == [] then Err(ConfigError(MissingBatchSize))
        else
          assert IntsOf(nodes).Ok?;
          var ns := IntsOf(nodes).value;
          var logLevel :- BenchCatch(IntField(json, "log_level"));
          var rate :- BenchCatch(IntField(json, "rate"));
          var batchSizes :- BenchCatch(IntsOf(batch));
          var duration :- BenchCatch(IntField(json, "duration"));
          var runs :- BenchCatch(OptionalIntField(json, "runs"));
          var nodeInstance :- BenchCatch(OptionalIntField(json, "node_instance"));
          var protocol :- BenchCatch(Get(json, "protocol_name"));
          Ok(BenchParameters(ns, logLevel, rate, batchSizes, duration, runs, nodeInstance, protocol))
  }

  /** The keys `BenchParameters` cannot do without. */
  const BENCH_KEYS: set<string> := {"nodes", "batch_size", "log_level", "rate", "duration", "protocol_name"}

  /** A missing-key error names a required key the document lacks, and a
      document holding every required key never gives one. */
  lemma BenchMissingKey(json: Json)
    requires json.JDict?
    ensures var r := ParseBench(json);
      r.Err? && r.error.ConfigError? && r.error.reason.MissingKey? ==> r.error.reason.key in BENCH_KEYS - json.fields.Keys
    ensures var r := ParseBench(json);
      BENCH_KEYS <= json.fields.Keys ==> !(r.Err? && r.error.ConfigError? && r.error.reason.MissingKey?)
  {
  }

  /** A document whose numbers are integers, with a positive node count
      and a batch size, gives exactly those values. */
  lemma BenchWellFormed(json: Json, n: int, b: int, level: int, rate: int, duration: int)
    requires json.JDict? && BENCH_KEYS <= json.fields.Keys
    requires json.fields["nodes"] == JInt(n) && n > 0
    requires json.fields["batch_size"] == JInt(b)
    requires json.fields["log_level"] == JInt(level) && json.fields["rate"] == JInt(rate)
    requires json.fields["duration"] == JInt(duration)
    requires "runs" !in json.fields && "node_instance" !in json.fields
    ensures ParseBench(json) == Ok(BenchParameters([n], level, rate, [b], duration, 1, 1, json.fields["protocol_name"]))
  {
    SingleInt(JInt(n));
    SingleInt(JInt(b));
  }

  /** The positivity check runs before `int`, so a fractional node count
      below one passes it and becomes 0. */
  lemma FractionalNodesBecomeZero()
    ensures var json := JDict(map["nodes" := JFloat(0.5), "batch_size" := JInt(1), "log_level" := JInt(0),
                                  "rate" := JInt(1), "duration" := JInt(1), "protocol_name" := JStr("mvba")]);
            ParseBench(json).Ok? && ParseBench(json).value.nodes == [0]
  {
    var json := JDict(map["nodes" := JFloat(0.5), "batch_size" := JInt(1), "log_level" := JInt(0),
                          "rate" := JInt(1), "duration" := JInt(1), "protocol_name" := JStr("mvba")]);
    assert AnyNonPositive([JFloat(0.5)]) == Ok(false);
    SingleInt(JFloat(0.5));
    SingleInt(JInt(1));
  }

  lemma SingleInt(x: Json)
    requires IntOf(x).Ok?
    ensures IntsOf([x]) == Ok([IntOf(x).value])
  {
    var r := IntsOf([x]);
    assert [x][0] == x;
    assert r.Ok? && |r.value| == 1 && r.value[0] == IntOf(x).value;
    assert r.value == [IntOf(x).value];
  }

  // ---------------------------------------------------------------------
  // NodeParameters
  // ---------------------------------------------------------------------

  datatype NodeParameters = NodeParameters(syncTimeout: Json, networkDelay: Json, ddos: Json, faults: int, txSize: int, json: Json)

  /** The eight values `NodeParameters` requires, in the order it reads them. */
  const NODE_KEYS: seq<(string, string)> := [
    ("consensus", "sync_timeout"), ("consensus", "network_delay"), ("consensus", "min_block_delay"),
    ("consensus", "ddos"), ("consensus", "faults"), ("consensus", "retry_delay"),
    ("pool", "tx_size"), ("pool", "max_queue_size")]

  /** Looking up each key path in order; the first failure raises. */
  function LookupAll(json: Json, keys: seq<(string, string)>): (r: Result<(), PyError>)
    ensures r.Ok? <==> forall i :: 0 <= i < |keys| ==> Get2(json, keys[i].0, keys[i].1).Ok?
    ensures r.Err? ==> exists i :: 0 <= i < |keys| && Get2(json, keys[i].0, keys[i].1) == Err(r.error)
  {
    if keys == [] then Ok(())
    else
      var _ :- Get2(json, keys[0].0, keys[0].1);
      var rest := LookupAll(json, keys[1..]);
      assert forall i :: 1 <= i < |keys| ==> keys[1..][i - 1] == keys[i];
      if rest.Err? then
        var i :| 0 <= i < |keys| - 1 && Get2(json, keys[1..][i].0, keys[1..][i].1) == Err(rest.error);
        assert keys[i + 1] == keys[1..][i];
        Err(rest.error)
      else
        Ok(())
  }

  /** Every key path of NODE_KEYS leads to a value. */
  predicate HasNodeKeys(json: Json)
  {
    && json.JDict? && "consensus" in json.fields && "pool" in json.fields
    && json.fields["consensus"].JDict? && json.fields["pool"].JDict?
    && (forall k :: k in ["sync_timeout", "network_delay", "min_block_delay", "ddos", "faults", "retry_delay"] ==>
          k in json.fields["consensus"].fields)
    && "tx_size" in json.fields["pool"].fields && "max_queue_size" in json.fields["pool"].fields
  }

  lemma LookupAllFound(json: Json)
    ensures LookupAll(json, NODE_KEYS).Ok? <==> HasNodeKeys(json)
  {
    if LookupAll(json, NODE_KEYS).Ok? {
      assert Get2(json, NODE_KEYS[0].0, NODE_KEYS[0].1).Ok?;
      assert Get2(json, NODE_KEYS[1].0, NODE_KEYS[1].1).Ok?;
      assert Get2(json, NODE_KEYS[2].0, NODE_KEYS[2].1).Ok?;
      assert Get2(json, NODE_KEYS[3].0, NODE_KEYS[3].1).Ok?;
      assert Get2(json, NODE_KEYS[4].0, NODE_KEYS[4].1).Ok?;
      assert Get2(json, NODE_KEYS[5].0, NODE_KEYS[5].1).Ok?;
      assert Get2(json, NODE_KEYS[6].0, NODE_KEYS[6].1).Ok?;
      assert Get2(json, NODE_KEYS[7].0, NODE_KEYS[7].1).Ok?;
    }
  }

  /** `NodeParameters.__init__`: only a KeyError of the lookups becomes a
      ConfigError; a TypeError there, and any error of the two `int`
      conversions after the `try`, escapes. */
  function ParseNode(json: Json): (r: Result<NodeParameters, Failure>)
    ensures r.Ok? <==>
      && HasNodeKeys(json)
      && IntOf(json.fields["consensus"].fields["faults"]).Ok?
      && IntOf(json.fields["pool"].fields["tx_size"]).Ok?
    ensures r.Ok? ==>
      && r.value.faults == IntOf(json.fields["consensus"].fields["faults"]).value
      && r.value.txSize == IntOf(json.fields["pool"].fields["tx_size"]).value
      && r.value.syncTimeout == json.fields["consensus"].fields["sync_timeout"]
      && r.value.json == json
    ensures r.Err? && r.error.ConfigError? ==>
      r.error.reason.MissingKey? && exists i :: 0 <= i < |NODE_KEYS| && Get2(json, NODE_KEYS[i].0, NODE_KEYS[i].1) == Err(KeyError(r.error.reason.key))
    ensures r.Err? && r.error.Uncaught? && r.error.error == ValueError ==> HasNodeKeys(json)
  {
    LookupAllFound(json);
    var found := LookupAll(json, NODE_KEYS);
    if found.Err? then
      if found.error.KeyError? then Err(ConfigError(MissingKey(found.error.key))) else Err(Uncaught(found.error))
    else
      var consensus := json.fields["consensus"];
      var faults := IntOf(consensus.fields["faults"]);
      var txSize := IntOf(json.fields["pool"].fields["tx_size"]);
      if faults.Err? then Err(Uncaught(faults.error))
      else if txSize.Err? then Err(Uncaught(txSize.error))
      else
        Ok(NodeParameters(consensus.fields["sync_timeout"], consensus.fields["network_delay"],
                          consensus.fields["ddos"], faults.value, txSize.value, json))
  }

  // ---------------------------------------------------------------------
  // Committee
  // ---------------------------------------------------------------------

  /** One entry of the committee file. */
  datatype Entry = Entry(name: string, addr: string, nodeId: int)

  datatype Committee = Committee(pubkeys: seq<string>, ids: seq<int>, consensus: seq<string>, json: map<int, Entry>)

  /** The table `_build_consensus` builds from the first `n` zipped triples:
      a later id overwrites an earlier one. */
  function Table(addrs: seq<string>, pubkeys: seq<string>, ids: seq<int>, n: nat): map<int, Entry>
    requires n <= |addrs| && n <= |pubkeys| && n <= |ids|
  {
    if n == 0 then map[]
    else Table(addrs, pubkeys, ids, n - 1)[ids[n - 1] := Entry(pubkeys[n - 1], addrs[n - 1], ids[n - 1])]
  }

  function Min3(a: nat, b: nat, c: nat): nat
  {
    if a <= b && a <= c then a else if b <= c then b else c
  }

  /** `_build_consensus`: a loop over `zip`, which stops at the shortest list. */
  method BuildConsensus(addrs: seq<string>, pubkeys: seq<string>, ids: seq<int>) returns (node: map<int, Entry>)
    ensures node == Table(addrs, pubkeys, ids, Min3(|addrs|, |pubkeys|, |ids|))
  {
    var n := Min3(|addrs|, |pubkeys|, |ids|);
    node := map[];
    var i := 0;
    while i < n
      invariant 0 <= i <= n
      invariant node == Table(addrs, pubkeys, ids, i)
    {
      node := node[ids[i] := Entry(pubkeys[i], addrs[i], ids[i])];
      i := i + 1;
    }
  }

  /** The table's keys are the ids zipped in, and each id holds the name
      and address of its last position. */
  lemma {:induction false} TableEntries(addrs: seq<string>, pubkeys: seq<string>, ids: seq<int>, n: nat, k: nat)
    requires n <= |addrs| && n <= |pubkeys| && n <= |ids|
    ensures Table(addrs, pubkeys, ids, n).Keys == set i | 0 <= i < n :: ids[i]
    ensures k < n && (forall j :: k < j < n ==> ids[j] != ids[k]) ==>
      Table(addrs, pubkeys, ids, n)[ids[k]] == Entry(pubkeys[k], addrs[k], ids[k])
    decreases n
  {
    if n > 0 {
      TableEntries(addrs, pubkeys, ids, n - 1, k);
      assert (set i | 0 <= i < n :: ids[i]) == (set i | 0 <= i < n - 1 :: ids[i]) + {ids[n - 1]};
    }
  }

  /** `Committee.size`: with distinct ids, the number of nodes given. */
  lemma {:induction false} TableSize(addrs: seq<string>, pubkeys: seq<string>, ids: seq<int>, n: nat)
    requires n <= |addrs| && n <= |pubkeys| && n <= |ids|
    ensures |Table(addrs, pubkeys, ids, n)| <= n
    ensures (forall i, j :: 0 <= i < j < n ==> ids[i] != ids[j]) ==> |Table(addrs, pubkeys, ids, n)| == n
    decreases n
  {
    if n > 0 {
      TableSize(addrs, pubkeys, ids, n - 1);
      TableEntries(addrs, pubkeys, ids, n - 1, 0);
      if forall i, j :: 0 <= i < j < n ==> ids[i] != ids[j] {
        assert ids[n - 1] !in Table(addrs, pubkeys, ids, n - 1);
      }
    }
  }

  /** `Committee.__init__`: the key and address lists have equal length. */
  method NewCommittee(pubkeys: seq<string>, ids: seq<int>, addrs: seq<string>) returns (c: Committee)
    requires |pubkeys| == |addrs|
    ensures c.pubkeys == pubkeys && c.ids == ids && c.consensus == addrs
    ensures c.json == Table(addrs, pubkeys, ids, Min3(|addrs|, |pubkeys|, |ids|))
    ensures |ids| >= |pubkeys| && (forall i, j :: 0 <= i < j < |ids| ==> ids[i] != ids[j]) ==> Size(c) == |pubkeys|
  {
    var node := BuildConsensus(addrs, pubkeys, ids);
    c := Committee(pubkeys, ids, addrs, node);
    TableSize(addrs, pubkeys, ids, Min3(|addrs|, |pubkeys|, |ids|));
  }

  /** `Committee.size`. */
  function Size(c: Committee): nat
  {
    |c.json|
  }

  /** The local addresses: `127.0.0.1:` and port `port + i` for node `i`. */
  function LocalAddrs(port: int, n: nat): (addrs: seq<string>)
    ensures |addrs| == n
  {
    seq(n, i => "127.0.0.1:" + IntToString(port + i))
  }

  /** Two local nodes never share an address. */
  lemma LocalAddrsDistinct(port: int, n: nat, i: nat, j: nat)
    requires i < n && j < n && i != j
    ensures LocalAddrs(port, n)[i] != LocalAddrs(port, n)[j]
  {
    var p := "127.0.0.1:";
    var s, t := IntToString(port + i), IntToString(port + j);
    assert LocalAddrs(port, n)[i] == p + s;
    assert LocalAddrs(port, n)[j] == p + t;
    if p + s == p + t {
      assert s == (p + s)[|p|..];
      assert t == (p + t)[|p|..];
      IntToStringInjective(port + i, port + j);
    }
  }

  /** `LocalCommittee.__init__`. */
  method NewLocalCommittee(pubkeys: seq<string>, ids: seq<int>, port: int) returns (c: Committee)
    ensures c.consensus == LocalAddrs(port, |pubkeys|)
    ensures forall i :: 0 <= i < |pubkeys| ==> c.consensus[i] == "127.0.0.1:" + IntToString(port + i)
    ensures c.json == Table(c.consensus, pubkeys, ids, Min3(|pubkeys|, |pubkeys|, |ids|))
  {
    c := NewCommittee(pubkeys, ids, LocalAddrs(port, |pubkeys|));
  }
}
