/** pool/pool.go: the transaction queue that turns incoming transactions into
    numbered batches, and the configuration lines `NewPool` logs. */
module Pool {
  import opened GoInt
  import opened Wrappers
  import opened Text

  /** A transaction is a byte string; a batch carries an id and a transaction
      list, which is nil (`None`) when nothing was ever appended to it. */
  type Transaction = seq<byte>

  datatype Batch = Batch(id: int, txs: Option<seq<Transaction>>)

  /** The pool parameters (pool/config.go). */
  datatype Parameters = Parameters(rate: int, txSize: int, batchSize: int, maxQueueSize: int)

  /** The id of the k-th batch node `id` makes in a committee of `n`. */
  function BatchId(id: int, n: int, k: nat): int
  {
    id + n * k
  }

  /** All batch ids of one node are congruent to its own id modulo n. */
  lemma BatchIdResidue(id: int, n: int, k: nat)
    requires n > 0
    ensures BatchId(id, n, k) % n == id % n
  {
    assert BatchId(id, n, k) == id + n * k;
    ModAddMultiple(id, n, k);
  }

  /** Batch ids strictly increase with the batch counter. */
  lemma BatchIdIncreasing(id: int, n: int, k1: nat, k2: nat)
    requires n > 0 && k1 < k2
    ensures BatchId(id, n, k1) < BatchId(id, n, k2)
  {
    assert n * k2 == n * k1 + n * (k2 - k1);
  }

  /** Two nodes with distinct ids in [0, n) never make batches with the same id. */
  lemma BatchIdsDisjoint(id1: int, id2: int, n: int, k1: nat, k2: nat)
    requires n > 0 && 0 <= id1 < n && 0 <= id2 < n && id1 != id2
    ensures BatchId(id1, n, k1) != BatchId(id2, n, k2)
  {
    BatchIdResidue(id1, n, k1);
    BatchIdResidue(id2, n, k2);
    DivModUnique(id1, n, 0, id1);
    DivModUnique(id2, n, 0, id2);
  }

  /** `make(Transaction, txSize)`: a zero-filled transaction. */
  function ZeroTx(txSize: int): (tx: Transaction)
    ensures |tx| == (if txSize < 0 then 0 else txSize)
    ensures forall i :: 0 <= i < |tx| ==> tx[i] == 0
  {
    if txSize <= 0 then [] else seq(txSize, _ => 0)
  }

  /** `count` copies of one transaction. */
  function Copies(tx: Transaction, count: nat): (r: seq<Transaction>)
    ensures |r| == count && forall i :: 0 <= i < count ==> r[i] == tx
  {
    if count == 0 then [] else Copies(tx, count - 1) + [tx]
  }

  /** The k-th batch a queue makes: `batchSize` zero-filled transactions, or a
      nil list when `batchSize <= 0` because the loop never appends. */
  function Made(id: int, n: int, batchSize: int, txSize: int, k: nat): (b: Batch)
    ensures b.id == BatchId(id, n, k)
    ensures b.txs.Some? <==> batchSize > 0
    ensures b.txs.Some? ==> |b.txs.value| == batchSize
    ensures b.txs.Some? ==> forall i :: 0 <= i < |b.txs.value| ==> b.txs.value[i] == ZeroTx(txSize)
  {
    Batch(BatchId(id, n, k), if batchSize > 0 then Some(Copies(ZeroTx(txSize), batchSize)) else None)
  }

  /** Batches number `from` to `from + count - 1`, in order. */
  function MadeRange(id: int, n: int, batchSize: int, txSize: int, from: nat, count: nat): (r: seq<Batch>)
    ensures |r| == count
    ensures forall j :: 0 <= j < count ==> r[j] == Made(id, n, batchSize, txSize, from + j)
  {
    if count == 0 then [] else MadeRange(id, n, batchSize, txSize, from, count - 1) + [Made(id, n, batchSize, txSize, from + count - 1)]
  }

  /** The line `make` logs for a batch, read back by the log analyser. */
  function ReceivedLine(id: int): string
  {
    "Received Batch " + IntToString(id) + "\n"
  }

  /** The lines logged for batches number `from` to `from + count - 1`, in order. */
  function ReceivedLines(id: int, n: int, from: nat, count: nat): (r: seq<string>)
    ensures |r| == count
    ensures forall j :: 0 <= j < count ==> r[j] == ReceivedLine(BatchId(id, n, from + j))
  {
    if count == 0 then [] else ReceivedLines(id, n, from, count - 1) + [ReceivedLine(BatchId(id, n, from + count - 1))]
  }

  /** The ring buffer `q` after `txs` are written one by one from index `w` on,
      each at the next index around the ring. */
  function Written(q: seq<Transaction>, w: int, txs: seq<Transaction>): (r: seq<Transaction>)
    requires |q| > 0
    ensures |r| == |q|
  {
    if txs == [] then q
    else Written(q, w, txs[..|txs| - 1])[Slot(w, |txs| - 1, |q|) := txs[|txs| - 1]]
  }

  /** The slot of the `j`-th transaction written from index `w` on. */
  function Slot(w: int, j: int, m: int): (i: int)
    requires m > 0
    ensures 0 <= i < m
  {
    (w + j) % m
  }

  /** The write index steps from one slot to the next. */
  lemma SlotNext(w: int, i: int, m: int, cur: int, next: int)
    requires m > 0 && cur == Slot(w, i, m) && next == (cur + 1) % m
    ensures next == Slot(w, i + 1, m)
  {
    ModSucc(w + i, m);
  }

  /** The state `run` keeps after its first `i` transactions, starting from
      ring `q0`, write index `w0`, count `n0`, batch counter `k0`, batch FIFO
      `b0` and log `l0`. */
  ghost predicate RunState(id: int, n: int, batchSize: int, txSize: int, m: int,
                           q0: seq<Transaction>, w0: int, n0: int, k0: nat, b0: seq<Batch>, l0: seq<string>,
                           txs: seq<Transaction>, i: nat,
                           q: seq<Transaction>, w: int, nums: int, k: int, b: seq<Batch>, l: seq<string>)
    requires m > 0 && |q0| == m && i <= |txs|
  {
    && nums == n0 + i
    && w == Slot(w0, i, m)
    && k == k0 + MakesFor(n0, batchSize, i)
    && b == b0 + MadeRange(id, n, batchSize, txSize, k0, k - k0)
    && l == l0 + ReceivedLines(id, n, k0, k - k0)
    && q == Written(q0, w0, txs[..i])
  }

  /** One transaction of `run`, as `Receive` performs it, keeps `RunState`. */
  lemma RunNext(id: int, n: int, batchSize: int, txSize: int, m: int,
                q0: seq<Transaction>, w0: int, n0: int, k0: nat, b0: seq<Batch>, l0: seq<string>,
                txs: seq<Transaction>, i: nat,
                q: seq<Transaction>, w: int, nums: int, k: int, b: seq<Batch>, l: seq<string>,
                q': seq<Transaction>, w': int, nums': int, k': int, b': seq<Batch>, l': seq<string>)
    requires m > 0 && |q0| == m && i < |txs|
    requires RunState(id, n, batchSize, txSize, m, q0, w0, n0, k0, b0, l0, txs, i, q, w, nums, k, b, l)
    requires q' == q[w := txs[i]] && w' == (w + 1) % m && nums' == nums + 1
    requires nums + 1 >= batchSize ==>
               b' == b + [Made(id, n, batchSize, txSize, k)] && k' == k + 1 && l' == l + [ReceivedLine(BatchId(id, n, k))]
    requires nums + 1 < batchSize ==> b' == b && k' == k && l' == l
    ensures RunState(id, n, batchSize, txSize, m, q0, w0, n0, k0, b0, l0, txs, i + 1, q', w', nums', k', b', l')
  {
    SlotNext(w0, i, m, w, w');
    WrittenNext(q0, w0, txs, i, q, w, q');
    RangesNext(id, n, batchSize, txSize, k0, b0, l0, k, b, l, k', b', l');
    assert MakesFor(n0, batchSize, i + 1)
        == MakesFor(n0, batchSize, i) + (if n0 + i + 1 >= batchSize then 1 else 0);
  }

  /** Two indices less than `m` apart fall on different slots of a ring of `m`. */
  lemma RingSlotsDistinct(a: int, b: int, m: int)
    requires 0 < b - a < m
    ensures a % m != b % m
  {
    var qa, ra := a / m, a % m;
    if ra + (b - a) < m {
      DivModUnique(b, m, qa, ra + (b - a));
    } else {
      assert m * (qa + 1) == m * qa + m;
      DivModUnique(b, m, qa + 1, ra + (b - a) - m);
    }
  }

  /** One step of `run`: when the step made a batch, both the batch FIFO and
      the log gain that batch's entry; otherwise both stay as they were. */
  lemma RangesNext(id: int, n: int, batchSize: int, txSize: int, from: nat,
                   b0: seq<Batch>, l0: seq<string>, k: int, bb: seq<Batch>, lb: seq<string>,
                   k': int, ba: seq<Batch>, la: seq<string>)
    requires from <= k
    requires bb == b0 + MadeRange(id, n, batchSize, txSize, from, k - from)
    requires lb == l0 + ReceivedLines(id, n, from, k - from)
    requires || (k' == k + 1 && ba == bb + [Made(id, n, batchSize, txSize, k)] && la == lb + [ReceivedLine(BatchId(id, n, k))])
             || (k' == k && ba == bb && la == lb)
    ensures ba == b0 + MadeRange(id, n, batchSize, txSize, from, k' - from)
    ensures la == l0 + ReceivedLines(id, n, from, k' - from)
  {
    if k' == k + 1 {
      assert MadeRange(id, n, batchSize, txSize, from, k' - from)
          == MadeRange(id, n, batchSize, txSize, from, k - from) + [Made(id, n, batchSize, txSize, k)];
    }
  }

  /** One more write: the ring gains the next transaction at the next slot. */
  lemma WrittenNext(q: seq<Transaction>, w: int, txs: seq<Transaction>, i: nat,
                    before: seq<Transaction>, slot: int, after: seq<Transaction>)
    requires |q| > 0 && i < |txs|
    requires before == Written(q, w, txs[..i]) && slot == Slot(w, i, |q|)
    requires 0 <= slot < |before| && after == before[slot := txs[i]]
    ensures after == Written(q, w, txs[..i + 1])
  {
    assert txs[..i + 1][..i] == txs[..i];
  }

  /** Since `rind` never moves, writing never stops at a full ring: the ring
      holds each of the last `|q|` transactions written, at its own slot. */
  lemma {:induction false} WrittenHoldsRecent(q: seq<Transaction>, w: int, txs: seq<Transaction>, j: nat)
    requires |q| > 0 && j < |txs| && |txs| - j <= |q|
    ensures Written(q, w, txs)[Slot(w, j, |q|)] == txs[j]
  {
    var last := |txs| - 1;
    if j < last {
      RingSlotsDistinct(w + j, w + last, |q|);
      WrittenHoldsRecent(q, w, txs[..last], j);
    }
  }

  /** A slot no transaction reached keeps its old value. */
  lemma {:induction false} WrittenKeepsUnreached(q: seq<Transaction>, w: int, txs: seq<Transaction>, i: nat)
    requires |q| > 0 && i < |q|
    requires forall j :: 0 <= j < |txs| ==> Slot(w, j, |q|) != i
    ensures Written(q, w, txs)[i] == q[i]
  {
    if txs != [] {
      var last := |txs| - 1;
      assert Slot(w, last, |q|) != i;
      WrittenKeepsUnreached(q, w, txs[..last], i);
    }
  }

  /** The fixed text of configuration line `k` of `NewPool`, before its number. */
  function PoolLogPrefix(k: nat): string
    requires k < 4
  {
    [ "Transaction pool queue capacity set to ",
      "Transaction pool tx size set to ",
      "Transaction pool batch size set to ",
      "Transaction pool tx rate set to " ][k]
  }

  /** The parameter configuration line `k` of `NewPool` reports. */
  function PoolLogValue(p: Parameters, k: nat): int
    requires k < 4
  {
    [p.maxQueueSize, p.txSize, p.batchSize, p.rate][k]
  }

  /** The configuration lines `NewPool` logs, in order: queue capacity, tx
      size, batch size and tx rate, each as `%d` followed by " \n". */
  function NewPoolLog(p: Parameters): (lines: seq<string>)
    ensures |lines| == 4
    ensures lines[0] == "Transaction pool queue capacity set to " + IntToString(p.maxQueueSize) + " \n"
    ensures lines[1] == "Transaction pool tx size set to " + IntToString(p.txSize) + " \n"
    ensures lines[2] == "Transaction pool batch size set to " + IntToString(p.batchSize) + " \n"
    ensures lines[3] == "Transaction pool tx rate set to " + IntToString(p.rate) + " \n"
    ensures forall k :: 0 <= k < 4 ==> lines[k] == PoolLogPrefix(k) + IntToString(PoolLogValue(p, k)) + " \n"
  {
    [ "Transaction pool queue capacity set to " + IntToString(p.maxQueueSize) + " \n",
      "Transaction pool tx size set to " + IntToString(p.txSize) + " \n",
      "Transaction pool batch size set to " + IntToString(p.batchSize) + " \n",
      "Transaction pool tx rate set to " + IntToString(p.rate) + " \n" ]
  }

  /** The digits between a configuration line's fixed text and its trailing
      " \n" read back as the parameter, when that parameter is not negative
      (the log analyser matches them with `(\d+)`). */
  lemma NewPoolLogReadsBack(p: Parameters, k: nat)
    requires k < 4 && PoolLogValue(p, k) >= 0
    ensures var line := NewPoolLog(p)[k];
      && |PoolLogPrefix(k)| + 2 < |line|
      && line[..|PoolLogPrefix(k)|] == PoolLogPrefix(k)
      && IsDigits(line[|PoolLogPrefix(k)|..|line| - 2])
      && ParseNat(line[|PoolLogPrefix(k)|..|line| - 2]) == PoolLogValue(p, k)
  {
    var line := NewPoolLog(p)[k];
    var pre, num := PoolLogPrefix(k), NatToString(PoolLogValue(p, k));
    assert line == pre + num + " \n";
    assert line[|pre|..|line| - 2] == num;
    ParseNatToString(PoolLogValue(p, k));
  }

  /** How many of `m` further transactions make a batch, when `nums` counts
      the transactions seen so far and is never decremented. */
  function MakesFor(nums: int, batchSize: int, m: nat): nat
  {
    if m == 0 then 0 else MakesFor(nums, batchSize, m - 1) + (if nums + m >= batchSize then 1 else 0)
  }

  /** Closed form: every transaction from the `batchSize`-th on makes a batch. */
  lemma {:induction false} MakesForClosedForm(nums: int, batchSize: int, m: nat)
    ensures MakesFor(nums, batchSize, m)
         == if nums + m < batchSize then 0
            else if nums + 1 >= batchSize then m
            else nums + m - batchSize + 1
  {
    if m > 0 {
      MakesForClosedForm(nums, batchSize, m - 1);
    }
  }

  /** The ring buffer of transactions and the FIFO of batches (the batch channel). */
  class TxQueue {
    const queue: array<Transaction>
    var batches: seq<Batch>
    var wind: int
    var rind: int
    var nums: int
    const maxQueueSize: int
    const batchSize: int
    const txSize: int
    const n: int
    const id: int
    var bcnt: int
    /** Lines written to the info logger. */
    var log: seq<string>

    ghost predicate Valid()
      reads this
    {
      && queue.Length == maxQueueSize
      && 0 <= wind && (wind < maxQueueSize || wind == 0)
      && rind == -1
      && bcnt >= 0
      && nums >= 0
    }

    /** `newTxQueue`: `txSize` is not among the assigned fields, so it stays 0. */
    constructor (maxQueueSize: int, batchSize: int, n: int, id: int)
      requires maxQueueSize >= 0
      ensures Valid() && fresh(queue)
      ensures this.maxQueueSize == maxQueueSize && this.batchSize == batchSize
      ensures this.n == n && this.id == id
      ensures txSize == 0
      ensures batches == [] && log == [] && wind == 0 && rind == -1 && nums == 0 && bcnt == 0
    {
      this.queue := new Transaction[maxQueueSize](_ => []);
      this.batches := [];
      this.wind := 0;
      this.rind := -1;
      this.nums := 0;
      this.maxQueueSize := maxQueueSize;
      this.batchSize := batchSize;
      this.txSize := 0;
      this.n := n;
      this.id := id;
      this.bcnt := 0;
      this.log := [];
    }

    /** `make`: builds the next batch of `batchSize` zero-length transactions,
        enqueues it, logs its id and advances the batch counter by one. */
    method Make()
      requires Valid()
      modifies this
      ensures Valid()
      ensures batches == old(batches) + [Made(id, n, batchSize, txSize, old(bcnt))]
      ensures bcnt == old(bcnt) + 1
      ensures log == old(log) + [ReceivedLine(BatchId(id, n, old(bcnt)))]
      ensures wind == old(wind) && nums == old(nums)
    {
      var batchId := id + n * bcnt;
      var txs: Option<seq<Transaction>> := None;
      var tx := ZeroTx(txSize);
      var i := 0;
      while i < batchSize
        invariant batchSize > 0 ==> 0 <= i <= batchSize
        invariant batchSize <= 0 ==> i == 0
        invariant i == 0 ==> txs == None
        invariant i > 0 ==> txs == Some(Copies(tx, i))
      {
        var prev := if txs.Some? then txs.value else [];
        txs := Some(prev + [tx]);
        i := i + 1;
      }
      assert txs == (if batchSize > 0 then Some(Copies(ZeroTx(txSize), batchSize)) else None);
      batches := batches + [Batch(batchId, txs)];
      bcnt := bcnt + 1;
      log := log + [ReceivedLine(batchId)];
    }

    /** `put`: appends a batch to the batch FIFO. */
    method Put(b: Batch)
      requires Valid()
      modifies this
      ensures Valid()
      ensures batches == old(batches) + [b]
      ensures bcnt == old(bcnt) && log == old(log) && nums == old(nums) && wind == old(wind)
    {
      batches := batches + [b];
    }

    /** `get`: the oldest batch, or a freshly made one when none is queued. */
    method Get() returns (b: Batch)
      requires Valid()
      modifies this
      ensures Valid()
      ensures old(batches) != [] ==> b == old(batches[0]) && batches == old(batches[1..]) && bcnt == old(bcnt) && log == old(log)
      ensures old(batches) == [] ==> b == Made(id, n, batchSize, txSize, old(bcnt)) && batches == [] && bcnt == old(bcnt) + 1
      ensures old(batches) == [] ==> log == old(log) + [ReceivedLine(BatchId(id, n, old(bcnt)))]
      ensures wind == old(wind) && nums == old(nums)
    {
      if |batches| > 0 {
        b := batches[0];
        batches := batches[1..];
      } else {
        Make();
        b := batches[0];
        batches := batches[1..];
      }
    }

    /** One transaction of `run`: store it at the write index, advance the index
        around the ring, count it, and make a batch once the count has reached
        `batchSize`. The "pool is full" test compares with `rind`, which is -1. */
    method Receive(tx: Transaction)
      requires Valid() && maxQueueSize > 0
      modifies this, queue
      ensures Valid()
      ensures old(wind) != rind
      ensures queue[..] == old(queue[..])[old(wind) := tx]
      ensures wind == (old(wind) + 1) % maxQueueSize
      ensures nums == old(nums) + 1
      ensures old(nums) + 1 >= batchSize ==>
                batches == old(batches) + [Made(id, n, batchSize, txSize, old(bcnt))] && bcnt == old(bcnt) + 1
                && log == old(log) + [ReceivedLine(BatchId(id, n, old(bcnt)))]
      ensures old(nums) + 1 < batchSize ==> batches == old(batches) && bcnt == old(bcnt) && log == old(log)
    {
      queue[wind] := tx;
      wind := (wind + 1) % maxQueueSize;
      nums := nums + 1;
      if nums >= batchSize {
        Make();
      }
    }

    /** `run` over a finite stream of transactions. */
    method Run(txs: seq<Transaction>)
      requires Valid() && maxQueueSize > 0
      modifies this, queue
      ensures Valid()
      ensures nums == old(nums) + |txs|
      ensures wind == (old(wind) + |txs|) % maxQueueSize
      ensures bcnt == old(bcnt) + MakesFor(old(nums), batchSize, |txs|)
      ensures batches == old(batches) + MadeRange(id, n, batchSize, txSize, old(bcnt), bcnt - old(bcnt))
      ensures log == old(log) + ReceivedLines(id, n, old(bcnt), bcnt - old(bcnt))
      ensures queue[..] == Written(old(queue[..]), old(wind), txs)
    {
      DivModUnique(wind, maxQueueSize, 0, wind);
      ghost var q0, w0, n0, k0, b0, l0 := queue[..], wind, nums, bcnt, batches, log;
      var i := 0;
      while i < |txs|
        invariant 0 <= i <= |txs|
        invariant Valid()
        invariant RunState(id, n, batchSize, txSize, maxQueueSize, q0, w0, n0, k0, b0, l0, txs, i,
                           queue[..], wind, nums, bcnt, batches, log)
      {
        ghost var q, w, nm, k, b, l := queue[..], wind, nums, bcnt, batches, log;
        Receive(txs[i]);
        RunNext(id, n, batchSize, txSize, maxQueueSize, q0, w0, n0, k0, b0, l0, txs, i,
                q, w, nm, k, b, l, queue[..], wind, nums, bcnt, batches, log);
        i := i + 1;
      }
      assert txs[..i] == txs;
      assert queue[..] == Written(q0, w0, txs);
    }
  }

  /** Once the count has reached the batch size, every further transaction makes a batch. */
  lemma EveryTxMakesOnceFull(nums: int, batchSize: int, m: nat)
    requires nums >= batchSize
    ensures MakesFor(nums, batchSize, m) == m
  {
    MakesForClosedForm(nums, batchSize, m);
  }
}
