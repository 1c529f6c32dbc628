/** core/mvba/consensus/commitor.go: the MVBA commit buffer. Blocks decided for
    an epoch are buffered and released to the block channel in epoch order; a
    consumer logs every released block that carries transactions. */
module MvbaCommitor {
  import opened GoInt
  import opened Wrappers
  import opened Text
  import opened Committee
  import opened InOrder
  import MvbaMessage

  type Block = MvbaMessage.Block

  /** The line a commit consumer logs for a released block, read back by the log
      analyser; the VABA and Mercury consumers write the same line. */
  function CommitText(epoch: int, node: int, batchId: int): (line: string)
    ensures |line| >= 19 && line[..19] == "commit Block epoch "
  {
    "commit Block epoch " + (IntToString(epoch) + (" node " + (IntToString(node)
      + (" batch_id " + (IntToString(batchId) + " \n")))))
  }

  function CommitLine(b: Block): string
  {
    CommitText(b.epoch, b.proposer, b.batch.id)
  }

  /** Whether a consumer logs the block: its transaction list is not nil. */
  predicate HasTxs(b: Block)
  {
    b.batch.txs.Some?
  }

  /** The lines a commit consumer logs for the blocks it takes from the channel,
      in order: `line(b)` for every block `b` that `logged` accepts. The MVBA,
      VABA and Mercury consumers share it. */
  function CommitLog<B>(blocks: seq<B>, logged: B -> bool, line: B -> string): (lines: seq<string>)
    ensures |lines| <= |blocks|
  {
    if blocks == [] then []
    else (if logged(blocks[0]) then [line(blocks[0])] else []) + CommitLog(blocks[1..], logged, line)
  }

  /** A line per block when every block is logged; none when no block is. */
  lemma {:induction false} CommitLogLength<B>(blocks: seq<B>, logged: B -> bool, line: B -> string)
    ensures (forall i :: 0 <= i < |blocks| ==> logged(blocks[i])) ==> |CommitLog(blocks, logged, line)| == |blocks|
    ensures (forall i :: 0 <= i < |blocks| ==> !logged(blocks[i])) ==> CommitLog(blocks, logged, line) == []
  {
    if blocks != [] {
      CommitLogLength(blocks[1..], logged, line);
      assert forall i :: 1 <= i < |blocks| ==> blocks[1..][i - 1] == blocks[i];
    }
  }

  /** The log of one more consumed block. */
  lemma CommitLogStep<B>(blocks: seq<B>, i: nat, logged: B -> bool, line: B -> string)
    requires i < |blocks|
    ensures CommitLog(blocks[..i + 1], logged, line)
      == CommitLog(blocks[..i], logged, line) + (if logged(blocks[i]) then [line(blocks[i])] else [])
  {
    CommitLogAppend(blocks[..i], [blocks[i]], logged, line);
    assert blocks[..i + 1] == blocks[..i] + [blocks[i]];
  }

  /** Logging two runs of blocks logs the first run's lines, then the second's. */
  lemma {:induction false} CommitLogAppend<B>(a: seq<B>, b: seq<B>, logged: B -> bool, line: B -> string)
    ensures CommitLog(a + b, logged, line) == CommitLog(a, logged, line) + CommitLog(b, logged, line)
    decreases |a|
  {
    if a != [] {
      CommitLogAppend(a[1..], b, logged, line);
      assert (a + b)[0] == a[0];
      assert (a + b)[1..] == a[1..] + b;
    } else {
      assert a + b == b;
    }
  }

  class Commitor {
    var commitLeaders: map<int, NodeID>
    var commitBlocks: map<int, Block>
    var curIndex: int
    /** Blocks pushed to the block channel and not yet consumed. */
    var blockChan: seq<Block>
    /** Lines written by the consumer, and the number of callbacks it sent. */
    var log: seq<string>
    var callbacks: nat

    ghost predicate Valid()
      reads this
    {
      curIndex >= 0 && forall e :: e in commitBlocks ==> e > curIndex
    }

    constructor ()
      ensures Valid()
      ensures commitLeaders == map[] && commitBlocks == map[] && curIndex == 0
      ensures blockChan == [] && log == [] && callbacks == 0
    {
      commitLeaders := map[];
      commitBlocks := map[];
      curIndex := 0;
      blockChan := [];
      log := [];
      callbacks := 0;
    }

    /** The recorded leader of an epoch, or NONE. */
    function CommitLeader(epoch: int64): (l: NodeID)
      reads this
      ensures epoch !in commitLeaders ==> l == NONE
      ensures epoch in commitLeaders ==> l == commitLeaders[epoch]
    {
      if epoch in commitLeaders then commitLeaders[epoch] else NONE
    }

    /** `Commit(epoch, leader, block)`; `block` is `None` for a nil block. */
    method Commit(epoch: int64, leader: NodeID, block: Option<Block>)
      requires Valid()
      modifies this
      ensures Valid()
      ensures curIndex >= old(curIndex)
      ensures epoch < old(curIndex) ==>
        commitLeaders == old(commitLeaders) && commitBlocks == old(commitBlocks)
        && curIndex == old(curIndex) && blockChan == old(blockChan)
      ensures epoch >= old(curIndex) ==> commitLeaders == old(commitLeaders)[epoch as int := leader]
      ensures epoch >= old(curIndex) && block.None? ==>
        commitBlocks == old(commitBlocks) && curIndex == old(curIndex) && blockChan == old(blockChan)
      ensures epoch >= old(curIndex) && block.Some? ==>
        var f := Flush(old(commitBlocks)[epoch as int := block.value], old(curIndex));
        blockChan == old(blockChan) + f.out && commitBlocks == f.rest && curIndex == f.next
      ensures epoch >= old(curIndex) && block.Some? ==> (epoch == old(curIndex) <==> curIndex > old(curIndex))
      ensures log == old(log) && callbacks == old(callbacks)
    {
      if epoch < curIndex {
        return;
      }
      commitLeaders := commitLeaders[epoch as int := leader];
      if block.None? {
        return;
      }
      FlushKeepsAhead(commitBlocks[epoch as int := block.value], curIndex);
      InsertThenFlush(commitBlocks, curIndex, epoch as int, block.value);
      commitBlocks := commitBlocks[epoch as int := block.value];
      Release();
    }

    /** The release loop of `Commit`. */
    method Release()
      modifies this
      ensures var f := Flush(old(commitBlocks), old(curIndex));
        blockChan == old(blockChan) + f.out && commitBlocks == f.rest && curIndex == f.next
      ensures commitLeaders == old(commitLeaders) && log == old(log) && callbacks == old(callbacks)
    {
      ghost var start := commitBlocks;
      ghost var idx0 := curIndex;
      while curIndex in commitBlocks
        invariant commitLeaders == old(commitLeaders)
        invariant log == old(log) && callbacks == old(callbacks)
        invariant Flush(commitBlocks, curIndex).rest == Flush(start, idx0).rest
        invariant Flush(commitBlocks, curIndex).next == Flush(start, idx0).next
        invariant blockChan + Flush(commitBlocks, curIndex).out == old(blockChan) + Flush(start, idx0).out
        decreases |commitBlocks|
      {
        var b := commitBlocks[curIndex];
        assert Flush(commitBlocks, curIndex).out == [b] + Flush(commitBlocks - {curIndex}, curIndex + 1).out;
        blockChan := blockChan + [b];
        commitBlocks := commitBlocks - {curIndex};
        curIndex := curIndex + 1;
      }
    }

    /** The consumer goroutine, run until the channel is empty: log each block
        that has transactions and send one callback per block. */
    method Run()
      modifies this`blockChan, this`log, this`callbacks
      ensures blockChan == []
      ensures log == old(log) + CommitLog(old(blockChan), HasTxs, CommitLine)
      ensures callbacks == old(callbacks) + |old(blockChan)|
      ensures commitLeaders == old(commitLeaders) && commitBlocks == old(commitBlocks) && curIndex == old(curIndex)
    {
      var i := 0;
      while i < |blockChan|
        invariant 0 <= i <= |blockChan|
        invariant blockChan == old(blockChan)
        invariant log == old(log) + CommitLog(blockChan[..i], HasTxs, CommitLine)
        invariant callbacks == old(callbacks) + i
      {
        var b := blockChan[i];
        CommitLogStep(blockChan, i, HasTxs, CommitLine);
        if b.batch.txs.Some? {
          log := log + [CommitLine(b)];
        }
        callbacks := callbacks + 1;
        i := i + 1;
      }
      assert blockChan[..i] == old(blockChan);
      blockChan := [];
    }
  }
}
