/** core/vaba/consensus/commitor.go: the VABA commit buffer. A committed block is
    buffered at its epoch (overwriting an earlier one) and blocks are pushed to the
    commit channel in consecutive epoch order; the consumer logs those with
    transactions. */
module VabaCommitor {
  import opened GoInt
  import opened InOrder
  import MvbaCommitor
  import VabaMessage

  type Block = VabaMessage.Block

  /** Whether the consumer logs a block: its transaction list is not nil. */
  predicate HasTxs(b: Block)
  {
    b.batch.txs.Some?
  }

  /** The line the consumer logs for a block. */
  function CommitLine(b: Block): string
  {
    MvbaCommitor.CommitText(b.epoch, b.proposer, b.batch.id)
  }

  class Committor {
    var index: int
    var blocks: map<int, Block>
    /** Blocks pushed to the commit channel and not yet consumed. */
    var commitCh: seq<Block>
    /** Lines written by the consumer, and the number of callbacks it sent. */
    var log: seq<string>
    var callbacks: nat

    ghost predicate Valid()
      reads this
    {
      index >= 0 && forall e :: e in blocks ==> e > index
    }

    constructor ()
      ensures Valid()
      ensures index == 0 && blocks == map[] && commitCh == [] && log == [] && callbacks == 0
    {
      index := 0;
      blocks := map[];
      commitCh := [];
      log := [];
      callbacks := 0;
    }

    /** `Commit(block)`: ignored for an epoch below the index; otherwise buffered
        at its epoch and the consecutive run from the index is released. */
    method Commit(block: Block)
      requires Valid()
      modifies this
      ensures Valid()
      ensures index >= old(index)
      ensures block.epoch < old(index) ==>
        blocks == old(blocks) && index == old(index) && commitCh == old(commitCh)
      ensures block.epoch >= old(index) ==>
        var f := Flush(old(blocks)[block.epoch as int := block], old(index));
        commitCh == old(commitCh) + f.out && blocks == f.rest && index == f.next
      ensures block.epoch > old(index) ==>
        blocks == old(blocks)[block.epoch as int := block] && index == old(index) && commitCh == old(commitCh)
      ensures block.epoch == old(index) ==>
        index > old(index) && |commitCh| > |old(commitCh)| && commitCh[|old(commitCh)|] == block
      ensures log == old(log) && callbacks == old(callbacks)
    {
      if block.epoch < index {
        return;
      }
      InsertThenFlush(blocks, index, block.epoch as int, block);
      blocks := blocks[block.epoch as int := block];
      Release();
    }

    /** The release loop of `Commit`. */
    method Release()
      modifies this
      ensures var f := Flush(old(blocks), old(index));
        commitCh == old(commitCh) + f.out && blocks == f.rest && index == f.next
      ensures log == old(log) && callbacks == old(callbacks)
    {
      ghost var start := blocks;
      ghost var idx0 := index;
      while index in blocks
        invariant log == old(log) && callbacks == old(callbacks)
        invariant Flush(blocks, index).rest == Flush(start, idx0).rest
        invariant Flush(blocks, index).next == Flush(start, idx0).next
        invariant commitCh + Flush(blocks, index).out == old(commitCh) + Flush(start, idx0).out
        decreases |blocks|
      {
        var b := blocks[index];
        assert Flush(blocks, index).out == [b] + Flush(blocks - {index}, index + 1).out;
        commitCh := commitCh + [b];
        blocks := blocks - {index};
        index := index + 1;
      }
    }

    /** The consumer goroutine `run`, until the channel is empty: log each block
        with a non-nil transaction list and send one callback per block. */
    method Run()
      modifies this
      ensures commitCh == []
      ensures log == old(log) + MvbaCommitor.CommitLog(old(commitCh), HasTxs, CommitLine)
      ensures callbacks == old(callbacks) + |old(commitCh)|
      ensures blocks == old(blocks) && index == old(index)
    {
      var i := 0;
      while i < |commitCh|
        invariant 0 <= i <= |commitCh|
        invariant commitCh == old(commitCh)
        invariant log == old(log) + MvbaCommitor.CommitLog(commitCh[..i], HasTxs, CommitLine)
        invariant callbacks == old(callbacks) + i
        invariant blocks == old(blocks) && index == old(index)
      {
        var b := commitCh[i];
        MvbaCommitor.CommitLogStep(commitCh, i, HasTxs, CommitLine);
        if HasTxs(b) {
          log := log + [CommitLine(b)];
        }
        callbacks := callbacks + 1;
        i := i + 1;
      }
      assert commitCh[..i] == old(commitCh);
      commitCh := [];
    }
  }
}
