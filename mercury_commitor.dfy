/** core/mercury/consensus/commitor.go: the Mercury commit buffer. When the block
    of the next expected epoch is available, the blocks it references are read from
    the store, and those with transactions whose batch id has not been committed yet
    are pushed to the commit channel, in reference order, followed by the epoch's
    own block when it has transactions. The store is an input map from digest to
    encoded block, and decoding is an input function. */
module MercuryCommitor {
  import opened GoInt
  import opened Wrappers
  import opened InOrder
  import Crypto
  import MvbaCommitor
  import MercuryMessage

  type Block = MercuryMessage.Block
  type Store = map<Crypto.Digest, seq<byte>>
  type Decoder = seq<byte> -> Option<Block>

  /** The blocks released so far and the committed batch ids. */
  datatype Expansion = Expansion(blocks: seq<Block>, flags: set<int>)

  /** The batch ids of a sequence of blocks. */
  function Ids(bs: seq<Block>): (ids: set<int>)
    ensures forall i :: 0 <= i < |bs| ==> bs[i].batch.id in ids
  {
    if bs == [] then {} else Ids(bs[..|bs| - 1]) + {bs[|bs| - 1].batch.id}
  }

  /** What one reference contributes: the stored block, when it reads, decodes,
      has transactions and its batch id is not yet flagged; it is then flagged. */
  function RefStep(d: Crypto.Digest, store: Store, decode: Decoder, flags: set<int>): (e: Expansion)
    ensures |e.blocks| <= 1
    ensures e.blocks == [] ==> e.flags == flags
    ensures e.blocks != [] ==>
      && d in store && decode(store[d]) == Some(e.blocks[0])
      && e.blocks[0].batch.txs.Some? && e.blocks[0].batch.id !in flags
      && e.flags == flags + {e.blocks[0].batch.id}
  {
    if d in store && decode(store[d]).Some? then
      var t := decode(store[d]).value;
      if t.batch.txs.Some? && t.batch.id !in flags then Expansion([t], flags + {t.batch.id})
      else Expansion([], flags)
    else Expansion([], flags)
  }

  /** The references processed in order. */
  function ExpandRefs(refs: seq<Crypto.Digest>, store: Store, decode: Decoder, flags: set<int>): Expansion
  {
    if refs == [] then Expansion([], flags)
    else
      var e := ExpandRefs(refs[..|refs| - 1], store, decode, flags);
      var s := RefStep(refs[|refs| - 1], store, decode, e.flags);
      Expansion(e.blocks + s.blocks, s.flags)
  }

  /** The epoch's own block, whenever it has transactions, flagged or not. */
  function OwnStep(b: Block, flags: set<int>): (e: Expansion)
    ensures b.batch.txs.Some? ==> e == Expansion([b], flags + {b.batch.id})
    ensures b.batch.txs.None? ==> e == Expansion([], flags)
  {
    if b.batch.txs.Some? then Expansion([b], flags + {b.batch.id}) else Expansion([], flags)
  }

  /** Everything one flushed epoch releases. */
  function EpochRelease(b: Block, store: Store, decode: Decoder, flags: set<int>): Expansion
  {
    var e := ExpandRefs(b.reference, store, decode, flags);
    var o := OwnStep(b, e.flags);
    Expansion(e.blocks + o.blocks, o.flags)
  }

  datatype MercuryFlushed = MercuryFlushed(out: seq<Block>, rest: map<int, Block>, next: int, flags: set<int>)

  /** The flush loop: release each consecutive buffered epoch from `idx`. */
  function MercuryFlush(buf: map<int, Block>, idx: int, store: Store, decode: Decoder, flags: set<int>): MercuryFlushed
    decreases |buf|
  {
    if idx in buf then
      var r := EpochRelease(buf[idx], store, decode, flags);
      var f := MercuryFlush(buf - {idx}, idx + 1, store, decode, r.flags);
      MercuryFlushed(r.blocks + f.out, f.rest, f.next, f.flags)
    else MercuryFlushed([], buf, idx, flags)
  }

  /** Referenced blocks are released in reference order: expanding two lists of
      references one after the other is expanding their concatenation. */
  lemma {:induction false} ExpandRefsAppend(r1: seq<Crypto.Digest>, r2: seq<Crypto.Digest>, store: Store, decode: Decoder, flags: set<int>)
    ensures var e1 := ExpandRefs(r1, store, decode, flags);
      var e2 := ExpandRefs(r2, store, decode, e1.flags);
      ExpandRefs(r1 + r2, store, decode, flags) == Expansion(e1.blocks + e2.blocks, e2.flags)
    decreases |r2|
  {
    if r2 == [] {
      assert r1 + r2 == r1;
    } else {
      var r2' := r2[..|r2| - 1];
      ExpandRefsAppend(r1, r2', store, decode, flags);
      assert (r1 + r2)[..|r1 + r2| - 1] == r1 + r2';
      assert (r1 + r2)[|r1 + r2| - 1] == r2[|r2| - 1];
    }
  }

  /** Blocks with transactions whose batch ids are pairwise distinct and not in `flags`. */
  ghost predicate FreshIds(bs: seq<Block>, flags: set<int>)
  {
    && (forall i :: 0 <= i < |bs| ==> bs[i].batch.txs.Some? && bs[i].batch.id !in flags)
    && (forall i, j :: 0 <= i < j < |bs| ==> bs[i].batch.id != bs[j].batch.id)
  }

  lemma FreshIdsAppend(bs: seq<Block>, b: Block, flags: set<int>)
    requires FreshIds(bs, flags)
    requires b.batch.txs.Some? && b.batch.id !in flags + Ids(bs)
    ensures FreshIds(bs + [b], flags)
  {
    var bs' := bs + [b];
    forall i, j | 0 <= i < j < |bs'|
      ensures bs'[i].batch.id != bs'[j].batch.id
    {
      if j == |bs| {
        assert bs'[i] == bs[i];
      } else {
        assert bs'[i] == bs[i] && bs'[j] == bs[j];
      }
    }
  }

  /** Deduplication by batch id: the referenced blocks released have transactions
      and batch ids that are pairwise distinct and were not flagged before, and the
      flags grow by exactly the released ids. */
  lemma {:induction false} ExpandRefsFresh(refs: seq<Crypto.Digest>, store: Store, decode: Decoder, flags: set<int>)
    ensures FreshIds(ExpandRefs(refs, store, decode, flags).blocks, flags)
    ensures ExpandRefs(refs, store, decode, flags).flags == flags + Ids(ExpandRefs(refs, store, decode, flags).blocks)
    decreases |refs|
  {
    if refs != [] {
      var p := refs[..|refs| - 1];
      ExpandRefsFresh(p, store, decode, flags);
      var e := ExpandRefs(p, store, decode, flags);
      var s := RefStep(refs[|refs| - 1], store, decode, e.flags);
      var bs := e.blocks + s.blocks;
      if s.blocks != [] {
        FreshIdsAppend(e.blocks, s.blocks[0], flags);
        assert bs == e.blocks + [s.blocks[0]];
        assert bs[..|bs| - 1] == e.blocks;
        assert Ids(bs) == Ids(e.blocks) + {s.blocks[0].batch.id};
        assert ExpandRefs(refs, store, decode, flags) == Expansion(bs, s.flags);
      } else {
        assert bs == e.blocks;
      }
    }
  }

  /** `b` is the decoded stored block of one of the references. */
  ghost predicate FromRefs(refs: seq<Crypto.Digest>, store: Store, decode: Decoder, b: Block)
  {
    exists k :: 0 <= k < |refs| && refs[k] in store && decode(store[refs[k]]) == Some(b)
  }

  /** Every referenced block released is the decoded stored block of one of the
      references. */
  lemma {:induction false} ExpandRefsFromStore(refs: seq<Crypto.Digest>, store: Store, decode: Decoder, flags: set<int>)
    ensures forall i :: 0 <= i < |ExpandRefs(refs, store, decode, flags).blocks| ==>
      FromRefs(refs, store, decode, ExpandRefs(refs, store, decode, flags).blocks[i])
    decreases |refs|
  {
    if refs != [] {
      var p := refs[..|refs| - 1];
      ExpandRefsFromStore(p, store, decode, flags);
      var e := ExpandRefs(p, store, decode, flags);
      var s := RefStep(refs[|refs| - 1], store, decode, e.flags);
      var bs := e.blocks + s.blocks;
      forall i | 0 <= i < |bs|
        ensures FromRefs(refs, store, decode, bs[i])
      {
        if i < |e.blocks| {
          assert FromRefs(p, store, decode, e.blocks[i]);
          var k :| 0 <= k < |p| && p[k] in store && decode(store[p[k]]) == Some(e.blocks[i]);
          assert refs[k] == p[k];
        } else {
          assert refs[|refs| - 1] in store && decode(store[refs[|refs| - 1]]) == Some(bs[i]);
        }
      }
      assert ExpandRefs(refs, store, decode, flags).blocks == bs;
    }
  }

  /** The epoch's own block comes last, after every referenced block, whenever it
      has transactions, even when its batch id was already flagged; without
      transactions only referenced blocks are released. */
  lemma EpochReleaseOwnLast(b: Block, store: Store, decode: Decoder, flags: set<int>)
    ensures var r := EpochRelease(b, store, decode, flags);
      var e := ExpandRefs(b.reference, store, decode, flags);
      && (b.batch.txs.Some? ==> r.blocks == e.blocks + [b] && b.batch.id in r.flags)
      && (b.batch.txs.None? ==> r.blocks == e.blocks && r.flags == e.flags)
  {
  }

  /** The committed batch ids only grow. */
  lemma {:induction false} ExpandRefsFlagsGrow(refs: seq<Crypto.Digest>, store: Store, decode: Decoder, flags: set<int>)
    ensures flags <= ExpandRefs(refs, store, decode, flags).flags
    decreases |refs|
  {
    if refs != [] {
      ExpandRefsFlagsGrow(refs[..|refs| - 1], store, decode, flags);
    }
  }

  lemma {:induction false} MercuryFlushFlagsGrow(buf: map<int, Block>, idx: int, store: Store, decode: Decoder, flags: set<int>)
    ensures flags <= MercuryFlush(buf, idx, store, decode, flags).flags
    decreases |buf|
  {
    if idx in buf {
      var b := buf[idx];
      ExpandRefsFlagsGrow(b.reference, store, decode, flags);
      var r := EpochRelease(b, store, decode, flags);
      MercuryFlushFlagsGrow(buf - {idx}, idx + 1, store, decode, r.flags);
    }
  }

  /** The index and the buffer move exactly as in the plain in-order flush: the
      consecutive epochs from the index are deleted and the index passes them. */
  lemma {:induction false} MercuryFlushIndex(buf: map<int, Block>, idx: int, store: Store, decode: Decoder, flags: set<int>)
    ensures MercuryFlush(buf, idx, store, decode, flags).rest == Flush(buf, idx).rest
    ensures MercuryFlush(buf, idx, store, decode, flags).next == Flush(buf, idx).next
    decreases |buf|
  {
    if idx in buf {
      var r := EpochRelease(buf[idx], store, decode, flags);
      MercuryFlushIndex(buf - {idx}, idx + 1, store, decode, r.flags);
    }
  }

  /** The rest of the flush `f`, pushed after `ch`, completes the flush `start`
      begun when the channel held `ch0`. */
  ghost predicate Continues(f: MercuryFlushed, ch: seq<Block>, start: MercuryFlushed, ch0: seq<Block>)
  {
    f.rest == start.rest && f.next == start.next && f.flags == start.flags && ch + f.out == ch0 + start.out
  }

  lemma ContinuesStep(buf: map<int, Block>, idx: int, store: Store, decode: Decoder, flags: set<int>, flags': set<int>,
                      out: seq<Block>, ch: seq<Block>, start: MercuryFlushed, ch0: seq<Block>)
    requires idx in buf
    requires Continues(MercuryFlush(buf, idx, store, decode, flags), ch, start, ch0)
    requires EpochRelease(buf[idx], store, decode, flags) == Expansion(out, flags')
    ensures Continues(MercuryFlush(buf - {idx}, idx + 1, store, decode, flags'), ch + out, start, ch0)
  {
    var f := MercuryFlush(buf - {idx}, idx + 1, store, decode, flags');
    assert MercuryFlush(buf, idx, store, decode, flags) == MercuryFlushed(out + f.out, f.rest, f.next, f.flags);
    assert ch + (out + f.out) == (ch + out) + f.out;
  }

  /** Whether the consumer logs a block: its transaction list is not nil. */
  predicate HasTxs(b: Block)
  {
    b.batch.txs.Some?
  }

  /** The line the consumer logs for a block. */
  function CommitLine(b: Block): string
  {
    MvbaCommitor.CommitText(b.epoch, b.proposer, b.batch.id)
  }

  class Committor {
    var index: int
    var blocks: map<int, Block>
    var isCommitFlag: set<int>
    /** Blocks pushed to the commit channel and not yet consumed. */
    var commitCh: seq<Block>
    /** Lines written by the consumer, and the number of callbacks it sent. */
    var log: seq<string>
    var callbacks: nat

    ghost predicate Valid()
      reads this
    {
      index >= 0 && forall e :: e in blocks ==> e > index
    }

    constructor ()
      ensures Valid()
      ensures index == 0 && blocks == map[] && isCommitFlag == {} && commitCh == []
      ensures log == [] && callbacks == 0
    {
      index := 0;
      blocks := map[];
      isCommitFlag := {};
      commitCh := [];
      log := [];
      callbacks := 0;
    }

    /** `Commit(block)`: ignored below the index; otherwise buffered at its epoch
        and every consecutive epoch from the index is released. */
    method Commit(block: Block, store: Store, decode: Decoder)
      requires Valid()
      modifies this
      ensures Valid()
      ensures index >= old(index)
      ensures old(isCommitFlag) <= isCommitFlag
      ensures block.epoch < old(index) ==>
        blocks == old(blocks) && index == old(index) && commitCh == old(commitCh) && isCommitFlag == old(isCommitFlag)
      ensures block.epoch >= old(index) ==>
        var f := MercuryFlush(old(blocks)[block.epoch as int := block], old(index), store, decode, old(isCommitFlag));
        commitCh == old(commitCh) + f.out && blocks == f.rest && index == f.next && isCommitFlag == f.flags
      ensures block.epoch > old(index) ==>
        blocks == old(blocks)[block.epoch as int := block] && index == old(index)
        && commitCh == old(commitCh) && isCommitFlag == old(isCommitFlag)
      ensures block.epoch == old(index) ==> index > old(index)
      ensures log == old(log) && callbacks == old(callbacks)
    {
      if block.epoch < index {
        return;
      }
      var m := blocks[block.epoch as int := block];
      InsertThenFlush(blocks, index, block.epoch as int, block);
      MercuryFlushIndex(m, index, store, decode, isCommitFlag);
      MercuryFlushFlagsGrow(m, index, store, decode, isCommitFlag);
      blocks := m;
      Release(store, decode);
    }

    /** The outer release loop of `Commit`. */
    method Release(store: Store, decode: Decoder)
      modifies this`blocks, this`index, this`isCommitFlag, this`commitCh
      ensures var f := MercuryFlush(old(blocks), old(index), store, decode, old(isCommitFlag));
        commitCh == old(commitCh) + f.out && blocks == f.rest && index == f.next && isCommitFlag == f.flags
    {
      ghost var start := MercuryFlush(blocks, index, store, decode, isCommitFlag);
      ghost var ch0 := commitCh;
      while index in blocks
        invariant Continues(MercuryFlush(blocks, index, store, decode, isCommitFlag), commitCh, start, ch0)
        decreases |blocks|
      {
        var b := blocks[index];
        ghost var flags := isCommitFlag;
        var out := ReleaseEpoch(b, store, decode);
        ContinuesStep(blocks, index, store, decode, flags, isCommitFlag, out, commitCh, start, ch0);
        commitCh := commitCh + out;
        blocks := blocks - {index};
        index := index + 1;
      }
    }

    /** The body of the outer loop for one epoch's block: the reference loop, then
        the block itself; returns the blocks to push. */
    method ReleaseEpoch(b: Block, store: Store, decode: Decoder) returns (out: seq<Block>)
      modifies this`isCommitFlag
      ensures EpochRelease(b, store, decode, old(isCommitFlag)) == Expansion(out, isCommitFlag)
    {
      ghost var flags0 := isCommitFlag;
      out := [];
      var i := 0;
      while i < |b.reference|
        invariant 0 <= i <= |b.reference|
        invariant ExpandRefs(b.reference[..i], store, decode, flags0) == Expansion(out, isCommitFlag)
      {
        var d := b.reference[i];
        assert b.reference[..i + 1][..i] == b.reference[..i];
        if d in store {
          var t := decode(store[d]);
          if t.Some? {
            if t.value.batch.txs.Some? {
              if t.value.batch.id !in isCommitFlag {
                isCommitFlag := isCommitFlag + {t.value.batch.id};
                out := out + [t.value];
              }
            }
          }
        }
        i := i + 1;
      }
      assert b.reference[..i] == b.reference;
      if b.batch.txs.Some? {
        isCommitFlag := isCommitFlag + {b.batch.id};
        out := out + [b];
      }
    }

    /** The consumer goroutine `run`, until the channel is empty. */
    method Run()
      modifies this
      ensures commitCh == []
      ensures log == old(log) + MvbaCommitor.CommitLog(old(commitCh), HasTxs, CommitLine)
      ensures callbacks == old(callbacks) + |old(commitCh)|
      ensures blocks == old(blocks) && index == old(index) && isCommitFlag == old(isCommitFlag)
    {
      var i := 0;
      while i < |commitCh|
        invariant 0 <= i <= |commitCh|
        invariant commitCh == old(commitCh)
        invariant log == old(log) + MvbaCommitor.CommitLog(commitCh[..i], HasTxs, CommitLine)
        invariant callbacks == old(callbacks) + i
        invariant blocks == old(blocks) && index == old(index) && isCommitFlag == old(isCommitFlag)
      {
        var b := commitCh[i];
        MvbaCommitor.CommitLogStep(commitCh, i, HasTxs, CommitLine);
        if HasTxs(b) {
          log := log + [CommitLine(b)];
        }
        callbacks := callbacks + 1;
        i := i + 1;
      }
      assert commitCh[..i] == old(commitCh);
      commitCh := [];
    }
  }
}
