/** core/vaba/consensus/message.go: the VABA message records and the byte
    strings their `Hash` methods feed to SHA-256. */
module VabaMessage {
  import opened GoInt
  import opened Wrappers
  import opened Bytes
  import Crypto
  import Pool
  import opened Committee

  const PHASE_ONE_FALG: int8 := 0
  const PHASE_TWO_FALG: int8 := 1
  const PHASE_THREE_FALG: int8 := 2
  const PHASE_FOUR_FALG: int8 := 3

  const ProposalType := 0
  const VoteType := 1
  const DoneType := 2
  const SkipType := 3
  const ElectShareType := 4
  const ViewChangeType := 5

  datatype Block = Block(proposer: NodeID, batch: Pool.Batch, epoch: int64)

  /** `B` is a pointer and may be nil. */
  datatype Proposal = Proposal(author: NodeID, epoch: int64, phase: int8, b: Option<Block>)
  datatype Vote = Vote(author: NodeID, proposer: NodeID, blockHash: Crypto.Digest, epoch: int64, phase: int8)
  datatype Done = Done(author: NodeID, epoch: int64)
  datatype Skip = Skip(author: NodeID, epoch: int64)
  datatype ElectShare = ElectShare(author: NodeID, epoch: int64)
  datatype ViewChange = ViewChange(author: NodeID, epoch: int64, blockHash: Option<Crypto.Digest>,
                                   isCommit: bool, isLock: bool, isKey: bool)

  function BlockPreimage(b: Block): seq<byte>
  {
    AppendInt2(b.proposer) + AppendInt2(b.epoch) + AppendInt2(b.batch.id)
  }

  function BlockHash(sha: Crypto.Sha256, b: Block): Crypto.Digest
  {
    sha(BlockPreimage(b))
  }

  /** `Proposal.Hash` dereferences `B`; a nil block is a nil-pointer panic (`None`). */
  function ProposalPreimage(sha: Crypto.Sha256, p: Proposal): (r: Option<seq<byte>>)
    ensures r.None? <==> p.b.None?
    ensures r.Some? ==> |r.value| >= 32 && r.value[|r.value| - 32..] == BlockHash(sha, p.b.value)
  {
    match p.b
    case None => None
    case Some(blk) => Some(AppendInt2(p.author) + AppendInt2(p.phase) + AppendInt2(p.epoch) + BlockHash(sha, blk))
  }

  function VotePreimage(v: Vote): (s: seq<byte>)
    ensures |s| >= 32 && s[|s| - 32..] == v.blockHash
  {
    AppendInt2(v.author) + AppendInt2(v.phase) + AppendInt2(v.epoch) + AppendInt2(v.proposer) + v.blockHash
  }

  /** The numerals run together: author 1 in phase 2 and author 3 in phase 0 sign the same bytes. */
  lemma VotePreimageNotInjective(v: Vote)
    requires v.author == 1 && v.phase == 2
    ensures v.(author := 3, phase := 0) != v
    ensures VotePreimage(v.(author := 3, phase := 0)) == VotePreimage(v)
  {
    assert AppendInt2(1) == [ONE];
    assert AppendInt2(2) == [ONE, ZERO];
    assert AppendInt2(3) == [ONE, ONE];
    assert AppendInt2(0) == [ZERO];
  }

  function DonePreimage(d: Done): seq<byte>
  {
    AppendInt2(d.author) + AppendInt2(d.epoch)
  }

  /** Epoch first, then author: the reverse of Done's order. */
  function SkipPreimage(s: Skip): seq<byte>
  {
    AppendInt2(s.epoch) + AppendInt2(s.author)
  }

  /** A Skip signs the same bytes as the Done with author and epoch swapped. */
  lemma SkipIsSwappedDone(s: Skip)
    ensures SkipPreimage(s) == DonePreimage(Done(s.epoch as NodeID, s.author as int64))
  {
  }

  /** The epoch alone. */
  function ElectSharePreimage(e: ElectShare): seq<byte>
  {
    AppendInt2(e.epoch)
  }

  lemma ElectShareIgnoresAuthor(e: ElectShare, author: NodeID)
    ensures ElectSharePreimage(e.(author := author)) == ElectSharePreimage(e)
  {
  }

  /** Author and the three flags as "true"/"false" text: neither epoch nor block hash. */
  function ViewChangePreimage(v: ViewChange): seq<byte>
  {
    AppendInt2(v.author) + (AppendBool(v.isCommit) + AppendBool(v.isLock) + AppendBool(v.isKey))
  }

  lemma ViewChangeIgnoresEpochAndHash(v: ViewChange, epoch: int64, h: Option<Crypto.Digest>)
    ensures ViewChangePreimage(v.(epoch := epoch, blockHash := h)) == ViewChangePreimage(v)
  {
  }

  /** The text of three booleans determines them. */
  lemma BoolsInjective(a1: bool, b1: bool, c1: bool, a2: bool, b2: bool, c2: bool)
    requires AppendBool(a1) + AppendBool(b1) + AppendBool(c1) == AppendBool(a2) + AppendBool(b2) + AppendBool(c2)
    ensures a1 == a2 && b1 == b2 && c1 == c2
  {
    var s1 := AppendBool(a1) + AppendBool(b1) + AppendBool(c1);
    var s2 := AppendBool(a2) + AppendBool(b2) + AppendBool(c2);
    assert s1[0] == (if a1 then 116 else 102) && s2[0] == (if a2 then 116 else 102);
    var k := |AppendBool(a1)|;
    assert s1[k..] == AppendBool(b1) + AppendBool(c1);
    assert s2[k..] == AppendBool(b2) + AppendBool(c2);
    assert s1[k] == (if b1 then 116 else 102) && s2[k] == (if b2 then 116 else 102);
    var j := k + |AppendBool(b1)|;
    assert s1[j..] == AppendBool(c1);
    assert s2[j..] == AppendBool(c2);
    assert s1[j] == (if c1 then 116 else 102) && s2[j] == (if c2 then 116 else 102);
  }

  /** For one author, the view-change digest tells the three flags apart. */
  lemma ViewChangeFlagsDetermined(v1: ViewChange, v2: ViewChange)
    requires v1.author == v2.author
    requires ViewChangePreimage(v1) == ViewChangePreimage(v2)
    ensures v1.isCommit == v2.isCommit && v1.isLock == v2.isLock && v1.isKey == v2.isKey
  {
    var head := AppendInt2(v1.author);
    var t1 := AppendBool(v1.isCommit) + AppendBool(v1.isLock) + AppendBool(v1.isKey);
    var t2 := AppendBool(v2.isCommit) + AppendBool(v2.isLock) + AppendBool(v2.isKey);
    assert t1 == (head + t1)[|head|..];
    assert t2 == (head + t2)[|head|..];
    BoolsInjective(v1.isCommit, v1.isLock, v1.isKey, v2.isCommit, v2.isLock, v2.isKey);
  }
}
