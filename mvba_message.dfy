/** core/mvba/consensus/message.go: the MVBA message records, the byte strings
    their `Hash` methods feed to SHA-256, the vote flags and the message-type ids. */
module MvbaMessage {
  import opened GoInt
  import opened Bytes
  import Crypto
  import Pool
  import opened Committee

  const FLAG_YES: uint8 := 0
  const FLAG_NO: uint8 := 1

  /** Message-type ids, in declaration order. */
  const ProposalType := 0
  const CommitmentType := 1
  const ReadyType := 2
  const FinalType := 3
  const ElectShareType := 4
  const VoteType := 5
  const ABAValType := 6
  const ABAMuxType := 7
  const CoinShareType := 8
  const ABAHaltType := 9

  datatype Block = Block(proposer: NodeID, batch: Pool.Batch, epoch: int64)

  /** Signatures and threshold shares are left out. Vote, ABAVal, ABAMux,
      CoinShare and ABAHalt are declared in message.go without `Round` or
      `InRound`, yet aba.go and aggreator.go read and pass those fields; the
      records here carry them, as their use requires. */
  datatype Proposal = Proposal(author: NodeID, b: Block, epoch: int64)
  datatype Commitment = Commitment(author: NodeID, c: seq<bool>, epoch: int64)
  datatype Ready = Ready(author: NodeID, proposer: NodeID, epoch: int64, tag: uint8)
  datatype Final = Final(author: NodeID, epoch: int64, tag: uint8)
  datatype ElectShare = ElectShare(author: NodeID, epoch: int64, share: Crypto.SignatureShare)
  datatype Vote = Vote(author: NodeID, leader: NodeID, epoch: int64, round: int64, flag: uint8)
  datatype ABAVal = ABAVal(author: NodeID, leader: NodeID, epoch: int64, round: int64, inRound: int64, flag: uint8)
  datatype ABAMux = ABAMux(author: NodeID, leader: NodeID, epoch: int64, round: int64, inRound: int64, flag: uint8)
  datatype CoinShare = CoinShare(author: NodeID, leader: NodeID, epoch: int64, round: int64, inRound: int64, share: Crypto.SignatureShare)
  datatype ABAHalt = ABAHalt(author: NodeID, leader: NodeID, epoch: int64, round: int64, inRound: int64, flag: uint8)

  /** Base-2 numerals of proposer, epoch and batch id, with no separator. */
  function BlockPreimage(b: Block): seq<byte>
  {
    AppendInt2(b.proposer) + AppendInt2(b.epoch) + AppendInt2(b.batch.id)
  }

  function BlockHash(sha: Crypto.Sha256, b: Block): Crypto.Digest
  {
    sha(BlockPreimage(b))
  }

  /** Without separators the block preimage is ambiguous: proposer 1 in epoch 2
      and proposer 3 in epoch 0 both give "1" "10" = "11" "0". */
  lemma BlockPreimageNotInjective(batch: Pool.Batch)
    ensures Block(1, batch, 2) != Block(3, batch, 0)
    ensures BlockPreimage(Block(1, batch, 2)) == BlockPreimage(Block(3, batch, 0))
  {
    assert AppendInt2(1) == [ONE];
    assert AppendInt2(2) == [ONE, ZERO];
    assert AppendInt2(3) == [ONE, ONE];
    assert AppendInt2(0) == [ZERO];
  }

  /** 16 bytes of author and epoch, then the 32-byte block digest. */
  function ProposalPreimage(sha: Crypto.Sha256, p: Proposal): (s: seq<byte>)
    ensures |s| == 48
    ensures s[16..] == BlockHash(sha, p.b)
  {
    LE64(p.author) + LE64(p.epoch) + BlockHash(sha, p.b)
  }

  /** Author and epoch only: the vector C is not covered. */
  function CommitmentPreimage(c: Commitment): (s: seq<byte>)
    ensures |s| == 16
  {
    LE64(c.author) + LE64(c.epoch)
  }

  lemma CommitmentIgnoresVector(a: Commitment, b: Commitment)
    requires a.author == b.author && a.epoch == b.epoch
    ensures CommitmentPreimage(a) == CommitmentPreimage(b)
  {
  }

  function ReadyPreimage(r: Ready): (s: seq<byte>)
    ensures |s| == 25
  {
    LE64(r.author) + LE64(r.proposer) + LE64(r.epoch) + [r.tag]
  }

  /** The 25-byte Ready preimage determines every field of the record. */
  lemma ReadyPreimageInjective(r1: Ready, r2: Ready)
    requires ReadyPreimage(r1) == ReadyPreimage(r2)
    ensures r1 == r2
  {
    var s1, s2 := ReadyPreimage(r1), ReadyPreimage(r2);
    assert s1[0..8] == LE64(r1.author) && s2[0..8] == LE64(r2.author);
    assert s1[8..16] == LE64(r1.proposer) && s2[8..16] == LE64(r2.proposer);
    assert s1[16..24] == LE64(r1.epoch) && s2[16..24] == LE64(r2.epoch);
    assert s1[24] == r1.tag && s2[24] == r2.tag;
    LE64Injective(r1.author, r2.author);
    LE64Injective(r1.proposer, r2.proposer);
    LE64Injective(r1.epoch, r2.epoch);
  }

  function FinalPreimage(f: Final): (s: seq<byte>)
    ensures |s| == 17
  {
    LE64(f.author) + LE64(f.epoch) + [f.tag]
  }

  lemma FinalPreimageInjective(f1: Final, f2: Final)
    requires FinalPreimage(f1) == FinalPreimage(f2)
    ensures f1 == f2
  {
    var s1, s2 := FinalPreimage(f1), FinalPreimage(f2);
    assert s1[0..8] == LE64(f1.author) && s2[0..8] == LE64(f2.author);
    assert s1[8..16] == LE64(f1.epoch) && s2[8..16] == LE64(f2.epoch);
    assert s1[16] == f1.tag && s2[16] == f2.tag;
    LE64Injective(f1.author, f2.author);
    LE64Injective(f1.epoch, f2.epoch);
  }

  /** The epoch alone: every author's share signs the same digest. */
  function ElectSharePreimage(e: ElectShare): (s: seq<byte>)
    ensures |s| == 8
  {
    LE64(e.epoch)
  }

  lemma ElectShareIgnoresAuthor(a: ElectShare, b: ElectShare)
    ensures ElectSharePreimage(a) == ElectSharePreimage(b) <==> a.epoch == b.epoch
  {
    if ElectSharePreimage(a) == ElectSharePreimage(b) {
      LE64Injective(a.epoch, b.epoch);
    }
  }

  /** The shared big-endian layout of Vote, ABAVal, ABAMux and ABAHalt. */
  function FlagPreimage(author: NodeID, leader: NodeID, epoch: int64, flag: uint8): (s: seq<byte>)
    ensures |s| == 25
  {
    BE64(author) + BE64(leader) + BE64(epoch) + [flag]
  }

  lemma FlagPreimageInjective(a1: NodeID, l1: NodeID, e1: int64, f1: uint8, a2: NodeID, l2: NodeID, e2: int64, f2: uint8)
    requires FlagPreimage(a1, l1, e1, f1) == FlagPreimage(a2, l2, e2, f2)
    ensures a1 == a2 && l1 == l2 && e1 == e2 && f1 == f2
  {
    var s1, s2 := FlagPreimage(a1, l1, e1, f1), FlagPreimage(a2, l2, e2, f2);
    assert s1[0..8] == BE64(a1) && s2[0..8] == BE64(a2);
    assert s1[8..16] == BE64(l1) && s2[8..16] == BE64(l2);
    assert s1[16..24] == BE64(e1) && s2[16..24] == BE64(e2);
    assert s1[24] == f1 && s2[24] == f2;
    BE64Injective(a1, a2);
    BE64Injective(l1, l2);
    BE64Injective(e1, e2);
  }

  function VotePreimage(v: Vote): seq<byte>
  {
    FlagPreimage(v.author, v.leader, v.epoch, v.flag)
  }

  function ABAValPreimage(v: ABAVal): seq<byte>
  {
    FlagPreimage(v.author, v.leader, v.epoch, v.flag)
  }

  function ABAMuxPreimage(v: ABAMux): seq<byte>
  {
    FlagPreimage(v.author, v.leader, v.epoch, v.flag)
  }

  function ABAHaltPreimage(h: ABAHalt): seq<byte>
  {
    FlagPreimage(h.author, h.leader, h.epoch, h.flag)
  }

  /** The digest covers the four fields the struct declares, so the round
      fields taken from their use in aba.go do not enter it: two ABA values
      differing only in round or in-round have the same digest. */
  lemma ABAValIgnoresRounds(v: ABAVal, round: int64, inRound: int64)
    ensures ABAValPreimage(v) == ABAValPreimage(v.(round := round, inRound := inRound))
    ensures |ABAValPreimage(v)| == 25
  {
  }

  /** A Vote's preimage determines its author, leader, epoch and flag. */
  lemma VotePreimageInjective(v1: Vote, v2: Vote)
    requires VotePreimage(v1) == VotePreimage(v2)
    ensures v1.author == v2.author && v1.leader == v2.leader && v1.epoch == v2.epoch && v1.flag == v2.flag
  {
    FlagPreimageInjective(v1.author, v1.leader, v1.epoch, v1.flag, v2.author, v2.leader, v2.epoch, v2.flag);
  }

  /** Leader and epoch only: the author is not covered. */
  function CoinSharePreimage(c: CoinShare): (s: seq<byte>)
    ensures |s| == 16
  {
    BE64(c.leader) + BE64(c.epoch)
  }

  lemma CoinShareIgnoresAuthor(a: CoinShare, b: CoinShare)
    ensures CoinSharePreimage(a) == CoinSharePreimage(b) <==> a.leader == b.leader && a.epoch == b.epoch
  {
    if CoinSharePreimage(a) == CoinSharePreimage(b) {
      var s1, s2 := CoinSharePreimage(a), CoinSharePreimage(b);
      assert s1[0..8] == BE64(a.leader) && s2[0..8] == BE64(b.leader);
      assert s1[8..16] == BE64(a.epoch) && s2[8..16] == BE64(b.epoch);
      BE64Injective(a.leader, b.leader);
      BE64Injective(a.epoch, b.epoch);
    }
  }
}
