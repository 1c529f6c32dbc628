/** core/mercury/consensus/message.go: the Mercury message records, the byte
    strings their `Hash` methods feed to SHA-256, and the constructors. */
module MercuryMessage {
  import opened GoInt
  import opened Wrappers
  import opened Bytes
  import Crypto
  import Pool
  import opened Committee

  const SPB_ONE_PHASE: int8 := 0
  const SPB_TWO_PHASE: int8 := 1
  const VOTE_FLAG_YES: int8 := 0
  const VOTE_FLAG_NO: int8 := 1

  const SPBProposalType := 0
  const SPBVoteType := 1
  const FinishType := 2
  const DoneType := 3
  const ElectShareType := 4
  const PrevoteType := 5
  const FinVoteType := 6
  const HaltType := 7

  datatype Block = Block(proposer: NodeID, batch: Pool.Batch, epoch: int64, reference: seq<Crypto.Digest>)

  datatype SPBProposal = SPBProposal(author: NodeID, b: Option<Block>, epoch: int64, round: int64, phase: int8)
  datatype SPBVote = SPBVote(author: NodeID, proposer: NodeID, blockHash: Crypto.Digest, epoch: int64, round: int64, phase: int8)
  datatype Finish = Finish(author: NodeID, blockHash: Crypto.Digest, epoch: int64, round: int64)
  datatype Done = Done(author: NodeID, epoch: int64, round: int64, try: int64)
  datatype ElectShare = ElectShare(author: NodeID, epoch: int64, round: int64, try: int64)
  datatype Prevote = Prevote(author: NodeID, leader: NodeID, epoch: int64, round: int64, try: int64, flag: int8, blockHash: Crypto.Digest)
  datatype FinVote = FinVote(author: NodeID, leader: NodeID, epoch: int64, round: int64, try: int64, flag: int8, blockHash: Crypto.Digest)
  datatype Halt = Halt(author: NodeID, epoch: int64, round: int64, leader: NodeID, blockHash: Crypto.Digest)

  /** Proposer, epoch and batch id; the `Reference` list is not covered. */
  function BlockPreimage(b: Block): seq<byte>
  {
    AppendInt2(b.proposer) + AppendInt2(b.epoch) + AppendInt2(b.batch.id)
  }

  function BlockHash(sha: Crypto.Sha256, b: Block): Crypto.Digest
  {
    sha(BlockPreimage(b))
  }

  lemma BlockHashIgnoresReference(sha: Crypto.Sha256, b: Block, refs: seq<Crypto.Digest>)
    ensures BlockHash(sha, b.(reference := refs)) == BlockHash(sha, b)
  {
  }

  /** The numerals of the header fields, then the block digest only when there is a block. */
  function SPBProposalPreimage(sha: Crypto.Sha256, p: SPBProposal): (s: seq<byte>)
    ensures var head := AppendInt2(p.author) + AppendInt2(p.epoch) + AppendInt2(p.round) + AppendInt2(p.phase);
            s == head + (if p.b.Some? then BlockHash(sha, p.b.value) else [])
  {
    var head := AppendInt2(p.author) + AppendInt2(p.epoch) + AppendInt2(p.round) + AppendInt2(p.phase);
    match p.b
    case None => head
    case Some(blk) => head + BlockHash(sha, blk)
  }

  /** A proposal with a block hashes 32 bytes more than the same header without one. */
  lemma SPBProposalBlockAddsDigest(sha: Crypto.Sha256, p: SPBProposal, blk: Block)
    ensures |SPBProposalPreimage(sha, p.(b := Some(blk)))| == |SPBProposalPreimage(sha, p.(b := None))| + 32
  {
  }

  function SPBVotePreimage(v: SPBVote): seq<byte>
  {
    AppendInt2(v.author) + AppendInt2(v.epoch) + AppendInt2(v.round) + AppendInt2(v.phase) + v.blockHash
  }

  /** The vote digest does not cover the proposer. */
  lemma SPBVoteIgnoresProposer(v: SPBVote, proposer: NodeID)
    ensures SPBVotePreimage(v.(proposer := proposer)) == SPBVotePreimage(v)
  {
  }

  /** The block digest comes first, so it is recovered from the first 32 bytes. */
  function FinishPreimage(f: Finish): (s: seq<byte>)
    ensures |s| >= 32 && s[..32] == f.blockHash
  {
    f.blockHash + AppendInt2(f.author) + AppendInt2(f.epoch) + AppendInt2(f.round)
  }

  lemma FinishPreimageFixesDigest(f1: Finish, f2: Finish)
    requires FinishPreimage(f1) == FinishPreimage(f2)
    ensures f1.blockHash == f2.blockHash
  {
    assert FinishPreimage(f1)[..32] == FinishPreimage(f2)[..32];
  }

  function DonePreimage(d: Done): seq<byte>
  {
    AppendInt2(d.author) + AppendInt2(d.epoch) + AppendInt2(d.round) + AppendInt2(d.try)
  }

  /** The Done digest covers Try: for one author, epoch and round, distinct tries
      differ whenever their numerals have different lengths. */
  lemma DoneCoversTry(d: Done, try: int64)
    requires |AppendInt2(try)| != |AppendInt2(d.try)|
    ensures DonePreimage(d.(try := try)) != DonePreimage(d)
  {
  }

  /** Epoch, round and try; the author is not covered. */
  function ElectSharePreimage(e: ElectShare): seq<byte>
  {
    AppendInt2(e.epoch) + AppendInt2(e.round) + AppendInt2(e.try)
  }

  lemma ElectShareIgnoresAuthor(e: ElectShare, author: NodeID)
    ensures ElectSharePreimage(e.(author := author)) == ElectSharePreimage(e)
  {
  }

  /** Prevote and FinVote share one layout, which leaves Try out. */
  function VoteLayout(author: NodeID, leader: NodeID, epoch: int64, round: int64, flag: int8, blockHash: Crypto.Digest): (s: seq<byte>)
    ensures |s| >= 32 && s[|s| - 32..] == blockHash
  {
    AppendInt2(author) + AppendInt2(leader) + AppendInt2(epoch) + AppendInt2(round) + AppendInt2(flag) + blockHash
  }

  function PrevotePreimage(p: Prevote): seq<byte>
  {
    VoteLayout(p.author, p.leader, p.epoch, p.round, p.flag, p.blockHash)
  }

  function FinVotePreimage(p: FinVote): seq<byte>
  {
    VoteLayout(p.author, p.leader, p.epoch, p.round, p.flag, p.blockHash)
  }

  lemma PrevoteIgnoresTry(p: Prevote, try: int64)
    ensures PrevotePreimage(p.(try := try)) == PrevotePreimage(p)
  {
  }

  lemma FinVoteIgnoresTry(p: FinVote, try: int64)
    ensures FinVotePreimage(p.(try := try)) == FinVotePreimage(p)
  {
  }

  /** Author, epoch, leader and digest; the round is not covered. */
  function HaltPreimage(h: Halt): seq<byte>
  {
    AppendInt2(h.author) + AppendInt2(h.epoch) + AppendInt2(h.leader) + h.blockHash
  }

  lemma HaltIgnoresRound(h: Halt, round: int64)
    ensures HaltPreimage(h.(round := round)) == HaltPreimage(h)
  {
  }

  /** `NewFinVote` does not copy its Leader argument, so the field keeps Go's zero value. */
  function NewFinVote(author: NodeID, leader: NodeID, epoch: int64, round: int64, try: int64, flag: int8, blockHash: Crypto.Digest): (v: FinVote)
    ensures v.leader == 0
    ensures v.author == author && v.epoch == epoch && v.round == round && v.try == try
    ensures v.flag == flag && v.blockHash == blockHash
  {
    FinVote(author, 0, epoch, round, try, flag, blockHash)
  }

  /** Consequently two FinVotes built for different leaders have the same digest. */
  lemma NewFinVoteLosesLeader(author: NodeID, l1: NodeID, l2: NodeID, epoch: int64, round: int64, try: int64, flag: int8, blockHash: Crypto.Digest)
    ensures FinVotePreimage(NewFinVote(author, l1, epoch, round, try, flag, blockHash))
         == FinVotePreimage(NewFinVote(author, l2, epoch, round, try, flag, blockHash))
  {
  }

  function NewPrevote(author: NodeID, leader: NodeID, epoch: int64, round: int64, try: int64, flag: int8, blockHash: Crypto.Digest): (p: Prevote)
    ensures p.leader == leader && p.author == author && p.epoch == epoch
    ensures p.round == round && p.try == try && p.flag == flag && p.blockHash == blockHash
  {
    Prevote(author, leader, epoch, round, try, flag, blockHash)
  }

  /** `NewHalt` takes Leader before the digest and epoch, and stores each in its field. */
  function NewHalt(author: NodeID, leader: NodeID, blockHash: Crypto.Digest, epoch: int64, round: int64): (h: Halt)
    ensures h.author == author && h.leader == leader && h.blockHash == blockHash
    ensures h.epoch == epoch && h.round == round
  {
    Halt(author, epoch, round, leader, blockHash)
  }
}
