/** core/vaba/consensus/promote.go: one four-phase promotion of a VABA epoch,
    for one proposer. The phase-one proposal gives the block hash; later-phase
    proposals and all votes that come earlier are held back, and replayed
    (but kept) when a phase-one proposal arrives. Later phases set the key,
    lock and commit flags. Votes for the block hash are counted per phase;
    HightThreshold votes of a phase below four ask for the next phase's
    proposal, and of phase four or above send Done unless the epoch was
    skipped. Everything the node sends is appended to `out`. */
module VabaPromote {
  import opened GoInt
  import opened Wrappers
  import opened Committee
  import Crypto
  import opened VabaMessage

  /** `VoteTo`: sent to the proposer; `VoteLocal`: pushed into the node's own
      channel; a vote is None when no phase matched (Go sends a nil vote);
      `DoneAll`: sent to every node and into the node's own channel. */
  datatype Event = VoteTo(to: NodeID, v: Option<Vote>) | VoteLocal(v: Option<Vote>) | DoneAll(d: Done)

  /** A Go map read: the counter, zero when absent. */
  function Count(m: map<int8, int>, k: int8): int
  {
    if k in m then m[k] else 0
  }

  /** The number of votes in `vs` of phase `k` that carry the hash `h`. */
  function MatchCount(vs: seq<Vote>, h: Crypto.Digest, k: int8): (n: nat)
    ensures n <= |vs|
  {
    if vs == [] then 0
    else MatchCount(vs[..|vs| - 1], h, k) + (if vs[|vs| - 1].phase == k && vs[|vs| - 1].blockHash == h then 1 else 0)
  }

  class Promote {
    const name: NodeID
    const committee: Committee
    const epoch: int64
    const proposer: NodeID
    var blockHash: Option<Crypto.Digest>
    var unhandleProposal: seq<Proposal>
    var unhandleVote: seq<Vote>
    var voteCnts: map<int8, int>
    var keyFlag: bool
    var lockFlag: bool
    var commitFlag: bool
    var out: seq<Event>

    /** Held proposals are never phase-one ones; no flag is set and no vote
        counted before the block hash is known; counters are never negative. */
    ghost predicate Valid()
      reads this`blockHash, this`unhandleProposal, this`voteCnts, this`keyFlag, this`lockFlag, this`commitFlag
    {
      && (forall i :: 0 <= i < |unhandleProposal| ==> unhandleProposal[i].phase != PHASE_ONE_FALG)
      && (keyFlag || lockFlag || commitFlag ==> blockHash.Some?)
      && (blockHash.None? ==> voteCnts == map[])
      && (forall k :: k in voteCnts ==> voteCnts[k] >= 0)
    }

    constructor (name: NodeID, committee: Committee, epoch: int64, proposer: NodeID)
      ensures Valid()
      ensures this.name == name && this.committee == committee && this.epoch == epoch && this.proposer == proposer
      ensures blockHash == None && unhandleProposal == [] && unhandleVote == [] && voteCnts == map[]
      ensures !keyFlag && !lockFlag && !commitFlag && out == []
    {
      this.name := name;
      this.committee := committee;
      this.epoch := epoch;
      this.proposer := proposer;
      blockHash := None;
      unhandleProposal := [];
      unhandleVote := [];
      voteCnts := map[];
      keyFlag := false;
      lockFlag := false;
      commitFlag := false;
      out := [];
    }

    /** The vote this node sends: to the proposer, or into its own channel
        when it is the proposer. */
    function VoteEvent(v: Option<Vote>): (e: Event)
      ensures (e.VoteTo? || e.VoteLocal?) && e.v == v
      ensures e.VoteLocal? <==> name == proposer
      ensures e.VoteTo? ==> e.to == proposer
    {
      if name != proposer then VoteTo(proposer, v) else VoteLocal(v)
    }

    /** The later-phase branch of `processProposal` once the hash is known:
        phase two sets the key flag, three the lock flag, four the commit
        flag, each voting for the block hash; any other phase votes nil. */
    method Advance(p: Proposal)
      requires Valid() && blockHash.Some? && p.phase != PHASE_ONE_FALG
      modifies this`keyFlag, this`lockFlag, this`commitFlag, this`out
      ensures Valid()
      ensures keyFlag == (old(keyFlag) || p.phase == PHASE_TWO_FALG)
      ensures lockFlag == (old(lockFlag) || p.phase == PHASE_THREE_FALG)
      ensures commitFlag == (old(commitFlag) || p.phase == PHASE_FOUR_FALG)
      ensures out == old(out) + [VoteEvent(
        if p.phase == PHASE_TWO_FALG || p.phase == PHASE_THREE_FALG || p.phase == PHASE_FOUR_FALG
        then Some(Vote(name, proposer, blockHash.value, epoch, p.phase)) else None)]
    {
      var vote: Option<Vote> := None;
      if p.phase == PHASE_TWO_FALG {
        keyFlag := true;
        vote := Some(Vote(name, proposer, blockHash.value, epoch, PHASE_TWO_FALG));
      } else if p.phase == PHASE_THREE_FALG {
        lockFlag := true;
        vote := Some(Vote(name, proposer, blockHash.value, epoch, PHASE_THREE_FALG));
      } else if p.phase == PHASE_FOUR_FALG {
        commitFlag := true;
        vote := Some(Vote(name, proposer, blockHash.value, epoch, PHASE_FOUR_FALG));
      }
      out := out + [VoteEvent(vote)];
    }

    /** The counting part of `processVote` for a vote with the block hash:
        its phase count goes up by one. At exactly HightThreshold, a phase
        below four builds the next phase's proposal with a nil block, whose
        digest dereferences the block and panics; phase four or above sends
        Done unless the epoch is skipped. */
    method CountVote(v: Vote, skipped: bool) returns (panicked: bool)
      requires Valid() && blockHash.Some?
      modifies this`voteCnts, this`out
      ensures Valid()
      ensures Count(voteCnts, v.phase) == Count(old(voteCnts), v.phase) + 1
      ensures forall k :: k != v.phase ==> Count(voteCnts, k) == Count(old(voteCnts), k)
      ensures panicked <==> Count(voteCnts, v.phase) == HightThreshold(committee) && v.phase < PHASE_FOUR_FALG
      ensures out == old(out) + (
        if Count(voteCnts, v.phase) == HightThreshold(committee) && v.phase >= PHASE_FOUR_FALG && !skipped
        then [DoneAll(Done(proposer, epoch))] else [])
    {
      var nums := Count(voteCnts, v.phase) + 1;
      voteCnts := voteCnts[v.phase := nums];
      panicked := false;
      if nums == HightThreshold(committee) {
        if v.phase < PHASE_FOUR_FALG {
          return true;
        } else if !skipped {
          out := out + [DoneAll(Done(proposer, epoch))];
        }
      }
    }

    /** `processVote`: held back before the block hash, dropped when its hash
        differs from the block hash, otherwise counted. */
    method ProcessVote(v: Vote, skipped: bool) returns (panicked: bool)
      requires Valid()
      modifies this`unhandleVote, this`voteCnts, this`out
      ensures Valid()
      ensures blockHash.None? ==>
        !panicked && unhandleVote == old(unhandleVote) + [v] && voteCnts == old(voteCnts) && out == old(out)
      ensures blockHash.Some? && blockHash.value != v.blockHash ==>
        !panicked && unhandleVote == old(unhandleVote) && voteCnts == old(voteCnts) && out == old(out)
      ensures blockHash.Some? && blockHash.value == v.blockHash ==>
        && unhandleVote == old(unhandleVote)
        && Count(voteCnts, v.phase) == Count(old(voteCnts), v.phase) + 1
        && (forall k :: k != v.phase ==> Count(voteCnts, k) == Count(old(voteCnts), k))
        && (panicked <==> Count(voteCnts, v.phase) == HightThreshold(committee) && v.phase < PHASE_FOUR_FALG)
        && out == old(out) + (
          if Count(voteCnts, v.phase) == HightThreshold(committee) && v.phase >= PHASE_FOUR_FALG && !skipped
          then [DoneAll(Done(proposer, epoch))] else [])
    {
      if blockHash.None? {
        unhandleVote := unhandleVote + [v];
        return false;
      }
      if blockHash.value != v.blockHash {
        return false;
      }
      panicked := CountVote(v, skipped);
    }

    /** The vote a later-phase proposal gets once the hash is `hash`: for
        phases two to four a vote for the hash in that phase, otherwise nil. */
    function PhaseVote(phase: int8, hash: Crypto.Digest): Option<Vote>
    {
      if phase == PHASE_TWO_FALG || phase == PHASE_THREE_FALG || phase == PHASE_FOUR_FALG
      then Some(Vote(name, proposer, hash, epoch, phase)) else None
    }

    /** The votes sent while replaying the proposals `ps`, one each, in order. */
    function AdvanceVotes(ps: seq<Proposal>, hash: Crypto.Digest): (es: seq<Event>)
      ensures |es| == |ps|
    {
      if ps == [] then []
      else AdvanceVotes(ps[..|ps| - 1], hash) + [VoteEvent(PhaseVote(ps[|ps| - 1].phase, hash))]
    }

    /** The i-th vote sent answers the i-th replayed proposal. */
    lemma {:induction false} AdvanceVotesAt(ps: seq<Proposal>, hash: Crypto.Digest)
      ensures forall i :: 0 <= i < |ps| ==> AdvanceVotes(ps, hash)[i] == VoteEvent(PhaseVote(ps[i].phase, hash))
      decreases |ps|
    {
      if ps != [] {
        var front := ps[..|ps| - 1];
        AdvanceVotesAt(front, hash);
        assert forall i :: 0 <= i < |front| ==> front[i] == ps[i];
      }
    }

    /** Whether counting `vs[i]`, after the votes before it from the counts
        `base`, reaches HightThreshold in a phase below four, whose
        next-phase proposal panics. */
    predicate PanicAt(base: map<int8, int>, vs: seq<Vote>, hash: Crypto.Digest, i: nat)
      requires i < |vs|
    {
      && vs[i].blockHash == hash && vs[i].phase < PHASE_FOUR_FALG
      && Count(base, vs[i].phase) + MatchCount(vs[..i], hash, vs[i].phase) + 1 == HightThreshold(committee)
    }

    /** Whether `vs[i]` is the first vote whose counting panics. */
    predicate FirstPanic(base: map<int8, int>, vs: seq<Vote>, hash: Crypto.Digest, i: nat)
      requires i < |vs|
    {
      PanicAt(base, vs, hash, i) && forall j :: 0 <= j < i ==> !PanicAt(base, vs, hash, j)
    }

    /** The Done messages sent while counting `vs` in order from the counts
        `base`: a vote for `hash` that brings a phase of four or above to
        HightThreshold sends Done unless the epoch is skipped. */
    function DoneEvents(base: map<int8, int>, vs: seq<Vote>, hash: Crypto.Digest, skipped: bool): seq<Event>
    {
      if vs == [] then []
      else
        var front, last := vs[..|vs| - 1], vs[|vs| - 1];
        DoneEvents(base, front, hash, skipped)
          + (if last.blockHash == hash && Count(base, last.phase) + MatchCount(front, hash, last.phase) + 1 == HightThreshold(committee)
                && last.phase >= PHASE_FOUR_FALG && !skipped
             then [DoneAll(Done(proposer, epoch))] else [])
    }

    /** Only Done messages for this promotion are sent, none for a skipped
        epoch, and one is sent when the phase-four count crosses
        HightThreshold. */
    lemma {:induction false} DoneEventsCross(base: map<int8, int>, vs: seq<Vote>, hash: Crypto.Digest, skipped: bool)
      ensures var es := DoneEvents(base, vs, hash, skipped);
        var four := Count(base, PHASE_FOUR_FALG);
        && (skipped ==> es == [])
        && (forall e :: e in es ==> e == DoneAll(Done(proposer, epoch)))
        && (!skipped && four < HightThreshold(committee) <= four + MatchCount(vs, hash, PHASE_FOUR_FALG) ==> DoneAll(Done(proposer, epoch)) in es)
      decreases |vs|
    {
      if vs != [] {
        var front := vs[..|vs| - 1];
        DoneEventsCross(base, front, hash, skipped);
      }
    }

    /** One more replayed vote, dropped for another hash or counted as
        `CountVote` does: either it is the first to panic, with the output
        that of the votes before it, or the counts, the absence of a panic
        and the Done messages extend to one more vote. */
    lemma ReplayNext(base: map<int8, int>, vs: seq<Vote>, i: nat, hash: Crypto.Digest, skipped: bool, start: seq<Event>,
                     counts0: map<int8, int>, counts1: map<int8, int>, out0: seq<Event>, out1: seq<Event>, panicked: bool)
      requires i < |vs|
      requires forall k :: Count(counts0, k) == Count(base, k) + MatchCount(vs[..i], hash, k)
      requires forall j :: 0 <= j < i ==> !PanicAt(base, vs, hash, j)
      requires out0 == start + DoneEvents(base, vs[..i], hash, skipped)
      requires vs[i].blockHash != hash ==> !panicked && counts1 == counts0 && out1 == out0
      requires vs[i].blockHash == hash ==>
        && Count(counts1, vs[i].phase) == Count(counts0, vs[i].phase) + 1
        && (forall k :: k != vs[i].phase ==> Count(counts1, k) == Count(counts0, k))
        && (panicked <==> Count(counts1, vs[i].phase) == HightThreshold(committee) && vs[i].phase < PHASE_FOUR_FALG)
        && out1 == out0 + (
          if Count(counts1, vs[i].phase) == HightThreshold(committee) && vs[i].phase >= PHASE_FOUR_FALG && !skipped
          then [DoneAll(Done(proposer, epoch))] else [])
      ensures panicked ==> FirstPanic(base, vs, hash, i) && out1 == start + DoneEvents(base, vs[..i], hash, skipped)
      ensures !panicked ==>
        && (forall k :: Count(counts1, k) == Count(base, k) + MatchCount(vs[..i + 1], hash, k))
        && (forall j :: 0 <= j < i + 1 ==> !PanicAt(base, vs, hash, j))
        && out1 == start + DoneEvents(base, vs[..i + 1], hash, skipped)
    {
      assert vs[..i + 1][..i] == vs[..i];
    }

    /** Replays held later-phase proposals, in order. */
    method ReplayProposals(ps: seq<Proposal>)
      requires Valid() && blockHash.Some?
      requires forall i :: 0 <= i < |ps| ==> ps[i].phase != PHASE_ONE_FALG
      modifies this`keyFlag, this`lockFlag, this`commitFlag, this`out
      ensures Valid()
      ensures keyFlag == (old(keyFlag) || exists i :: 0 <= i < |ps| && ps[i].phase == PHASE_TWO_FALG)
      ensures lockFlag == (old(lockFlag) || exists i :: 0 <= i < |ps| && ps[i].phase == PHASE_THREE_FALG)
      ensures commitFlag == (old(commitFlag) || exists i :: 0 <= i < |ps| && ps[i].phase == PHASE_FOUR_FALG)
      ensures out == old(out) + AdvanceVotes(ps, blockHash.value)
    {
      var i := 0;
      while i < |ps|
        invariant 0 <= i <= |ps|
        invariant Valid()
        invariant keyFlag == (old(keyFlag) || exists j :: 0 <= j < i && ps[j].phase == PHASE_TWO_FALG)
        invariant lockFlag == (old(lockFlag) || exists j :: 0 <= j < i && ps[j].phase == PHASE_THREE_FALG)
        invariant commitFlag == (old(commitFlag) || exists j :: 0 <= j < i && ps[j].phase == PHASE_FOUR_FALG)
        invariant out == old(out) + AdvanceVotes(ps[..i], blockHash.value)
      {
        assert ps[..i + 1][..i] == ps[..i];
        Advance(ps[i]);
        i := i + 1;
      }
      assert ps[..i] == ps;
    }

    /** Replays held votes, in order, stopping at a panic; without a panic
        every held vote carrying the block hash has been counted. */
    method ReplayVotes(vs: seq<Vote>, skipped: bool) returns (panicked: bool)
      requires Valid() && blockHash.Some?
      modifies this`voteCnts, this`out
      ensures Valid()
      ensures !panicked ==> forall k :: Count(voteCnts, k) == Count(old(voteCnts), k) + MatchCount(vs, blockHash.value, k)
      ensures !panicked ==>
        && (forall i :: 0 <= i < |vs| ==> !PanicAt(old(voteCnts), vs, blockHash.value, i))
        && out == old(out) + DoneEvents(old(voteCnts), vs, blockHash.value, skipped)
      ensures panicked ==> exists i :: 0 <= i < |vs| && FirstPanic(old(voteCnts), vs, blockHash.value, i)
                                       && out == old(out) + DoneEvents(old(voteCnts), vs[..i], blockHash.value, skipped)
    {
      ghost var hash := blockHash.value;
      panicked := false;
      var i := 0;
      while i < |vs|
        invariant 0 <= i <= |vs|
        invariant Valid() && blockHash == Some(hash)
        invariant forall k :: Count(voteCnts, k) == Count(old(voteCnts), k) + MatchCount(vs[..i], hash, k)
        invariant forall j :: 0 <= j < i ==> !PanicAt(old(voteCnts), vs, hash, j)
        invariant out == old(out) + DoneEvents(old(voteCnts), vs[..i], hash, skipped)
      {
        ghost var counts0, out0 := voteCnts, out;
        var p := false;
        if vs[i].blockHash == blockHash.value {
          p := CountVote(vs[i], skipped);
        }
        ReplayNext(old(voteCnts), vs, i, hash, skipped, old(out), counts0, voteCnts, out0, out, p);
        if p {
          return true;
        }
        i := i + 1;
      }
      assert vs[..i] == vs;
    }

    /** `processProposal`. A later-phase proposal is held back while the hash
        is unknown, otherwise it advances the phase. A phase-one proposal
        from anyone but the proposer is dropped; from the proposer it sets
        (or resets) the block hash, replays every held item without dropping
        it, and votes for the hash. A phase-one proposal without a block
        dereferences nil and panics. */
    method ProcessProposal(sha: Crypto.Sha256, p: Proposal, skipped: bool) returns (panicked: bool)
      requires Valid()
      modifies this`blockHash, this`unhandleProposal, this`voteCnts, this`keyFlag, this`lockFlag, this`commitFlag, this`out
      ensures Valid()
      ensures old(keyFlag) ==> keyFlag
      ensures old(lockFlag) ==> lockFlag
      ensures old(commitFlag) ==> commitFlag
      ensures unhandleVote == old(unhandleVote)
      ensures p.phase != PHASE_ONE_FALG && old(blockHash).None? ==>
        && !panicked && unhandleProposal == old(unhandleProposal) + [p]
        && blockHash == old(blockHash) && voteCnts == old(voteCnts) && out == old(out)
        && keyFlag == old(keyFlag) && lockFlag == old(lockFlag) && commitFlag == old(commitFlag)
      ensures p.phase != PHASE_ONE_FALG && old(blockHash).Some? ==>
        && !panicked && unhandleProposal == old(unhandleProposal)
        && blockHash == old(blockHash) && voteCnts == old(voteCnts)
        && keyFlag == (old(keyFlag) || p.phase == PHASE_TWO_FALG)
        && lockFlag == (old(lockFlag) || p.phase == PHASE_THREE_FALG)
        && commitFlag == (old(commitFlag) || p.phase == PHASE_FOUR_FALG)
        && out == old(out) + [VoteEvent(
          if p.phase == PHASE_TWO_FALG || p.phase == PHASE_THREE_FALG || p.phase == PHASE_FOUR_FALG
          then Some(Vote(name, proposer, blockHash.value, epoch, p.phase)) else None)]
      ensures p.phase == PHASE_ONE_FALG && (p.author != proposer || p.b.None?) ==>
        && (panicked <==> p.author == proposer)
        && blockHash == old(blockHash) && unhandleProposal == old(unhandleProposal)
        && voteCnts == old(voteCnts) && out == old(out)
        && keyFlag == old(keyFlag) && lockFlag == old(lockFlag) && commitFlag == old(commitFlag)
      ensures p.phase == PHASE_ONE_FALG && p.author == proposer && p.b.Some? ==>
        && blockHash == Some(BlockHash(sha, p.b.value))
        && unhandleProposal == old(unhandleProposal)
        && keyFlag == (old(keyFlag) || exists i :: 0 <= i < |old(unhandleProposal)| && old(unhandleProposal)[i].phase == PHASE_TWO_FALG)
        && lockFlag == (old(lockFlag) || exists i :: 0 <= i < |old(unhandleProposal)| && old(unhandleProposal)[i].phase == PHASE_THREE_FALG)
        && commitFlag == (old(commitFlag) || exists i :: 0 <= i < |old(unhandleProposal)| && old(unhandleProposal)[i].phase == PHASE_FOUR_FALG)
        && old(out) <= out
        && (!panicked ==>
          && (forall k :: Count(voteCnts, k) == Count(old(voteCnts), k) + MatchCount(unhandleVote, blockHash.value, k))
          && (forall i :: 0 <= i < |unhandleVote| ==> !PanicAt(old(voteCnts), unhandleVote, blockHash.value, i))
          && out == old(out) + AdvanceVotes(unhandleProposal, blockHash.value)
               + DoneEvents(old(voteCnts), unhandleVote, blockHash.value, skipped)
               + [VoteEvent(Some(Vote(name, proposer, blockHash.value, epoch, PHASE_ONE_FALG)))])
        && (panicked ==> exists i :: 0 <= i < |unhandleVote| && FirstPanic(old(voteCnts), unhandleVote, blockHash.value, i)
                                     && out == old(out) + AdvanceVotes(unhandleProposal, blockHash.value)
                                          + DoneEvents(old(voteCnts), unhandleVote[..i], blockHash.value, skipped))
    {
      panicked := false;
      if p.phase != PHASE_ONE_FALG {
        if blockHash.None? {
          unhandleProposal := unhandleProposal + [p];
          return;
        }
        Advance(p);
        return;
      }
      if p.author != proposer {
        return;
      }
      if p.b.None? {
        return true;
      }
      panicked := AcceptBlock(BlockHash(sha, p.b.value), skipped);
    }

    /** The proposer's phase-one proposal with block hash `d`: records the
        hash, replays the held proposals and then the held votes, keeping
        both buffers, and, unless a replayed vote panicked, votes for the
        hash. */
    method AcceptBlock(d: Crypto.Digest, skipped: bool) returns (panicked: bool)
      requires Valid()
      modifies this`blockHash, this`voteCnts, this`keyFlag, this`lockFlag, this`commitFlag, this`out
      ensures Valid()
      ensures blockHash == Some(d)
      ensures keyFlag == (old(keyFlag) || exists i :: 0 <= i < |unhandleProposal| && unhandleProposal[i].phase == PHASE_TWO_FALG)
      ensures lockFlag == (old(lockFlag) || exists i :: 0 <= i < |unhandleProposal| && unhandleProposal[i].phase == PHASE_THREE_FALG)
      ensures commitFlag == (old(commitFlag) || exists i :: 0 <= i < |unhandleProposal| && unhandleProposal[i].phase == PHASE_FOUR_FALG)
      ensures !panicked ==>
        && (forall k :: Count(voteCnts, k) == Count(old(voteCnts), k) + MatchCount(unhandleVote, d, k))
        && (forall i :: 0 <= i < |unhandleVote| ==> !PanicAt(old(voteCnts), unhandleVote, d, i))
        && out == old(out) + AdvanceVotes(unhandleProposal, d) + DoneEvents(old(voteCnts), unhandleVote, d, skipped)
             + [VoteEvent(Some(Vote(name, proposer, d, epoch, PHASE_ONE_FALG)))]
      ensures panicked ==> exists i :: 0 <= i < |unhandleVote| && FirstPanic(old(voteCnts), unhandleVote, d, i)
                                   && out == old(out) + AdvanceVotes(unhandleProposal, d) + DoneEvents(old(voteCnts), unhandleVote[..i], d, skipped)
    {
      blockHash := Some(d);
      ReplayProposals(unhandleProposal);
      ghost var replayed := out;
      panicked := ReplayVotes(unhandleVote, skipped);
      if panicked {
        ghost var i :| 0 <= i < |unhandleVote| && FirstPanic(old(voteCnts), unhandleVote, d, i)
                       && out == replayed + DoneEvents(old(voteCnts), unhandleVote[..i], d, skipped);
        return;
      }
      out := out + [VoteEvent(Some(Vote(name, proposer, d, epoch, PHASE_ONE_FALG)))];
    }

    /** `BlockHash`: None until a phase-one proposal from the proposer. */
    method GetBlockHash() returns (h: Option<Crypto.Digest>)
      requires Valid()
      ensures h == blockHash
      ensures h.None? ==> voteCnts == map[] && !keyFlag && !lockFlag && !commitFlag
    {
      return blockHash;
    }

    /** `IsKey`: set only by a phase-two proposal after the block hash. */
    method IsKey() returns (b: bool)
      requires Valid()
      ensures b == keyFlag && (b ==> blockHash.Some?)
    {
      return keyFlag;
    }

    /** `IsLock`: set only by a phase-three proposal after the block hash. */
    method IsLock() returns (b: bool)
      requires Valid()
      ensures b == lockFlag && (b ==> blockHash.Some?)
    {
      return lockFlag;
    }

    /** `IsCommit`: set only by a phase-four proposal after the block hash. */
    method IsCommit() returns (b: bool)
      requires Valid()
      ensures b == commitFlag && (b ==> blockHash.Some?)
    {
      return commitFlag;
    }
  }

  /** A held vote whose hash differs from the block hash is never counted:
      replaying only the matching votes counts the same. */
  lemma MismatchNotCounted(vs: seq<Vote>, h: Crypto.Digest, k: int8, v: Vote)
    requires v.blockHash != h
    ensures MatchCount(vs + [v], h, k) == MatchCount(vs, h, k)
  {
    assert (vs + [v])[..|vs + [v]| - 1] == vs;
  }
}
