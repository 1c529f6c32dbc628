/** core/smvba/consensus/spb.go: one strong provable broadcast instance of an
    sMVBA epoch and round, for one proposer. A phase-one proposal fixes the
    block hash; phase-two proposals and votes that come earlier are held back
    and replayed once it is known. Votes are counted per phase: HightThreshold
    phase-one votes start phase two, HightThreshold phase-two votes finish
    with the block hash. Everything the node sends is appended to `out`. The
    message types are those of MercuryMessage, whose SPB messages have the
    fields this file uses. */
module SmvbaSpb {
  import opened GoInt
  import opened Wrappers
  import opened Committee
  import Crypto
  import opened MercuryMessage
  import opened Emitted

  /** `VoteTo`: sent to the proposer; `VoteLocal`: pushed into the node's own
      channel; `ProposalAll`, `FinishAll`: sent to every node and into the
      node's own channel. */
  datatype Event = VoteTo(to: NodeID, v: SPBVote) | VoteLocal(v: SPBVote) | ProposalAll(p: SPBProposal) | FinishAll(f: Finish)

  function ProposalKey(e: Event): Option<bool>
  {
    if e.ProposalAll? then Some(true) else None
  }

  function FinishKey(e: Event): Option<bool>
  {
    if e.FinishAll? then Some(true) else None
  }

  /** A Go map read: the counter, zero when absent. */
  function Count(m: map<int8, nat>, k: int8): nat
  {
    if k in m then m[k] else 0
  }

  /** The all-zero digest, `crypto.Digest{}`. */
  const ZERO_DIGEST: Crypto.Digest := [
    0, 0, 0, 0, 0, 0, 0, 0, 0, 0, 0, 0, 0, 0, 0, 0,
    0, 0, 0, 0, 0, 0, 0, 0, 0, 0, 0, 0, 0, 0, 0, 0]

  /** The sending rules on values: at most one phase-two proposal and one
      Finish, each only once its phase count `one`/`two` reached `th`, and
      every Finish carries `hash`. */
  ghost predicate SentOk(out: seq<Event>, one: int, two: int, th: int, hash: Option<Crypto.Digest>)
  {
    && Once(out, ProposalKey, Flagged(one >= th))
    && Once(out, FinishKey, Flagged(two >= th))
    && (forall j :: 0 <= j < |out| && out[j].FinishAll? ==> Some(out[j].f.blockHash) == hash)
  }

  /** Counts that only grow keep the rules, and so does sending a proposal
      or Finish exactly when its count crosses the threshold. */
  lemma SendKeepsSentOk(out: seq<Event>, one: int, two: int, th: int, hash: Option<Crypto.Digest>,
                        es: seq<Event>, one': int, two': int)
    requires SentOk(out, one, two, th, hash) && one <= one' && two <= two' && |es| <= 1
    requires forall e :: e in es && ProposalKey(e).Some? ==> one < th <= one'
    requires forall e :: e in es && FinishKey(e).Some? ==> two < th <= two' && Some(e.f.blockHash) == hash
    ensures SentOk(out + es, one', two', th, hash)
  {
    EmitFlag(out, ProposalKey, one >= th, es, one' >= th);
    EmitFlag(out, FinishKey, two >= th, es, two' >= th);
    forall j | 0 <= j < |out + es| && (out + es)[j].FinishAll?
      ensures Some((out + es)[j].f.blockHash) == hash
    {
      if j < |out| {
        assert (out + es)[j] == out[j];
      } else {
        assert (out + es)[j] in es;
      }
    }
  }

  /** The number of votes of phase `k` in `vs`. */
  function PhaseCount(vs: seq<SPBVote>, k: int8): (n: nat)
    ensures n <= |vs|
    ensures (forall i :: 0 <= i < |vs| ==> vs[i].phase != k) ==> n == 0
  {
    if vs == [] then 0
    else PhaseCount(vs[..|vs| - 1], k) + (if vs[|vs| - 1].phase == k then 1 else 0)
  }

  /** Counting the vote `vs[i]` extends the per-phase counts of `vs[..i]`
      to those of `vs[..i + 1]`. */
  lemma PhaseCountStep(base: map<int8, nat>, before: map<int8, nat>, after: map<int8, nat>, vs: seq<SPBVote>, i: nat)
    requires i < |vs|
    requires forall k :: Count(before, k) == Count(base, k) + PhaseCount(vs[..i], k)
    requires Count(after, vs[i].phase) == Count(before, vs[i].phase) + 1
    requires forall k :: k != vs[i].phase ==> Count(after, k) == Count(before, k)
    ensures forall k :: Count(after, k) == Count(base, k) + PhaseCount(vs[..i + 1], k)
  {
    assert vs[..i + 1][..i] == vs[..i];
  }

  class SPB {
    const name: NodeID
    const committee: Committee
    const proposer: NodeID
    const epoch: int64
    const round: int64
    var blockHash: Option<Crypto.Digest>
    var votes: map<int8, nat>
    var unHandleVote: seq<SPBVote>
    var unHandleProposal: seq<SPBProposal>
    var lockFlag: bool
    var out: seq<Event>

    /** Nothing is held back, counted or locked out of order: messages are
        held only while the block hash is unknown, held proposals are
        phase-two ones, votes are counted and the lock is set only once the
        hash is known. At most one phase-two proposal and one Finish are
        sent, each only once its phase has HightThreshold votes, and a
        Finish carries the block hash. */
    ghost predicate Valid()
      reads this`blockHash, this`votes, this`unHandleVote, this`unHandleProposal, this`lockFlag, this`out
    {
      && Ordered()
      && SentOk(out, Count(votes, SPB_ONE_PHASE), Count(votes, SPB_TWO_PHASE), HightThreshold(committee), blockHash)
    }

    ghost predicate Ordered()
      reads this`blockHash, this`votes, this`unHandleVote, this`unHandleProposal, this`lockFlag
    {
      && (blockHash.Some? ==> unHandleVote == [] && unHandleProposal == [])
      && (blockHash.None? ==> votes == map[] && !lockFlag)
      && (forall i :: 0 <= i < |unHandleProposal| ==> unHandleProposal[i].phase == SPB_TWO_PHASE)
    }

    constructor (name: NodeID, committee: Committee, epoch: int64, round: int64, proposer: NodeID)
      ensures Valid()
      ensures this.name == name && this.committee == committee && this.epoch == epoch
      ensures this.round == round && this.proposer == proposer
      ensures blockHash == None && votes == map[] && unHandleVote == [] && unHandleProposal == []
      ensures !lockFlag && out == []
    {
      this.name := name;
      this.committee := committee;
      this.epoch := epoch;
      this.round := round;
      this.proposer := proposer;
      blockHash := None;
      votes := map[];
      unHandleVote := [];
      unHandleProposal := [];
      lockFlag := false;
      out := [];
    }

    /** The vote this node sends: to the proposer, or into its own channel
        when it is the proposer. */
    function VoteEvent(v: SPBVote): (e: Event)
      ensures (e.VoteTo? || e.VoteLocal?) && e.v == v
      ensures e.VoteLocal? <==> name == proposer
      ensures e.VoteTo? ==> e.to == proposer
    {
      if name != proposer then VoteTo(proposer, v) else VoteLocal(v)
    }

    /** The phase-two branch of `processProposal` once the hash is known:
        lock, and vote with the zero digest. */
    method Lock(p: SPBProposal)
      requires Valid() && blockHash.Some?
      modifies this`lockFlag, this`out
      ensures Valid() && lockFlag
      ensures out == old(out) + [VoteEvent(SPBVote(name, p.author, ZERO_DIGEST, epoch, round, p.phase))]
    {
      lockFlag := true;
      var e := VoteEvent(SPBVote(name, p.author, ZERO_DIGEST, epoch, round, p.phase));
      var one, two := Count(votes, SPB_ONE_PHASE), Count(votes, SPB_TWO_PHASE);
      SendKeepsSentOk(out, one, two, HightThreshold(committee), blockHash, [e], one, two);
      out := out + [e];
    }

    /** The counting part of `processVote` once the hash is known: the
        vote's phase count goes up by one, and reaching HightThreshold sends
        the phase-two proposal (phase one) or the Finish (phase two). */
    method CountVote(v: SPBVote)
      requires Valid() && blockHash.Some?
      modifies this`votes, this`out
      ensures Valid()
      ensures Count(votes, v.phase) == Count(old(votes), v.phase) + 1
      ensures forall k :: k != v.phase ==> Count(votes, k) == Count(old(votes), k)
      ensures votes.Keys == old(votes).Keys + {v.phase}
      ensures out == old(out) + (
        if Count(votes, v.phase) != HightThreshold(committee) then []
        else if v.phase == SPB_ONE_PHASE then [ProposalAll(SPBProposal(name, None, epoch, round, SPB_TWO_PHASE))]
        else if v.phase == SPB_TWO_PHASE then [FinishAll(Finish(name, blockHash.value, epoch, round))]
        else [])
    {
      var num := Count(votes, v.phase) + 1;
      var es: seq<Event> := [];
      if num == HightThreshold(committee) {
        if v.phase == SPB_ONE_PHASE {
          es := [ProposalAll(SPBProposal(name, None, epoch, round, SPB_TWO_PHASE))];
        } else if v.phase == SPB_TWO_PHASE {
          es := [FinishAll(Finish(name, blockHash.value, epoch, round))];
        }
      }
      ghost var one, two := Count(votes, SPB_ONE_PHASE), Count(votes, SPB_TWO_PHASE);
      votes := votes[v.phase := num];
      SendKeepsSentOk(out, one, two, HightThreshold(committee), blockHash, es, Count(votes, SPB_ONE_PHASE), Count(votes, SPB_TWO_PHASE));
      out := out + es;
    }

    /** `processVote`: a vote before the block hash is held back, otherwise
        counted. */
    method ProcessVote(v: SPBVote)
      requires Valid()
      modifies this`unHandleVote, this`votes, this`out
      ensures Valid()
      ensures blockHash.None? ==> unHandleVote == old(unHandleVote) + [v] && votes == old(votes) && out == old(out)
      ensures blockHash.Some? ==>
        && unHandleVote == old(unHandleVote)
        && Count(votes, v.phase) == Count(old(votes), v.phase) + 1
        && (forall k :: k != v.phase ==> Count(votes, k) == Count(old(votes), k))
        && out == old(out) + (
          if Count(votes, v.phase) != HightThreshold(committee) then []
          else if v.phase == SPB_ONE_PHASE then [ProposalAll(SPBProposal(name, None, epoch, round, SPB_TWO_PHASE))]
          else if v.phase == SPB_TWO_PHASE then [FinishAll(Finish(name, blockHash.value, epoch, round))]
          else [])
    {
      if blockHash.None? {
        unHandleVote := unHandleVote + [v];
        return;
      }
      CountVote(v);
    }

    /** The lock votes of `ps`, one per proposal in order, each carrying the
        zero digest. */
    function LockVotes(ps: seq<SPBProposal>): (es: seq<Event>)
      ensures |es| == |ps|
    {
      if ps == [] then []
      else
        var last := ps[|ps| - 1];
        LockVotes(ps[..|ps| - 1]) + [VoteEvent(SPBVote(name, last.author, ZERO_DIGEST, epoch, round, last.phase))]
    }

    /** The i-th lock vote answers the i-th held proposal. */
    lemma {:induction false} LockVotesAt(ps: seq<SPBProposal>)
      ensures forall i :: 0 <= i < |ps| ==> LockVotes(ps)[i] == VoteEvent(SPBVote(name, ps[i].author, ZERO_DIGEST, epoch, round, ps[i].phase))
      decreases |ps|
    {
      if ps != [] {
        var front := ps[..|ps| - 1];
        LockVotesAt(front);
        assert forall i :: 0 <= i < |front| ==> front[i] == ps[i];
      }
    }

    /** The output after one more replayed proposal. */
    lemma LockVotesStep(base: seq<Event>, ps: seq<SPBProposal>, i: nat)
      requires i < |ps|
      ensures base + LockVotes(ps[..i + 1])
        == (base + LockVotes(ps[..i])) + [VoteEvent(SPBVote(name, ps[i].author, ZERO_DIGEST, epoch, round, ps[i].phase))]
    {
      assert ps[..i + 1][..i] == ps[..i];
    }

    /** Replays held phase-two proposals, in order, once the hash is known:
        each locks and sends its vote. */
    method ReplayProposals(ps: seq<SPBProposal>)
      requires Valid() && blockHash.Some?
      modifies this`lockFlag, this`out
      ensures Valid()
      ensures lockFlag == (old(lockFlag) || ps != [])
      ensures out == old(out) + LockVotes(ps)
    {
      var i := 0;
      while i < |ps|
        invariant 0 <= i <= |ps|
        invariant Valid()
        invariant lockFlag == (old(lockFlag) || i > 0)
        invariant out == old(out) + LockVotes(ps[..i])
      {
        LockVotesStep(old(out), ps, i);
        Lock(ps[i]);
        i := i + 1;
      }
      assert ps[..i] == ps;
    }

    /** What reaching `num` votes in `phase` sends: at HightThreshold, the
        phase-two proposal for phase one and the Finish carrying `hash` for
        phase two; nothing otherwise. */
    function QuorumEvent(phase: int8, num: int, hash: Crypto.Digest): seq<Event>
    {
      if num != HightThreshold(committee) then []
      else if phase == SPB_ONE_PHASE then [ProposalAll(SPBProposal(name, None, epoch, round, SPB_TWO_PHASE))]
      else if phase == SPB_TWO_PHASE then [FinishAll(Finish(name, hash, epoch, round))]
      else []
    }

    /** What counting `vs` in order sends, starting from the counts `base`. */
    function QuorumEvents(base: map<int8, nat>, vs: seq<SPBVote>, hash: Crypto.Digest): seq<Event>
    {
      if vs == [] then []
      else
        var front, last := vs[..|vs| - 1], vs[|vs| - 1];
        QuorumEvents(base, front, hash) + QuorumEvent(last.phase, Count(base, last.phase) + PhaseCount(front, last.phase) + 1, hash)
    }

    /** Counting `vs` sends the phase-two proposal exactly when the phase-one
        count crosses HightThreshold, the Finish exactly when the phase-two
        count does, and nothing else. */
    lemma {:induction false} QuorumEventsCross(base: map<int8, nat>, vs: seq<SPBVote>, hash: Crypto.Digest)
      ensures var es := QuorumEvents(base, vs, hash);
        var th := HightThreshold(committee);
        var one := Count(base, SPB_ONE_PHASE);
        var two := Count(base, SPB_TWO_PHASE);
        && |es| == (if one < th <= one + PhaseCount(vs, SPB_ONE_PHASE) then 1 else 0)
                 + (if two < th <= two + PhaseCount(vs, SPB_TWO_PHASE) then 1 else 0)
        && forall e :: e in es ==>
             e == ProposalAll(SPBProposal(name, None, epoch, round, SPB_TWO_PHASE)) || e == FinishAll(Finish(name, hash, epoch, round))
      decreases |vs|
    {
      if vs != [] {
        QuorumEventsCross(base, vs[..|vs| - 1], hash);
      }
    }

    /** Counting one more vote as `CountVote` does extends what counting the
        votes before it sent. */
    lemma QuorumEventsNext(base: map<int8, nat>, vs: seq<SPBVote>, i: nat, hash: Crypto.Digest,
                           start: seq<Event>, out0: seq<Event>, out1: seq<Event>, num: int)
      requires i < |vs|
      requires out0 == start + QuorumEvents(base, vs[..i], hash)
      requires num == Count(base, vs[i].phase) + PhaseCount(vs[..i], vs[i].phase) + 1
      requires out1 == out0 + (
        if num != HightThreshold(committee) then []
        else if vs[i].phase == SPB_ONE_PHASE then [ProposalAll(SPBProposal(name, None, epoch, round, SPB_TWO_PHASE))]
        else if vs[i].phase == SPB_TWO_PHASE then [FinishAll(Finish(name, hash, epoch, round))]
        else [])
      ensures out1 == start + QuorumEvents(base, vs[..i + 1], hash)
    {
      assert vs[..i + 1][..i] == vs[..i];
    }

    /** Replays held votes, in order, once the hash is known: each is counted. */
    method ReplayVotes(vs: seq<SPBVote>)
      requires Valid() && blockHash.Some?
      modifies this`votes, this`out
      ensures Valid()
      ensures forall k :: Count(votes, k) == Count(old(votes), k) + PhaseCount(vs, k)
      ensures out == old(out) + QuorumEvents(old(votes), vs, blockHash.value)
    {
      ghost var hash := blockHash.value;
      var i := 0;
      while i < |vs|
        invariant 0 <= i <= |vs|
        invariant Valid() && blockHash == Some(hash)
        invariant forall k :: Count(votes, k) == Count(old(votes), k) + PhaseCount(vs[..i], k)
        invariant out == old(out) + QuorumEvents(old(votes), vs[..i], hash)
      {
        ghost var before, out0 := votes, out;
        CountVote(vs[i]);
        QuorumEventsNext(old(votes), vs, i, hash, old(out), out0, out, Count(votes, vs[i].phase));
        PhaseCountStep(old(votes), before, votes, vs, i);
        i := i + 1;
      }
      assert vs[..i] == vs;
    }

    /** `processProposal`. Phase one: ignored once the hash is known or when
        the block is someone else's; otherwise the block hash is fixed, a
        phase-one vote carrying it is sent, and the held proposals and votes
        are replayed and dropped. A phase-one proposal without a block, before
        the hash is known, dereferences nil and panics. Phase two: held back
        before the hash, otherwise it locks. Other phases are ignored. */
    method ProcessProposal(sha: Crypto.Sha256, p: SPBProposal) returns (panicked: bool)
      requires Valid()
      modifies this`blockHash, this`votes, this`unHandleVote, this`unHandleProposal, this`lockFlag, this`out
      ensures Valid()
      ensures panicked <==> p.phase == SPB_ONE_PHASE && old(blockHash).None? && p.b.None?
      ensures old(blockHash).Some? ==> blockHash == old(blockHash)
      ensures p.phase == SPB_ONE_PHASE && !panicked && old(blockHash).None? && p.b.value.proposer == proposer ==>
        && blockHash == Some(BlockHash(sha, p.b.value))
        && unHandleVote == [] && unHandleProposal == []
        && lockFlag == (old(unHandleProposal) != [])
        && out == old(out) + [VoteEvent(SPBVote(name, p.author, blockHash.value, epoch, round, p.phase))]
             + LockVotes(old(unHandleProposal)) + QuorumEvents(map[], old(unHandleVote), blockHash.value)
        && forall k :: Count(votes, k) == PhaseCount(old(unHandleVote), k)
      ensures p.phase == SPB_ONE_PHASE && (panicked || old(blockHash).Some? || p.b.value.proposer != proposer) ==>
        && blockHash == old(blockHash) && votes == old(votes) && lockFlag == old(lockFlag) && out == old(out)
        && unHandleVote == old(unHandleVote) && unHandleProposal == old(unHandleProposal)
      ensures p.phase == SPB_TWO_PHASE && old(blockHash).None? ==>
        && unHandleProposal == old(unHandleProposal) + [p]
        && blockHash == old(blockHash) && lockFlag == old(lockFlag) && out == old(out) && votes == old(votes)
      ensures p.phase == SPB_TWO_PHASE && old(blockHash).Some? ==>
        && lockFlag && votes == old(votes)
        && out == old(out) + [VoteEvent(SPBVote(name, p.author, ZERO_DIGEST, epoch, round, p.phase))]
      ensures p.phase != SPB_ONE_PHASE && p.phase != SPB_TWO_PHASE ==>
        && blockHash == old(blockHash) && votes == old(votes) && lockFlag == old(lockFlag) && out == old(out)
        && unHandleVote == old(unHandleVote) && unHandleProposal == old(unHandleProposal)
    {
      panicked := false;
      if p.phase == SPB_ONE_PHASE {
        if blockHash.Some? {
          return;
        }
        if p.b.None? {
          return true;
        }
        if proposer != p.b.value.proposer {
          return;
        }
        AcceptBlock(BlockHash(sha, p.b.value), p);
      } else if p.phase == SPB_TWO_PHASE {
        if blockHash.None? {
          unHandleProposal := unHandleProposal + [p];
          return;
        }
        Lock(p);
      }
    }

    /** The accepted phase-one proposal: the block hash is fixed, the vote
        carrying it is sent, and the held proposals and votes are replayed
        and dropped. */
    method AcceptBlock(hash: Crypto.Digest, p: SPBProposal)
      requires Valid() && blockHash.None?
      modifies this`blockHash, this`votes, this`unHandleVote, this`unHandleProposal, this`lockFlag, this`out
      ensures Valid()
      ensures blockHash == Some(hash) && unHandleVote == [] && unHandleProposal == []
      ensures lockFlag == (old(unHandleProposal) != [])
      ensures out == old(out) + [VoteEvent(SPBVote(name, p.author, hash, epoch, round, p.phase))]
        + LockVotes(old(unHandleProposal)) + QuorumEvents(map[], old(unHandleVote), hash)
      ensures forall k :: Count(votes, k) == PhaseCount(old(unHandleVote), k)
    {
      var ps, vs := TakeBlock(hash, p);
      ReplayProposals(ps);
      ReplayVotes(vs);
    }

    /** Recording the block hash: the buffers are handed back for replay and
        the node's vote is sent. */
    method TakeBlock(hash: Crypto.Digest, p: SPBProposal) returns (ps: seq<SPBProposal>, vs: seq<SPBVote>)
      requires Valid() && blockHash.None?
      modifies this`blockHash, this`unHandleVote, this`unHandleProposal, this`out
      ensures Valid()
      ensures blockHash == Some(hash) && unHandleVote == [] && unHandleProposal == []
      ensures ps == old(unHandleProposal) && vs == old(unHandleVote)
      ensures votes == map[] && !lockFlag
      ensures out == old(out) + [VoteEvent(SPBVote(name, p.author, hash, epoch, round, p.phase))]
    {
      ps, vs := unHandleProposal, unHandleVote;
      blockHash := Some(hash);
      unHandleProposal, unHandleVote := [], [];
      var e := VoteEvent(SPBVote(name, p.author, hash, epoch, round, p.phase));
      SendKeepsSentOk(out, 0, 0, HightThreshold(committee), blockHash, [e], 0, 0);
      out := out + [e];
    }

    /** `IsLock`: true only after a phase-two proposal, which in turn needs
        the block hash. */
    method IsLock() returns (l: bool)
      requires Valid()
      ensures l == lockFlag
      ensures l ==> blockHash.Some?
    {
      return lockFlag;
    }

    /** `GetBlockHash`: None until a phase-one proposal is accepted; while
        None, nothing is counted and nothing is locked. */
    method GetBlockHash() returns (h: Option<Crypto.Digest>)
      requires Valid()
      ensures h == blockHash
      ensures h.None? ==> votes == map[] && !lockFlag
    {
      return blockHash;
    }
  }

  /** An instance starts phase two at most once. */
  lemma PhaseTwoProposedOnce(s: SPB, j: nat, k: nat)
    requires s.Valid() && j < |s.out| && k < |s.out|
    requires s.out[j].ProposalAll? && s.out[k].ProposalAll?
    ensures j == k
    ensures Count(s.votes, SPB_ONE_PHASE) >= HightThreshold(s.committee)
  {
    assert ProposalKey(s.out[j]) == Some(true) && ProposalKey(s.out[k]) == Some(true);
    AtMostOne(s.out, ProposalKey, Flagged(Count(s.votes, SPB_ONE_PHASE) >= HightThreshold(s.committee)), j, k);
    KeyUsed(s.out, ProposalKey, Flagged(Count(s.votes, SPB_ONE_PHASE) >= HightThreshold(s.committee)), j);
  }

  /** An instance finishes at most once, with its block hash. */
  lemma FinishedOnce(s: SPB, j: nat, k: nat)
    requires s.Valid() && j < |s.out| && k < |s.out|
    requires s.out[j].FinishAll? && s.out[k].FinishAll?
    ensures j == k
    ensures Count(s.votes, SPB_TWO_PHASE) >= HightThreshold(s.committee)
    ensures s.blockHash == Some(s.out[j].f.blockHash)
  {
    assert FinishKey(s.out[j]) == Some(true) && FinishKey(s.out[k]) == Some(true);
    AtMostOne(s.out, FinishKey, Flagged(Count(s.votes, SPB_TWO_PHASE) >= HightThreshold(s.committee)), j, k);
    KeyUsed(s.out, FinishKey, Flagged(Count(s.votes, SPB_TWO_PHASE) >= HightThreshold(s.committee)), j);
  }
}
