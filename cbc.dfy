/** core/mvba/consensus/cbc.go: one consistent broadcast instance of an MVBA
    epoch, for one proposer. The instance learns the proposer's block hash
    (DATA) and commitment vector (COMMIT); Ready and Final messages for a
    payload not yet known are held back and replayed when it arrives. Counted
    Readies trigger one Final at HightThreshold, and the first counted Final
    reports the instance to the core. Everything the node sends or reports is
    appended to `out`. */
module MvbaCbc {
  import opened GoInt
  import opened Wrappers
  import opened Committee
  import Crypto
  import opened MvbaMessage
  import opened Emitted

  const DATA_CBC: uint8 := 0
  const COMMIT_CBC: uint8 := 1

  /** The report on the CBC callback channel; `commitment` is None while the
      instance has no commitment (a nil slice in Go). */
  datatype CBCBack = CBCBack(epoch: int64, author: NodeID, tag: uint8, commitment: Option<seq<bool>>)

  /** `ReadyTo`: sent to one node; `ReadyLocal`: pushed into the node's own
      receive channel; `FinalAll`: sent to every node and into the node's own
      channel; `Back`: pushed on the callback channel. */
  datatype Event = ReadyTo(to: NodeID, r: Ready) | ReadyLocal(r: Ready) | FinalAll(f: Final) | Back(back: CBCBack)

  function FinalKey(e: Event): Option<bool>
  {
    if e.FinalAll? then Some(true) else None
  }

  function BackKey(e: Event): Option<bool>
  {
    if e.Back? then Some(true) else None
  }

  /** Whether a Ready or Final with this tag can be counted: a DATA one needs
      the block hash, a COMMIT one the commitment, any other tag nothing. */
  predicate Available(tag: uint8, hasHash: bool, hasCommit: bool)
  {
    (tag == DATA_CBC ==> hasHash) && (tag == COMMIT_CBC ==> hasCommit)
  }

  function ReadyTag(r: Ready): uint8 { r.tag }

  function FinalTag(f: Final): uint8 { f.tag }

  /** The messages of `xs`, in order, that are held back for lack of payload. */
  function Held<T>(xs: seq<T>, tagOf: T -> uint8, hasHash: bool, hasCommit: bool): (held: seq<T>)
    ensures |held| <= |xs|
    ensures forall i :: 0 <= i < |held| ==> !Available(tagOf(held[i]), hasHash, hasCommit)
  {
    if xs == [] then []
    else
      var last := xs[|xs| - 1];
      Held(xs[..|xs| - 1], tagOf, hasHash, hasCommit) + (if Available(tagOf(last), hasHash, hasCommit) then [] else [last])
  }

  /** Exactly the messages of `xs` lacking their payload are held back. */
  lemma {:induction false} HeldExactly<T>(xs: seq<T>, tagOf: T -> uint8, hasHash: bool, hasCommit: bool)
    ensures forall x :: x in Held(xs, tagOf, hasHash, hasCommit) <==> x in xs && !Available(tagOf(x), hasHash, hasCommit)
  {
    if xs != [] {
      var last := xs[|xs| - 1];
      HeldExactly(xs[..|xs| - 1], tagOf, hasHash, hasCommit);
      assert xs == xs[..|xs| - 1] + [last];
    }
  }

  /** Holding back one more message. */
  lemma HeldStep<T>(xs: seq<T>, i: nat, tagOf: T -> uint8, hasHash: bool, hasCommit: bool)
    requires i < |xs|
    ensures Held(xs[..i + 1], tagOf, hasHash, hasCommit)
      == Held(xs[..i], tagOf, hasHash, hasCommit) + (if Available(tagOf(xs[i]), hasHash, hasCommit) then [] else [xs[i]])
  {
    assert xs[..i + 1][..i] == xs[..i];
  }

  /** The number of messages of `xs` that are counted rather than held. */
  function Counted<T>(xs: seq<T>, tagOf: T -> uint8, hasHash: bool, hasCommit: bool): nat
  {
    |xs| - |Held(xs, tagOf, hasHash, hasCommit)|
  }

  /** The Finals sent while counting `rs` in order from the Ready count
      `start`: a counted Ready that brings the count to `th` sends a Final
      with its tag. */
  function ReadyFinals(rs: seq<Ready>, hasHash: bool, hasCommit: bool, start: int, th: int, name: NodeID, epoch: int64): seq<Event>
  {
    if rs == [] then []
    else
      var front, last := rs[..|rs| - 1], rs[|rs| - 1];
      ReadyFinals(front, hasHash, hasCommit, start, th, name, epoch)
        + (if Available(last.tag, hasHash, hasCommit) && start + Counted(front, ReadyTag, hasHash, hasCommit) + 1 == th
           then [FinalAll(Final(name, epoch, last.tag))] else [])
  }

  /** The reports made while counting `fs` in order from the Final count
      `start`: the counted Final that brings the count to 1 reports the
      instance with its tag and `commitment`. */
  function FinalReports(fs: seq<Final>, hasHash: bool, hasCommit: bool, start: int, epoch: int64, proposer: NodeID,
                        commitment: Option<seq<bool>>): seq<Event>
  {
    if fs == [] then []
    else
      var front, last := fs[..|fs| - 1], fs[|fs| - 1];
      FinalReports(front, hasHash, hasCommit, start, epoch, proposer, commitment)
        + (if Available(last.tag, hasHash, hasCommit) && start + Counted(front, FinalTag, hasHash, hasCommit) + 1 == 1
           then [Back(CBCBack(epoch, proposer, last.tag, commitment))] else [])
  }

  /** Replaying Readies sends one Final exactly when the count crosses `th`,
      and nothing else. */
  lemma {:induction false} ReadyFinalsCross(rs: seq<Ready>, hasHash: bool, hasCommit: bool, start: int, th: int, name: NodeID, epoch: int64)
    ensures var es := ReadyFinals(rs, hasHash, hasCommit, start, th, name, epoch);
      && |es| == (if start < th <= start + Counted(rs, ReadyTag, hasHash, hasCommit) then 1 else 0)
      && forall e :: e in es ==> e.FinalAll? && e.f.author == name && e.f.epoch == epoch
    decreases |rs|
  {
    if rs != [] {
      var front := rs[..|rs| - 1];
      ReadyFinalsCross(front, hasHash, hasCommit, start, th, name, epoch);
    }
  }

  /** Replaying Finals reports once exactly when the first Final is counted
      among them, naming this instance. */
  lemma {:induction false} FinalReportsFirst(fs: seq<Final>, hasHash: bool, hasCommit: bool, start: int, epoch: int64, proposer: NodeID,
                                             commitment: Option<seq<bool>>)
    ensures var es := FinalReports(fs, hasHash, hasCommit, start, epoch, proposer, commitment);
      && |es| == (if start < 1 <= start + Counted(fs, FinalTag, hasHash, hasCommit) then 1 else 0)
      && forall e :: e in es ==> e.Back? && e.back == CBCBack(epoch, proposer, e.back.tag, commitment)
    decreases |fs|
  {
    if fs != [] {
      var front := fs[..|fs| - 1];
      FinalReportsFirst(front, hasHash, hasCommit, start, epoch, proposer, commitment);
    }
  }

  /** One more replayed Ready, held or counted as `ProcessReady` does,
      keeps the buffer, the count and the output those of the Readies
      replayed so far. */
  lemma ReadyReplayNext(base: seq<Event>, rs: seq<Ready>, i: nat, hasHash: bool, hasCommit: bool, start: int, th: int,
                        name: NodeID, epoch: int64, buf0: seq<Ready>, buf1: seq<Ready>, count0: int, count1: int,
                        out0: seq<Event>, out1: seq<Event>)
    requires i < |rs|
    requires buf0 == Held(rs[..i], ReadyTag, hasHash, hasCommit) && count0 == start + i - |buf0|
    requires out0 == base + ReadyFinals(rs[..i], hasHash, hasCommit, start, th, name, epoch)
    requires !Available(rs[i].tag, hasHash, hasCommit) ==> buf1 == buf0 + [rs[i]] && count1 == count0 && out1 == out0
    requires Available(rs[i].tag, hasHash, hasCommit) ==>
      && buf1 == buf0 && count1 == count0 + 1
      && out1 == out0 + (if count1 == th then [FinalAll(Final(name, epoch, rs[i].tag))] else [])
    ensures buf1 == Held(rs[..i + 1], ReadyTag, hasHash, hasCommit) && count1 == start + (i + 1) - |buf1|
    ensures out1 == base + ReadyFinals(rs[..i + 1], hasHash, hasCommit, start, th, name, epoch)
  {
    assert rs[..i + 1][..i] == rs[..i];
  }

  /** One more replayed Final, held or counted as `ProcessFinal` does,
      keeps the buffer, the count and the output those of the Finals
      replayed so far. */
  lemma FinalReplayNext(base: seq<Event>, fs: seq<Final>, i: nat, hasHash: bool, hasCommit: bool, start: int, epoch: int64,
                        proposer: NodeID, commitment: Option<seq<bool>>, buf0: seq<Final>, buf1: seq<Final>,
                        count0: int, count1: int, out0: seq<Event>, out1: seq<Event>)
    requires i < |fs|
    requires buf0 == Held(fs[..i], FinalTag, hasHash, hasCommit) && count0 == start + i - |buf0|
    requires out0 == base + FinalReports(fs[..i], hasHash, hasCommit, start, epoch, proposer, commitment)
    requires !Available(fs[i].tag, hasHash, hasCommit) ==> buf1 == buf0 + [fs[i]] && count1 == count0 && out1 == out0
    requires Available(fs[i].tag, hasHash, hasCommit) ==>
      && buf1 == buf0 && count1 == count0 + 1
      && out1 == out0 + (if count1 == 1 then [Back(CBCBack(epoch, proposer, fs[i].tag, commitment))] else [])
    ensures buf1 == Held(fs[..i + 1], FinalTag, hasHash, hasCommit) && count1 == start + (i + 1) - |buf1|
    ensures out1 == base + FinalReports(fs[..i + 1], hasHash, hasCommit, start, epoch, proposer, commitment)
  {
    assert fs[..i + 1][..i] == fs[..i];
  }

  /** The sending rules on values: at most one Final, only once the Ready
      count `ready` reached `th`; at most one report, only once the Final
      count `final` reached 1, naming `epoch` and `proposer`. */
  ghost predicate SentOk(out: seq<Event>, ready: int, final: int, th: int, epoch: int64, proposer: NodeID)
  {
    && ready >= 0 && final >= 0
    && Once(out, FinalKey, Flagged(ready >= th))
    && Once(out, BackKey, Flagged(final >= 1))
    && (forall j :: 0 <= j < |out| && out[j].Back? ==> out[j].back.epoch == epoch && out[j].back.author == proposer)
  }

  /** Counts that only grow keep the rules, and so does sending a Final or a
      report exactly when its count crosses its threshold. */
  lemma EmitKeepsSentOk(out: seq<Event>, ready: int, final: int, th: int, epoch: int64, proposer: NodeID,
                        es: seq<Event>, ready': int, final': int)
    requires SentOk(out, ready, final, th, epoch, proposer) && ready <= ready' && final <= final' && |es| <= 1
    requires forall e :: e in es && FinalKey(e).Some? ==> ready < th <= ready'
    requires forall e :: e in es && BackKey(e).Some? ==> final < 1 <= final' && e.back.epoch == epoch && e.back.author == proposer
    ensures SentOk(out + es, ready', final', th, epoch, proposer)
  {
    EmitFlag(out, FinalKey, ready >= th, es, ready' >= th);
    EmitFlag(out, BackKey, final >= 1, es, final' >= 1);
    forall j | 0 <= j < |out + es| && (out + es)[j].Back?
      ensures (out + es)[j].back.epoch == epoch && (out + es)[j].back.author == proposer
    {
      if j < |out| {
        assert (out + es)[j] == out[j];
      } else {
        assert (out + es)[j] in es;
      }
    }
  }

  class CBC {
    const name: NodeID
    const committee: Committee
    const proposer: NodeID
    const epoch: int64
    var blockHash: Option<Crypto.Digest>
    var commitment: Option<seq<bool>>
    var unHandleReady: seq<Ready>
    var unHandleFinal: seq<Final>
    var readyCnts: int
    var finalCnts: int
    var out: seq<Event>

    /** The counters never go negative; a held message really lacks its
        payload; at most one Final is sent, and only once the counted
        Readies reached HightThreshold; at most one report is made, only
        once a Final was counted, and it names this instance. */
    ghost predicate Valid()
      reads this`unHandleReady, this`unHandleFinal, this`blockHash, this`commitment
      reads this`readyCnts, this`finalCnts, this`out
    {
      Sent() && Waiting()
    }

    ghost predicate Waiting()
      reads this`unHandleReady, this`unHandleFinal, this`blockHash, this`commitment
    {
      && (forall i :: 0 <= i < |unHandleReady| ==> !Available(unHandleReady[i].tag, blockHash.Some?, commitment.Some?))
      && (forall i :: 0 <= i < |unHandleFinal| ==> !Available(unHandleFinal[i].tag, blockHash.Some?, commitment.Some?))
    }

    ghost predicate Sent()
      reads this`readyCnts, this`finalCnts, this`out
    {
      SentOk(out, readyCnts, finalCnts, HightThreshold(committee), epoch, proposer)
    }

    constructor (name: NodeID, committee: Committee, proposer: NodeID, epoch: int64)
      ensures Valid()
      ensures this.name == name && this.committee == committee && this.proposer == proposer && this.epoch == epoch
      ensures blockHash == None && commitment == None && unHandleReady == [] && unHandleFinal == []
      ensures readyCnts == 0 && finalCnts == 0 && out == []
    {
      this.name := name;
      this.committee := committee;
      this.proposer := proposer;
      this.epoch := epoch;
      blockHash := None;
      commitment := None;
      unHandleReady := [];
      unHandleFinal := [];
      readyCnts := 0;
      finalCnts := 0;
      out := [];
    }

    /** The Ready this node sends for a payload: to the proposer, or into its
        own channel when it is the proposer. */
    function ReadyEvent(tag: uint8): (e: Event)
      ensures (e.ReadyTo? || e.ReadyLocal?) && e.r == Ready(name, proposer, epoch, tag)
      ensures e.ReadyLocal? <==> name == proposer
      ensures e.ReadyTo? ==> e.to == proposer
    {
      if name == proposer then ReadyLocal(Ready(name, proposer, epoch, tag))
      else ReadyTo(proposer, Ready(name, proposer, epoch, tag))
    }

    /** `ProcessReady`: a Ready whose payload is unknown is held back;
        otherwise it is counted, and the count reaching HightThreshold sends
        a Final with the Ready's tag to everyone. */
    method ProcessReady(r: Ready)
      requires Valid()
      modifies this`unHandleReady, this`readyCnts, this`out
      ensures Valid()
      ensures !Available(r.tag, blockHash.Some?, commitment.Some?) ==>
        unHandleReady == old(unHandleReady) + [r] && readyCnts == old(readyCnts) && out == old(out)
      ensures Available(r.tag, blockHash.Some?, commitment.Some?) ==>
        && unHandleReady == old(unHandleReady)
        && readyCnts == old(readyCnts) + 1
        && out == old(out) + (if readyCnts == HightThreshold(committee) then [FinalAll(Final(name, epoch, r.tag))] else [])
    {
      var flag := false;
      if r.tag == DATA_CBC {
        if blockHash.None? {
          flag := true;
        }
      } else if r.tag == COMMIT_CBC {
        if commitment.None? {
          flag := true;
        }
      }
      if flag {
        unHandleReady := unHandleReady + [r];
        return;
      }
      CountReady(r.tag);
    }

    /** Counting an available Ready; the count reaching HightThreshold sends
        the Final. */
    method CountReady(tag: uint8)
      requires Sent()
      modifies this`readyCnts, this`out
      ensures Sent()
      ensures readyCnts == old(readyCnts) + 1
      ensures out == old(out) + (if readyCnts == HightThreshold(committee) then [FinalAll(Final(name, epoch, tag))] else [])
    {
      var es: seq<Event> := if readyCnts + 1 == HightThreshold(committee) then [FinalAll(Final(name, epoch, tag))] else [];
      EmitKeepsSentOk(out, readyCnts, finalCnts, HightThreshold(committee), epoch, proposer, es, readyCnts + 1, finalCnts);
      readyCnts := readyCnts + 1;
      out := out + es;
    }

    /** `ProcessFinal`: a Final whose payload is unknown is held back;
        otherwise it is counted, and the first counted Final reports the
        instance with the Final's tag and the current commitment. */
    method ProcessFinal(f: Final)
      requires Valid()
      modifies this`unHandleFinal, this`finalCnts, this`out
      ensures Valid()
      ensures !Available(f.tag, blockHash.Some?, commitment.Some?) ==>
        unHandleFinal == old(unHandleFinal) + [f] && finalCnts == old(finalCnts) && out == old(out)
      ensures Available(f.tag, blockHash.Some?, commitment.Some?) ==>
        && unHandleFinal == old(unHandleFinal)
        && finalCnts == old(finalCnts) + 1
        && out == old(out) + (if finalCnts == 1 then [Back(CBCBack(epoch, proposer, f.tag, commitment))] else [])
    {
      var flag := false;
      if f.tag == DATA_CBC {
        if blockHash.None? {
          flag := true;
        }
      } else if f.tag == COMMIT_CBC {
        if commitment.None? {
          flag := true;
        }
      }
      if flag {
        unHandleFinal := unHandleFinal + [f];
        return;
      }
      CountFinal(f.tag);
    }

    /** Counting an available Final; the first one reports the instance. */
    method CountFinal(tag: uint8)
      requires Sent()
      modifies this`finalCnts, this`out
      ensures Sent()
      ensures finalCnts == old(finalCnts) + 1
      ensures out == old(out) + (if finalCnts == 1 then [Back(CBCBack(epoch, proposer, tag, commitment))] else [])
    {
      var es: seq<Event> := if finalCnts + 1 == 1 then [Back(CBCBack(epoch, proposer, tag, commitment))] else [];
      EmitKeepsSentOk(out, readyCnts, finalCnts, HightThreshold(committee), epoch, proposer, es, readyCnts, finalCnts + 1);
      finalCnts := finalCnts + 1;
      out := out + es;
    }

    /** Replays the held messages one at a time, Readies first, after
        emptying both buffers: those still lacking their payload are held
        again, the others are counted. */
    method Replay()
      requires Sent()
      modifies this`unHandleReady, this`unHandleFinal, this`readyCnts, this`finalCnts, this`out
      ensures Valid()
      ensures unHandleReady == Held(old(unHandleReady), ReadyTag, blockHash.Some?, commitment.Some?)
      ensures unHandleFinal == Held(old(unHandleFinal), FinalTag, blockHash.Some?, commitment.Some?)
      ensures readyCnts == old(readyCnts) + |old(unHandleReady)| - |unHandleReady|
      ensures finalCnts == old(finalCnts) + |old(unHandleFinal)| - |unHandleFinal|
      ensures out == old(out)
        + ReadyFinals(old(unHandleReady), blockHash.Some?, commitment.Some?, old(readyCnts), HightThreshold(committee), name, epoch)
        + FinalReports(old(unHandleFinal), blockHash.Some?, commitment.Some?, old(finalCnts), epoch, proposer, commitment)
    {
      var readies, finals := unHandleReady, unHandleFinal;
      unHandleReady, unHandleFinal := [], [];
      ReplayReadies(readies);
      ReplayFinals(finals);
    }

    /** Processes `readies` in order, starting from an empty Ready buffer. */
    method ReplayReadies(readies: seq<Ready>)
      requires Valid() && unHandleReady == []
      modifies this`unHandleReady, this`readyCnts, this`out
      ensures Valid()
      ensures unHandleReady == Held(readies, ReadyTag, blockHash.Some?, commitment.Some?)
      ensures readyCnts == old(readyCnts) + |readies| - |unHandleReady|
      ensures out == old(out) + ReadyFinals(readies, blockHash.Some?, commitment.Some?, old(readyCnts), HightThreshold(committee), name, epoch)
    {
      ghost var hasHash, hasCommit := blockHash.Some?, commitment.Some?;
      var i := 0;
      while i < |readies|
        invariant 0 <= i <= |readies|
        invariant Valid()
        invariant unHandleReady == Held(readies[..i], ReadyTag, hasHash, hasCommit)
        invariant readyCnts == old(readyCnts) + i - |unHandleReady|
        invariant out == old(out) + ReadyFinals(readies[..i], hasHash, hasCommit, old(readyCnts), HightThreshold(committee), name, epoch)
      {
        ghost var buf0, count0, out0 := unHandleReady, readyCnts, out;
        ProcessReady(readies[i]);
        ReadyReplayNext(old(out), readies, i, hasHash, hasCommit, old(readyCnts), HightThreshold(committee), name, epoch,
                        buf0, unHandleReady, count0, readyCnts, out0, out);
        i := i + 1;
      }
      assert readies[..i] == readies;
    }

    /** Processes `finals` in order, starting from an empty Final buffer. */
    method ReplayFinals(finals: seq<Final>)
      requires Valid() && unHandleFinal == []
      modifies this`unHandleFinal, this`finalCnts, this`out
      ensures Valid()
      ensures unHandleFinal == Held(finals, FinalTag, blockHash.Some?, commitment.Some?)
      ensures finalCnts == old(finalCnts) + |finals| - |unHandleFinal|
      ensures out == old(out) + FinalReports(finals, blockHash.Some?, commitment.Some?, old(finalCnts), epoch, proposer, commitment)
    {
      ghost var hasHash, hasCommit, c := blockHash.Some?, commitment.Some?, commitment;
      var k := 0;
      while k < |finals|
        invariant 0 <= k <= |finals|
        invariant Valid()
        invariant unHandleFinal == Held(finals[..k], FinalTag, hasHash, hasCommit)
        invariant finalCnts == old(finalCnts) + k - |unHandleFinal|
        invariant out == old(out) + FinalReports(finals[..k], hasHash, hasCommit, old(finalCnts), epoch, proposer, c)
      {
        ghost var buf0, count0, out0 := unHandleFinal, finalCnts, out;
        ProcessFinal(finals[k]);
        FinalReplayNext(old(out), finals, k, hasHash, hasCommit, old(finalCnts), epoch, proposer, c,
                        buf0, unHandleFinal, count0, finalCnts, out0, out);
        k := k + 1;
      }
      assert finals[..k] == finals;
    }

    /** `ProcessProposal`: only the proposer's proposal counts. It records the
        block hash, replays the held messages and sends a DATA Ready. */
    method ProcessProposal(sha: Crypto.Sha256, p: Proposal)
      requires Valid()
      modifies this`blockHash, this`unHandleReady, this`unHandleFinal, this`readyCnts, this`finalCnts, this`out
      ensures Valid()
      ensures p.author != proposer ==>
        && blockHash == old(blockHash) && unHandleReady == old(unHandleReady) && unHandleFinal == old(unHandleFinal)
        && readyCnts == old(readyCnts) && finalCnts == old(finalCnts) && out == old(out)
      ensures p.author == proposer ==>
        && blockHash == Some(BlockHash(sha, p.b))
        && unHandleReady == Held(old(unHandleReady), ReadyTag, true, commitment.Some?)
        && unHandleFinal == Held(old(unHandleFinal), FinalTag, true, commitment.Some?)
        && (forall i :: 0 <= i < |unHandleReady| ==> unHandleReady[i].tag == COMMIT_CBC)
        && readyCnts == old(readyCnts) + |old(unHandleReady)| - |unHandleReady|
        && finalCnts == old(finalCnts) + |old(unHandleFinal)| - |unHandleFinal|
        && out == old(out)
          + ReadyFinals(old(unHandleReady), true, commitment.Some?, old(readyCnts), HightThreshold(committee), name, epoch)
          + FinalReports(old(unHandleFinal), true, commitment.Some?, old(finalCnts), epoch, proposer, commitment)
          + [ReadyEvent(DATA_CBC)]
    {
      if p.author != proposer {
        return;
      }
      blockHash := Some(BlockHash(sha, p.b));
      Replay();
      SendReady(DATA_CBC);
    }

    /** Sends this node's Ready for `tag`. */
    method SendReady(tag: uint8)
      requires Valid()
      modifies this`out
      ensures Valid()
      ensures out == old(out) + [ReadyEvent(tag)]
    {
      var e := ReadyEvent(tag);
      EmitKeepsSentOk(out, readyCnts, finalCnts, HightThreshold(committee), epoch, proposer, [e], readyCnts, finalCnts);
      out := out + [e];
    }

    /** `ProcessCommitment`: only the proposer's commitment counts. It records
        the vector, replays the held messages and sends a COMMIT Ready. */
    method ProcessCommitment(c: Commitment)
      requires Valid()
      modifies this`commitment, this`unHandleReady, this`unHandleFinal, this`readyCnts, this`finalCnts, this`out
      ensures Valid()
      ensures c.author != proposer ==>
        && commitment == old(commitment) && unHandleReady == old(unHandleReady) && unHandleFinal == old(unHandleFinal)
        && readyCnts == old(readyCnts) && finalCnts == old(finalCnts) && out == old(out)
      ensures c.author == proposer ==>
        && commitment == Some(c.c)
        && unHandleReady == Held(old(unHandleReady), ReadyTag, blockHash.Some?, true)
        && unHandleFinal == Held(old(unHandleFinal), FinalTag, blockHash.Some?, true)
        && (forall i :: 0 <= i < |unHandleReady| ==> unHandleReady[i].tag == DATA_CBC)
        && readyCnts == old(readyCnts) + |old(unHandleReady)| - |unHandleReady|
        && finalCnts == old(finalCnts) + |old(unHandleFinal)| - |unHandleFinal|
        && out == old(out)
          + ReadyFinals(old(unHandleReady), blockHash.Some?, true, old(readyCnts), HightThreshold(committee), name, epoch)
          + FinalReports(old(unHandleFinal), blockHash.Some?, true, old(finalCnts), epoch, proposer, Some(c.c))
          + [ReadyEvent(COMMIT_CBC)]
    {
      if c.author != proposer {
        return;
      }
      commitment := Some(c.c);
      Replay();
      SendReady(COMMIT_CBC);
    }
  }

  /** Whatever the messages, an instance sends at most one Final. */
  lemma FinalSentOnce(cbc: CBC, j: nat, k: nat)
    requires cbc.Valid() && j < |cbc.out| && k < |cbc.out|
    requires cbc.out[j].FinalAll? && cbc.out[k].FinalAll?
    ensures j == k
  {
    assert FinalKey(cbc.out[j]) == Some(true) && FinalKey(cbc.out[k]) == Some(true);
    AtMostOne(cbc.out, FinalKey, Flagged(cbc.readyCnts >= HightThreshold(cbc.committee)), j, k);
  }

  /** Whatever the messages, an instance reports to the core at most once,
      and the report names the instance's epoch and proposer. */
  lemma ReportedOnce(cbc: CBC, j: nat, k: nat)
    requires cbc.Valid() && j < |cbc.out| && k < |cbc.out|
    requires cbc.out[j].Back? && cbc.out[k].Back?
    ensures j == k
    ensures cbc.out[j].back.epoch == cbc.epoch && cbc.out[j].back.author == cbc.proposer
  {
    assert BackKey(cbc.out[j]) == Some(true) && BackKey(cbc.out[k]) == Some(true);
    AtMostOne(cbc.out, BackKey, Flagged(cbc.finalCnts >= 1), j, k);
  }

  /** A Final is sent only once HightThreshold Readies were counted. */
  lemma FinalNeedsQuorum(cbc: CBC, j: nat)
    requires cbc.Valid() && j < |cbc.out| && cbc.out[j].FinalAll?
    ensures cbc.readyCnts >= HightThreshold(cbc.committee)
  {
    assert FinalKey(cbc.out[j]) == Some(true);
    KeyUsed(cbc.out, FinalKey, Flagged(cbc.readyCnts >= HightThreshold(cbc.committee)), j);
  }
}
