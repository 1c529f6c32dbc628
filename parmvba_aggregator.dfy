/** core/parmvba/consensus/aggreator.go: the per-(epoch, round) vote aggregators
    of the parallel MVBA. Each inner aggregator rejects a second message from the
    same author and reports a result when its counts reach the committee
    thresholds; the outer aggregator creates the inner ones lazily. */
module ParMvbaAggregator {
  import opened GoInt
  import opened Wrappers
  import opened Bytes
  import opened Committee
  import Crypto

  /** The message fields the aggregators read. */
  datatype Finish = Finish(author: NodeID, epoch: int64, round: int64)
  datatype Done = Done(author: NodeID, epoch: int64, round: int64)
  datatype Prevote = Prevote(author: NodeID, epoch: int64, round: int64, flag: int8)
  datatype FinVote = FinVote(author: NodeID, epoch: int64, round: int64, flag: int8)
  datatype ElectShare = ElectShare(author: NodeID, epoch: int64, round: int64, sigShare: Crypto.SignatureShare)

  const VOTE_FLAG_YES: int8 := 0
  const VOTE_FLAG_NO: int8 := 1

  const DONE_LOW_FLAG: int8 := 0
  const DONE_HIGH_FLAG: int8 := 1
  const DONE_NONE_FLAG: int8 := 2

  const ACTION_YES: int8 := 0
  const ACTION_NO: int8 := 1
  const ACTION_COMMIT: int8 := 2
  const ACTION_NONE: int8 := 3

  const RANDOM_LEN := 3

  /** The threshold-combined signature of a list of shares, or `None` when
      combining fails. */
  type Combiner = seq<Crypto.SignatureShare> -> Option<Coin>

  /** A combined signature; it is always longer than RANDOM_LEN bytes, which
      the fold indexes without a length check. */
  type Coin = c: seq<byte> | |c| >= RANDOM_LEN witness [0, 0, 0]

  class FinishAggreator {
    var authors: set<NodeID>

    constructor ()
      ensures authors == {}
    {
      authors := {};
    }

    /** Reports true exactly when an accepted author brings the count to
        HightThreshold; a repeated author is an error. */
    method Append(committee: Committee, finish: Finish) returns (reached: bool, err: bool)
      modifies this
      ensures err <==> finish.author in old(authors)
      ensures authors == old(authors) + {finish.author}
      ensures reached <==> !err && |authors| == HightThreshold(committee)
    {
      if finish.author in authors {
        return false, true;
      }
      authors := authors + {finish.author};
      reached := |authors| == HightThreshold(committee);
      err := false;
    }
  }

  /** The flag a done aggregator reports for a count of distinct authors:
      LOW at LowThreshold, which wins when both thresholds coincide, HIGH at
      HightThreshold, nothing otherwise. */
  function DoneFlag(count: int, committee: Committee): (flag: int8)
    ensures flag == DONE_LOW_FLAG <==> count == LowThreshold(committee)
    ensures flag == DONE_HIGH_FLAG <==> count != LowThreshold(committee) && count == HightThreshold(committee)
    ensures flag == DONE_NONE_FLAG <==> count != LowThreshold(committee) && count != HightThreshold(committee)
  {
    if count == LowThreshold(committee) then DONE_LOW_FLAG
    else if count == HightThreshold(committee) then DONE_HIGH_FLAG
    else DONE_NONE_FLAG
  }

  class DoneAggreator {
    var authors: set<NodeID>

    constructor ()
      ensures authors == {}
    {
      authors := {};
    }

    /** A repeated author returns 0 (the LOW value) and an error. In a
        committee of at most three nodes both thresholds are 1, and LOW,
        checked first, hides HIGH. */
    method Append(committee: Committee, done: Done) returns (flag: int8, err: bool)
      modifies this
      ensures err <==> done.author in old(authors)
      ensures authors == old(authors) + {done.author}
      ensures err ==> flag == 0
      ensures !err ==> flag == DoneFlag(|authors|, committee)
      ensures Size(committee) <= 3 ==> flag != DONE_HIGH_FLAG
    {
      if done.author in authors {
        return 0, true;
      }
      authors := authors + {done.author};
      if |authors| == LowThreshold(committee) {
        return DONE_LOW_FLAG, false;
      }
      if |authors| == HightThreshold(committee) {
        return DONE_HIGH_FLAG, false;
      }
      return DONE_NONE_FLAG, false;
    }
  }

  /** The leader an election aggregator reports once `shares` are collected:
      NONE for a repeated author, below the threshold or on a failed combine,
      otherwise the first RANDOM_LEN coin bytes, read big-endian, modulo the
      committee size. */
  function ElectLeader(committee: Committee, combine: Combiner, repeated: bool, shares: seq<Crypto.SignatureShare>): (l: NodeID)
    requires Size(committee) >= 1
    ensures l == NONE || 0 <= l < Size(committee)
    ensures l != NONE <==> !repeated && |shares| == HightThreshold(committee) && combine(shares).Some?
  {
    if repeated || |shares| != HightThreshold(committee) then NONE
    else
      match combine(shares)
      case None => NONE
      case Some(coin) =>
        CoinBound(coin);
        ModAtMost(FromBE(coin[..RANDOM_LEN]), Size(committee));
        FromBE(coin[..RANDOM_LEN]) % Size(committee)
  }

  class ElectAggreator {
    var shares: seq<Crypto.SignatureShare>
    var authors: set<NodeID>

    ghost predicate Valid()
      reads this
    {
      |shares| == |authors|
    }

    constructor ()
      ensures Valid() && shares == [] && authors == {}
    {
      shares := [];
      authors := {};
    }

    /** Collects shares; at exactly HightThreshold shares combines them and
        returns the first RANDOM_LEN coin bytes, read big-endian, modulo the
        committee size. A repeated author, a failed combine and a count below
        the threshold return NONE. */
    method Append(committee: Committee, combine: Combiner, elect: ElectShare) returns (leader: NodeID, err: bool)
      requires Valid()
      requires Size(committee) >= 1
      modifies this
      ensures Valid()
      ensures elect.author in old(authors) ==> err && leader == NONE && shares == old(shares) && authors == old(authors)
      ensures elect.author !in old(authors) ==>
        authors == old(authors) + {elect.author} && shares == old(shares) + [elect.sigShare]
      ensures elect.author !in old(authors) && |shares| != HightThreshold(committee) ==> !err && leader == NONE
      ensures elect.author !in old(authors) && |shares| == HightThreshold(committee) ==>
        match combine(shares)
        case None => err && leader == NONE
        case Some(coin) => !err && leader == FromBE(coin[..RANDOM_LEN]) % Size(committee)
      ensures !err && leader != NONE ==> 0 <= leader < Size(committee)
      ensures leader == ElectLeader(committee, combine, elect.author in old(authors), shares)
    {
      if elect.author in authors {
        return NONE, true;
      }
      authors := authors + {elect.author};
      shares := shares + [elect.sigShare];
      if |shares| == HightThreshold(committee) {
        var coin := combine(shares);
        if coin.None? {
          return NONE, true;
        }
        var rand := FoldCoin(coin.value);
        CoinBound(coin.value);
        ModAtMost(rand, Size(committee));
        leader := rand % Size(committee);
        err := false;
        return;
      }
      return NONE, false;
    }
  }

  lemma CoinBound(coin: seq<byte>)
    requires |coin| >= RANDOM_LEN
    ensures FromBE(coin[..RANDOM_LEN]) < 0x100_0000
  {
    FromBEBound(coin[..RANDOM_LEN]);
    assert Pow256(3) == 0x100_0000;
  }

  /** The fold loop of `ElectAggreator.Append`: the first RANDOM_LEN bytes of
      the coin, most significant first. A zero byte takes the negated branch,
      which also adds zero. */
  method FoldCoin(coin: seq<byte>) returns (rand: nat)
    requires |coin| >= RANDOM_LEN
    ensures rand == FromBE(coin[..RANDOM_LEN])
  {
    rand := 0;
    var i := 0;
    while i < RANDOM_LEN
      invariant 0 <= i <= RANDOM_LEN
      invariant rand == FromBE(coin[..i])
    {
      assert coin[..i + 1][..i] == coin[..i];
      if coin[i] > 0 {
        rand := rand * 256 + coin[i] as int;
      } else {
        rand := rand * 256 + (256 - coin[i] as int) % 256;
      }
      i := i + 1;
    }
  }

  class PreVoteAggreator {
    var authors: set<NodeID>
    var yesNums: int
    var noNums: int
    var flag: bool

    ghost predicate Valid()
      reads this
    {
      yesNums + noNums == |authors| && yesNums >= 0 && noNums >= 0 && (flag <==> yesNums > 0)
    }

    constructor ()
      ensures Valid() && authors == {} && yesNums == 0 && noNums == 0 && !flag
    {
      authors := {};
      yesNums := 0;
      noNums := 0;
      flag := false;
    }

    /** YES on the first yes vote, and never again; NO when the no votes reach
        exactly HightThreshold before any yes vote; a flag other than NO counts
        as yes. */
    method Append(committee: Committee, vote: Prevote) returns (action: int8, err: bool)
      requires Valid()
      modifies this
      ensures Valid()
      ensures err <==> vote.author in old(authors)
      ensures authors == old(authors) + {vote.author}
      ensures err ==> action == ACTION_NONE && yesNums == old(yesNums) && noNums == old(noNums) && flag == old(flag)
      ensures !err && vote.flag == VOTE_FLAG_NO ==> noNums == old(noNums) + 1 && yesNums == old(yesNums)
      ensures !err && vote.flag != VOTE_FLAG_NO ==> yesNums == old(yesNums) + 1 && noNums == old(noNums)
      ensures action == ACTION_YES <==> !err && vote.flag != VOTE_FLAG_NO && !old(flag)
      ensures action == ACTION_NO <==> !err && vote.flag == VOTE_FLAG_NO && !old(flag) && noNums == HightThreshold(committee)
      ensures action == ACTION_YES || action == ACTION_NO || action == ACTION_NONE
      ensures old(flag) ==> flag
    {
      if vote.author in authors {
        return ACTION_NONE, true;
      }
      authors := authors + {vote.author};
      if vote.flag == VOTE_FLAG_NO {
        noNums := noNums + 1;
      } else {
        yesNums := yesNums + 1;
      }
      if yesNums > 0 && !flag {
        flag := true;
        return ACTION_YES, false;
      }
      if noNums == HightThreshold(committee) && !flag {
        return ACTION_NO, false;
      }
      return ACTION_NONE, false;
    }
  }

  /** The decision of a fin-vote aggregator once the vote total reaches the
      threshold: COMMIT when all are yes, NO when all are no, YES otherwise. */
  function FinDecision(yes: int, no: int, th: int): (action: int8)
    requires yes + no == th
    ensures action == ACTION_COMMIT <==> yes == th
    ensures action == ACTION_NO <==> yes != th && no == th
    ensures action == ACTION_YES <==> yes != th && no != th
  {
    if yes == th then ACTION_COMMIT else if no == th then ACTION_NO else ACTION_YES
  }

  class FinVoteAggreator {
    var authors: set<NodeID>
    var yesNums: int
    var noNums: int

    ghost predicate Valid()
      reads this
    {
      yesNums + noNums == |authors| && yesNums >= 0 && noNums >= 0
    }

    constructor ()
      ensures Valid() && authors == {} && yesNums == 0 && noNums == 0
    {
      authors := {};
      yesNums := 0;
      noNums := 0;
    }

    /** Decides when an accepted vote brings the number of distinct voters to
        HightThreshold, so at most once; a flag other than YES counts as no. */
    method Append(committee: Committee, vote: FinVote) returns (action: int8, err: bool)
      requires Valid()
      modifies this
      ensures Valid()
      ensures err <==> vote.author in old(authors)
      ensures authors == old(authors) + {vote.author}
      ensures err ==> action == ACTION_NONE && yesNums == old(yesNums) && noNums == old(noNums)
      ensures !err && vote.flag == VOTE_FLAG_YES ==> yesNums == old(yesNums) + 1 && noNums == old(noNums)
      ensures !err && vote.flag != VOTE_FLAG_YES ==> noNums == old(noNums) + 1 && yesNums == old(yesNums)
      ensures !err && |authors| == HightThreshold(committee) ==>
        action == FinDecision(yesNums, noNums, HightThreshold(committee))
      ensures |authors| != HightThreshold(committee) || err ==> action == ACTION_NONE
    {
      if vote.author in authors {
        return ACTION_NONE, true;
      }
      authors := authors + {vote.author};
      if vote.flag == VOTE_FLAG_YES {
        yesNums := yesNums + 1;
      } else {
        noNums := noNums + 1;
      }
      var th := HightThreshold(committee);
      if yesNums + noNums == th {
        if yesNums == th {
          return ACTION_COMMIT, false;
        } else if noNums == th {
          return ACTION_NO, false;
        }
        return ACTION_YES, false;
      }
      return ACTION_NONE, false;
    }
  }

  class Aggreator {
    const committee: Committee
    var finishAggreator: map<int64, map<int64, FinishAggreator>>
    var doneAggreator: map<int64, map<int64, DoneAggreator>>
    var prevoteAggreator: map<int64, map<int64, PreVoteAggreator>>
    var finvoteAggreator: map<int64, map<int64, FinVoteAggreator>>

    constructor (committee: Committee)
      ensures Valid()
      ensures this.committee == committee
      ensures finishAggreator == map[] && doneAggreator == map[]
      ensures prevoteAggreator == map[] && finvoteAggreator == map[]
    {
      this.committee := committee;
      finishAggreator := map[];
      doneAggreator := map[];
      prevoteAggreator := map[];
      finvoteAggreator := map[];
    }

    /** The aggregator stored for (epoch, round), as a set of at most one object. */
    function FinishSlot(epoch: int64, round: int64): set<object>
      reads this
    {
      if epoch in finishAggreator && round in finishAggreator[epoch] then {finishAggreator[epoch][round]} else {}
    }

    function FinishRounds(epoch: int64): map<int64, FinishAggreator>
      reads this
    {
      if epoch in finishAggreator then finishAggreator[epoch] else map[]
    }

    /** `AddFinishVote`: on an existing (epoch, round) the vote goes to the
        stored aggregator. On a new one, an empty aggregator is stored but the
        vote goes to a second, unstored one, so it is lost: the result is true
        only when HightThreshold is 1. */
    method AddFinishVote(finish: Finish) returns (reached: bool, err: bool)
      modifies this, FinishSlot(finish.epoch, finish.round)
      ensures doneAggreator == old(doneAggreator) && prevoteAggreator == old(prevoteAggreator)
      ensures finvoteAggreator == old(finvoteAggreator)
      ensures finish.round in old(FinishRounds(finish.epoch)) ==>
        var item := old(FinishRounds(finish.epoch))[finish.round];
        && finishAggreator == old(finishAggreator)
        && (err <==> finish.author in old(item.authors))
        && item.authors == old(item.authors) + {finish.author}
        && (reached <==> !err && |item.authors| == HightThreshold(committee))
      ensures finish.round !in old(FinishRounds(finish.epoch)) ==>
        && finish.epoch in finishAggreator && finish.round in finishAggreator[finish.epoch]
        && finishAggreator == old(finishAggreator)[finish.epoch := old(FinishRounds(finish.epoch))[finish.round := finishAggreator[finish.epoch][finish.round]]]
        && fresh(finishAggreator[finish.epoch][finish.round])
        && finishAggreator[finish.epoch][finish.round].authors == {}
        && !err && (reached <==> HightThreshold(committee) == 1)
    {
      var items: map<int64, FinishAggreator>;
      if finish.epoch in finishAggreator {
        items := finishAggreator[finish.epoch];
      } else {
        items := map[];
        finishAggreator := finishAggreator[finish.epoch := items];
      }
      if finish.round in items {
        var item := items[finish.round];
        reached, err := item.Append(committee, finish);
      } else {
        var item := new FinishAggreator();
        var stored := new FinishAggreator();
        finishAggreator := finishAggreator[finish.epoch := items[finish.round := stored]];
        reached, err := item.Append(committee, finish);
      }
    }

    function DoneSlot(epoch: int64, round: int64): set<object>
      reads this
    {
      if epoch in doneAggreator && round in doneAggreator[epoch] then {doneAggreator[epoch][round]} else {}
    }

    function DoneRounds(epoch: int64): map<int64, DoneAggreator>
      reads this
    {
      if epoch in doneAggreator then doneAggreator[epoch] else map[]
    }

    /** `AddDoneVote`: one aggregator per (epoch, round), created and stored on
        first use. */
    method AddDoneVote(done: Done) returns (flag: int8, err: bool)
      modifies this, DoneSlot(done.epoch, done.round)
      ensures finishAggreator == old(finishAggreator) && prevoteAggreator == old(prevoteAggreator)
      ensures finvoteAggreator == old(finvoteAggreator)
      ensures done.epoch in doneAggreator && done.round in doneAggreator[done.epoch]
      ensures var item := doneAggreator[done.epoch][done.round];
        && doneAggreator == old(doneAggreator)[done.epoch := old(DoneRounds(done.epoch))[done.round := item]]
        && (done.round in old(DoneRounds(done.epoch)) ==> item == old(DoneRounds(done.epoch))[done.round])
        && (done.round !in old(DoneRounds(done.epoch)) ==> fresh(item) && old(allocated(item)) == false)
        && var before := if done.round in old(DoneRounds(done.epoch)) then old(item.authors) else {};
        && (err <==> done.author in before)
        && item.authors == before + {done.author}
        && (err ==> flag == 0)
        && (!err ==> flag == DoneFlag(|item.authors|, committee))
    {
      var items: map<int64, DoneAggreator>;
      if done.epoch in doneAggreator {
        items := doneAggreator[done.epoch];
      } else {
        items := map[];
        doneAggreator := doneAggreator[done.epoch := items];
      }
      var item: DoneAggreator;
      if done.round in items {
        item := items[done.round];
        assert items[done.round := item] == items;
        assert doneAggreator[done.epoch := items] == doneAggreator;
      } else {
        item := new DoneAggreator();
        doneAggreator := doneAggreator[done.epoch := items[done.round := item]];
      }
      flag, err := item.Append(committee, done);
    }

    function PrevoteObjects(): set<object>
      reads this
    {
      set e, r | e in prevoteAggreator && r in prevoteAggreator[e] :: prevoteAggreator[e][r]
    }

    function FinvoteObjects(): set<object>
      reads this
    {
      set e, r | e in finvoteAggreator && r in finvoteAggreator[e] :: finvoteAggreator[e][r]
    }

    /** Every stored pre-vote and fin-vote aggregator keeps its counts consistent. */
    ghost predicate Valid()
      reads this, PrevoteObjects(), FinvoteObjects()
    {
      && (forall e, r :: e in prevoteAggreator && r in prevoteAggreator[e] ==> prevoteAggreator[e][r].Valid())
      && (forall e, r :: e in finvoteAggreator && r in finvoteAggreator[e] ==> finvoteAggreator[e][r].Valid())
    }

    function PrevoteRounds(epoch: int64): map<int64, PreVoteAggreator>
      reads this
    {
      if epoch in prevoteAggreator then prevoteAggreator[epoch] else map[]
    }

    function PrevoteSlot(epoch: int64, round: int64): set<object>
      reads this
    {
      if round in PrevoteRounds(epoch) then {PrevoteRounds(epoch)[round]} else {}
    }

    /** `AddPreVote`: one aggregator per (epoch, round), created and stored on
        first use; the vote is appended to it. */
    method AddPreVote(vote: Prevote) returns (action: int8, err: bool)
      requires Valid()
      modifies this, PrevoteSlot(vote.epoch, vote.round)
      ensures Valid()
      ensures finishAggreator == old(finishAggreator) && doneAggreator == old(doneAggreator)
      ensures finvoteAggreator == old(finvoteAggreator)
      ensures vote.epoch in prevoteAggreator && vote.round in prevoteAggreator[vote.epoch]
      ensures var item := prevoteAggreator[vote.epoch][vote.round];
        && prevoteAggreator == old(prevoteAggreator)[vote.epoch := old(PrevoteRounds(vote.epoch))[vote.round := item]]
        && (vote.round in old(PrevoteRounds(vote.epoch)) ==> item == old(PrevoteRounds(vote.epoch))[vote.round])
        && (vote.round !in old(PrevoteRounds(vote.epoch)) ==> fresh(item))
        && var before := if vote.round in old(PrevoteRounds(vote.epoch)) then old(item.authors) else {};
        && var wasFlagged := vote.round in old(PrevoteRounds(vote.epoch)) && old(item.flag);
        && (err <==> vote.author in before)
        && item.authors == before + {vote.author}
        && (action == ACTION_YES <==> !err && vote.flag != VOTE_FLAG_NO && !wasFlagged)
        && (action == ACTION_NO <==> !err && vote.flag == VOTE_FLAG_NO && !wasFlagged && item.noNums == HightThreshold(committee))
    {
      var item := PrevoteFor(vote.epoch, vote.round);
      action, err := item.Append(committee, vote);
    }

    /** The aggregator for (epoch, round), created and stored when missing. */
    method PrevoteFor(epoch: int64, round: int64) returns (item: PreVoteAggreator)
      requires Valid()
      modifies this`prevoteAggreator
      ensures Valid()
      ensures prevoteAggreator == old(prevoteAggreator)[epoch := old(PrevoteRounds(epoch))[round := item]]
      ensures round in old(PrevoteRounds(epoch)) ==> item == old(PrevoteRounds(epoch))[round]
      ensures round !in old(PrevoteRounds(epoch)) ==> fresh(item) && item.authors == {} && item.yesNums == 0 && item.noNums == 0 && !item.flag
      ensures item.Valid()
    {
      var items: map<int64, PreVoteAggreator>;
      if epoch in prevoteAggreator {
        items := prevoteAggreator[epoch];
      } else {
        items := map[];
        prevoteAggreator := prevoteAggreator[epoch := items];
      }
      if round in items {
        item := items[round];
        assert item in PrevoteObjects();
        assert items[round := item] == items;
        assert prevoteAggreator[epoch := items] == prevoteAggreator;
      } else {
        item := new PreVoteAggreator();
        prevoteAggreator := prevoteAggreator[epoch := items[round := item]];
      }
    }

    function FinvoteRounds(epoch: int64): map<int64, FinVoteAggreator>
      reads this
    {
      if epoch in finvoteAggreator then finvoteAggreator[epoch] else map[]
    }

    function FinvoteSlot(epoch: int64, round: int64): set<object>
      reads this
    {
      if round in FinvoteRounds(epoch) then {FinvoteRounds(epoch)[round]} else {}
    }

    /** `AddFinVote`: one aggregator per (epoch, round), created and stored on
        first use; the vote is appended to it. */
    method AddFinVote(vote: FinVote) returns (action: int8, err: bool)
      requires Valid()
      modifies this, FinvoteSlot(vote.epoch, vote.round)
      ensures Valid()
      ensures finishAggreator == old(finishAggreator) && doneAggreator == old(doneAggreator)
      ensures prevoteAggreator == old(prevoteAggreator)
      ensures vote.epoch in finvoteAggreator && vote.round in finvoteAggreator[vote.epoch]
      ensures var item := finvoteAggreator[vote.epoch][vote.round];
        && finvoteAggreator == old(finvoteAggreator)[vote.epoch := old(FinvoteRounds(vote.epoch))[vote.round := item]]
        && (vote.round in old(FinvoteRounds(vote.epoch)) ==> item == old(FinvoteRounds(vote.epoch))[vote.round])
        && (vote.round !in old(FinvoteRounds(vote.epoch)) ==> fresh(item))
        && var before := if vote.round in old(FinvoteRounds(vote.epoch)) then old(item.authors) else {};
        && (err <==> vote.author in before)
        && item.authors == before + {vote.author}
        && (!err && |item.authors| == HightThreshold(committee) ==>
              action == FinDecision(item.yesNums, item.noNums, HightThreshold(committee)))
        && (err || |item.authors| != HightThreshold(committee) ==> action == ACTION_NONE)
    {
      var item := FinvoteFor(vote.epoch, vote.round);
      action, err := item.Append(committee, vote);
    }

    /** The aggregator for (epoch, round), created and stored when missing. */
    method FinvoteFor(epoch: int64, round: int64) returns (item: FinVoteAggreator)
      requires Valid()
      modifies this`finvoteAggreator
      ensures Valid()
      ensures finvoteAggreator == old(finvoteAggreator)[epoch := old(FinvoteRounds(epoch))[round := item]]
      ensures round in old(FinvoteRounds(epoch)) ==> item == old(FinvoteRounds(epoch))[round]
      ensures round !in old(FinvoteRounds(epoch)) ==> fresh(item) && item.authors == {} && item.yesNums == 0 && item.noNums == 0
      ensures item.Valid()
    {
      var items: map<int64, FinVoteAggreator>;
      if epoch in finvoteAggreator {
        items := finvoteAggreator[epoch];
      } else {
        items := map[];
        finvoteAggreator := finvoteAggreator[epoch := items];
      }
      if round in items {
        item := items[round];
        assert item in FinvoteObjects();
        assert items[round := item] == items;
        assert finvoteAggreator[epoch := items] == finvoteAggreator;
      } else {
        item := new FinVoteAggreator();
        finvoteAggreator := finvoteAggreator[epoch := items[round := item]];
      }
    }
  }
}
