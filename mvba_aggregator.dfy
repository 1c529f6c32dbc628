/** core/mvba/consensus/aggreator.go: the per-(epoch, round) vote aggregators
    and the per-(epoch, round, in-round) coin aggregators of the ABA. A vote
    aggregator acts at most once; a coin aggregator combines the shares into a
    one-bit coin at exactly HightThreshold shares. The outer aggregator creates
    the inner ones lazily, storing a new vote bucket under the vote's round
    instead of its epoch. */
module MvbaAggregator {
  import opened GoInt
  import opened Wrappers
  import opened Bytes
  import opened Committee
  import Crypto
  import opened MvbaMessage
  import MvbaElector

  const ACTION_NO: uint8 := 0
  const ACTION_ONE: uint8 := 1
  const ACTION_TWO: uint8 := 2

  class VoteAggreator {
    var used: set<NodeID>
    var flag: bool

    constructor ()
      ensures used == {} && !flag
    {
      used := {};
      flag := false;
    }

    /** ACTION_ONE on the first YES vote, ACTION_TWO when the distinct voters
        reach HightThreshold with no YES before; either one sets `flag`, after
        which only ACTION_NO is returned. A repeated author is an error. */
    method Append(committee: Committee, vote: Vote) returns (action: uint8, err: bool)
      modifies this
      ensures err <==> vote.author in old(used)
      ensures used == old(used) + {vote.author}
      ensures action == ACTION_ONE <==> !err && !old(flag) && vote.flag == FLAG_YES
      ensures action == ACTION_TWO <==> !err && !old(flag) && vote.flag != FLAG_YES && |used| == HightThreshold(committee)
      ensures action == ACTION_NO || action == ACTION_ONE || action == ACTION_TWO
      ensures flag <==> old(flag) || action != ACTION_NO
    {
      if vote.author in used {
        return ACTION_NO, true;
      }
      used := used + {vote.author};
      if !flag && vote.flag == FLAG_YES {
        flag := true;
        return ACTION_ONE, false;
      }
      if !flag && |used| == HightThreshold(committee) {
        flag := true;
        return ACTION_TWO, false;
      }
      return ACTION_NO, false;
    }
  }

  /** The action of a vote appended to a new aggregator: ONE for a YES vote,
      TWO for any other vote when a single voter is a quorum. */
  function FirstAction(committee: Committee, vote: Vote): (action: uint8)
    ensures action != ACTION_NO <==> vote.flag == FLAG_YES || HightThreshold(committee) == 1
    ensures action == ACTION_TWO ==> vote.flag != FLAG_YES
  {
    if vote.flag == FLAG_YES then ACTION_ONE
    else if HightThreshold(committee) == 1 then ACTION_TWO
    else ACTION_NO
  }

  /** The outcome of `addCoinShare`: the coin aggregator's three results, or
      the run-time panic of a write into a missing inner map. */
  datatype CoinOutcome = Returned(ok: bool, coin: uint8, err: bool) | NilMapPanic

  /** The one-bit coin of a combined signature: its seed modulo 2. */
  function CoinBit(data: seq<byte>): (bit: uint8)
    ensures bit == 0 || bit == 1
    ensures data == [] ==> bit == 0
    ensures data != [] ==> bit as int == data[MvbaElector.Min(|data|, MvbaElector.RANDOM_LEN) - 1] as int % 2
  {
    var k := MvbaElector.Min(|data|, MvbaElector.RANDOM_LEN);
    assert data != [] ==> MvbaElector.Seed(data) % 2 == data[k - 1] as int % 2 by {
      if data != [] {
        FromBEParity(data[..k]);
      }
    }
    (MvbaElector.Seed(data) % 2) as uint8
  }

  /** The seed loop of `CoinAggreator.append` on a uint64: at most
      RANDOM_LEN bytes never overflow. */
  method FoldCoin(data: seq<byte>) returns (seed: uint64)
    ensures seed == MvbaElector.Seed(data)
  {
    seed := 0;
    var i := 0;
    while i < |data| && i < MvbaElector.RANDOM_LEN
      invariant 0 <= i <= MvbaElector.Min(|data|, MvbaElector.RANDOM_LEN)
      invariant seed as int == FromBE(data[..i])
    {
      FromBEBound(data[..i + 1]);
      MvbaElector.SevenBytes(i + 1);
      assert data[..i + 1][..i] == data[..i];
      seed := seed * 256 + data[i] as uint64;
      i := i + 1;
    }
  }

  class CoinAggreator {
    var used: set<NodeID>
    var shares: seq<Crypto.SignatureShare>

    constructor ()
      ensures used == {} && shares == []
    {
      used := {};
      shares := [];
    }

    /** `used` is checked but never written, so every share is appended; at
        exactly HightThreshold shares they are combined and the coin is the
        fold of up to RANDOM_LEN bytes modulo 2. */
    method Append(committee: Committee, combine: MvbaElector.Combiner, share: CoinShare)
      returns (ok: bool, coin: uint8, err: bool)
      modifies this
      ensures used == old(used)
      ensures share.author in used ==> err && !ok && coin == 0 && shares == old(shares)
      ensures share.author !in used ==> shares == old(shares) + [share.share]
      ensures share.author !in used ==>
        && (ok <==> |shares| == HightThreshold(committee) && combine(shares).Some?)
        && (err <==> |shares| == HightThreshold(committee) && combine(shares).None?)
        && (ok ==> coin == CoinBit(combine(shares).value))
        && (!ok ==> coin == 0)
    {
      if share.author in used {
        return false, 0, true;
      }
      shares := shares + [share.share];
      if |shares| == HightThreshold(committee) {
        var data := combine(shares);
        if data.None? {
          return false, 0, true;
        }
        var seed := FoldCoin(data.value);
        return true, (seed % 2) as uint8, false;
      }
      return false, 0, false;
    }
  }

  class Aggreator {
    const committee: Committee
    var votes: map<int64, map<int64, VoteAggreator>>
    var coins: map<int64, map<int64, map<int64, CoinAggreator>>>

    constructor (committee: Committee)
      ensures Valid() && this.committee == committee
      ensures votes == map[] && coins == map[]
    {
      this.committee := committee;
      votes := map[];
      coins := map[];
    }

    function CoinObjects(): set<object>
      reads this
    {
      set e, r, i | e in coins && r in coins[e] && i in coins[e][r] :: coins[e][r][i]
    }

    /** No stored coin aggregator has recorded an author. */
    ghost predicate Valid()
      reads this, CoinObjects()
    {
      forall e, r, i :: e in coins && r in coins[e] && i in coins[e][r] ==> coins[e][r][i].used == {}
    }

    function VoteSlot(epoch: int64, round: int64): set<object>
      reads this
    {
      if epoch in votes && round in votes[epoch] then {votes[epoch][round]} else {}
    }

    /** `addVote`. When the epoch has no bucket, a new bucket holding a new
        aggregator is stored under the vote's ROUND, replacing whatever was
        there, and the epoch stays without a bucket: every such vote meets a
        new aggregator. Otherwise the epoch's bucket gets the round's
        aggregator, created on first use. */
    method AddVote(vote: Vote) returns (action: uint8, err: bool)
      modifies this, VoteSlot(vote.epoch, vote.round)
      ensures coins == old(coins)
      ensures vote.epoch !in old(votes) ==>
        && vote.round in votes && vote.round in votes[vote.round]
        && var item := votes[vote.round][vote.round];
        && var bucket: map<int64, VoteAggreator> := map[vote.round := item];
        && votes == old(votes)[vote.round := bucket]
        && fresh(item) && item.used == {vote.author}
        && !err && action == FirstAction(committee, vote)
      ensures vote.epoch in old(votes) && vote.round !in old(votes)[vote.epoch] ==>
        && vote.epoch in votes && vote.round in votes[vote.epoch]
        && var item := votes[vote.epoch][vote.round];
        && var bucket: map<int64, VoteAggreator> := old(votes)[vote.epoch][vote.round := item];
        && votes == old(votes)[vote.epoch := bucket]
        && fresh(item) && item.used == {vote.author}
        && !err && action == FirstAction(committee, vote)
      ensures vote.epoch in old(votes) && vote.round in old(votes)[vote.epoch] ==>
        && votes == old(votes)
        && var item := votes[vote.epoch][vote.round];
        && (err <==> vote.author in old(item.used))
        && item.used == old(item.used) + {vote.author}
        && (action == ACTION_ONE <==> !err && !old(item.flag) && vote.flag == FLAG_YES)
        && (action == ACTION_TWO <==> !err && !old(item.flag) && vote.flag != FLAG_YES && |item.used| == HightThreshold(committee))
        && (item.flag <==> old(item.flag) || action != ACTION_NO)
    {
      var items: map<int64, VoteAggreator>;
      if vote.epoch in votes {
        items := votes[vote.epoch];
        if vote.round in items {
          var item := items[vote.round];
          action, err := item.Append(committee, vote);
        } else {
          var item := new VoteAggreator();
          votes := votes[vote.epoch := items[vote.round := item]];
          action, err := item.Append(committee, vote);
        }
      } else {
        var item := new VoteAggreator();
        var bucket: map<int64, VoteAggreator> := map[vote.round := item];
        votes := votes[vote.round := bucket];
        action, err := item.Append(committee, vote);
      }
    }

    function CoinSlot(epoch: int64, round: int64, inRound: int64): set<object>
      reads this
    {
      if epoch in coins && round in coins[epoch] && inRound in coins[epoch][round]
      then {coins[epoch][round][inRound]} else {}
    }

    /** The coin aggregator for (epoch, round, inRound), created and stored
        when missing; a new epoch gets a bucket for this round only. */
    method CoinFor(epoch: int64, round: int64, inRound: int64) returns (item: CoinAggreator)
      requires Valid()
      requires epoch in coins ==> round in coins[epoch]
      modifies this`coins
      ensures Valid()
      ensures item.used == {}
      ensures epoch in coins && round in coins[epoch] && inRound in coins[epoch][round]
      ensures item == coins[epoch][round][inRound]
      ensures old(CoinSlot(epoch, round, inRound)) != {} ==> coins == old(coins)
      ensures old(CoinSlot(epoch, round, inRound)) == {} ==> fresh(item) && item.shares == []
    {
      var items: map<int64, map<int64, CoinAggreator>>;
      if epoch in coins {
        items := coins[epoch];
      } else {
        items := map[round := map[]];
        coins := coins[epoch := items];
      }
      var inner: map<int64, CoinAggreator> := items[round];
      if inRound in inner {
        item := inner[inRound];
        assert item in CoinObjects();
      } else {
        item := new CoinAggreator();
        var bucket: map<int64, CoinAggreator> := inner[inRound := item];
        coins := coins[epoch := items[round := bucket]];
      }
    }

    /** `addCoinShare`. A new epoch gets a bucket holding an empty map for the
        share's round only; a share for another round of an existing epoch
        reads the missing inner map as empty and then writes into it, which
        panics in Go. Otherwise the (round, in-round) aggregator is created on
        first use and the share appended to it. */
    method AddCoinShare(combine: MvbaElector.Combiner, share: CoinShare) returns (r: CoinOutcome)
      requires Valid()
      modifies this, CoinSlot(share.epoch, share.round, share.inRound)
      ensures Valid()
      ensures votes == old(votes)
      ensures share.epoch in old(coins) && share.round !in old(coins)[share.epoch] ==>
        r == NilMapPanic && coins == old(coins)
      ensures share.epoch !in old(coins) || share.round in old(coins)[share.epoch] ==>
        && r.Returned?
        && share.epoch in coins && share.round in coins[share.epoch] && share.inRound in coins[share.epoch][share.round]
        && var item := coins[share.epoch][share.round][share.inRound];
        && var before := if old(CoinSlot(share.epoch, share.round, share.inRound)) == {} then [] else old(coins[share.epoch][share.round][share.inRound].shares);
        && (old(CoinSlot(share.epoch, share.round, share.inRound)) == {} ==> fresh(item))
        && (old(CoinSlot(share.epoch, share.round, share.inRound)) != {} ==> coins == old(coins))
        && item.shares == before + [share.share]
        && (r.ok <==> |item.shares| == HightThreshold(committee) && combine(item.shares).Some?)
        && (r.err <==> |item.shares| == HightThreshold(committee) && combine(item.shares).None?)
        && (r.ok ==> r.coin == CoinBit(combine(item.shares).value))
    {
      if share.epoch in coins && share.round !in coins[share.epoch] {
        return NilMapPanic;
      }
      var item := CoinFor(share.epoch, share.round, share.inRound);
      var ok, coin, err := item.Append(committee, combine, share);
      r := Returned(ok, coin, err);
    }
  }
}
