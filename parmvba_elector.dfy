/** core/parmvba/consensus/elector.go: the parallel MVBA's leader table, keyed
    by epoch and round, and one election aggregator per (epoch, round). */
module ParMvbaElector {
  import opened GoInt
  import opened Committee
  import opened ParMvbaAggregator

  class Elector {
    const committee: Committee
    var leaders: map<int64, map<int64, NodeID>>
    var electAggreators: map<int64, map<int64, ElectAggreator>>

    function Objects(): set<object>
      reads this
    {
      set e, r | e in electAggreators && r in electAggreators[e] :: electAggreators[e][r]
    }

    /** Every stored aggregator keeps one share per author, and the committee
        is not empty (the leader is a coin modulo its size). */
    ghost predicate Valid()
      reads this, Objects()
    {
      && Size(committee) >= 1
      && forall e, r :: e in electAggreators && r in electAggreators[e] ==> electAggreators[e][r].Valid()
    }

    constructor (committee: Committee)
      requires Size(committee) >= 1
      ensures Valid() && this.committee == committee
      ensures leaders == map[] && electAggreators == map[]
    {
      this.committee := committee;
      leaders := map[];
      electAggreators := map[];
    }

    /** The leader recorded for (epoch, round), NONE when there is none. */
    function LeaderOf(epoch: int64, round: int64): NodeID
      reads this`leaders
    {
      if epoch in leaders && round in leaders[epoch] then leaders[epoch][round] else NONE
    }

    /** `SetLeader`: record the leader of (epoch, round), creating the epoch's
        table on first use; every other pair keeps its leader. */
    method SetLeader(epoch: int64, round: int64, leader: NodeID)
      modifies this`leaders
      ensures LeaderOf(epoch, round) == leader
      ensures forall e, r :: e != epoch || r != round ==> LeaderOf(e, r) == old(LeaderOf(e, r))
      ensures leaders.Keys == old(leaders.Keys) + {epoch}
    {
      var items: map<int64, NodeID> := if epoch in leaders then leaders[epoch] else map[];
      leaders := leaders[epoch := items[round := leader]];
    }

    /** `Leader`: the recorded leader or NONE; the only change is the empty
        table it creates for an unknown epoch. */
    method Leader(epoch: int64, round: int64) returns (l: NodeID)
      modifies this`leaders
      ensures l == old(LeaderOf(epoch, round))
      ensures forall e, r :: LeaderOf(e, r) == old(LeaderOf(e, r))
      ensures epoch in old(leaders) ==> leaders == old(leaders)
      ensures epoch !in old(leaders) ==> leaders == old(leaders)[epoch := map[]]
    {
      if epoch !in leaders {
        leaders := leaders[epoch := map[]];
      }
      var items := leaders[epoch];
      if round in items {
        return items[round];
      }
      return NONE;
    }

    function Rounds(epoch: int64): map<int64, ElectAggreator>
      reads this
    {
      if epoch in electAggreators then electAggreators[epoch] else map[]
    }

    function Slot(epoch: int64, round: int64): set<object>
      reads this
    {
      if round in Rounds(epoch) then {Rounds(epoch)[round]} else {}
    }

    /** The aggregator of (epoch, round), created and stored on first use;
        every other slot keeps its aggregator. */
    method AggreatorFor(epoch: int64, round: int64) returns (item: ElectAggreator)
      requires Valid()
      modifies this`electAggreators
      ensures Valid()
      ensures electAggreators == old(electAggreators)[epoch := old(Rounds(epoch))[round := item]]
      ensures round in old(Rounds(epoch)) ==> item == old(Rounds(epoch))[round]
      ensures round !in old(Rounds(epoch)) ==> fresh(item) && item.authors == {}
      ensures item.Valid()
    {
      var items: map<int64, ElectAggreator>;
      if epoch in electAggreators {
        items := electAggreators[epoch];
      } else {
        items := map[];
        electAggreators := electAggreators[epoch := items];
      }
      if round in items {
        item := items[round];
        assert item in Objects();
        assert items[round := item] == items;
        assert electAggreators[epoch := items] == electAggreators;
      } else {
        item := new ElectAggreator();
        electAggreators := electAggreators[epoch := items[round := item]];
      }
    }

    /** `AddShareVote`: one aggregator per (epoch, round), created on the first
        share. Returns the leader that aggregator draws (NONE below the
        threshold, for a repeated author and on a failed combine) and never
        reports an error. A leader other than NONE is recorded for (epoch,
        round). */
    method AddShareVote(combine: Combiner, share: ElectShare) returns (node: NodeID, err: bool)
      requires Valid()
      modifies this, Slot(share.epoch, share.round)
      ensures Valid()
      ensures !err
      ensures share.epoch in electAggreators && share.round in electAggreators[share.epoch]
      ensures var item := electAggreators[share.epoch][share.round];
        && electAggreators == old(electAggreators)[share.epoch := old(Rounds(share.epoch))[share.round := item]]
        && (share.round in old(Rounds(share.epoch)) ==> item == old(Rounds(share.epoch))[share.round])
        && (share.round !in old(Rounds(share.epoch)) ==> fresh(item) && item.authors == {share.author})
      ensures var item := electAggreators[share.epoch][share.round];
        var known := share.round in old(Rounds(share.epoch));
        var oldAuthors := if known then old(Rounds(share.epoch)[share.round].authors) else {};
        var oldShares := if known then old(Rounds(share.epoch)[share.round].shares) else [];
        var repeated := share.author in oldAuthors;
        && item.authors == oldAuthors + {share.author}
        && item.shares == oldShares + (if repeated then [] else [share.sigShare])
        && node == ElectLeader(committee, combine, repeated, item.shares)
      ensures node == NONE || 0 <= node < Size(committee)
      ensures node != NONE ==> LeaderOf(share.epoch, share.round) == node
      ensures forall e, r :: e != share.epoch || r != share.round || node == NONE ==> LeaderOf(e, r) == old(LeaderOf(e, r))
    {
      var item := AggreatorFor(share.epoch, share.round);
      var leader, e := item.Append(committee, combine, share);
      if e {
        return NONE, false;
      }
      if leader != NONE {
        SetLeader(share.epoch, share.round, leader);
      }
      return leader, false;
    }
  }
}
