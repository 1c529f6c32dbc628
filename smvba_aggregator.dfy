/** core/smvba/consensus/aggreator.go: the finish-vote aggregator of sMVBA. The
    outer map is never written: a Finish for an unknown epoch is appended to a
    fresh aggregator that is then dropped, so every call starts from an empty
    author set. */
module SmvbaAggregator {
  import opened GoInt
  import opened Committee

  datatype Finish = Finish(author: NodeID, epoch: int64, round: int64)

  class FinishAggreator {
    var authors: set<NodeID>

    constructor ()
      ensures authors == {}
    {
      authors := {};
    }

    /** Rejects a repeated author; reports true exactly when the count of
        distinct authors reaches HightThreshold. Each accepted author grows the
        set by one. */
    method Append(committee: Committee, finish: Finish) returns (reached: bool, err: bool)
      modifies this
      ensures err <==> finish.author in old(authors)
      ensures authors == old(authors) + {finish.author}
      ensures !err ==> |authors| == |old(authors)| + 1
      ensures reached <==> !err && |authors| == HightThreshold(committee)
    {
      if finish.author in authors {
        return false, true;
      }
      authors := authors + {finish.author};
      reached := |authors| == HightThreshold(committee);
      err := false;
    }
  }

  class Aggreator {
    const committee: Committee
    var finishAggreator: map<int64, map<int64, FinishAggreator>>

    /** Nothing ever stores into the outer map, so it stays empty. */
    ghost predicate Valid()
      reads this
    {
      finishAggreator == map[]
    }

    constructor (committee: Committee)
      ensures Valid() && this.committee == committee
    {
      this.committee := committee;
      finishAggreator := map[];
    }

    function Slot(epoch: int64, round: int64): set<object>
      reads this
    {
      if epoch in finishAggreator && round in finishAggreator[epoch] then {finishAggreator[epoch][round]} else {}
    }

    /** `AddFinishVote`, for any outer map: a stored aggregator receives the
        vote; for a known epoch without this round a fresh empty aggregator is
        stored and the vote goes to another fresh one; for an unknown epoch
        nothing is stored. */
    method AddFinishVote(finish: Finish) returns (reached: bool, err: bool)
      modifies this, Slot(finish.epoch, finish.round)
      ensures finish.epoch in old(finishAggreator) && finish.round in old(finishAggreator)[finish.epoch] ==>
        var item := old(finishAggreator)[finish.epoch][finish.round];
        && finishAggreator == old(finishAggreator)
        && (err <==> finish.author in old(item.authors))
        && item.authors == old(item.authors) + {finish.author}
        && (reached <==> !err && |item.authors| == HightThreshold(committee))
      ensures finish.epoch in old(finishAggreator) && finish.round !in old(finishAggreator)[finish.epoch] ==>
        && finish.epoch in finishAggreator && finish.round in finishAggreator[finish.epoch]
        && var stored := finishAggreator[finish.epoch][finish.round];
        && var inner: map<int64, FinishAggreator> := old(finishAggreator)[finish.epoch][finish.round := stored];
        && finishAggreator == old(finishAggreator)[finish.epoch := inner]
        && fresh(stored) && stored.authors == {}
      ensures finish.epoch !in old(finishAggreator) ==> finishAggreator == old(finishAggreator)
      ensures !(finish.epoch in old(finishAggreator) && finish.round in old(finishAggreator)[finish.epoch]) ==>
        !err && (reached <==> HightThreshold(committee) == 1)
      ensures old(Valid()) ==> Valid() && !err && (reached <==> HightThreshold(committee) == 1)
    {
      var items: map<int64, FinishAggreator>;
      var known := finish.epoch in finishAggreator;
      if known {
        items := finishAggreator[finish.epoch];
      } else {
        items := map[];
      }
      if finish.round in items {
        var item := items[finish.round];
        reached, err := item.Append(committee, finish);
      } else {
        var item := new FinishAggreator();
        var stored := new FinishAggreator();
        if known {
          finishAggreator := finishAggreator[finish.epoch := items[finish.round := stored]];
        }
        reached, err := item.Append(committee, finish);
      }
    }
  }
}
