/** core/vaba/consensus/aggreator.go: the per-epoch Done and skip-share
    aggregators of VABA. `addSkipVote` looks in the skip map, which is never
    written, and stores the fresh aggregator it creates in the done map. */
module VabaAggregator {
  import opened GoInt
  import opened Committee
  import VabaMessage

  /** The skip-share message: its author and epoch are the fields read here. */
  datatype SkipShare = SkipShare(author: NodeID, epoch: int64)

  class NormalAggreator {
    var authors: set<NodeID>

    constructor ()
      ensures authors == {}
    {
      authors := {};
    }

    /** Rejects a repeated author with an error; reports true exactly when the
        count of distinct authors reaches HightThreshold. */
    method Append(node: NodeID, committee: Committee) returns (reached: bool, err: bool)
      modifies this
      ensures err <==> node in old(authors)
      ensures authors == old(authors) + {node}
      ensures reached <==> !err && |authors| == HightThreshold(committee)
    {
      if node in authors {
        return false, true;
      }
      authors := authors + {node};
      reached := |authors| == HightThreshold(committee);
      err := false;
    }
  }

  class Aggreator {
    const committee: Committee
    var doneAggreator: map<int64, NormalAggreator>
    var skipAggreator: map<int64, NormalAggreator>

    /** The skip map is never written, so it stays empty. */
    ghost predicate Valid()
      reads this
    {
      skipAggreator == map[]
    }

    constructor (committee: Committee)
      ensures Valid() && this.committee == committee
      ensures doneAggreator == map[]
    {
      this.committee := committee;
      doneAggreator := map[];
      skipAggreator := map[];
    }

    function DoneSlot(epoch: int64): set<object>
      reads this
    {
      if epoch in doneAggreator then {doneAggreator[epoch]} else {}
    }

    /** `addDoneVote`: one aggregator per epoch, created and stored on first use. */
    method AddDoneVote(done: VabaMessage.Done) returns (reached: bool, err: bool)
      modifies this, DoneSlot(done.epoch)
      ensures skipAggreator == old(skipAggreator)
      ensures done.epoch in doneAggreator
      ensures var item := doneAggreator[done.epoch];
        && doneAggreator == old(doneAggreator)[done.epoch := item]
        && (done.epoch in old(doneAggreator) ==> item == old(doneAggreator)[done.epoch])
        && (done.epoch !in old(doneAggreator) ==> fresh(item))
        && var before := if done.epoch in old(doneAggreator) then old(item.authors) else {};
        && (err <==> done.author in before)
        && item.authors == before + {done.author}
        && (reached <==> !err && |item.authors| == HightThreshold(committee))
    {
      var item: NormalAggreator;
      if done.epoch in doneAggreator {
        item := doneAggreator[done.epoch];
      } else {
        item := new NormalAggreator();
        doneAggreator := doneAggreator[done.epoch := item];
      }
      reached, err := item.Append(done.author, committee);
    }

    function SkipSlot(epoch: int64): set<object>
      reads this
    {
      if epoch in skipAggreator then {skipAggreator[epoch]} else {}
    }

    /** `addSkipVote`: a skip share for an epoch absent from the skip map goes
        to a fresh aggregator, which replaces the epoch's done aggregator. */
    method AddSkipVote(share: SkipShare) returns (reached: bool, err: bool)
      modifies this, SkipSlot(share.epoch)
      ensures skipAggreator == old(skipAggreator)
      ensures share.epoch in old(skipAggreator) ==>
        var item := old(skipAggreator)[share.epoch];
        && doneAggreator == old(doneAggreator)
        && (err <==> share.author in old(item.authors))
        && item.authors == old(item.authors) + {share.author}
        && (reached <==> !err && |item.authors| == HightThreshold(committee))
      ensures share.epoch !in old(skipAggreator) ==>
        && share.epoch in doneAggreator
        && doneAggreator == old(doneAggreator)[share.epoch := doneAggreator[share.epoch]]
        && fresh(doneAggreator[share.epoch])
        && doneAggreator[share.epoch].authors == {share.author}
        && !err && (reached <==> HightThreshold(committee) == 1)
      ensures old(Valid()) ==> Valid() && !err && (reached <==> HightThreshold(committee) == 1)
      ensures old(Valid()) && Size(committee) >= 4 ==> !reached
    {
      SkipQuorumAboveOne(committee);
      var item: NormalAggreator;
      if share.epoch in skipAggreator {
        item := skipAggreator[share.epoch];
      } else {
        item := new NormalAggreator();
        doneAggreator := doneAggreator[share.epoch := item];
      }
      reached, err := item.Append(share.author, committee);
    }
  }

  /** With four or more nodes HightThreshold is at least 3. */
  lemma SkipQuorumAboveOne(committee: Committee)
    ensures Size(committee) >= 4 ==> HightThreshold(committee) >= 3
  {
    if Size(committee) >= 4 {
      assert GoInt.Quot(Size(committee) - 1, 3) >= 1;
    }
  }
}
