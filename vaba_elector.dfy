/** core/vaba/consensus/elector.go: the VABA leader table and the election-share
    aggregator. The aggregator's check of the combine error is inverted: a
    successful combine returns NONE, and a failed one indexes the missing coin,
    which panics. So the aggregator never yields a leader. */
module VabaElector {
  import opened GoInt
  import opened Wrappers
  import opened Committee
  import Crypto

  datatype ElectShare = ElectShare(author: NodeID, epoch: int64, sigShare: Crypto.SignatureShare)

  /** What `ElectAggreator.Append` does: return a node and an error flag, or
      panic on the index into a missing coin. */
  datatype Outcome = Returned(node: NodeID, err: bool) | IndexPanic

  /** The threshold-combined signature of the shares, `None` when combining fails. */
  type Combiner = seq<Crypto.SignatureShare> -> Option<seq<byte>>

  class ElectAggreator {
    var shares: seq<Crypto.SignatureShare>
    var authors: set<NodeID>

    ghost predicate Valid()
      reads this
    {
      |shares| == |authors|
    }

    constructor ()
      ensures Valid() && shares == [] && authors == {}
    {
      shares := [];
      authors := {};
    }

    /** A repeated author is an error. Otherwise the share is collected; at
        exactly HightThreshold shares a successful combine returns NONE and a
        failed one panics; below or above it, NONE. */
    method Append(committee: Committee, combine: Combiner, elect: ElectShare) returns (r: Outcome)
      requires Valid()
      modifies this
      ensures Valid()
      ensures elect.author in old(authors) ==>
        r == Returned(NONE, true) && shares == old(shares) && authors == old(authors)
      ensures elect.author !in old(authors) ==>
        authors == old(authors) + {elect.author} && shares == old(shares) + [elect.sigShare]
      ensures elect.author !in old(authors) ==>
        (r == IndexPanic <==> |shares| == HightThreshold(committee) && combine(shares).None?)
      ensures r.Returned? ==> r.node == NONE
    {
      if elect.author in authors {
        return Returned(NONE, true);
      }
      authors := authors + {elect.author};
      shares := shares + [elect.sigShare];
      if |shares| == HightThreshold(committee) {
        var coin := combine(shares);
        if coin.Some? {
          return Returned(NONE, false);
        }
        return IndexPanic;
      }
      return Returned(NONE, false);
    }
  }

  class Elector {
    const committee: Committee
    var leaders: map<int64, NodeID>
    var electAggreators: map<int64, ElectAggreator>

    /** Every stored aggregator keeps one share per author. */
    ghost predicate Valid()
      reads this, set e | e in electAggreators :: electAggreators[e]
    {
      forall e :: e in electAggreators ==> electAggreators[e].Valid()
    }

    constructor (committee: Committee)
      ensures Valid() && this.committee == committee
      ensures leaders == map[] && electAggreators == map[]
    {
      this.committee := committee;
      leaders := map[];
      electAggreators := map[];
    }

    method SetLeader(epoch: int64, leader: NodeID)
      modifies this
      ensures leaders == old(leaders)[epoch := leader]
      ensures electAggreators == old(electAggreators)
    {
      leaders := leaders[epoch := leader];
    }

    /** The last leader set for the epoch, or NONE. */
    function Leader(epoch: int64): (l: NodeID)
      reads this
      ensures epoch in leaders ==> l == leaders[epoch]
      ensures epoch !in leaders ==> l == NONE
    {
      if epoch in leaders then leaders[epoch] else NONE
    }

    function Slot(epoch: int64): set<object>
      reads this
    {
      if epoch in electAggreators then {electAggreators[epoch]} else {}
    }

    /** `AddShareVote`: one aggregator per epoch, created on first share. An
        aggregator error becomes NONE without an error; a node other than NONE
        would be recorded as the epoch's leader, but none is ever returned. */
    method AddShareVote(combine: Combiner, share: ElectShare) returns (r: Outcome)
      requires Valid()
      modifies this, Slot(share.epoch)
      ensures Valid()
      ensures share.epoch in electAggreators
      ensures var item := electAggreators[share.epoch];
        && electAggreators == old(electAggreators)[share.epoch := item]
        && (share.epoch in old(electAggreators) ==> item == old(electAggreators)[share.epoch])
        && (share.epoch !in old(electAggreators) ==> fresh(item))
      ensures var item := electAggreators[share.epoch];
        var known := share.epoch in old(electAggreators);
        var oldAuthors := if known then old(electAggreators[share.epoch].authors) else {};
        var oldShares := if known then old(electAggreators[share.epoch].shares) else [];
        var repeated := share.author in oldAuthors;
        && item.authors == oldAuthors + {share.author}
        && item.shares == oldShares + (if repeated then [] else [share.sigShare])
        && (r == IndexPanic <==> !repeated && |item.shares| == HightThreshold(committee) && combine(item.shares).None?)
      ensures r.Returned? ==> r == Returned(NONE, false)
      ensures leaders == old(leaders)
    {
      var item: ElectAggreator;
      if share.epoch in electAggreators {
        item := electAggreators[share.epoch];
      } else {
        item := new ElectAggreator();
        electAggreators := electAggreators[share.epoch := item];
      }
      var a := item.Append(committee, combine, share);
      if a.IndexPanic? {
        return IndexPanic;
      }
      if a.err {
        return Returned(NONE, false);
      }
      if a.node != NONE {
        // The source records the node as the epoch's leader here; the
        // aggregator never returns one, so this branch is unreachable.
        assert false;
      }
      return Returned(a.node, false);
    }
  }
}
