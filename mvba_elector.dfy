/** core/mvba/consensus/elector.go: the MVBA leader election. Election shares
    of an epoch are collected; at exactly HightThreshold shares they are
    combined into a coin whose first bytes seed a pseudo-random generator, and
    the leader of round r >= 1 is the r-th draw of that generator modulo the
    committee size, generated on demand and memoised. The generator (Go's
    math/rand) is an input function: `prng(seed, k)` is the k-th draw, counting
    from 0, of a generator seeded with `seed`. */
module MvbaElector {
  import opened GoInt
  import opened Wrappers
  import opened Bytes
  import opened Committee
  import Crypto
  import MvbaMessage

  const RANDOM_LEN := 7

  type Prng = (int64, nat) -> uint64

  /** The threshold-combined signature of the shares, `None` when combining fails. */
  type Combiner = seq<Crypto.SignatureShare> -> Option<seq<byte>>

  /** A seeded generator and the number of values drawn from it. */
  datatype Gen = Gen(seed: int64, drawn: nat)

  function Min(a: int, b: int): int { if a < b then a else b }

  /** The seed made from a coin: its first RANDOM_LEN bytes (all of them when it
      is shorter), most significant first. */
  function Seed(data: seq<byte>): (seed: nat)
    ensures seed < 0x100_0000_0000_0000
  {
    FromBEBound(data[..Min(|data|, RANDOM_LEN)]);
    SevenBytes(Min(|data|, RANDOM_LEN));
    FromBE(data[..Min(|data|, RANDOM_LEN)])
  }

  lemma SevenBytes(k: nat)
    requires k <= RANDOM_LEN
    ensures Pow256(k) <= 0x100_0000_0000_0000
  {
    assert Pow256(7) == 0x100_0000_0000_0000;
    if k < 7 {
      PowMonotone(k, 7);
    }
  }

  lemma {:induction false} PowMonotone(i: nat, j: nat)
    requires i <= j
    ensures Pow256(i) <= Pow256(j)
    decreases j - i
  {
    if i < j {
      PowMonotone(i, j - 1);
    }
  }

  /** The seed loop of `addElectShare`: `seed = seed<<8 + int64(data[i])` over
      the first bytes; seven bytes never overflow an int64. */
  method FoldSeed(data: seq<byte>) returns (seed: int64)
    ensures seed == Seed(data)
  {
    seed := 0;
    var i := 0;
    while i < |data| && i < RANDOM_LEN
      invariant 0 <= i <= Min(|data|, RANDOM_LEN)
      invariant seed as int == FromBE(data[..i])
    {
      FromBEBound(data[..i + 1]);
      SevenBytes(i + 1);
      assert data[..i + 1][..i] == data[..i];
      seed := seed * 256 + data[i] as int64;
      i := i + 1;
    }
  }

  /** A draw modulo the committee size: a valid index below the size. */
  function Reduce(draw: uint64, size: int): (node: nat)
    requires size > 0
    ensures node < size && node <= draw as int
    ensures node == draw as int % size
  {
    ModAtMost(draw as int, size);
    draw as int % size
  }

  /** A counter of the map, zero when absent. */
  function CountOf(cnt: map<int64, int>, e: int64): int
  {
    if e in cnt then cnt[e] else 0
  }

  function DrawnOf(prng: Prng, size: int, seed: int64, round: int): int
    requires round >= 1
  {
    if size == 0 then 0 else prng(seed, round - 1) as int % size
  }

  /** Generators exist exactly for the seeded epochs, each with its seed. */
  ghost predicate GensMatch(seeds: map<int64, int64>, gens: map<int64, Gen>)
  {
    forall e :: (e in gens <==> e in seeds) && (e in gens ==> gens[e].seed == seeds[e])
  }

  /** Counters and leader tables exist only for seeded epochs, the number of
      values drawn from a generator is its counter, and only rounds 1 ..
      counter have a leader. */
  ghost predicate Tracked(gens: map<int64, Gen>, cnt: map<int64, int>, leaders: map<int64, map<int64, NodeID>>)
  {
    && (forall e :: e in cnt ==> e in gens && cnt[e] >= 0)
    && (forall e :: e in leaders ==> e in gens)
    && (forall e :: e in gens ==> gens[e].drawn == CountOf(cnt, e))
    && RoundsCounted(cnt, leaders)
  }

  /** Only rounds 1 .. counter of an epoch have a leader. */
  ghost predicate RoundsCounted(cnt: map<int64, int>, leaders: map<int64, map<int64, NodeID>>)
  {
    forall e, k :: e in leaders && k in leaders[e] ==> 1 <= k as int <= CountOf(cnt, e)
  }

  /** Round `k` of the seeded epoch `e` has draw k - 1 as its leader. */
  ghost predicate Recorded(prng: Prng, size: int, seeds: map<int64, int64>,
                           leaders: map<int64, map<int64, NodeID>>, e: int64, k: int64)
    requires e in seeds && k >= 1
  {
    e in leaders && k in leaders[e] && leaders[e][k] as int == DrawnOf(prng, size, seeds[e], k as int)
  }

  /** Rounds 1 .. counter of every seeded epoch have the draw as leader. */
  ghost predicate AllDrawn(prng: Prng, size: int, seeds: map<int64, int64>, cnt: map<int64, int>,
                           leaders: map<int64, map<int64, NodeID>>)
  {
    forall e, k: int64 :: e in seeds && 1 <= k as int <= CountOf(cnt, e) ==>
      Recorded(prng, size, seeds, leaders, e, k)
  }

  /** Seeding an epoch with no draws keeps every recorded draw. */
  lemma SeedKeepsDrawn(prng: Prng, size: int, seeds: map<int64, int64>, cnt: map<int64, int>,
                       leaders: map<int64, map<int64, NodeID>>, epoch: int64, seeds': map<int64, int64>)
    requires AllDrawn(prng, size, seeds, cnt, leaders) && CountOf(cnt, epoch) == 0
    requires epoch in seeds' && seeds == seeds' - {epoch}
    ensures AllDrawn(prng, size, seeds', cnt, leaders)
  {
    forall e, k: int64 | e in seeds' && 1 <= k as int <= CountOf(cnt, e)
      ensures Recorded(prng, size, seeds', leaders, e, k)
    {
      assert e != epoch && Recorded(prng, size, seeds, leaders, e, k);
    }
  }

  /** Writing back an epoch's own counter changes nothing that is recorded. */
  lemma RecountKeepsDrawn(prng: Prng, size: int, seeds: map<int64, int64>, cnt: map<int64, int>,
                          leaders: map<int64, map<int64, NodeID>>, epoch: int64)
    requires AllDrawn(prng, size, seeds, cnt, leaders) && RoundsCounted(cnt, leaders)
    ensures AllDrawn(prng, size, seeds, cnt[epoch := CountOf(cnt, epoch)], leaders)
    ensures RoundsCounted(cnt[epoch := CountOf(cnt, epoch)], leaders)
  {
    var cnt' := cnt[epoch := CountOf(cnt, epoch)];
    forall e, k: int64 | e in seeds && 1 <= k as int <= CountOf(cnt', e)
      ensures Recorded(prng, size, seeds, leaders, e, k)
    {
      assert CountOf(cnt', e) == CountOf(cnt, e);
    }
  }

  /** Recording draw c + 1 of an epoch whose counter is c keeps both invariants
      with the counter raised to c + 1. */
  lemma DrawKeepsDrawn(prng: Prng, size: int, seeds: map<int64, int64>, gens: map<int64, Gen>, cnt: map<int64, int>,
                       leaders: map<int64, map<int64, NodeID>>, epoch: int64, leader: NodeID,
                       gens': map<int64, Gen>, cnt': map<int64, int>, leaders': map<int64, map<int64, NodeID>>)
    requires GensMatch(seeds, gens) && Tracked(gens, cnt, leaders) && AllDrawn(prng, size, seeds, cnt, leaders)
    requires epoch in seeds && CountOf(cnt, epoch) < 0x7FFF_FFFF_FFFF_FFFF
    requires leader as int == DrawnOf(prng, size, seeds[epoch], CountOf(cnt, epoch) + 1)
    requires gens' == gens[epoch := Gen(seeds[epoch], CountOf(cnt, epoch) + 1)]
    requires cnt' == cnt[epoch := CountOf(cnt, epoch) + 1]
    requires leaders' == leaders[epoch := (if epoch in leaders then leaders[epoch] else map[])[(CountOf(cnt, epoch) + 1) as int64 := leader]]
    ensures GensMatch(seeds, gens') && Tracked(gens', cnt', leaders') && AllDrawn(prng, size, seeds, cnt', leaders')
    ensures forall e, k :: e in leaders && k in leaders[e] ==> e in leaders' && k in leaders'[e] && leaders'[e][k] == leaders[e][k]
  {
    DrawKeepsRecorded(prng, size, seeds, cnt, leaders, epoch, leader, cnt', leaders');
    DrawKeepsCounted(cnt, leaders, epoch, leader, cnt', leaders');
  }

  /** The draws recorded before, and the new one, are all recorded after. */
  lemma DrawKeepsRecorded(prng: Prng, size: int, seeds: map<int64, int64>, cnt: map<int64, int>,
                          leaders: map<int64, map<int64, NodeID>>, epoch: int64, leader: NodeID,
                          cnt': map<int64, int>, leaders': map<int64, map<int64, NodeID>>)
    requires AllDrawn(prng, size, seeds, cnt, leaders)
    requires epoch in seeds && 0 <= CountOf(cnt, epoch) < 0x7FFF_FFFF_FFFF_FFFF
    requires leader as int == DrawnOf(prng, size, seeds[epoch], CountOf(cnt, epoch) + 1)
    requires cnt' == cnt[epoch := CountOf(cnt, epoch) + 1]
    requires leaders' == leaders[epoch := (if epoch in leaders then leaders[epoch] else map[])[(CountOf(cnt, epoch) + 1) as int64 := leader]]
    ensures AllDrawn(prng, size, seeds, cnt', leaders')
  {
    var c := CountOf(cnt, epoch);
    forall e, k: int64 | e in seeds && 1 <= k as int <= CountOf(cnt', e)
      ensures Recorded(prng, size, seeds, leaders', e, k)
    {
      if e != epoch || k as int != c + 1 {
        assert Recorded(prng, size, seeds, leaders, e, k);
      }
    }
  }

  /** The new round is the only one added, and it is the new counter. */
  lemma DrawKeepsCounted(cnt: map<int64, int>, leaders: map<int64, map<int64, NodeID>>, epoch: int64, leader: NodeID,
                         cnt': map<int64, int>, leaders': map<int64, map<int64, NodeID>>)
    requires RoundsCounted(cnt, leaders) && CountOf(cnt, epoch) >= 0 && CountOf(cnt, epoch) < 0x7FFF_FFFF_FFFF_FFFF
    requires cnt' == cnt[epoch := CountOf(cnt, epoch) + 1]
    requires leaders' == leaders[epoch := (if epoch in leaders then leaders[epoch] else map[])[(CountOf(cnt, epoch) + 1) as int64 := leader]]
    ensures RoundsCounted(cnt', leaders')
    ensures forall e, k :: e in leaders && k in leaders[e] ==> e in leaders' && k in leaders'[e] && leaders'[e][k] == leaders[e][k]
  {
    var c := CountOf(cnt, epoch);
    var inner := if epoch in leaders then leaders[epoch] else map[];
    assert (c + 1) as int64 !in inner;
    forall e, k | e in leaders' && k in leaders'[e] ensures 1 <= k as int <= CountOf(cnt', e) {
      if e != epoch || k as int != c + 1 {
        assert e in leaders && k in leaders[e];
      }
    }
  }

  class Elector {
    const committee: Committee
    const prng: Prng
    var seeds: map<int64, int64>
    var randGen: map<int64, Gen>
    var randCnt: map<int64, int>
    var leaders: map<int64, map<int64, NodeID>>
    var used: map<int64, set<NodeID>>
    var electShares: map<int64, seq<Crypto.SignatureShare>>

    /** `randCnt[epoch]`, zero when absent. */
    function RandCnt(epoch: int64): int
      reads this`randCnt
    {
      CountOf(randCnt, epoch)
    }

    /** `leaders[epoch][round]`, the zero NodeID when either is absent. */
    function LeaderAt(epoch: int64, round: int64): NodeID
      reads this`leaders
    {
      if epoch in leaders && round in leaders[epoch] then leaders[epoch][round] else 0
    }

    /** The leader of round r >= 1 of a seeded epoch: draw r - 1 modulo the size. */
    function Drawn(seed: int64, round: int): int
      requires round >= 1
    {
      DrawnOf(prng, Size(committee), seed, round)
    }

    /** `used` is never filled. */
    ghost predicate UsedEmpty()
      reads this`used
    {
      forall e :: e in used ==> used[e] == {}
    }

    ghost predicate SeedsMatch()
      reads this`randGen, this`seeds
    {
      GensMatch(seeds, randGen)
    }

    /** A generator exists only once the epoch's shares reached the threshold. */
    ghost predicate SeededAfterThreshold()
      reads this`randGen, this`electShares
    {
      forall e :: e in randGen ==> e in electShares && |electShares[e]| >= HightThreshold(committee)
    }

    /** Counters and leader tables exist only for seeded epochs, and the number
        of values drawn is the counter. */
    ghost predicate CountsTracked()
      reads this`randGen, this`randCnt, this`leaders
    {
      Tracked(randGen, randCnt, leaders)
    }

    /** Every draw made so far is the leader of the round it was made for. */
    ghost predicate DrawsRecorded()
      reads this`randCnt, this`leaders, this`seeds
    {
      AllDrawn(prng, Size(committee), seeds, randCnt, leaders)
    }

    ghost predicate Valid()
      reads this`used, this`seeds, this`randGen, this`randCnt, this`leaders, this`electShares
    {
      && 1 <= Size(committee) <= 0x8000_0000_0000_0000
      && UsedEmpty() && SeedsMatch() && SeededAfterThreshold() && CountsTracked() && DrawsRecorded()
    }

    constructor (committee: Committee, prng: Prng)
      requires 1 <= Size(committee) <= 0x8000_0000_0000_0000
      ensures Valid() && this.committee == committee && this.prng == prng
      ensures seeds == map[] && randGen == map[] && randCnt == map[] && leaders == map[]
      ensures used == map[] && electShares == map[]
    {
      this.committee := committee;
      this.prng := prng;
      seeds := map[];
      randGen := map[];
      randCnt := map[];
      leaders := map[];
      used := map[];
      electShares := map[];
    }

    /** `addElectShare`: the duplicate check reads `used`, which stays empty,
        so every share is appended; at exactly HightThreshold shares the coin
        seeds the epoch's generator. */
    method AddElectShare(combine: Combiner, share: MvbaMessage.ElectShare) returns (seeded: bool, err: bool)
      requires Valid()
      modifies this`used, this`electShares, this`seeds, this`randGen
      ensures Valid()
      ensures electShares == old(electShares)[share.epoch := old(SharesOf(share.epoch)) + [share.share]]
      ensures var shares := old(SharesOf(share.epoch)) + [share.share];
        && (seeded <==> |shares| == HightThreshold(committee) && combine(shares).Some?)
        && (err <==> |shares| == HightThreshold(committee) && combine(shares).None?)
        && (seeded ==>
              seeds == old(seeds)[share.epoch := Seed(combine(shares).value)]
              && randGen == old(randGen)[share.epoch := Gen(Seed(combine(shares).value), 0)])
        && (!seeded ==> seeds == old(seeds) && randGen == old(randGen))
    {
      if share.epoch !in used {
        used := used[share.epoch := {}];
      }
      var shares := AppendShare(share);
      if |shares| == HightThreshold(committee) {
        var data := combine(shares);
        if data.None? {
          return false, true;
        }
        var seed := FoldSeed(data.value);
        AddSeed(share.epoch, seed);
        return true, false;
      }
      return false, false;
    }

    /** `electShares[epoch]`, empty when absent. */
    function SharesOf(epoch: int64): seq<Crypto.SignatureShare>
      reads this`electShares
    {
      if epoch in electShares then electShares[epoch] else []
    }

    /** The duplicate check and the append of `addElectShare`. The check reads
        `used`, which is never filled, so it never rejects. */
    method AppendShare(share: MvbaMessage.ElectShare) returns (shares: seq<Crypto.SignatureShare>)
      requires Valid() && share.epoch in used
      modifies this`electShares
      ensures Valid()
      ensures shares == old(SharesOf(share.epoch)) + [share.share]
      ensures electShares == old(electShares)[share.epoch := shares]
      ensures |shares| == HightThreshold(committee) ==> share.epoch !in randGen
    {
      shares := SharesOf(share.epoch);
      if share.author in used[share.epoch] {
        assert false;
      }
      shares := shares + [share.share];
      electShares := electShares[share.epoch := shares];
    }

    /** `addSeed`: record the seed and a fresh generator for the epoch. */
    method AddSeed(epoch: int64, seed: int64)
      requires SeedsMatch() && CountsTracked() && DrawsRecorded()
      requires epoch !in randGen
      modifies this`seeds, this`randGen
      ensures SeedsMatch() && CountsTracked() && DrawsRecorded()
      ensures seeds == old(seeds)[epoch := seed] && randGen == old(randGen)[epoch := Gen(seed, 0)]
    {
      assert epoch !in randCnt && epoch !in seeds;
      SeedKeepsDrawn(prng, Size(committee), seeds, randCnt, leaders, epoch, seeds[epoch := seed]);
      seeds := seeds[epoch := seed];
      randGen := randGen[epoch := Gen(seed, 0)];
    }

    /** `Leader(epoch, round)`: NONE before the epoch is seeded; otherwise the
        generator is drawn until round `round` has a leader, and the leader of
        round r >= 1 is draw r - 1 modulo the size. Round 0 and negative rounds
        are never generated and read as the zero NodeID. */
    method Leader(epoch: int64, round: int64) returns (l: NodeID)
      requires Valid()
      modifies this`randGen, this`leaders, this`randCnt
      ensures Valid()
      ensures epoch !in old(randGen) ==> l == NONE && leaders == old(leaders) && randCnt == old(randCnt)
      ensures epoch in old(randGen) && round >= 1 ==> epoch in seeds && l as int == Drawn(seeds[epoch], round as int)
      ensures epoch in old(randGen) && round < 1 ==> l == 0
      ensures epoch in old(randGen) ==> RandCnt(epoch) == if round > old(RandCnt(epoch)) then round as int else old(RandCnt(epoch))
      ensures RandCnt(epoch) >= old(RandCnt(epoch))
      ensures forall e, k :: e in old(leaders) && k in old(leaders)[e] ==> e in leaders && k in leaders[e] && leaders[e][k] == old(leaders)[e][k]
    {
      if epoch !in randGen {
        return NONE;
      }
      var cnt := RandCnt(epoch);
      if round as int < cnt {
        if round >= 1 {
          assert Recorded(prng, Size(committee), seeds, leaders, epoch, round);
        }
        return LeaderAt(epoch, round);
      }
      while cnt < round as int
        invariant Valid()
        invariant epoch in randGen && cnt == RandCnt(epoch)
        invariant old(RandCnt(epoch)) <= cnt <= round as int
        invariant forall e, k :: e in old(leaders) && k in old(leaders)[e] ==> e in leaders && k in leaders[e] && leaders[e][k] == old(leaders)[e][k]
        decreases round as int - cnt
      {
        DrawNext(epoch);
        cnt := cnt + 1;
      }
      StoreCount(epoch, cnt);
      if round >= 1 {
        assert Recorded(prng, Size(committee), seeds, leaders, epoch, round);
      }
      return LeaderAt(epoch, round);
    }

    /** The write `randCnt[epoch] = cnt` that ends `Leader`; `cnt` is already
        the counter, so only a missing entry can be added. */
    method StoreCount(epoch: int64, cnt: int)
      requires Valid() && epoch in randGen && cnt == RandCnt(epoch)
      modifies this`randCnt
      ensures Valid() && randCnt == old(randCnt)[epoch := cnt]
      ensures forall e :: RandCnt(e) == old(RandCnt(e))
    {
      RecountKeepsDrawn(prng, Size(committee), seeds, randCnt, leaders, epoch);
      randCnt := randCnt[epoch := cnt];
    }

    /** One iteration of the loop in `Leader`: draw the next value from the
        epoch's generator and record it, modulo the size, as the leader of the
        next round (the `addLeader` write is inlined). */
    method DrawNext(epoch: int64)
      requires Valid() && epoch in randGen
      requires RandCnt(epoch) < 0x7FFF_FFFF_FFFF_FFFF
      modifies this`randGen, this`leaders, this`randCnt
      ensures Valid()
      ensures epoch in randGen && RandCnt(epoch) == old(RandCnt(epoch)) + 1
      ensures forall e :: e != epoch ==> RandCnt(e) == old(RandCnt(e))
      ensures forall e, k :: e in old(leaders) && k in old(leaders)[e] ==> e in leaders && k in leaders[e] && leaders[e][k] == old(leaders)[e][k]
    {
      var gen := randGen[epoch];
      var cnt := RandCnt(epoch);
      var draw := prng(gen.seed, gen.drawn);
      var leader := Reduce(draw, Size(committee));
      ghost var gens0, cnt0, leaders0 := randGen, randCnt, leaders;
      randGen := randGen[epoch := Gen(gen.seed, gen.drawn + 1)];
      var inner: map<int64, NodeID> := if epoch in leaders then leaders[epoch] else map[];
      leaders := leaders[epoch := inner[(cnt + 1) as int64 := leader as NodeID]];
      randCnt := randCnt[epoch := cnt + 1];
      DrawKeepsDrawn(prng, Size(committee), seeds, gens0, cnt0, leaders0, epoch, leader as NodeID, randGen, randCnt, leaders);
    }
  }
}
