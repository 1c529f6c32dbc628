/** core/config.go: the committee of authorities and its quorum thresholds. */
module Committee {
  import GoInt
  import Crypto

  /** A node identifier (Go `int`, 64 bits wide). */
  type NodeID = GoInt.int64

  /** The "no node" identifier. */
  const NONE: NodeID := -1

  datatype Authority = Authority(name: Crypto.PublicKey, id: NodeID, addr: string)

  datatype Committee = Committee(authorities: map<NodeID, Authority>)

  function Size(c: Committee): (n: nat)
    ensures n == 0 <==> c.authorities == map[]
    ensures forall id :: id in c.authorities ==> n >= 1
  {
    |c.authorities|
  }

  /** `2*((n-1)/3) + 1` with Go's truncating division. */
  function HightThreshold(c: Committee): (h: int)
    ensures Size(c) >= 1 ==> 1 <= h <= Size(c)
    ensures Size(c) == 0 ==> h == 1
  {
    var n := Size(c);
    2 * GoInt.Quot(n - 1, 3) + 1
  }

  /** `(n-1)/3 + 1` with Go's truncating division. */
  function LowThreshold(c: Committee): (l: int)
    ensures Size(c) >= 1 ==> 1 <= l <= HightThreshold(c)
    ensures Size(c) == 0 ==> l == 1
  {
    var n := Size(c);
    GoInt.Quot(n - 1, 3) + 1
  }

  /** With f the largest integer such that 3f+1 <= n, the thresholds are 2f+1 and f+1. */
  lemma ThresholdsAreQuorums(c: Committee, f: nat)
    requires 3 * f + 1 <= Size(c) < 3 * f + 4
    ensures HightThreshold(c) == 2 * f + 1
    ensures LowThreshold(c) == f + 1
    ensures HightThreshold(c) == 2 * LowThreshold(c) - 1
  {
    var n := Size(c);
    var q := GoInt.Quot(n - 1, 3);
    assert q == f by {
      var r := n - 1 - q * 3;
      assert 0 <= r < 3;
    }
  }

  /** For n = 3f+1, two sets of HightThreshold members out of n share at least
      LowThreshold members, that is at least one correct node when f are faulty. */
  lemma QuorumIntersection(c: Committee, f: nat)
    requires Size(c) == 3 * f + 1
    ensures 2 * HightThreshold(c) - Size(c) == LowThreshold(c)
    ensures LowThreshold(c) == f + 1
  {
    ThresholdsAreQuorums(c, f);
  }

  /** `Name` of an unknown id is the zero key. */
  function Name(c: Committee, id: NodeID): (k: Crypto.PublicKey)
    ensures id in c.authorities ==> k == c.authorities[id].name
    ensures id !in c.authorities ==> k == Crypto.PublicKey([])
  {
    if id in c.authorities then c.authorities[id].name else Crypto.PublicKey([])
  }

  /** `Address` of an unknown id is the empty string. */
  function Address(c: Committee, id: NodeID): (a: string)
    ensures id in c.authorities ==> a == c.authorities[id].addr
    ensures id !in c.authorities ==> a == ""
  {
    if id in c.authorities then c.authorities[id].addr else ""
  }

  predicate HasName(c: Committee, id: NodeID, name: Crypto.PublicKey)
  {
    id in c.authorities && c.authorities[id].name == name
  }

  /** `ID` walks the map in an unspecified order and returns the first id whose key matches. */
  method ID(c: Committee, name: Crypto.PublicKey) returns (id: NodeID)
    ensures (exists k :: HasName(c, k, name)) ==> HasName(c, id, name)
    ensures (forall k :: !HasName(c, k, name)) ==> id == NONE
  {
    var rest := c.authorities.Keys;
    while rest != {}
      invariant rest <= c.authorities.Keys
      invariant forall k :: k in c.authorities.Keys - rest ==> !HasName(c, k, name)
      decreases |rest|
    {
      var k :| k in rest;
      if c.authorities[k].name == name {
        assert HasName(c, k, name);
        return k;
      }
      rest := rest - {k};
    }
    return NONE;
  }

  /** How many authorities among `ks`, other than `id`, have address `a`. */
  ghost function Matching(c: Committee, ks: set<NodeID>, id: NodeID, a: string): set<NodeID>
  {
    set k: NodeID | k in ks && k in c.authorities && k != id && c.authorities[k].addr == a
  }

  ghost function AddrCount(c: Committee, ks: set<NodeID>, id: NodeID, a: string): nat
  {
    |Matching(c, ks, id, a)|
  }

  lemma AddrCountAdd(c: Committee, ks: set<NodeID>, k: NodeID, id: NodeID, a: string)
    requires k !in ks && k in c.authorities
    ensures AddrCount(c, ks + {k}, id, a)
         == AddrCount(c, ks, id, a) + (if k != id && c.authorities[k].addr == a then 1 else 0)
  {
    var before := Matching(c, ks, id, a);
    var after := Matching(c, ks + {k}, id, a);
    if k != id && c.authorities[k].addr == a {
      assert after == before + {k};
    } else {
      assert after == before;
    }
  }

  /** `addrs` holds the addresses of the authorities in `done` other than `id`. */
  ghost predicate Collected(c: Committee, id: NodeID, done: set<NodeID>, addrs: seq<string>)
  {
    && (forall a :: multiset(addrs)[a] == AddrCount(c, done, id, a))
    && |addrs| == |done - {id}|
  }

  lemma CollectedStep(c: Committee, id: NodeID, done: set<NodeID>, k: NodeID, addrs: seq<string>)
    requires k !in done && k in c.authorities
    requires Collected(c, id, done, addrs)
    ensures Collected(c, id, done + {k}, if k != id then addrs + [c.authorities[k].addr] else addrs)
  {
    var next := if k != id then addrs + [c.authorities[k].addr] else addrs;
    forall a
      ensures multiset(next)[a] == AddrCount(c, done + {k}, id, a)
    {
      AddrCountAdd(c, done, k, id, a);
    }
    OthersStep(done, k, id);
  }

  lemma OthersStep(done: set<NodeID>, k: NodeID, id: NodeID)
    requires k !in done
    ensures |(done + {k}) - {id}| == |done - {id}| + (if k != id then 1 else 0)
  {
    if k != id {
      assert (done + {k}) - {id} == (done - {id}) + {k};
    } else {
      assert (done + {k}) - {id} == done - {id};
    }
  }

  /** One step of the walk: `k`'s address joins unless `k` is `id`. */
  method Collect(c: Committee, id: NodeID, ghost done: set<NodeID>, k: NodeID, addrs: seq<string>) returns (next: seq<string>)
    requires k !in done && k in c.authorities
    requires Collected(c, id, done, addrs)
    ensures Collected(c, id, done + {k}, next)
  {
    CollectedStep(c, id, done, k, addrs);
    next := if k != id then addrs + [c.authorities[k].addr] else addrs;
  }

  /** `BroadCast(id)`: the addresses of every other authority. The order is the
      map's iteration order, so only the multiset of addresses is specified: each
      address occurs once per authority other than `id` that has it. */
  method BroadCast(c: Committee, id: NodeID) returns (addrs: seq<string>)
    ensures forall a :: multiset(addrs)[a] == AddrCount(c, c.authorities.Keys, id, a)
    ensures |addrs| == |c.authorities.Keys - {id}|
  {
    addrs := [];
    var rest := c.authorities.Keys;
    ghost var done: set<NodeID> := {};
    while rest != {}
      invariant rest !! done && rest + done == c.authorities.Keys
      invariant Collected(c, id, done, addrs)
      decreases |rest|
    {
      var k :| k in rest;
      addrs := Collect(c, id, done, k, addrs);
      rest := rest - {k};
      done := done + {k};
    }
    assert done == c.authorities.Keys;
  }
}
