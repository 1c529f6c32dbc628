/** core/mvba/consensus/aba.go: one asynchronous binary agreement instance of
    an MVBA epoch and round, driven one message at a time. Per in-round it
    counts ABAVal and ABAMux messages by flag, relays an ABAMux once a value
    has HightThreshold votes, decides the in-round's yes/no flags from the
    mux counts, sends its coin share on that decision, and on the coin either
    moves to the next in-round or halts. Everything the node sends or reports
    is appended to `out`. */
module MvbaAba {
  import opened GoInt
  import opened Wrappers
  import opened Committee
  import Crypto
  import opened MvbaMessage
  import opened Emitted

  const ABA_INVOKE := 0
  const ABA_HALT := 1

  /** The report on the ABA callback channel. */
  datatype ABABack = ABABack(typ: int, epoch: int64, exRound: int64, inRound: int64, flag: uint8, leader: NodeID)

  datatype Msg = ValMsg(v: ABAVal) | MuxMsg(m: ABAMux) | CoinMsg(c: CoinShare) | HaltMsg(h: ABAHalt)

  /** `Broadcast`: sent to every node and into the node's own receive channel;
      `Back`: pushed on the callback channel. */
  datatype Event = Broadcast(msg: Msg) | Back(back: ABABack)

  function MuxKey(e: Event): Option<int64>
  {
    if e.Broadcast? && e.msg.MuxMsg? then Some(e.msg.m.inRound) else None
  }

  function CoinKey(e: Event): Option<int64>
  {
    if e.Broadcast? && e.msg.CoinMsg? then Some(e.msg.c.inRound) else None
  }

  function InvokeKey(e: Event): Option<(int64, uint8)>
  {
    if e.Back? && e.back.typ == ABA_INVOKE then Some((e.back.inRound, e.back.flag)) else None
  }

  function HaltKey(e: Event): Option<bool>
  {
    if e.Back? && e.back.typ == ABA_HALT then Some(true) else None
  }

  /** A Go map read: the counter, zero when absent. */
  function Count(m: map<int64, nat>, i: int64): nat
  {
    if i in m then m[i] else 0
  }

  /** The counter after Go's `m[i]++`. */
  function Bump(m: map<int64, nat>, i: int64): (m': map<int64, nat>)
    ensures Count(m', i) == Count(m, i) + 1
    ensures forall j :: j != i ==> Count(m', j) == Count(m, j)
  {
    m[i := Count(m, i) + 1]
  }

  /** Which flags an in-round sets once its mux total reaches the threshold. */
  datatype Decision = Decision(yes: bool, no: bool)

  /** The flag rule of `ProcessABAMux`. A flag is set only with at least one
      mux for it, HightThreshold vals for it and HightThreshold muxes in all;
      both are set only when both values have HightThreshold vals; and a
      value with HightThreshold vals and muxes always gets its flag. */
  function MuxDecision(valYes: int, valNo: int, muxYes: int, muxNo: int, th: int): (d: Decision)
    requires valYes >= 0 && valNo >= 0 && muxYes >= 0 && muxNo >= 0 && th >= 1
    ensures d.yes ==> muxYes > 0 && valYes >= th && muxYes + muxNo >= th
    ensures d.no ==> muxNo > 0 && valNo >= th && muxYes + muxNo >= th
    ensures d.yes && d.no ==> valYes >= th && valNo >= th
    ensures valYes >= th && muxYes >= th ==> d.yes
    ensures valNo >= th && muxNo >= th ==> d.no
    ensures valYes >= th && valNo >= th && muxYes + muxNo >= th ==> d.yes || d.no
  {
    if muxYes + muxNo < th then Decision(false, false)
    else if valYes >= th && valNo >= th then Decision(muxYes > 0, muxNo > 0)
    else if valYes >= th && muxYes >= th then Decision(true, false)
    else if valNo >= th && muxNo >= th then Decision(false, true)
    else Decision(false, false)
  }

  /** The val counter of a flag; other flags are not counted. */
  function FlagCount(yes: map<int64, nat>, no: map<int64, nat>, i: int64, flag: uint8): int
  {
    if flag == FLAG_NO then Count(no, i) else if flag == FLAG_YES then Count(yes, i) else 0
  }

  ghost predicate Invoked(yes: map<int64, nat>, no: map<int64, nat>, low: int, p: (int64, uint8))
  {
    FlagCount(yes, no, p.0, p.1) >= low
  }

  /** Every invoked (in-round, flag) has reached `low` vals. */
  ghost predicate AllInvoked(yes: map<int64, nat>, no: map<int64, nat>, low: int, invoked: set<(int64, uint8)>)
  {
    forall p :: p in invoked ==> Invoked(yes, no, low, p)
  }

  /** Counters only grow, so the invoked pairs stay above the threshold. */
  lemma CountingKeepsInvoked(yes: map<int64, nat>, no: map<int64, nat>, low: int, invoked: set<(int64, uint8)>,
                             yes': map<int64, nat>, no': map<int64, nat>)
    requires AllInvoked(yes, no, low, invoked)
    requires forall i :: Count(yes, i) <= Count(yes', i)
    requires forall i :: Count(no, i) <= Count(no', i)
    ensures AllInvoked(yes', no', low, invoked)
  {
    forall p | p in invoked ensures Invoked(yes', no', low, p) {
      assert Invoked(yes, no, low, p);
    }
  }

  /** A pair that reached `low` may join the invoked pairs. */
  lemma InvokingKeepsInvoked(yes: map<int64, nat>, no: map<int64, nat>, low: int, invoked: set<(int64, uint8)>, p: (int64, uint8))
    requires AllInvoked(yes, no, low, invoked) && Invoked(yes, no, low, p)
    ensures AllInvoked(yes, no, low, invoked + {p})
  {
  }

  /** The branches of `ProcessABAMux` that set the in-round's flags. */
  method DecideFlags(valYes: int, valNo: int, muxYes: int, muxNo: int, th: int) returns (yes: bool, no: bool)
    requires valYes >= 0 && valNo >= 0 && muxYes >= 0 && muxNo >= 0 && th >= 1
    ensures Decision(yes, no) == MuxDecision(valYes, valNo, muxYes, muxNo, th)
  {
    yes, no := false, false;
    if muxYes + muxNo >= th {
      if valYes >= th && valNo >= th {
        if muxYes > 0 {
          yes := true;
        }
        if muxNo > 0 {
          no := true;
        }
      } else if valYes >= th && muxYes >= th {
        yes := true;
      } else if valNo >= th && muxNo >= th {
        no := true;
      }
    }
  }

  /** The once-only rules on the output: per in-round at most one mux relay
      and one coin share, per (in-round, value) at most one invoke report,
      and at most one halt report, only once halted. */
  ghost predicate OutOk(out: seq<Event>, muxFlag: set<int64>, muxFinFlag: set<int64>,
                        invoked: set<(int64, uint8)>, halt: bool)
  {
    && Once(out, MuxKey, muxFlag)
    && Once(out, CoinKey, muxFinFlag)
    && Once(out, InvokeKey, invoked)
    && Once(out, HaltKey, Flagged(halt))
  }

  /** The key sets after emitting `e`: a key of `e` must be new and is added;
      otherwise a set may only grow. */
  ghost predicate Records<K>(key: Event -> Option<K>, e: Event, used: set<K>, used': set<K>)
  {
    if key(e).Some? then key(e).value !in used && used' == used + {key(e).value} else used <= used'
  }

  /** Appending one event whose keys are recorded keeps the once-only rules. */
  lemma EmitKeepsOutOk(out: seq<Event>, muxFlag: set<int64>, muxFinFlag: set<int64>,
                       invoked: set<(int64, uint8)>, halt: bool, e: Event,
                       muxFlag': set<int64>, muxFinFlag': set<int64>, invoked': set<(int64, uint8)>, halt': bool)
    requires OutOk(out, muxFlag, muxFinFlag, invoked, halt)
    requires Records(MuxKey, e, muxFlag, muxFlag') && Records(CoinKey, e, muxFinFlag, muxFinFlag')
    requires Records(InvokeKey, e, invoked, invoked')
    requires Records(HaltKey, e, Flagged(halt), Flagged(halt'))
    ensures OutOk(out + [e], muxFlag', muxFinFlag', invoked', halt')
  {
    if MuxKey(e).Some? {
      AppendFresh(out, MuxKey, muxFlag, e, muxFlag');
    } else {
      AppendUnkeyed(out, MuxKey, muxFlag, e, muxFlag');
    }
    if CoinKey(e).Some? {
      AppendFresh(out, CoinKey, muxFinFlag, e, muxFinFlag');
    } else {
      AppendUnkeyed(out, CoinKey, muxFinFlag, e, muxFinFlag');
    }
    if InvokeKey(e).Some? {
      AppendFresh(out, InvokeKey, invoked, e, invoked');
    } else {
      AppendUnkeyed(out, InvokeKey, invoked, e, invoked');
    }
    if HaltKey(e).Some? {
      AppendFresh(out, HaltKey, Flagged(halt), e, Flagged(halt'));
    } else {
      AppendUnkeyed(out, HaltKey, Flagged(halt), e, Flagged(halt'));
    }
  }

  /** Reporting the first invoke of a value keeps the once-only rules. */
  lemma InvokeKeepsOutOk(out: seq<Event>, muxFlag: set<int64>, muxFinFlag: set<int64>,
                         invoked: set<(int64, uint8)>, halt: bool, b: ABABack)
    requires OutOk(out, muxFlag, muxFinFlag, invoked, halt)
    requires b.typ == ABA_INVOKE && (b.inRound, b.flag) !in invoked
    ensures OutOk(out + [Back(b)], muxFlag, muxFinFlag, invoked + {(b.inRound, b.flag)}, halt)
  {
    EmitKeepsOutOk(out, muxFlag, muxFinFlag, invoked, halt, Back(b),
                   muxFlag, muxFinFlag, invoked + {(b.inRound, b.flag)}, halt);
  }

  /** Broadcasting the first coin share of an in-round keeps the once-only rules. */
  lemma CoinShareKeepsOutOk(out: seq<Event>, muxFlag: set<int64>, muxFinFlag: set<int64>,
                            invoked: set<(int64, uint8)>, halt: bool, share: CoinShare)
    requires OutOk(out, muxFlag, muxFinFlag, invoked, halt) && share.inRound !in muxFinFlag
    ensures OutOk(out + [Broadcast(CoinMsg(share))], muxFlag, muxFinFlag + {share.inRound}, invoked, halt)
  {
    EmitKeepsOutOk(out, muxFlag, muxFinFlag, invoked, halt, Broadcast(CoinMsg(share)),
                   muxFlag, muxFinFlag + {share.inRound}, invoked, halt);
  }

  /** What the coin of an in-round leads to. */
  datatype CoinStep = NextRound(value: uint8) | Halt(value: uint8)

  /** The rule of `ProcessCoin`: with both flags or neither, the next in-round
      starts from the coin; with exactly one, the flagged value is kept, and
      the instance halts exactly when the coin agrees with it. */
  function CoinRule(okYes: bool, okNo: bool, coin: uint8): (r: CoinStep)
    ensures okYes == okNo ==> r == NextRound(coin)
    ensures okYes != okNo ==> r.value == (if okYes then FLAG_YES else FLAG_NO)
    ensures okYes != okNo ==> (r.Halt? <==> coin == r.value)
  {
    if okYes == okNo then NextRound(coin)
    else if (okYes && coin == FLAG_YES) || (okNo && coin == FLAG_NO) then Halt(coin)
    else if okYes then NextRound(FLAG_YES)
    else NextRound(FLAG_NO)
  }

  class ABA {
    const name: NodeID
    const committee: Committee
    const epoch: int64
    const exRound: int64
    var valYesCnt: map<int64, nat>
    var valNoCnt: map<int64, nat>
    var muxFlag: set<int64>
    var muxFinFlag: set<int64>
    var yesFlag: set<int64>
    var noFlag: set<int64>
    var muxYesCnt: map<int64, nat>
    var muxNoCnt: map<int64, nat>
    var halt: bool
    var out: seq<Event>
    /** The (in-round, flag) pairs an ABA_INVOKE was reported for. */
    ghost var invoked: set<(int64, uint8)>

    /** The val counter of a flag; other flags are not counted. */
    function ValCount(i: int64, flag: uint8): int
      reads this`valYesCnt, this`valNoCnt
    {
      FlagCount(valYesCnt, valNoCnt, i, flag)
    }

    /** An invoke was reported only for a value whose count reached LowThreshold. */
    ghost predicate InvokedCounted()
      reads this`valYesCnt, this`valNoCnt, this`invoked
    {
      AllInvoked(valYesCnt, valNoCnt, LowThreshold(committee), invoked)
    }

    /** Counting a val under its flag. */
    method CountVal(val: ABAVal) returns (cnt: int)
      requires InvokedCounted()
      modifies this`valYesCnt, this`valNoCnt
      ensures InvokedCounted()
      ensures valNoCnt == (if val.flag == FLAG_NO then Bump(old(valNoCnt), val.inRound) else old(valNoCnt))
      ensures valYesCnt == (if val.flag == FLAG_YES then Bump(old(valYesCnt), val.inRound) else old(valYesCnt))
      ensures cnt == ValCount(val.inRound, val.flag)
      ensures cnt == old(ValCount(val.inRound, val.flag)) + (if val.flag == FLAG_NO || val.flag == FLAG_YES then 1 else 0)
    {
      ghost var yes0, no0 := valYesCnt, valNoCnt;
      if val.flag == FLAG_NO {
        valNoCnt := Bump(valNoCnt, val.inRound);
        cnt := Count(valNoCnt, val.inRound);
      } else if val.flag == FLAG_YES {
        valYesCnt := Bump(valYesCnt, val.inRound);
        cnt := Count(valYesCnt, val.inRound);
      } else {
        cnt := 0;
      }
      CountingKeepsInvoked(yes0, no0, LowThreshold(committee), invoked, valYesCnt, valNoCnt);
    }

    /** Each in-round relays at most one mux, sends at most one coin share and
        reports at most one invoke per value; at most one halt is reported,
        and only once `halt` is set. The decided in-rounds are those with a
        yes or no flag. */
    ghost predicate Valid()
      reads this`valYesCnt, this`valNoCnt, this`invoked, this`muxFlag, this`muxFinFlag
      reads this`yesFlag, this`noFlag, this`halt, this`out
    {
      && InvokedCounted()
      && muxFinFlag == yesFlag + noFlag
      && OutOk(out, muxFlag, muxFinFlag, invoked, halt)
    }

    constructor (name: NodeID, committee: Committee, epoch: int64, exRound: int64)
      ensures Valid()
      ensures this.name == name && this.committee == committee && this.epoch == epoch && this.exRound == exRound
      ensures valYesCnt == map[] && valNoCnt == map[] && muxYesCnt == map[] && muxNoCnt == map[]
      ensures muxFlag == {} && muxFinFlag == {} && yesFlag == {} && noFlag == {}
      ensures !halt && out == []
    {
      this.name := name;
      this.committee := committee;
      this.epoch := epoch;
      this.exRound := exRound;
      valYesCnt := map[];
      valNoCnt := map[];
      muxFlag := {};
      muxFinFlag := {};
      yesFlag := {};
      noFlag := {};
      muxYesCnt := map[];
      muxNoCnt := map[];
      halt := false;
      out := [];
      invoked := {};
    }

    /** `ProcessABAVal`: nothing after halt. Otherwise the val is counted
        under its flag; an ABA_INVOKE is reported when the count becomes
        LowThreshold, and otherwise, when it becomes HightThreshold, an ABAMux
        for the same value is broadcast unless one was already sent for the
        in-round. */
    method ProcessABAVal(val: ABAVal)
      requires Valid()
      modifies this`valYesCnt, this`valNoCnt, this`muxFlag, this`out, this`invoked
      ensures Valid()
      ensures old(halt) ==>
        out == old(out) && valYesCnt == old(valYesCnt) && valNoCnt == old(valNoCnt) && muxFlag == old(muxFlag)
      ensures !old(halt) ==>
        && valNoCnt == (if val.flag == FLAG_NO then Bump(old(valNoCnt), val.inRound) else old(valNoCnt))
        && valYesCnt == (if val.flag == FLAG_YES then Bump(old(valYesCnt), val.inRound) else old(valYesCnt))
      ensures !old(halt) ==>
        var cnt := ValCount(val.inRound, val.flag);
        var invoke := Back(ABABack(ABA_INVOKE, epoch, exRound, val.inRound, val.flag, val.leader));
        var mux := Broadcast(MuxMsg(ABAMux(name, val.leader, val.epoch, val.round, val.inRound, val.flag)));
        && (cnt == LowThreshold(committee) ==> out == old(out) + [invoke] && muxFlag == old(muxFlag))
        && (cnt != LowThreshold(committee) && cnt == HightThreshold(committee) && val.inRound !in old(muxFlag) ==>
              out == old(out) + [mux] && muxFlag == old(muxFlag) + {val.inRound})
        && (cnt != LowThreshold(committee) && (cnt != HightThreshold(committee) || val.inRound in old(muxFlag)) ==>
              out == old(out) && muxFlag == old(muxFlag))
    {
      if halt {
        return;
      }
      var cnt := CountVal(val);
      if cnt == LowThreshold(committee) {
        assert !Invoked(old(valYesCnt), old(valNoCnt), LowThreshold(committee), (val.inRound, val.flag));
        ReportInvoke(val.inRound, val.flag, val.leader);
      } else if cnt == HightThreshold(committee) {
        if val.inRound !in muxFlag {
          RelayMux(val);
        }
      }
    }

    /** The ABA_INVOKE report of a value that reached LowThreshold vals. */
    method ReportInvoke(inRound: int64, flag: uint8, leader: NodeID)
      requires Valid() && (inRound, flag) !in invoked && ValCount(inRound, flag) >= LowThreshold(committee)
      modifies this`out, this`invoked
      ensures Valid()
      ensures out == old(out) + [Back(ABABack(ABA_INVOKE, epoch, exRound, inRound, flag, leader))]
      ensures invoked == old(invoked) + {(inRound, flag)}
    {
      var b := ABABack(ABA_INVOKE, epoch, exRound, inRound, flag, leader);
      InvokeKeepsOutOk(out, muxFlag, muxFinFlag, invoked, halt, b);
      InvokingKeepsInvoked(valYesCnt, valNoCnt, LowThreshold(committee), invoked, (inRound, flag));
      out := out + [Back(b)];
      invoked := invoked + {(inRound, flag)};
    }

    /** The first ABAMux of an in-round, relaying the value of `val`. */
    method RelayMux(val: ABAVal)
      requires Valid() && val.inRound !in muxFlag
      modifies this`out, this`muxFlag
      ensures Valid()
      ensures out == old(out) + [Broadcast(MuxMsg(ABAMux(name, val.leader, val.epoch, val.round, val.inRound, val.flag)))]
      ensures muxFlag == old(muxFlag) + {val.inRound}
    {
      var e := Broadcast(MuxMsg(ABAMux(name, val.leader, val.epoch, val.round, val.inRound, val.flag)));
      EmitKeepsOutOk(out, muxFlag, muxFinFlag, invoked, halt, e, muxFlag + {val.inRound}, muxFinFlag, invoked, halt);
      muxFlag := muxFlag + {val.inRound};
      out := out + [e];
    }

    /** `ProcessABAMux`: nothing after halt or once the in-round is decided.
        Otherwise the mux is counted under its flag and the in-round's flags
        are set by MuxDecision; when one is set the node broadcasts its coin
        share for the in-round. `share` is the node's threshold signature
        share on the coin digest (signing is not modelled). */
    method ProcessABAMux(mux: ABAMux, share: Crypto.SignatureShare)
      requires Valid()
      modifies this`muxYesCnt, this`muxNoCnt, this`yesFlag, this`noFlag, this`muxFinFlag, this`out
      ensures Valid()
      ensures old(halt) || mux.inRound in old(muxFinFlag) ==>
        && out == old(out) && muxYesCnt == old(muxYesCnt) && muxNoCnt == old(muxNoCnt)
        && muxFinFlag == old(muxFinFlag) && yesFlag == old(yesFlag) && noFlag == old(noFlag)
      ensures !old(halt) && mux.inRound !in old(muxFinFlag) ==>
        var i := mux.inRound;
        && muxNoCnt == (if mux.flag == FLAG_NO then Bump(old(muxNoCnt), i) else old(muxNoCnt))
        && muxYesCnt == (if mux.flag == FLAG_YES then Bump(old(muxYesCnt), i) else old(muxYesCnt))
        && var d := MuxDecision(Count(valYesCnt, i), Count(valNoCnt, i), Count(muxYesCnt, i), Count(muxNoCnt, i), HightThreshold(committee));
        && yesFlag == old(yesFlag) + (if d.yes then {i} else {})
        && noFlag == old(noFlag) + (if d.no then {i} else {})
        && out == old(out) + (if d.yes || d.no then [Broadcast(CoinMsg(CoinShare(name, mux.leader, mux.epoch, mux.round, i, share)))] else [])
    {
      if halt {
        return;
      }
      var i := mux.inRound;
      if i in muxFinFlag {
        return;
      }
      CountMux(mux);
      var yes, no := DecideFlags(Count(valYesCnt, i), Count(valNoCnt, i), Count(muxYesCnt, i), Count(muxNoCnt, i), HightThreshold(committee));
      if yes || no {
        SendCoinShare(mux, yes, no, share);
      }
    }

    /** Counting a mux under its flag. */
    method CountMux(mux: ABAMux)
      requires Valid()
      modifies this`muxYesCnt, this`muxNoCnt
      ensures Valid()
      ensures muxNoCnt == (if mux.flag == FLAG_NO then Bump(old(muxNoCnt), mux.inRound) else old(muxNoCnt))
      ensures muxYesCnt == (if mux.flag == FLAG_YES then Bump(old(muxYesCnt), mux.inRound) else old(muxYesCnt))
    {
      if mux.flag == FLAG_NO {
        muxNoCnt := Bump(muxNoCnt, mux.inRound);
      } else if mux.flag == FLAG_YES {
        muxYesCnt := Bump(muxYesCnt, mux.inRound);
      }
    }

    /** Deciding an in-round: its flags are set, it is marked decided and the
        node's coin share for it is broadcast. */
    method SendCoinShare(mux: ABAMux, yes: bool, no: bool, share: Crypto.SignatureShare)
      requires Valid() && mux.inRound !in muxFinFlag && (yes || no)
      modifies this`yesFlag, this`noFlag, this`muxFinFlag, this`out
      ensures Valid()
      ensures yesFlag == old(yesFlag) + (if yes then {mux.inRound} else {})
      ensures noFlag == old(noFlag) + (if no then {mux.inRound} else {})
      ensures out == old(out) + [Broadcast(CoinMsg(CoinShare(name, mux.leader, mux.epoch, mux.round, mux.inRound, share)))]
    {
      var i := mux.inRound;
      var c := CoinShare(name, mux.leader, mux.epoch, mux.round, i, share);
      var e := Broadcast(CoinMsg(c));
      CoinShareKeepsOutOk(out, muxFlag, muxFinFlag, invoked, halt, c);
      var ys: set<int64> := if yes then {i} else {};
      var ns: set<int64> := if no then {i} else {};
      yesFlag := yesFlag + ys;
      noFlag := noFlag + ns;
      muxFinFlag := muxFinFlag + {i};
      out := out + [e];
    }

    /** The message `ProcessCoin` broadcasts for a coin step. */
    function CoinEvent(inRound: int64, leader: NodeID, step: CoinStep): Event
    {
      match step
      case NextRound(v) => Broadcast(ValMsg(ABAVal(name, leader, epoch, exRound, Inc64(inRound), v)))
      case Halt(v) => Broadcast(HaltMsg(ABAHalt(name, leader, epoch, exRound, inRound, v)))
    }

    /** `ProcessCoin`: the coin of an in-round, with the in-round's flags,
        decides by CoinRule between an ABAVal for the next in-round and an
        ABAHalt for this one. It runs even after halt. */
    method ProcessCoin(inRound: int64, coin: uint8, leader: NodeID)
      requires Valid()
      modifies this`out
      ensures Valid()
      ensures out == old(out) + [CoinEvent(inRound, leader, CoinRule(inRound in yesFlag, inRound in noFlag, coin))]
    {
      var okYes := inRound in yesFlag;
      var okNo := inRound in noFlag;
      var e: Event;
      if (okYes && okNo) || (!okYes && !okNo) {
        e := Broadcast(ValMsg(ABAVal(name, leader, epoch, exRound, Inc64(inRound), coin)));
      } else if (okYes && coin == FLAG_YES) || (okNo && coin == FLAG_NO) {
        e := Broadcast(HaltMsg(ABAHalt(name, leader, epoch, exRound, inRound, coin)));
      } else if okYes {
        e := Broadcast(ValMsg(ABAVal(name, leader, epoch, exRound, Inc64(inRound), FLAG_YES)));
      } else {
        e := Broadcast(ValMsg(ABAVal(name, leader, epoch, exRound, Inc64(inRound), FLAG_NO)));
      }
      EmitKeepsOutOk(out, muxFlag, muxFinFlag, invoked, halt, e, muxFlag, muxFinFlag, invoked, halt);
      out := out + [e];
    }

    /** `ProcessHalt`: only the first halt acts. It sets `halt`, rebroadcasts
        the halt under this node's name and reports ABA_HALT with the halt's
        epoch, round, in-round and flag. */
    method ProcessHalt(h: ABAHalt)
      requires Valid()
      modifies this`halt, this`out
      ensures Valid() && halt
      ensures old(halt) ==> out == old(out)
      ensures !old(halt) ==> out == old(out) + [
        Broadcast(HaltMsg(ABAHalt(name, h.leader, epoch, exRound, h.inRound, h.flag))),
        Back(ABABack(ABA_HALT, h.epoch, h.round, h.inRound, h.flag, h.leader))]
    {
      if halt {
        return;
      }
      var e1 := Broadcast(HaltMsg(ABAHalt(name, h.leader, epoch, exRound, h.inRound, h.flag)));
      var e2 := Back(ABABack(ABA_HALT, h.epoch, h.round, h.inRound, h.flag, h.leader));
      EmitKeepsOutOk(out, muxFlag, muxFinFlag, invoked, false, e1, muxFlag, muxFinFlag, invoked, false);
      EmitKeepsOutOk(out + [e1], muxFlag, muxFinFlag, invoked, false, e2, muxFlag, muxFinFlag, invoked, true);
      assert out + [e1] + [e2] == out + [e1, e2];
      halt := true;
      out := out + [e1, e2];
    }
  }

  /** Whatever the messages, an instance reports at most one halt. */
  lemma HaltReportedOnce(a: ABA, j: nat, k: nat)
    requires a.Valid() && j < |a.out| && k < |a.out|
    requires a.out[j].Back? && a.out[j].back.typ == ABA_HALT
    requires a.out[k].Back? && a.out[k].back.typ == ABA_HALT
    ensures j == k
  {
    assert HaltKey(a.out[j]) == Some(true) && HaltKey(a.out[k]) == Some(true);
    AtMostOne(a.out, HaltKey, Flagged(a.halt), j, k);
  }
}
