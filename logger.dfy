/** logger/logger.go: four loggers (info, debug, error, warn), each routed to its
    recorded output or discarded according to one bit of a level mask. */
module Logger {
  /** Where a logger writes: standard output, nowhere (`io.Discard`) or a caller's writer. */
  datatype Writer = Stdout | Discard | Custom(id: nat)

  const InfoLevel: int := 0x1
  const DebugLevel: int := 0x2
  const ErrorLevel: int := 0x4
  const WarnLevel: int := 0x8
  const TestLevel: int := 0xF
  const DeployLevel: int := 0xD
  const LevelNum: nat := 4

  /** Logger index i uses bit i: 0 info, 1 debug, 2 error, 3 warn. */
  const INFO: nat := 0
  const DEBUG: nat := 1
  const ERROR: nat := 2
  const WARN: nat := 3

  function Pow2(i: nat): (p: nat)
    ensures p >= 1
  {
    if i == 0 then 1 else 2 * Pow2(i - 1)
  }

  /** `(level >> i) & 1` on a Go `int`: the shift is arithmetic, i.e. floor division. */
  function Bit(level: int, i: nat): (b: int)
    ensures b == 0 || b == 1
  {
    (level / Pow2(i)) % 2
  }

  predicate Enabled(level: int, i: nat)
  {
    Bit(level, i) == 1
  }

  /** The level constants are single bits and the named combinations are their unions. */
  lemma LevelConstants()
    ensures forall i :: 0 <= i < LevelNum ==> (Enabled(InfoLevel, i) <==> i == INFO)
    ensures forall i :: 0 <= i < LevelNum ==> (Enabled(DebugLevel, i) <==> i == DEBUG)
    ensures forall i :: 0 <= i < LevelNum ==> (Enabled(ErrorLevel, i) <==> i == ERROR)
    ensures forall i :: 0 <= i < LevelNum ==> (Enabled(WarnLevel, i) <==> i == WARN)
  {
    assert Pow2(1) == 2 && Pow2(2) == 4 && Pow2(3) == 8;
  }

  /** DeployLevel switches off only the debug logger; TestLevel switches on all four. */
  lemma DeployAndTestLevels()
    ensures forall i :: 0 <= i < LevelNum ==> (Enabled(DeployLevel, i) <==> i != DEBUG)
    ensures forall i :: 0 <= i < LevelNum ==> Enabled(TestLevel, i)
  {
    assert Pow2(1) == 2 && Pow2(2) == 4 && Pow2(3) == 8;
  }

  /** Bits at position LevelNum and above never influence the routing. */
  lemma HighBitsIgnored(level: int, k: int, i: nat)
    requires i < LevelNum
    ensures Bit(level + 16 * k, i) == Bit(level, i)
  {
    assert Pow2(1) == 2 && Pow2(2) == 4 && Pow2(3) == 8;
    if i == 0 {
      assert (level + 16 * k) / 1 == level / 1 + 2 * (8 * k);
    } else if i == 1 {
      assert (level + 16 * k) / 2 == level / 2 + 2 * (4 * k);
    } else if i == 2 {
      assert (level + 16 * k) / 4 == level / 4 + 2 * (2 * k);
    } else {
      assert (level + 16 * k) / 8 == level / 8 + 2 * k;
    }
  }

  /** The two global arrays: `out` holds each logger's recorded output and `logs`
      the writer each logger currently writes to. */
  class Loggers {
    const out: array<Writer>
    const logs: array<Writer>

    predicate Valid()
      reads this
    {
      out.Length == LevelNum && logs.Length == LevelNum && out != logs
    }

    /** Initially all four loggers write to standard output. */
    constructor ()
      ensures Valid() && fresh(out) && fresh(logs)
      ensures out[..] == [Stdout, Stdout, Stdout, Stdout]
      ensures logs[..] == [Stdout, Stdout, Stdout, Stdout]
    {
      out := new Writer[4](_ => Stdout);
      logs := new Writer[4](_ => Stdout);
    }

    method SetLevel(level: int)
      requires Valid()
      modifies logs
      ensures forall i :: 0 <= i < LevelNum ==> logs[i] == (if Enabled(level, i) then out[i] else Discard)
      ensures out[..] == old(out[..])
    {
      var i := 0;
      while i < LevelNum
        invariant 0 <= i <= LevelNum
        invariant forall j :: 0 <= j < i ==> logs[j] == (if Enabled(level, j) then out[j] else Discard)
        invariant out[..] == old(out[..])
      {
        if Bit(level, i) == 1 {
          logs[i] := out[i];
        } else {
          logs[i] := Discard;
        }
        i := i + 1;
      }
    }

    method SetOutput(level: int, w: Writer)
      requires Valid()
      modifies logs, out
      ensures forall i :: 0 <= i < LevelNum ==> logs[i] == (if Enabled(level, i) then w else old(logs[i]))
      ensures forall i :: 0 <= i < LevelNum ==> out[i] == (if Enabled(level, i) then w else old(out[i]))
    {
      var i := 0;
      while i < LevelNum
        invariant 0 <= i <= LevelNum
        invariant forall j :: 0 <= j < i ==> logs[j] == (if Enabled(level, j) then w else old(logs[j]))
        invariant forall j :: 0 <= j < i ==> out[j] == (if Enabled(level, j) then w else old(out[j]))
        invariant forall j :: i <= j < LevelNum ==> logs[j] == old(logs[j]) && out[j] == old(out[j])
      {
        if Bit(level, i) == 1 {
          logs[i] := w;
          out[i] := w;
        }
        i := i + 1;
      }
    }
  }

  /** Routing a custom writer for the error bit and then deploying sends errors to it
      and silences the debug logger. */
  method DeployWithErrorFile(l: Loggers, w: Writer)
    requires l.Valid()
    modifies l.logs, l.out
    ensures l.logs[ERROR] == w && l.out[ERROR] == w
    ensures l.logs[DEBUG] == Discard
    ensures l.logs[INFO] == old(l.out[INFO]) && l.logs[WARN] == old(l.out[WARN])
  {
    LevelConstants();
    DeployAndTestLevels();
    l.SetOutput(ErrorLevel, w);
    l.SetLevel(DeployLevel);
  }
}
