/** Output events that may be emitted at most once per key. `Once(out, key,
    used)` says that every event of `out` with a key has its key in `used`,
    and that no two such events share a key; a state machine keeps it by
    emitting a keyed event only for a key not yet in `used` and adding the
    key at the same time. It is defined from the last event back, so that a
    state predicate holding it does not spread quantifiers over the output. */
module Emitted {
  import opened Wrappers

  ghost predicate Once<E, K>(out: seq<E>, key: E -> Option<K>, used: set<K>)
    decreases |out|
  {
    if out == [] then true
    else
      var last := out[|out| - 1];
      match key(last)
      case None => Once(out[..|out| - 1], key, used)
      case Some(k) => k in used && Once(out[..|out| - 1], key, used - {k})
  }

  /** Emitting an event for a key not used before keeps the property, with
      the key added to the set (and any others). */
  lemma AppendFresh<E, K>(out: seq<E>, key: E -> Option<K>, used: set<K>, e: E, used': set<K>)
    requires Once(out, key, used) && key(e).Some? && key(e).value !in used
    requires used + {key(e).value} <= used'
    ensures Once(out + [e], key, used')
  {
    assert (out + [e])[..|out|] == out;
    Widen(out, key, used, used' - {key(e).value});
  }

  /** Emitting an event without a key keeps the property, with any larger set. */
  lemma AppendUnkeyed<E, K>(out: seq<E>, key: E -> Option<K>, used: set<K>, e: E, used': set<K>)
    requires Once(out, key, used) && key(e).None? && used <= used'
    ensures Once(out + [e], key, used')
  {
    assert (out + [e])[..|out|] == out;
    Widen(out, key, used, used');
  }

  /** Emitting at most one event keeps the property, when a keyed event's
      key is new and joins the set. */
  lemma EmitOne<E, K>(out: seq<E>, key: E -> Option<K>, used: set<K>, es: seq<E>, used': set<K>)
    requires Once(out, key, used) && used <= used' && |es| <= 1
    requires forall e :: e in es && key(e).Some? ==> key(e).value !in used && key(e).value in used'
    ensures Once(out + es, key, used')
  {
    if es == [] {
      assert out + es == out;
      Widen(out, key, used, used');
    } else {
      var e := es[0];
      assert es == [e];
      if key(e).Some? {
        AppendFresh(out, key, used, e, used');
      } else {
        AppendUnkeyed(out, key, used, e, used');
      }
    }
  }

  /** A true flag as a key set: {true} when set, for events emitted at
      most once overall. */
  function Flagged(b: bool): (s: set<bool>)
    ensures true in s <==> b
    ensures false !in s
  {
    if b then {true} else {}
  }

  /** Emitting at most one event keeps a once-overall property, when a
      keyed event is emitted exactly as its flag goes from unset to set. */
  lemma EmitFlag<E>(out: seq<E>, key: E -> Option<bool>, was: bool, es: seq<E>, now: bool)
    requires Once(out, key, Flagged(was)) && (was ==> now) && |es| <= 1
    requires forall e :: e in es && key(e).Some? ==> key(e).value && !was && now
    ensures Once(out + es, key, Flagged(now))
  {
    EmitOne(out, key, Flagged(was), es, Flagged(now));
  }

  /** The property survives a larger key set. */
  lemma {:induction false} Widen<E, K>(out: seq<E>, key: E -> Option<K>, used: set<K>, used': set<K>)
    requires Once(out, key, used) && used <= used'
    ensures Once(out, key, used')
    decreases |out|
  {
    if out != [] {
      var p := out[..|out| - 1];
      match key(out[|out| - 1])
      case None => Widen(p, key, used, used');
      case Some(k) => Widen(p, key, used - {k}, used' - {k});
    }
  }

  /** Every keyed event has its key in the set. */
  lemma {:induction false} KeyUsed<E, K>(out: seq<E>, key: E -> Option<K>, used: set<K>, i: nat)
    requires Once(out, key, used) && i < |out| && key(out[i]).Some?
    ensures key(out[i]).value in used
    decreases |out|
  {
    var n := |out| - 1;
    if i < n {
      var p := out[..n];
      assert p[i] == out[i];
      match key(out[n])
      case None => KeyUsed(p, key, used, i);
      case Some(k) => KeyUsed(p, key, used - {k}, i);
    }
  }

  /** At most one event of `out` has a given key. */
  lemma {:induction false} AtMostOne<E, K>(out: seq<E>, key: E -> Option<K>, used: set<K>, j: nat, k: nat)
    requires Once(out, key, used) && j < |out| && k < |out|
    requires key(out[j]).Some? && key(out[k]).Some?
    ensures key(out[j]).value == key(out[k]).value ==> j == k
    decreases |out|
  {
    var n := |out| - 1;
    var p := out[..n];
    var u := if key(out[n]).Some? then used - {key(out[n]).value} else used;
    assert Once(p, key, u);
    if j < n && k < n {
      assert p[j] == out[j] && p[k] == out[k];
      AtMostOne(p, key, u, j, k);
    } else if j < n {
      assert p[j] == out[j];
      KeyUsed(p, key, u, j);
    } else if k < n {
      assert p[k] == out[k];
      KeyUsed(p, key, u, k);
    }
  }
}
