/** A decoded JSON document as the Python benchmark scripts hold it, and the
    few Python operations they apply to it: indexing, `isinstance`, the
    scalar-or-list idiom, comparison with 0 and `int(...)`. */
module PyJson {
  import opened Wrappers
  import opened Text

  datatype Json =
    | JNull
    | JBool(b: bool)
    | JInt(i: int)
    | JFloat(r: real)
    | JStr(s: string)
    | JList(items: seq<Json>)
    | JDict(fields: map<string, Json>)

  /** The exceptions these operations raise. */
  datatype PyError = KeyError(key: string) | TypeError | ValueError

  /** `j[key]`: a dict without the key raises KeyError, anything but a dict
      TypeError. */
  function Get(j: Json, key: string): (r: Result<Json, PyError>)
    ensures r.Ok? <==> j.JDict? && key in j.fields
    ensures r.Ok? ==> r.value == j.fields[key]
    ensures r == Err(KeyError(key)) <==> j.JDict? && key !in j.fields
  {
    match j
    case JDict(fields) => if key in fields then Ok(fields[key]) else Err(KeyError(key))
    case _ => Err(TypeError)
  }

  /** `j[k1][k2]`. */
  function Get2(j: Json, k1: string, k2: string): (r: Result<Json, PyError>)
    ensures r.Ok? <==> Get(j, k1).Ok? && Get(Get(j, k1).value, k2).Ok?
    ensures r.Ok? ==> r.value == j.fields[k1].fields[k2]
  {
    var inner :- Get(j, k1);
    Get(inner, k2)
  }

  /** `isinstance(j, int)`: a bool is an int in Python. */
  predicate IsInt(j: Json)
  {
    j.JInt? || j.JBool?
  }

  /** `isinstance(j, str)`. */
  predicate IsStr(j: Json)
  {
    j.JStr?
  }

  /** `j if isinstance(j, list) else [j]`. */
  function AsList(j: Json): (xs: seq<Json>)
    ensures j.JList? ==> xs == j.items
    ensures !j.JList? ==> xs == [j]
  {
    if j.JList? then j.items else [j]
  }

  /** The number a JSON value compares as; None where comparing it with a
      number raises TypeError. */
  function Number(j: Json): (r: Option<real>)
    ensures r.Some? <==> j.JInt? || j.JBool? || j.JFloat?
  {
    match j
    case JInt(i) => Some(i as real)
    case JBool(b) => Some(if b then 1.0 else 0.0)
    case JFloat(r) => Some(r)
    case _ => None
  }

  /** Truncation toward zero, as `int` applies to a float. */
  function Trunc(r: real): (i: int)
    ensures (i as real) <= r < (i as real) + 1.0 || (i as real) - 1.0 < r <= (i as real)
    ensures r >= 0.0 ==> 0 <= i && (i as real) <= r
    ensures r <= 0.0 ==> i <= 0 && r <= (i as real)
  {
    if r >= 0.0 then r.Floor else -((-r).Floor)
  }

  /** The numeral a string holds: an optional sign, then decimal digits. */
  function ParseInt(s: string): (r: Option<int>)
    ensures r.Some? <==> IsDigits(s) || (|s| > 0 && (s[0] == '-' || s[0] == '+') && IsDigits(s[1..]))
  {
    if IsDigits(s) then Some(ParseNat(s))
    else if |s| > 0 && s[0] == '-' && IsDigits(s[1..]) then Some(-(ParseNat(s[1..]) as int))
    else if |s| > 0 && s[0] == '+' && IsDigits(s[1..]) then Some(ParseNat(s[1..]))
    else None
  }

  /** `int(j)`: ints and bools as they are, floats truncated, strings
      parsed (ValueError when they are not numerals); TypeError for null,
      lists and dicts. */
  function IntOf(j: Json): (r: Result<int, PyError>)
    ensures r.Ok? || r == Err(TypeError) || r == Err(ValueError)
    ensures r == Err(TypeError) <==> j.JNull? || j.JList? || j.JDict?
    ensures Number(j).Some? ==> r.Ok? && r.value == Trunc(Number(j).value)
  {
    match j
    case JInt(i) => Ok(i)
    case JBool(b) => Ok(if b then 1 else 0)
    case JFloat(r) => Ok(Trunc(r))
    case JStr(s) => if ParseInt(s).Some? then Ok(ParseInt(s).value) else Err(ValueError)
    case _ => Err(TypeError)
  }

  /** `int` reads back the decimal text of any integer. */
  lemma IntOfText(i: int)
    ensures IntOf(JStr(IntToString(i))) == Ok(i)
  {
    if i < 0 {
      NegativeText(-i);
    } else {
      ParseNatToString(i);
      assert ParseInt(NatToString(i)) == Some(i);
    }
  }

  /** The text of a negative number parses through the sign branch. */
  lemma NegativeText(n: nat)
    requires n > 0
    ensures ParseInt(IntToString(-(n as int))) == Some(-(n as int))
  {
    var s := IntToString(-(n as int));
    var t := NatToString(n);
    assert s == "-" + t;
    assert s[1..] == t;
    assert !IsDigit(s[0]);
    ParseNatToString(n);
  }

  /** `[int(x) for x in xs]`: the first failing conversion raises. */
  function IntsOf(xs: seq<Json>): (r: Result<seq<int>, PyError>)
    ensures r.Ok? <==> forall i :: 0 <= i < |xs| ==> IntOf(xs[i]).Ok?
    ensures r.Ok? ==> |r.value| == |xs| && forall i :: 0 <= i < |xs| ==> r.value[i] == IntOf(xs[i]).value
    ensures r.Err? ==> exists i :: 0 <= i < |xs| && IntOf(xs[i]) == Err(r.error)
  {
    if xs == [] then Ok([])
    else
      var first :- IntOf(xs[0]);
      var rest := IntsOf(xs[1..]);
      assert forall i :: 1 <= i < |xs| ==> xs[1..][i - 1] == xs[i];
      if rest.Err? then
        var i :| 0 <= i < |xs| - 1 && IntOf(xs[1..][i]) == Err(rest.error);
        assert IntOf(xs[i + 1]) == Err(rest.error);
        Err(rest.error)
      else
        Ok([first] + rest.value)
  }
}
