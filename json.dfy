/** Loosely typed JSON values, as the Python and JavaScript code handles its records,
    together with the few pieces of Python and JavaScript semantics the model relies on:
    `dict.get`, truthiness, `len`, iteration and `String(...)`. */
module Json {
  import Strings

  datatype Option<T> = None | Some(value: T)

  /** The exception a modelled operation raises, when it raises one: Python's, or for the
      browser code JavaScript's (a TypeError, or the SyntaxError of `Response.json()` on a
      body that is not JSON). */
  datatype PyError = KeyError | TypeError | AttributeError | ValueError | NameError | OSError | SyntaxError

  /** Either a value or the exception that escaped. */
  datatype Outcome<T> = Ok(value: T) | Raised(error: PyError)

  /** A parsed JSON value; numbers are integers. */
  datatype Json =
    | JNull
    | JBool(b: bool)
    | JNum(n: int)
    | JStr(s: string)
    | JArr(items: seq<Json>)
    | JObj(fields: map<string, Json>)

  /** A record is a JSON object. */
  type Doc = map<string, Json>

  /** Python `d.get(key)`: a missing key reads as `None`. */
  function Get(d: Doc, key: string): (v: Json)
    ensures key !in d ==> v == JNull
    ensures key in d ==> v == d[key]
  {
    if key in d then d[key] else JNull
  }

  /** Python truthiness (`if v:` / `not v`). */
  predicate Truthy(v: Json) {
    match v
    case JNull => false
    case JBool(b) => b
    case JNum(n) => n != 0
    case JStr(s) => s != ""
    case JArr(a) => a != []
    case JObj(m) => m != map[]
  }

  /** JavaScript truthiness (`v || fallback`); an absent property is `undefined`, read as JNull. */
  predicate JsTruthy(v: Json) {
    match v
    case JNull => false
    case JBool(b) => b
    case JNum(n) => n != 0
    case JStr(s) => s != ""
    case JArr(_) => true
    case JObj(_) => true
  }

  /** JavaScript `a || b`. */
  function JsOr(a: Json, b: Json): (r: Json)
    ensures JsTruthy(r) <==> JsTruthy(a) || JsTruthy(b)
  {
    if JsTruthy(a) then a else b
  }

  /** JavaScript `v.key` on a value that is not null: the property of an object, and
      `undefined` (read as JNull) on any other value. */
  function Member(v: Json, key: string): Json {
    if v.JObj? then Get(v.fields, key) else JNull
  }

  /** Whether Python can use the value as a dictionary key. */
  predicate Hashable(v: Json) {
    !v.JArr? && !v.JObj?
  }

  /** Python `len(v)`, which raises TypeError on values without a length. */
  function PyLen(v: Json): (r: Outcome<nat>)
    ensures r.Ok? <==> (v.JArr? || v.JStr? || v.JObj?)
    ensures v.JArr? ==> r == Ok(|v.items|)
  {
    match v
    case JArr(a) => Ok(|a|)
    case JStr(s) => Ok(|s|)
    case JObj(m) => Ok(|m|)
    case _ => Raised(TypeError)
  }

  /** The values Python's `for x in v` visits: a list's items, a string's characters as
      one-character strings and a dict's keys; None when `v` cannot be iterated, which
      raises TypeError. A parsed object keeps no key order here, so its keys are taken in
      code-point order. */
  function PyIter(v: Json): (r: Option<seq<Json>>)
    ensures r.Some? <==> PyLen(v).Ok?
    ensures r.Some? ==> |r.value| == PyLen(v).value
    ensures v.JArr? ==> r == Some(v.items)
    ensures v.JStr? ==> r.Some? && forall i :: 0 <= i < |v.s| ==> r.value[i] == JStr([v.s[i]])
    ensures v.JObj? ==> r.Some? && forall x :: x in r.value <==> x.JStr? && x.s in v.fields
  {
    match v
    case JArr(a) => Some(a)
    case JStr(s) => Some(seq(|s|, i requires 0 <= i < |s| => JStr([s[i]])))
    case JObj(m) =>
      var ks := Strings.SortedSet(m.Keys);
      var r := seq(|ks|, i requires 0 <= i < |ks| => JStr(ks[i]));
      forall x
        ensures x in r <==> x.JStr? && x.s in ks
      {
        if x.JStr? && x.s in ks {
          var i :| 0 <= i < |ks| && ks[i] == x.s;
          assert r[i] == x;
        }
      }
      Some(r)
    case _ => None
  }

  /** Decimal digits of a natural number, most significant first. */
  function NatToString(n: nat): (s: string)
    ensures |s| >= 1
    ensures forall i :: 0 <= i < |s| ==> '0' <= s[i] <= '9'
    decreases n
  {
    if n < 10 then [Digit(n)] else NatToString(n / 10) + [Digit(n % 10)]
  }

  function Digit(d: nat): (c: char)
    requires d < 10
    ensures '0' <= c <= '9'
  {
    ['0', '1', '2', '3', '4', '5', '6', '7', '8', '9'][d]
  }

  /** Python `str(n)` and JavaScript `String(n)` for an integer. */
  function IntToString(n: int): string {
    if n < 0 then "-" + NatToString(-n) else NatToString(n)
  }

  lemma {:induction false} NatToStringLength(n: nat)
    ensures n < 10 <==> |NatToString(n)| == 1
  {
    if n >= 10 {
      NatToStringLength(n / 10);
    }
  }

  /** Distinct numbers have distinct decimal spellings. */
  lemma {:induction false} NatToStringInjective(a: nat, b: nat)
    requires NatToString(a) == NatToString(b)
    ensures a == b
    decreases a
  {
    NatToStringLength(a);
    NatToStringLength(b);
    if a >= 10 && b >= 10 {
      var sa, sb := NatToString(a), NatToString(b);
      assert sa[|sa| - 1] == Digit(a % 10) && sb[|sb| - 1] == Digit(b % 10);
      DigitInjective(a % 10, b % 10);
      assert NatToString(a / 10) == sa[..|sa| - 1] == sb[..|sb| - 1] == NatToString(b / 10);
      NatToStringInjective(a / 10, b / 10);
    } else if a < 10 && b < 10 {
      DigitInjective(a, b);
    }
  }

  lemma DigitInjective(a: nat, b: nat)
    requires a < 10 && b < 10 && Digit(a) == Digit(b)
    ensures a == b
  {
  }

  /** JavaScript `String(v)`; `String(undefined)` is "undefined", which the model cannot
      tell apart from `null` because both are JNull here, so JNull renders as "null"
      except where a caller says otherwise. */
  function JsString(v: Json): string {
    match v
    case JNull => "null"
    case JBool(b) => if b then "true" else "false"
    case JNum(n) => IntToString(n)
    case JStr(s) => s
    case JArr(a) => JsJoin(a)
    case JObj(_) => "[object Object]"
  }

  /** `Array.prototype.join(",")` as used by `String(array)`: null elements become "". */
  function JsJoin(a: seq<Json>): string
    decreases a, 0
  {
    if a == [] then ""
    else
      var head := if a[0].JNull? then "" else JsString(a[0]);
      if |a| == 1 then head else head + "," + JsJoin(a[1..])
  }

  /** Python `d.get(key, default)`. */
  function GetOr(d: Doc, key: string, default: Json): (v: Json)
    ensures key !in d ==> v == default
    ensures key in d ==> v == d[key]
  {
    if key in d then d[key] else default
  }

  /** Python `==` on parsed JSON: `True == 1` and `False == 0`, lists and dicts compare
      element by element. */
  predicate PyEq(a: Json, b: Json) {
    match (a, b)
    case (JNull, JNull) => true
    case (JBool(x), JBool(y)) => x == y
    case (JNum(x), JNum(y)) => x == y
    case (JBool(x), JNum(y)) => (if x then 1 else 0) == y
    case (JNum(x), JBool(y)) => x == (if y then 1 else 0)
    case (JStr(x), JStr(y)) => x == y
    case (JArr(x), JArr(y)) => |x| == |y| && forall i :: 0 <= i < |x| ==> PyEq(x[i], y[i])
    case (JObj(x), JObj(y)) => x.Keys == y.Keys && forall k :: k in x ==> PyEq(x[k], y[k])
    case _ => false
  }

  /** Every value equals itself. */
  lemma {:induction false} PyEqReflexive(a: Json)
    ensures PyEq(a, a)
  {
    match a
    case JArr(x) =>
      forall i | 0 <= i < |x|
        ensures PyEq(x[i], x[i])
      {
        PyEqReflexive(x[i]);
      }
    case JObj(x) =>
      forall k | k in x
        ensures PyEq(x[k], x[k])
      {
        PyEqReflexive(x[k]);
      }
    case _ =>
  }
}
