/**
 * Decoded JSON values, as the Python `json` module produces them, with the
 * few Python operations the application applies to them: truthiness,
 * subscripting a dict, and `str` of an integer (the form an integer dict key
 * takes once `json.dump` has written it).
 */
module Json {
  import opened Wrappers

  datatype Json =
    | JNull
    | JBool(b: bool)
    | JNum(n: real)
    | JStr(s: string)
    | JArr(items: seq<Json>)
    | JObj(fields: map<string, Json>)

  /** Python's `bool(v)` for a decoded value. */
  predicate Truthy(j: Json) {
    match j
    case JNull => false
    case JBool(b) => b
    case JNum(n) => n != 0.0
    case JStr(s) => s != ""
    case JArr(a) => a != []
    case JObj(m) => m != map[]
  }

  /** The falsy values are exactly None, False, zero and the empty string,
      list and dict. */
  lemma FalsyValues(j: Json)
    ensures !Truthy(j) <==>
              j == JNull || j == JBool(false) || j == JNum(0.0) || j == JStr("") || j == JArr([]) || j == JObj(map[])
  {
  }

  /** `v[key]` with a string key: only a dict holding the key answers;
      every other value raises KeyError or TypeError (None here). */
  function Field(j: Json, key: string): Option<Json> {
    if j.JObj? && key in j.fields then Some(j.fields[key]) else None
  }

  function Digit(d: nat): (c: char)
    requires d < 10
    ensures '0' <= c <= '9'
  {
    (48 + d) as char
  }

  /** Decimal digits of a natural number, most significant first. */
  function NatToString(n: nat): (s: string)
    ensures 1 <= |s|
    ensures |s| == 1 <==> n < 10
    ensures forall k :: 0 <= k < |s| ==> '0' <= s[k] <= '9'
    ensures |s| > 1 ==> s[0] != '0'
  {
    if n < 10 then [Digit(n)] else NatToString(n / 10) + [Digit(n % 10)]
  }

  /** The number a string of decimal digits denotes, most significant first. */
  function DigitsValue(s: string): int {
    if s == [] then 0 else DigitsValue(s[..|s| - 1]) * 10 + (s[|s| - 1] as int - '0' as int)
  }

  /** `NatToString` writes the decimal digits of its argument: they denote it. */
  lemma {:induction false} NatToStringValue(n: nat)
    ensures DigitsValue(NatToString(n)) == n
  {
    var s := NatToString(n);
    if n >= 10 {
      assert s[..|s| - 1] == NatToString(n / 10);
      NatToStringValue(n / 10);
    } else {
      assert s[..0] == [];
    }
  }

  /** `str(i)` is the digits of `|i|`, after a minus sign when `i` is negative. */
  lemma IntToStringValue(i: int)
    ensures i >= 0 ==> DigitsValue(IntToString(i)) == i
    ensures i < 0 ==> IntToString(i)[0] == '-' && DigitsValue(IntToString(i)[1..]) == -i
  {
    if i >= 0 {
      assert IntToString(i) == NatToString(i);
      NatToStringValue(i);
    } else {
      NegativeDigits(i);
      NatToStringValue(-i);
      assert DigitsValue(IntToString(i)[1..]) == DigitsValue(NatToString(-i));
    }
  }

  /** A negative int is written as a minus sign before the digits of its negation. */
  lemma NegativeDigits(i: int)
    requires i < 0
    ensures IntToString(i)[0] == '-' && IntToString(i)[1..] == NatToString(-i)
  {
    var digits := NatToString(-i);
    assert IntToString(i) == "-" + digits;
    assert ("-" + digits)[1..] == digits;
  }

  /** Python's `str(i)` for an int. */
  function IntToString(i: int): (s: string)
    ensures 1 <= |s|
    ensures s[0] == '-' <==> i < 0
  {
    if i < 0 then "-" + NatToString(-i) else NatToString(i)
  }

  /** Distinct naturals have distinct decimal forms. */
  lemma {:induction false} NatToStringInjective(a: nat, b: nat)
    requires NatToString(a) == NatToString(b)
    ensures a == b
  {
    if a >= 10 && b >= 10 {
      var sa, sb := NatToString(a), NatToString(b);
      assert sa[|sa| - 1] == Digit(a % 10) && sb[|sb| - 1] == Digit(b % 10);
      assert NatToString(a / 10) == sa[..|sa| - 1] == sb[..|sb| - 1] == NatToString(b / 10);
      NatToStringInjective(a / 10, b / 10);
    }
  }

  /** `str` is injective on ints, so `str(i)` keys can be decoded back to `i`. */
  lemma IntToStringInjective(a: int, b: int)
    requires IntToString(a) == IntToString(b)
    ensures a == b
  {
    if a < 0 && b < 0 {
      assert NatToString(-a) == IntToString(a)[1..] == IntToString(b)[1..] == NatToString(-b);
      NatToStringInjective(-a, -b);
    } else if a >= 0 && b >= 0 {
      NatToStringInjective(a, b);
    }
  }
}
