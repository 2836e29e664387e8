/** Values shared by every module: optional values, results, the JSON values
    the routes store in metadata columns and send back in responses, and the
    JavaScript truthiness tests the routes apply to request fields. */
module Base {

  datatype Option<+T> = None | Some(value: T)

  datatype Result<+T, +E> = Ok(value: T) | Err(error: E)

  /** A JSON value as the routes build it (numbers are integral: money is kept in whole units). */
  datatype Value =
    | Text(text: string)
    | Number(number: int)
    | Flag(flag: bool)
    | List(items: seq<Value>)
    | Object(fields: map<string, Value>)

  type Fields = map<string, Value>

  /** `{ ...m, [key]: v }` as the store receives it: a member whose value is
      `undefined` is dropped when the object is serialised. */
  function Put(m: Fields, key: string, v: Option<Value>): (r: Fields)
    ensures key in r <==> v.Some?
    ensures v.Some? ==> r[key] == v.value
    ensures r.Keys - {key} == m.Keys - {key}
    ensures forall k :: k in r && k != key ==> k in m && r[k] == m[k]
  {
    match v
    case Some(x) => m[key := x]
    case None => m - {key}
  }

  function TextOf(s: Option<string>): (r: Option<Value>)
    ensures r.Some? <==> s.Some?
    ensures s.Some? ==> r.value == Text(s.value)
  {
    match s
    case Some(t) => Some(Text(t))
    case None => None
  }

  /** `!!field` for a string field of a request body: present and not empty. */
  predicate Given(s: Option<string>)
  {
    s.Some? && s.value != ""
  }

  /** `!!field` for a number field of a request body: present and not zero. */
  predicate GivenNumber(n: Option<int>)
  {
    n.Some? && n.value != 0
  }

  /** `field || null` */
  function OrNull(s: Option<string>): (r: Option<string>)
    ensures r.Some? <==> Given(s)
    ensures r.Some? ==> r == s
  {
    if Given(s) then s else None
  }

  /** The decimal digits of `n`, as a template literal prints a non-negative integer. */
  function NatToString(n: nat): (r: string)
    ensures |r| >= 1
    ensures forall i :: 0 <= i < |r| ==> '0' <= r[i] <= '9'
    ensures n < 10 ==> |r| == 1
    ensures 10 <= n ==> r[0] != '0'
  {
    var d := [('0' as int + n % 10) as char];
    if n < 10 then d else NatToString(n / 10) + d
  }

  /** The number a string of decimal digits denotes, most significant digit first. */
  function DecimalValue(s: string): nat
    requires forall i :: 0 <= i < |s| ==> '0' <= s[i] <= '9'
  {
    if s == [] then 0
    else DecimalValue(s[..|s| - 1]) * 10 + (s[|s| - 1] as int - '0' as int)
  }

  /** Reading back the printed digits gives the number printed. */
  lemma {:induction false} NatToStringRoundTrip(n: nat)
    ensures DecimalValue(NatToString(n)) == n
  {
    var d := [('0' as int + n % 10) as char];
    if n >= 10 {
      var s := NatToString(n / 10) + d;
      assert s[..|s| - 1] == NatToString(n / 10);
      NatToStringRoundTrip(n / 10);
      assert DecimalValue(s) == (n / 10) * 10 + n % 10;
    }
  }
}
