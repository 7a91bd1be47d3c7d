/** The JSON object shape produced by the `Serialize` implementations: an
    ordered list of members. Text-level JSON (quoting, escaping) is not part of
    this model. */
module Json {
  import opened Wrappers

  datatype Value =
    | JString(s: string)
    | JNumber(n: int)
    /** A `chrono::DateTime<Utc>`, rendered by chrono's own serde support. */
    | JInstant(nanos: int)

  type Member = (string, Value)

  function Keys(ms: seq<Member>): (keys: seq<string>)
    ensures |keys| == |ms|
    ensures forall i :: 0 <= i < |ms| ==> keys[i] == ms[i].0
  {
    if |ms| == 0 then [] else [ms[0].0] + Keys(ms[1..])
  }

  /** The value of the first member named `key`. */
  function Find(ms: seq<Member>, key: string): (r: Option<Value>)
    ensures r.Some? <==> exists i :: 0 <= i < |ms| && ms[i].0 == key
    ensures r.Some? ==> exists i :: 0 <= i < |ms| && ms[i] == (key, r.value)
  {
    if |ms| == 0 then None
    else if ms[0].0 == key then Some(ms[0].1)
    else
      var r := Find(ms[1..], key);
      assert forall i :: 0 < i < |ms| ==> ms[i] == ms[1..][i - 1];
      r
  }
}
