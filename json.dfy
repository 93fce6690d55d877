/** JSON values, as the bodies the clients send and the answers they parse. */
module Json {
  import opened Wrappers

  /** A JSON value. Numbers are integers: no body in this system carries a fraction. */
  datatype Json =
    | JNull
    | JBool(b: bool)
    | JNum(n: int)
    | JStr(s: string)
    | JArr(items: seq<Json>)
    | JObj(fields: seq<(string, Json)>)

  /** JavaScript truthiness of a value that may be `undefined` (None). */
  predicate Truthy(v: Option<Json>) {
    match v
    case None => false
    case Some(JNull) => false
    case Some(JBool(b)) => b
    case Some(JNum(n)) => n != 0
    case Some(JStr(s)) => s != ""
    case Some(_) => true
  }

  /** `obj[key]` on a parsed value: the last field of that name (what `JSON.parse` keeps), or undefined. */
  function Member(v: Json, key: string): (r: Option<Json>)
    ensures r.Some? ==> v.JObj? && exists i :: 0 <= i < |v.fields| && v.fields[i] == (key, r.value)
  {
    if v.JObj? then LastField(v.fields, key) else None
  }

  function LastField(fields: seq<(string, Json)>, key: string): (r: Option<Json>)
    ensures r.Some? ==> exists i :: 0 <= i < |fields| && fields[i] == (key, r.value)
    ensures r.None? ==> forall i :: 0 <= i < |fields| ==> fields[i].0 != key
    decreases |fields|
  {
    if |fields| == 0 then None
    else if fields[|fields| - 1].0 == key then Some(fields[|fields| - 1].1)
    else LastField(fields[..|fields| - 1], key)
  }

  /** The field found is the last one of that name. */
  lemma {:induction false} LastFieldAt(fields: seq<(string, Json)>, key: string, i: nat)
    requires i < |fields| && fields[i].0 == key
    requires forall j :: i < j < |fields| ==> fields[j].0 != key
    ensures LastField(fields, key) == Some(fields[i].1)
    decreases |fields|
  {
    if i < |fields| - 1 {
      LastFieldAt(fields[..|fields| - 1], key, i);
    }
  }

  /** The names of an object's fields, in order. */
  function Keys(fields: seq<(string, Json)>): (ks: seq<string>)
    ensures |ks| == |fields|
    ensures forall i :: 0 <= i < |fields| ==> ks[i] == fields[i].0
  {
    seq(|fields|, i requires 0 <= i < |fields| => fields[i].0)
  }

  /** The value of a field when it is a string, else None. */
  function GetString(v: Json, key: string): Option<string>
  {
    match Member(v, key)
    case Some(JStr(s)) => Some(s)
    case _ => None
  }

  function StrArr(xs: seq<string>): (j: Json)
    ensures j.JArr? && |j.items| == |xs|
    ensures forall i :: 0 <= i < |xs| ==> j.items[i] == JStr(xs[i])
  {
    JArr(seq(|xs|, i requires 0 <= i < |xs| => JStr(xs[i])))
  }
}
