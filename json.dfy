/** The decoded JSON objects the client and the servers exchange: an object is its
    entries in insertion order (the order Python dictionaries keep and
    `Object.entries` lists), each value a string or an integer. */
module Json {
  import opened Wrappers
  import opened Text

  datatype Value = Str(s: string) | Int(i: int)

  type Entry = (string, Value)

  /** `${value}` in a template literal. */
  function Render(v: Value): string {
    match v
    case Str(s) => s
    case Int(i) => IntToString(i)
  }

  function Keys(d: seq<Entry>): (ks: seq<string>)
    ensures |ks| == |d| && forall i :: 0 <= i < |d| ==> ks[i] == d[i].0
  {
    if d == [] then [] else [d[0].0] + Keys(d[1..])
  }

  /** The `delete item[key]` of an object: its entries without those under `key`, the
      others kept in order. */
  function Delete(d: seq<Entry>, key: string): (r: seq<Entry>)
    ensures |r| <= |d|
    ensures forall i :: 0 <= i < |r| ==> r[i] in d && r[i].0 != key
    ensures forall e :: e in d && e.0 != key ==> e in r
  {
    if d == [] then []
    else if d[0].0 == key then Delete(d[1..], key)
    else [d[0]] + Delete(d[1..], key)
  }

  /** The value under `key`, if the object has one. */
  function Lookup(d: seq<Entry>, key: string): (r: Option<Value>)
    ensures r.Some? <==> key in Keys(d)
    ensures r.Some? ==> (key, r.value) in d
  {
    if d == [] then None
    else if d[0].0 == key then Some(d[0].1)
    else Lookup(d[1..], key)
  }
}
