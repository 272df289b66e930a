/**
 * The values Python's `json` module produces, and the few dict operations the
 * scraper uses on them: `d.get(k, default)`, `d[k] = v`, iteration over the
 * keys and truthiness.
 */
module Json {
  import opened Wrappers

  /** A parsed JSON document. Numbers with a fraction are not modelled. */
  datatype Value =
    | JNull
    | JBool(b: bool)
    | JInt(n: int)
    | JStr(s: string)
    | JArr(items: seq<Value>)
    | JObj(dict: Dict)

  /** A Python dict: its keys in insertion order, and the value of each key. */
  datatype Dict = Dict(keys: seq<string>, values: map<string, Value>)

  /** Every key is listed once in `keys`, and `keys` lists exactly the keys that have a value. */
  predicate WellFormed(d: Dict) {
    && (forall i, j | 0 <= i < j < |d.keys| :: d.keys[i] != d.keys[j])
    && (forall i | 0 <= i < |d.keys| :: d.keys[i] in d.values)
    && (forall k | k in d.values :: k in d.keys)
  }

  /** `{}` */
  const EmptyDict: Dict := Dict([], map[])

  /** `d.get(k)` */
  function Get(d: Dict, k: string): Option<Value> {
    if k in d.values then Some(d.values[k]) else None
  }

  /** `d.get(k, default)` */
  function GetOr(d: Dict, k: string, default: Value): Value {
    if k in d.values then d.values[k] else default
  }

  /** `d[k] = v` */
  function Put(d: Dict, k: string, v: Value): Dict {
    Dict(if k in d.values then d.keys else d.keys + [k], d.values[k := v])
  }

  /** Python's truth value of a JSON value (`if v:`). */
  predicate Truthy(v: Value) {
    match v
    case JNull => false
    case JBool(b) => b
    case JInt(n) => n != 0
    case JStr(s) => s != []
    case JArr(xs) => xs != []
    case JObj(d) => d.values != map[]
  }

  /**
   * After `d[k] = v`, `k` holds `v` and every other key reads as before; an
   * existing key keeps its place in the iteration order and a new key goes
   * last; and the result is again a well-formed dict.
   */
  lemma PutSpec(d: Dict, k: string, v: Value)
    requires WellFormed(d)
    ensures Get(Put(d, k, v), k) == Some(v)
    ensures forall k' | k' != k :: Get(Put(d, k, v), k') == Get(d, k')
    ensures Put(d, k, v).keys == if Get(d, k).Some? then d.keys else d.keys + [k]
    ensures forall k' :: k' in Put(d, k, v).keys <==> k' in d.keys || k' == k
    ensures WellFormed(Put(d, k, v))
  {
    var r := Put(d, k, v);
    if k !in d.values {
      assert r.keys == d.keys + [k];
      forall i, j | 0 <= i < j < |r.keys| ensures r.keys[i] != r.keys[j] {
        if j == |d.keys| {
          assert r.keys[i] == d.keys[i];
          assert d.keys[i] in d.keys;
        }
      }
    }
  }
}
