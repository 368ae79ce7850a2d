/** Python dictionaries with string keys as the modelled code uses them:
    they remember insertion order, and assigning to a key that is already
    present keeps that key where it was. */
module Dicts {
  import opened Basics
  import opened Strings

  /** A dictionary value: the request parser produces strings, the job
      expander adds integers (run numbers and seeds). */
  datatype Value = Str(s: string) | Int(i: int)

  /** `f'{v}'` */
  function Text(v: Value): string {
    match v
    case Str(s) => s
    case Int(i) => IntToString(i)
  }

  /** Python truthiness of a value: a non-empty string, a non-zero integer. */
  predicate Truthy(v: Value) {
    match v
    case Str(s) => s != ""
    case Int(i) => i != 0
  }

  /** The keys in insertion order, and what each maps to. */
  datatype Dict = Dict(keys: seq<string>, vals: map<string, Value>)

  /** Every key once in `keys`, and exactly the keys of `vals` there. */
  ghost predicate Valid(d: Dict) {
    Distinct(d.keys) && forall k :: k in d.vals <==> k in d.keys
  }

  const Empty: Dict := Dict([], map[])

  /** `k in d` */
  predicate Has(d: Dict, k: string) {
    k in d.vals
  }

  /** `d.get(k)` */
  function Get(d: Dict, k: string): Option<Value> {
    if k in d.vals then Some(d.vals[k]) else None
  }

  /** `d.get(k, default)` */
  function GetOr(d: Dict, k: string, default: Value): Value {
    if k in d.vals then d.vals[k] else default
  }

  /** `d[k]`, which raises KeyError when k is absent */
  function Lookup(d: Dict, k: string): (r: Result<Value>)
    ensures r.Ok? <==> Has(d, k)
    ensures r.Ok? ==> r.value == d.vals[k]
  {
    if k in d.vals then Ok(d.vals[k]) else Err(MissingKey(k))
  }

  /** `d[k]` where a string is needed; an integer there makes the string
      method that follows raise. */
  function StrField(d: Dict, k: string): (r: Result<string>)
    ensures r.Ok? <==> (Has(d, k) && d.vals[k].Str?)
    ensures r.Ok? ==> d.vals[k] == Str(r.value)
  {
    if k !in d.vals then Err(MissingKey(k))
    else match d.vals[k]
      case Str(s) => Ok(s)
      case Int(_) => Err(NotAString(k))
  }

  /** `d[k] = v`: a new key goes to the end, an existing key keeps its place. */
  function Set(d: Dict, k: string, v: Value): (r: Dict)
    ensures Get(r, k) == Some(v)
    ensures forall k' :: k' != k ==> Get(r, k') == Get(d, k')
    ensures Has(d, k) ==> r.keys == d.keys
    ensures !Has(d, k) ==> r.keys == d.keys + [k]
  {
    Dict(if k in d.vals then d.keys else d.keys + [k], d.vals[k := v])
  }

  lemma {:induction false} SetValid(d: Dict, k: string, v: Value)
    requires Valid(d)
    ensures Valid(Set(d, k, v))
  {
  }

  /** Assigning the same key twice leaves only the second value, in the place
      the first assignment gave the key. */
  lemma {:induction false} SetTwice(d: Dict, k: string, v1: Value, v2: Value)
    ensures Set(Set(d, k, v1), k, v2) == Set(d, k, v2)
  {
    assert d.vals[k := v1][k := v2] == d.vals[k := v2];
  }

  /** Two dictionaries with the same keys in the same order and the same
      lookups are the same dictionary. */
  lemma {:induction false} Extensional(a: Dict, b: Dict)
    requires a.keys == b.keys
    requires forall k :: Get(a, k) == Get(b, k)
    ensures a == b
  {
    forall k ensures k in a.vals <==> k in b.vals {
      assert Get(a, k) == Get(b, k);
    }
    forall k | k in a.vals ensures a.vals[k] == b.vals[k] {
      assert Get(a, k) == Get(b, k);
    }
    assert a.vals == b.vals;
  }
}
