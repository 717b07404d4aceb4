/** The generic decoded JSON value the walker works on (Go's `interface{}` holding
    nil, bool, float64, string, []interface{} or map[string]interface{}).

    An object is a list of fields. Go maps have no iteration order; this model
    fixes one, the order of the list. Field access follows Go's map semantics:
    `Lookup` finds the (first) field with the key, `Put` overwrites it or adds it. */
module JsonValue {
  import opened Wrappers

  newtype byte = x: int | 0 <= x < 256

  datatype Value =
    | Null
    | Bool(b: bool)
    | Num(n: real)
    | Str(s: string)
    | Arr(elems: seq<Value>)
    | Obj(fields: seq<Field>)

  datatype Field = Field(key: string, val: Value)

  /** Every key occurs once, as in a Go map. */
  predicate DistinctKeys(fs: seq<Field>) {
    fs == [] || (Lookup(fs[1..], fs[0].key).None? && DistinctKeys(fs[1..]))
  }

  /** A value `json.Unmarshal` can produce: every map, at any depth, holds
      each key once. */
  predicate GoValue(v: Value)
    decreases v
  {
    match v
    case Arr(es) => forall e | e in es :: GoValue(e)
    case Obj(fs) => DistinctKeys(fs) && forall f | f in fs :: GoValue(f.val)
    case _ => true
  }

  type GoJson = v: Value | GoValue(v) witness Null

  /** `o[k]` together with Go's `_, found := o[k]`. */
  function Lookup(fs: seq<Field>, k: string): Option<Value> {
    if fs == [] then None
    else if fs[0].key == k then Some(fs[0].val)
    else Lookup(fs[1..], k)
  }

  /** Go's `o[k] != nil`: the key is present and its value is not null. */
  predicate NonNil(fs: seq<Field>, k: string) {
    Lookup(fs, k).Some? && Lookup(fs, k).value != Null
  }

  /** The assignment `o[k] = v`. */
  function Put(fs: seq<Field>, k: string, v: Value): (r: seq<Field>)
    ensures Lookup(r, k) == Some(v)
    ensures forall j | j != k :: Lookup(r, j) == Lookup(fs, j)
    ensures Lookup(fs, k).None? ==> r == fs + [Field(k, v)]
  {
    if fs == [] then [Field(k, v)]
    else if fs[0].key == k then [Field(k, v)] + fs[1..]
    else [fs[0]] + Put(fs[1..], k, v)
  }

  /** Assigning a key the value it already has changes nothing. */
  lemma {:induction false} PutSame(fs: seq<Field>, k: string, v: Value)
    requires Lookup(fs, k) == Some(v)
    ensures Put(fs, k, v) == fs
  {
    if fs != [] && fs[0].key != k {
      PutSame(fs[1..], k, v);
    }
  }

  /** An assignment keeps the keys of a Go map distinct. */
  lemma {:induction false} PutKeepsDistinct(fs: seq<Field>, k: string, v: Value)
    ensures DistinctKeys(fs) ==> DistinctKeys(Put(fs, k, v))
  {
    if DistinctKeys(fs) && fs != [] && fs[0].key != k {
      PutKeepsDistinct(fs[1..], k, v);
      assert Put(fs, k, v)[1..] == Put(fs[1..], k, v);
    }
  }

  /** Overwriting a key that was just added replaces the added field. */
  lemma {:induction false} PutAfterAdd(fs: seq<Field>, k: string, v: Value, w: Value)
    requires Lookup(fs, k).None?
    ensures Put(fs + [Field(k, v)], k, w) == fs + [Field(k, w)]
  {
    if fs != [] {
      assert (fs + [Field(k, v)])[1..] == fs[1..] + [Field(k, v)];
      PutAfterAdd(fs[1..], k, v, w);
    }
  }

  /** Adding an absent key: the new key reads back, every other key reads as before. */
  lemma LookupAppended(fs: seq<Field>, k: string, v: Value)
    requires Lookup(fs, k).None?
    ensures Lookup(fs + [Field(k, v)], k) == Some(v)
    ensures forall j | j != k :: Lookup(fs + [Field(k, v)], j) == Lookup(fs, j)
  {
    assert Put(fs, k, v) == fs + [Field(k, v)];
  }

  /** What Go's `%T` prints for the value's dynamic type. */
  function GoTypeName(v: Value): string {
    match v
    case Null => "<nil>"
    case Bool(_) => "bool"
    case Num(_) => "float64"
    case Str(_) => "string"
    case Arr(_) => "[]interface {}"
    case Obj(_) => "map[string]interface {}"
  }
}
