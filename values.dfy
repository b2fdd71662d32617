/**
 The values the query-parameter store holds: what the query-string codec
 produces when it parses a query, what a caller may write through the
 current view, and JavaScript's `undefined`.
 */
module Values {

  datatype Option<+T> = None | Some(value: T)

  /** A query-parameter value. `Undefined` is a value in its own right: the
      view's write path stores it as is, and a merge reads it as "delete". */
  datatype Value =
    | Undefined
    | Str(s: string)
    | Num(n: real)
    | Arr(items: seq<Value>)
    | Obj(fields: map<string, Value>)

  /** A parameter set: one plain object, key to value. */
  type Params = map<string, Value>

  /** An object whose key enumeration order matters: the pairs in order. */
  type Record = seq<(string, Value)>

  /** Reading `obj[key]`: the stored value, or `undefined` when the key is absent. */
  function Lookup(p: Params, key: string): Value
  {
    if key in p then p[key] else Undefined
  }

  /** The plain object that assigning the pairs of `r` one after another
      builds: a later pair overwrites an earlier one with the same key. */
  function ToMap(r: Record): (m: Params)
    ensures forall i :: 0 <= i < |r| ==> r[i].0 in m
  {
    if r == [] then map[] else map[r[0].0 := r[0].1] + ToMap(r[1..])
  }

  /** An index at which a key of `ToMap(r)` occurs in `r`. */
  lemma {:induction false} ToMapIndex(r: Record, k: string) returns (i: nat)
    requires k in ToMap(r)
    ensures i < |r| && r[i].0 == k
  {
    if r[0].0 == k {
      i := 0;
    } else {
      var j := ToMapIndex(r[1..], k);
      i := j + 1;
    }
  }
}
