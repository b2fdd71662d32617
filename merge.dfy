/**
 The merge `setOnPath` performs on one path's entry: each key of the parsed
 parameters is skipped when its value is identical to the stored one,
 deleted when its value is `undefined`, and overwritten otherwise.
 */
module Merging {
  import opened Values

  /** One key of the merge, as the body of the loop over the keys does it. */
  function Step(entry: Params, key: string, value: Value): (r: Params)
    ensures value != Undefined ==> key in r && r[key] == value
    ensures value == Undefined ==> Lookup(r, key) == Undefined && (key in r <==> key in entry && entry[key] == Undefined)
    ensures forall k :: k != key ==> (k in r <==> k in entry) && (k in r ==> r[k] == entry[k])
  {
    if Lookup(entry, key) == value then entry
    else if value == Undefined then entry - {key}
    else entry[key := value]
  }

  /** A key survives the merge: set by `q` to a defined value, left alone by
      `q`, or already stored as `undefined` (so the identity check skips the
      delete). */
  predicate Kept(entry: Params, q: Params, key: string)
  {
    if key in q then q[key] != Undefined || (key in entry && entry[key] == Undefined)
    else key in entry
  }

  /** The entry after merging all of `q` into it. */
  function Merge(entry: Params, q: Params): (r: Params)
    // a defined value of `q` is stored
    ensures forall k :: k in q && q[k] != Undefined ==> k in r && r[k] == q[k]
    // an `undefined` of `q` removes the key, unless `undefined` was stored there
    ensures forall k :: k in q && q[k] == Undefined ==>
      (k in r <==> k in entry && entry[k] == Undefined) && Lookup(r, k) == Undefined
    // keys `q` does not mention keep their presence and value
    ensures forall k :: k !in q ==> (k in r <==> k in entry) && (k in entry ==> r[k] == entry[k])
  {
    map k | k in entry.Keys + q.Keys && Kept(entry, q, k) ::
      if k in q && q[k] != Undefined then q[k] else entry[k]
  }

  /** The keys of `q` in `done`. */
  function Restrict(q: Params, done: set<string>): (r: Params)
    ensures r.Keys == q.Keys * done
    ensures forall k :: k in r ==> r[k] == q[k]
  {
    map k | k in q && k in done :: q[k]
  }

  /** Merging no parameters changes nothing. */
  lemma MergeNothing(entry: Params)
    ensures Merge(entry, map[]) == entry
    ensures forall q :: Restrict(q, {}) == map[]
  {
  }

  /** Merging one more key of `q` is one more step: the loop of `setOnPath`
      computes the merge, whatever order it visits the keys in. */
  lemma MergeStep(entry: Params, q: Params, done: set<string>, key: string)
    requires key in q && key !in done
    ensures Merge(entry, Restrict(q, done + {key})) == Step(Merge(entry, Restrict(q, done)), key, q[key])
  {
    var before := Merge(entry, Restrict(q, done));
    var after := Merge(entry, Restrict(q, done + {key}));
    var stepped := Step(before, key, q[key]);
    forall k | k != key
      ensures k in after <==> k in stepped
      ensures k in after ==> after[k] == stepped[k]
    {
      assert k in Restrict(q, done + {key}) <==> k in Restrict(q, done);
    }
    assert key in after <==> key in stepped;
    assert key in after ==> after[key] == stepped[key];
  }

  /** Merging the same parameters a second time changes nothing: every key
      of the second pass hits the identity skip or deletes an absent key. */
  lemma MergeIdempotent(entry: Params, q: Params)
    ensures Merge(Merge(entry, q), q) == Merge(entry, q)
  {
    var once := Merge(entry, q);
    var twice := Merge(once, q);
    forall k
      ensures k in twice <==> k in once
      ensures k in once ==> twice[k] == once[k]
    {
    }
  }

  /** No key is stored as `undefined`. */
  predicate NoUndefined(p: Params)
  {
    forall k :: k in p ==> p[k] != Undefined
  }

  /** Over an entry that stores no `undefined`, the merge stores none either
      and every `undefined` of `q` leaves its key absent. */
  lemma MergeKeepsNoUndefined(entry: Params, q: Params)
    requires NoUndefined(entry)
    ensures NoUndefined(Merge(entry, q))
    ensures forall k :: k in q && q[k] == Undefined ==> k !in Merge(entry, q)
  {
  }

  /** A first merge into an empty entry stores exactly the defined pairs. */
  lemma MergeIntoEmpty(q: Params)
    ensures Merge(map[], q) == map k | k in q && q[k] != Undefined :: q[k]
  {
  }

  /** An `undefined` written through the view survives a later merge that
      asks to delete that key. */
  lemma StoredUndefinedSurvivesMerge(key: string)
    ensures key in Merge(map[key := Undefined], map[key := Undefined])
  {
  }
}
