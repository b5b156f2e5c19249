/** A parameter record as an association list: the entries of a JavaScript
    object with string keys, in the order `Object.entries` lists them. */
module ParamList {
  import opened Types

  /** The keys, in entry order. */
  function Keys(ps: Params): (ks: seq<string>)
    ensures |ks| == |ps|
    ensures forall i :: 0 <= i < |ps| ==> ks[i] == ps[i].0
  {
    if ps == [] then [] else [ps[0].0] + Keys(ps[1..])
  }

  /** An object literal never repeats a key. */
  predicate DistinctKeys(ps: Params)
  {
    forall i, j :: 0 <= i < j < |ps| ==> ps[i].0 != ps[j].0
  }

  /** `record[key]`: the value under `key`, or `None` when the key is absent. */
  function Lookup(ps: Params, k: string): Option<string>
  {
    if ps == [] then None
    else if ps[0].0 == k then Some(ps[0].1)
    else Lookup(ps[1..], k)
  }

  /** In a record without repeated keys, `Lookup` finds exactly the stored
      entries, and finds nothing for a key that is not stored. */
  lemma {:induction false} LookupIff(ps: Params, k: string, v: string)
    requires DistinctKeys(ps)
    ensures Lookup(ps, k) == Some(v) <==> (k, v) in ps
    ensures Lookup(ps, k) == None <==> k !in Keys(ps)
  {
    if ps != [] {
      DistinctKeysTail(ps);
      LookupIff(ps[1..], k, v);
    }
  }

  /** `{ ...ps, [k]: v }`: an existing key keeps its place and takes the new
      value; a new key is appended after all the others. */
  function Set(ps: Params, k: string, v: string): (r: Params)
    ensures Lookup(r, k) == Some(v)
    ensures forall k' :: k' != k ==> Lookup(r, k') == Lookup(ps, k')
    ensures k in Keys(ps) ==> Keys(r) == Keys(ps)
    ensures k !in Keys(ps) ==> r == ps + [(k, v)]
  {
    if ps == [] then [(k, v)]
    else if ps[0].0 == k then [(k, v)] + ps[1..]
    else [ps[0]] + Set(ps[1..], k, v)
  }

  /** Dropping the first entry keeps the keys distinct. */
  lemma DistinctKeysTail(ps: Params)
    requires ps != [] && DistinctKeys(ps)
    ensures DistinctKeys(ps[1..])
  {
    forall i, j | 0 <= i < j < |ps[1..]| ensures ps[1..][i].0 != ps[1..][j].0 {
      assert ps[1..][i] == ps[i + 1] && ps[1..][j] == ps[j + 1];
    }
  }

  /** In a record without repeated keys, setting the key stored at index `i`
      overwrites that one entry in place. */
  lemma {:induction false} SetInPlace(ps: Params, k: string, v: string, i: nat)
    requires DistinctKeys(ps) && i < |ps| && ps[i].0 == k
    ensures Set(ps, k, v) == ps[i := (k, v)]
  {
    if i > 0 {
      assert ps[0].0 != k;
      assert Set(ps, k, v) == [ps[0]] + Set(ps[1..], k, v);
      DistinctKeysTail(ps);
      SetInPlace(ps[1..], k, v, i - 1);
      assert ps[i := (k, v)] == [ps[0]] + ps[1..][i - 1 := (k, v)];
    }
  }
}
