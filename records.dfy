/** A JavaScript object used as a dictionary (`Record<string, V>`), kept as its
    entries in key-insertion order, which is the order in which `Object.keys` and
    `Object.values` enumerate string keys. */
module Records {
  import opened Wrappers

  type Record<V> = seq<(string, V)>

  /** A JavaScript object never holds the same key twice. */
  predicate UniqueKeys<V>(r: Record<V>) {
    forall i, j :: 0 <= i < j < |r| ==> r[i].0 != r[j].0
  }

  /** `Object.keys(r)` */
  function Keys<V>(r: Record<V>): (ks: seq<string>)
    ensures |ks| == |r|
    ensures forall i :: 0 <= i < |r| ==> ks[i] == r[i].0
  {
    if r == [] then [] else [r[0].0] + Keys(r[1..])
  }

  /** `Object.values(r)` */
  function Values<V>(r: Record<V>): (vs: seq<V>)
    ensures |vs| == |r|
    ensures forall i :: 0 <= i < |r| ==> vs[i] == r[i].1
  {
    if r == [] then [] else [r[0].1] + Values(r[1..])
  }

  /** `O.fromNullable(r[k])`: the value stored under `k`, if any. */
  function Lookup<V>(r: Record<V>, k: string): (o: Option<V>)
    ensures o.None? <==> k !in Keys(r)
    ensures o.Some? ==> exists i :: 0 <= i < |r| && r[i] == (k, o.value)
  {
    if r == [] then None
    else if r[0].0 == k then Some(r[0].1)
    else Lookup(r[1..], k)
  }

  /** `{ ...r, [k]: v }`: an existing key keeps its position and takes the new
      value; a new key is appended. */
  function Put<V>(r: Record<V>, k: string, v: V): (r': Record<V>)
    ensures Keys(r') == if k in Keys(r) then Keys(r) else Keys(r) + [k]
  {
    if r == [] then [(k, v)]
    else if r[0].0 == k then [(k, v)] + r[1..]
    else [r[0]] + Put(r[1..], k, v)
  }

  /** After `{ ...r, [k]: v }`, `k` holds `v` and every other key is as before. */
  lemma {:induction false} PutLookup<V>(r: Record<V>, k: string, v: V, k': string)
    ensures Lookup(Put(r, k, v), k') == if k' == k then Some(v) else Lookup(r, k')
  {
    if r != [] && r[0].0 != k {
      PutLookup(r[1..], k, v, k');
    }
  }

  /** Spreading into a JavaScript object keeps its keys unique. */
  lemma PutUnique<V>(r: Record<V>, k: string, v: V)
    requires UniqueKeys(r)
    ensures UniqueKeys(Put(r, k, v))
  {
    var r' := Put(r, k, v);
    forall i, j | 0 <= i < j < |r'| ensures r'[i].0 != r'[j].0 {
      assert Keys(r')[i] != Keys(r')[j] by {
        if k !in Keys(r) && j == |r| {
          assert Keys(r)[i] == Keys(r')[i];
        } else {
          assert Keys(r')[i] == r[i].0 && Keys(r')[j] == r[j].0;
        }
      }
    }
  }

  /** In a record with unique keys, a value occurs in `Object.values` exactly when
      some key is bound to it. */
  lemma {:induction false} ValuesAreBound<V>(r: Record<V>, v: V)
    requires UniqueKeys(r)
    ensures v in Values(r) <==> exists k :: Lookup(r, k) == Some(v)
  {
    if v in Values(r) {
      var i :| 0 <= i < |r| && Values(r)[i] == v;
      LookupAt(r, i);
    }
    if k :| Lookup(r, k) == Some(v) {
      var i :| 0 <= i < |r| && r[i] == (k, v);
      assert Values(r)[i] == v;
    }
  }

  /** With unique keys, looking up the key of the `i`-th entry finds that entry. */
  lemma {:induction false} LookupAt<V>(r: Record<V>, i: nat)
    requires UniqueKeys(r) && i < |r|
    ensures Lookup(r, r[i].0) == Some(r[i].1)
  {
    if i > 0 {
      assert r[0].0 != r[i].0;
      LookupAt(r[1..], i - 1);
    }
  }
}
