/**
 * Python's `dict` as its insertion-ordered list of entries: assigning to a key
 * that is present replaces its value where it stands, assigning to a new key
 * appends it.
 */
module PyDict {
  import opened Wrappers

  type Dict<K(==, !new), V> = seq<(K, V)>

  function Keys<K(==, !new), V>(d: Dict<K, V>): (ks: seq<K>)
    ensures |ks| == |d| && forall i :: 0 <= i < |d| ==> ks[i] == d[i].0
  {
    seq(|d|, i requires 0 <= i < |d| => d[i].0)
  }

  predicate UniqueKeys<K(==, !new), V>(d: Dict<K, V>) {
    forall i, j :: 0 <= i < j < |d| ==> d[i].0 != d[j].0
  }

  /** The position of key `k`, if it is present. */
  function IndexOf<K(==, !new), V>(d: Dict<K, V>, k: K): (r: Option<nat>)
    ensures r.Some? ==> r.value < |d| && d[r.value].0 == k
                        && forall j :: 0 <= j < r.value ==> d[j].0 != k
    ensures r.None? ==> forall j :: 0 <= j < |d| ==> d[j].0 != k
  {
    if |d| == 0 then None
    else if d[0].0 == k then Some(0)
    else match IndexOf(d[1..], k)
      case None => None
      case Some(i) => Some(i + 1)
  }

  /** `d.get(k)`. */
  function Get<K(==, !new), V>(d: Dict<K, V>, k: K): Option<V> {
    match IndexOf(d, k)
    case None => None
    case Some(i) => Some(d[i].1)
  }

  /** `d[k] = v`. */
  function Put<K(==, !new), V>(d: Dict<K, V>, k: K, v: V): (r: Dict<K, V>)
    ensures Get(r, k) == Some(v)
    ensures forall k' :: k' != k ==> Get(r, k') == Get(d, k')
    ensures IndexOf(d, k).Some? ==> Keys(r) == Keys(d)
    ensures IndexOf(d, k).None? ==> Keys(r) == Keys(d) + [k]
    ensures UniqueKeys(d) ==> UniqueKeys(r)
  {
    match IndexOf(d, k)
    case Some(i) =>
      var r := d[i := (k, v)];
      assert forall k' :: IndexOf(r, k') == IndexOf(d, k') by {
        forall k' ensures IndexOf(r, k') == IndexOf(d, k') {
          SameKeysSameIndex(d, r, k');
        }
      }
      r
    case None =>
      var r := d + [(k, v)];
      forall k' | k' != k ensures Get(r, k') == Get(d, k') {
        AppendIndex(d, k, v, k');
      }
      AppendIndex(d, k, v, k);
      r
  }

  lemma SameKeysSameIndex<K(!new), V>(d: Dict<K, V>, e: Dict<K, V>, k: K)
    requires |d| == |e| && forall i :: 0 <= i < |d| ==> d[i].0 == e[i].0
    ensures IndexOf(d, k) == IndexOf(e, k)
  {
    if |d| > 0 && d[0].0 != k {
      SameKeysSameIndex(d[1..], e[1..], k);
    }
  }

  lemma AppendIndex<K(!new), V>(d: Dict<K, V>, k: K, v: V, k': K)
    requires IndexOf(d, k).None?
    ensures k' != k ==> IndexOf(d + [(k, v)], k') == IndexOf(d, k')
    ensures IndexOf(d + [(k, v)], k) == Some(|d|)
  {
    if |d| > 0 {
      assert (d + [(k, v)])[1..] == d[1..] + [(k, v)];
      AppendIndex(d[1..], k, v, k');
    }
  }

  /** The value stored at the first position holding a key is what `get`
      returns for it. */
  lemma GetFirst<K(!new), V>(d: Dict<K, V>, i: nat, k: K)
    requires i < |d| && d[i].0 == k && forall j :: 0 <= j < i ==> d[j].0 != k
    ensures Get(d, k) == Some(d[i].1)
  {
  }

  /** The dict built by assigning each pair in turn: `d[k] = v` for every
      `(k, v)` of `ps`, in order. */
  function FromPairs<K(==, !new), V>(ps: seq<(K, V)>): (d: Dict<K, V>)
    ensures |d| <= |ps|
  {
    if ps == [] then [] else Put(FromPairs(ps[..|ps| - 1]), ps[|ps| - 1].0, ps[|ps| - 1].1)
  }

  /** The position of the last pair with key `k`. */
  function LastKeyed<K(==, !new), V>(ps: seq<(K, V)>, k: K): (r: Option<nat>)
    ensures r.Some? ==> r.value < |ps| && ps[r.value].0 == k
                        && forall j :: r.value < j < |ps| ==> ps[j].0 != k
    ensures r.None? ==> forall j :: 0 <= j < |ps| ==> ps[j].0 != k
  {
    if ps == [] then None
    else if ps[|ps| - 1].0 == k then Some(|ps| - 1)
    else LastKeyed(ps[..|ps| - 1], k)
  }

  /** A later assignment to a key overwrites an earlier one: `get` finds the
      value of the last pair with the key, and nothing when no pair has it. */
  lemma {:induction false} FromPairsLookup<K(!new), V>(ps: seq<(K, V)>, k: K)
    ensures match LastKeyed(ps, k)
      case None => Get(FromPairs(ps), k).None?
      case Some(i) => Get(FromPairs(ps), k) == Some(ps[i].1)
  {
    if ps != [] {
      FromPairsLookup(ps[..|ps| - 1], k);
    }
  }

  /** Assigning to a key adds that key and keeps all others. */
  lemma PutKeys<K(!new), V>(d: Dict<K, V>, k: K, v: V)
    ensures forall k' :: k' in Keys(Put(d, k, v)) <==> k' in Keys(d) || k' == k
  {
    var r := Put(d, k, v);
    forall k' ensures k' in Keys(r) <==> k' in Keys(d) || k' == k {
      if IndexOf(d, k).Some? {
        assert Keys(r) == Keys(d);
        if k' == k {
          assert Keys(d)[IndexOf(d, k).value] == k;
        }
      } else {
        assert Keys(r) == Keys(d) + [k];
      }
    }
  }

  /** Every key is held once, and the keys are exactly the keys assigned. */
  lemma {:induction false} FromPairsKeys<K(!new), V>(ps: seq<(K, V)>)
    ensures UniqueKeys(FromPairs(ps))
    ensures forall k :: k in Keys(FromPairs(ps)) <==> exists i :: 0 <= i < |ps| && ps[i].0 == k
  {
    if ps != [] {
      var init := ps[..|ps| - 1];
      FromPairsKeys(init);
      PutKeys(FromPairs(init), ps[|ps| - 1].0, ps[|ps| - 1].1);
      forall i | 0 <= i < |init| ensures init[i] == ps[i] {}
    }
  }
}
