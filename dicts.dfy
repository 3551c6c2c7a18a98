/**
 * A Python `dict` with string keys, as the decoded secret document uses it:
 * an association list in insertion order. Assigning to a present key keeps
 * its position, assigning to a new key appends it, `del` drops the entry.
 * `ToMap` is the same dictionary seen as a plain mapping, without the order.
 */
module Dicts {
  import opened Common

  type Dict<V> = seq<(string, V)>

  /** The keys in iteration order (`for key in d`). */
  function Keys<V>(d: Dict<V>): (ks: seq<string>)
    ensures |ks| == |d|
    ensures forall i :: 0 <= i < |d| ==> ks[i] == d[i].0
  {
    if d == [] then [] else [d[0].0] + Keys(d[1..])
  }

  /** No key occurs twice, as in every Python dict. */
  predicate Wf<V>(d: Dict<V>)
  {
    d == [] || (d[0].0 !in Keys(d[1..]) && Wf(d[1..]))
  }

  predicate Distinct(ks: seq<string>)
  {
    forall i, j :: 0 <= i < j < |ks| ==> ks[i] != ks[j]
  }

  /** The recursive well-formedness is exactly pairwise distinct keys. */
  lemma {:induction false} WfDistinct<V>(d: Dict<V>)
    ensures Wf(d) <==> Distinct(Keys(d))
  {
    if d != [] {
      WfDistinct(d[1..]);
      var ks, tail := Keys(d), Keys(d[1..]);
      assert ks == [d[0].0] + tail;
      if Distinct(ks) {
        assert Distinct(tail) by {
          forall i, j | 0 <= i < j < |tail| ensures tail[i] != tail[j] {
            assert tail[i] == ks[i + 1] && tail[j] == ks[j + 1];
          }
        }
        assert d[0].0 !in tail by {
          forall i | 0 <= i < |tail| ensures tail[i] != d[0].0 {
            assert tail[i] == ks[i + 1];
          }
        }
      }
    }
  }

  /** The dictionary as a mapping; the first entry of a key is the one that counts. */
  function ToMap<V>(d: Dict<V>): (m: map<string, V>)
    ensures forall k :: k in m <==> k in Keys(d)
  {
    if d == [] then map[] else ToMap(d[1..])[d[0].0 := d[0].1]
  }

  /** `d[k]` if `k in d`. */
  function Find<V>(d: Dict<V>, k: string): (r: Option<V>)
    ensures r == if k in ToMap(d) then Some(ToMap(d)[k]) else None
  {
    if d == [] then None
    else if d[0].0 == k then Some(d[0].1)
    else Find(d[1..], k)
  }

  /** `d[k] = v`. */
  function Assign<V>(d: Dict<V>, k: string, v: V): (r: Dict<V>)
  {
    if d == [] then [(k, v)]
    else if d[0].0 == k then [(k, v)] + d[1..]
    else [d[0]] + Assign(d[1..], k, v)
  }

  /** `del d[k]` for a key that is present (the caller raises KeyError otherwise). */
  function Delete<V>(d: Dict<V>, k: string): (r: Dict<V>)
  {
    if d == [] then []
    else if d[0].0 == k then d[1..]
    else [d[0]] + Delete(d[1..], k)
  }

  /** The keys of `ks` other than `k`, in the same order. */
  function Without(ks: seq<string>, k: string): (r: seq<string>)
  {
    if ks == [] then []
    else (if ks[0] == k then [] else [ks[0]]) + Without(ks[1..], k)
  }

  lemma {:induction false} WithoutAbsent(ks: seq<string>, k: string)
    requires k !in ks
    ensures Without(ks, k) == ks
  {
    if ks != [] {
      WithoutAbsent(ks[1..], k);
      assert ks == [ks[0]] + ks[1..];
    }
  }

  /** Assignment changes the mapping at `k` and nowhere else. */
  lemma {:induction false} AssignToMap<V>(d: Dict<V>, k: string, v: V)
    ensures ToMap(Assign(d, k, v)) == ToMap(d)[k := v]
  {
    if d != [] && d[0].0 != k {
      var r := Assign(d, k, v);
      AssignToMap(d[1..], k, v);
      assert r[0] == d[0] && r[1..] == Assign(d[1..], k, v);
    }
  }

  /** A present key keeps its place in the order; a new key goes last. */
  lemma {:induction false} AssignKeys<V>(d: Dict<V>, k: string, v: V)
    ensures Keys(Assign(d, k, v)) == if k in Keys(d) then Keys(d) else Keys(d) + [k]
  {
    if d != [] && d[0].0 != k {
      var r := Assign(d, k, v);
      AssignKeys(d[1..], k, v);
      assert r[0] == d[0] && r[1..] == Assign(d[1..], k, v);
      assert Keys(d) == [d[0].0] + Keys(d[1..]);
      assert Keys(r) == [d[0].0] + Keys(r[1..]);
    }
  }

  /** Assignment keeps the keys distinct. */
  lemma {:induction false} AssignWf<V>(d: Dict<V>, k: string, v: V)
    requires Wf(d)
    ensures Wf(Assign(d, k, v))
  {
    var r := Assign(d, k, v);
    if d == [] {
      assert r[1..] == [];
    } else if d[0].0 == k {
      assert r[1..] == d[1..];
    } else {
      AssignWf(d[1..], k, v);
      AssignKeys(d[1..], k, v);
      assert r[1..] == Assign(d[1..], k, v);
    }
  }

  /** Deleting a key of a well-formed dictionary removes it from the mapping and nothing else. */
  lemma {:induction false} DeleteToMap<V>(d: Dict<V>, k: string)
    requires Wf(d)
    ensures ToMap(Delete(d, k)) == ToMap(d) - {k}
  {
    if d == [] {
    } else {
      var rest := ToMap(d[1..]);
      if d[0].0 == k {
        assert k !in rest;
        RemoveFresh(rest, k, d[0].1);
      } else {
        var r := Delete(d, k);
        DeleteToMap(d[1..], k);
        assert r[0] == d[0] && r[1..] == Delete(d[1..], k);
        RemoveOther(rest, k, d[0].0, d[0].1);
      }
    }
  }

  lemma RemoveFresh<V>(m: map<string, V>, k: string, v: V)
    requires k !in m
    ensures m[k := v] - {k} == m
  {
  }

  lemma RemoveOther<V>(m: map<string, V>, k: string, j: string, v: V)
    requires j != k
    ensures (m - {k})[j := v] == m[j := v] - {k}
  {
  }

  /** Deleting a key of a well-formed dictionary keeps the other keys in their order. */
  lemma {:induction false} DeleteKeys<V>(d: Dict<V>, k: string)
    requires Wf(d)
    ensures Keys(Delete(d, k)) == Without(Keys(d), k)
  {
    if d == [] {
    } else {
      var ks := Keys(d);
      assert ks[0] == d[0].0 && ks[1..] == Keys(d[1..]);
      if d[0].0 == k {
        WithoutAbsent(Keys(d[1..]), k);
      } else {
        var r := Delete(d, k);
        DeleteKeys(d[1..], k);
        assert r[0] == d[0] && r[1..] == Delete(d[1..], k);
        assert Keys(r) == [d[0].0] + Keys(r[1..]);
      }
    }
  }

  /** Deleting keeps the keys distinct, and no key appears that was not there. */
  lemma {:induction false} DeleteWf<V>(d: Dict<V>, k: string)
    requires Wf(d)
    ensures Wf(Delete(d, k))
    ensures forall j :: j in Keys(Delete(d, k)) ==> j in Keys(d) && j != k
  {
    if d != [] && d[0].0 != k {
      var r := Delete(d, k);
      DeleteWf(d[1..], k);
      assert r[0] == d[0] && r[1..] == Delete(d[1..], k);
      assert Keys(d) == [d[0].0] + Keys(d[1..]);
      assert Keys(r) == [d[0].0] + Keys(r[1..]);
    }
  }
}
