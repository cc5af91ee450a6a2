/** A JavaScript plain object (`{}`) or a Python `dict` with string keys:
    entries kept in insertion order, assignment to an existing key overwrites
    in place and assignment to a new key appends. */
module Dicts {
  import opened Wrappers
  import opened Seqs

  datatype Dict<V> = Dict(entries: seq<(string, V)>)

  function Keys<V>(d: Dict<V>): (ks: seq<string>)
    ensures |ks| == |d.entries|
    ensures forall i :: 0 <= i < |ks| ==> ks[i] == d.entries[i].0
  {
    seq(|d.entries|, i requires 0 <= i < |d.entries| => d.entries[i].0)
  }

  /** No key is stored twice. */
  ghost predicate Valid<V>(d: Dict<V>)
  {
    Distinct(Keys(d))
  }

  /** `obj[k]`, `d.get(k)`: the value stored under `k`, if any. */
  function Get<V>(d: Dict<V>, k: string): (r: Option<V>)
    ensures r.None? <==> k !in Keys(d)
  {
    var i := IndexOf(Keys(d), k);
    if i < 0 then None else Some(d.entries[i].1)
  }

  /** `obj[k] = v`, `d[k] = v`. */
  function Put<V>(d: Dict<V>, k: string, v: V): Dict<V>
  {
    var i := IndexOf(Keys(d), k);
    if i < 0 then Dict(d.entries + [(k, v)]) else Dict(d.entries[i := (k, v)])
  }

  /** Assignment stores the value under its key, leaves every other key alone,
      keeps the key order and appends a new key at the end. */
  lemma PutGet<V>(d: Dict<V>, k: string, v: V)
    requires Valid(d)
    ensures Valid(Put(d, k, v))
    ensures Get(Put(d, k, v), k) == Some(v)
    ensures forall k' :: k' != k ==> Get(Put(d, k, v), k') == Get(d, k')
    ensures Keys(Put(d, k, v)) == if k in Keys(d) then Keys(d) else Keys(d) + [k]
  {
    PutKeys(d, k, v);
    PutOther(d, k, v);
    PutSame(d, k, v);
  }

  lemma PutKeys<V>(d: Dict<V>, k: string, v: V)
    ensures Keys(Put(d, k, v)) == if k in Keys(d) then Keys(d) else Keys(d) + [k]
  {
    var r := Put(d, k, v);
    if IndexOf(Keys(d), k) < 0 {
      assert Keys(r) == Keys(d) + [k];
    } else {
      assert Keys(r) == Keys(d);
    }
  }

  lemma PutOther<V>(d: Dict<V>, k: string, v: V)
    ensures forall k' :: k' != k ==> Get(Put(d, k, v), k') == Get(d, k')
  {
    var r := Put(d, k, v);
    PutKeys(d, k, v);
    forall k' | k' != k ensures Get(r, k') == Get(d, k') {
      var j := IndexOf(Keys(d), k');
      if j >= 0 {
        assert IndexOf(Keys(r), k') == j by {
          assert Keys(r)[j] == k';
          assert Keys(r)[..j] == Keys(d)[..j];
        }
      }
    }
  }

  lemma PutSame<V>(d: Dict<V>, k: string, v: V)
    requires Valid(d)
    ensures Valid(Put(d, k, v))
    ensures Get(Put(d, k, v), k) == Some(v)
  {
    var i := IndexOf(Keys(d), k);
    var r := Put(d, k, v);
    PutKeys(d, k, v);
    var p := IndexOf(Keys(r), k);
    if i >= 0 {
      assert Keys(r)[..i] == Keys(d)[..i];
      assert p == i;
    } else {
      assert Keys(r)[..|d.entries|] == Keys(d);
      assert p == |d.entries|;
    }
  }

  /** In a valid dictionary the value under the key at position `i` is that entry's value. */
  lemma GetAt<V>(d: Dict<V>, i: nat)
    requires Valid(d) && i < |d.entries|
    ensures Get(d, d.entries[i].0) == Some(d.entries[i].1)
  {
    var j := IndexOf(Keys(d), d.entries[i].0);
    assert Keys(d)[i] == d.entries[i].0;
  }
}
