/**
 * Python sets built from lists and Python dicts, as the scripts use them.
 *
 * A dict is a sequence of (key, value) pairs in insertion order; `d[k] = v`
 * replaces the value in place when `k` is present and appends otherwise.
 */
module Collections {
  import opened Wrappers

  predicate NoDups<T(==)>(s: seq<T>) {
    forall i, j :: 0 <= i < j < |s| ==> s[i] != s[j]
  }

  /**
   * `list(set(s))` / `{... for x in s}`: every element once. Python leaves
   * the order unspecified; the model keeps first occurrences in order.
   */
  function Dedup<T(==)>(s: seq<T>): (r: seq<T>)
    ensures NoDups(r)
    ensures forall i :: 0 <= i < |r| ==> r[i] in s
    ensures forall i :: 0 <= i < |s| ==> s[i] in r
    ensures |r| <= |s|
  {
    if s == [] then []
    else
      var init := s[..|s| - 1];
      var r' := Dedup(init);
      var last := s[|s| - 1];
      assert forall i :: 0 <= i < |s| - 1 ==> s[i] == init[i];
      if last in r' then r' else r' + [last]
  }

  /** A list that already has no duplicates is its own deduplication. */
  lemma {:induction false} DedupOfNoDups<T>(s: seq<T>)
    requires NoDups(s)
    ensures Dedup(s) == s
  {
    if s != [] {
      var init := s[..|s| - 1];
      assert NoDups(init);
      DedupOfNoDups(init);
      assert s[|s| - 1] !in init;
      assert init + [s[|s| - 1]] == s;
    }
  }

  // ---------------------------------------------------------------------------
  // dicts

  function Keys<K, V>(d: seq<(K, V)>): (ks: seq<K>)
    ensures |ks| == |d| && forall i :: 0 <= i < |d| ==> ks[i] == d[i].0
  {
    if d == [] then [] else [d[0].0] + Keys(d[1..])
  }

  function Values<K, V>(d: seq<(K, V)>): (vs: seq<V>)
    ensures |vs| == |d| && forall i :: 0 <= i < |d| ==> vs[i] == d[i].1
  {
    if d == [] then [] else [d[0].1] + Values(d[1..])
  }

  predicate DistinctKeys<K(==), V>(d: seq<(K, V)>) {
    NoDups(Keys(d))
  }

  /** `d.get(k)`: the value of the first pair whose key is `k`. */
  function Get<K(==), V>(d: seq<(K, V)>, k: K): (r: Option<V>)
    ensures r.None? <==> k !in Keys(d)
    ensures r.Some? ==> exists i :: 0 <= i < |d| && d[i] == (k, r.value)
  {
    if d == [] then None
    else if d[0].0 == k then
      assert d[0] == (k, d[0].1);
      Some(d[0].1)
    else
      assert Keys(d) == [d[0].0] + Keys(d[1..]);
      var r := Get(d[1..], k);
      assert r.Some? ==> exists i :: 0 <= i < |d[1..]| && d[1..][i] == (k, r.value);
      r
  }

  /** In a dict without repeated keys, `Get` finds the pair at any index. */
  lemma {:induction false} GetAt<K, V>(d: seq<(K, V)>, i: nat)
    requires DistinctKeys(d) && i < |d|
    ensures Get(d, d[i].0) == Some(d[i].1)
  {
    if i > 0 {
      assert Keys(d)[0] != Keys(d)[i];
      assert Keys(d[1..]) == Keys(d)[1..];
      GetAt(d[1..], i - 1);
    }
  }

  /** `d[k] = v`. */
  function DictSet<K(==), V>(d: seq<(K, V)>, k: K, v: V): (r: seq<(K, V)>)
    ensures Keys(r) == if k in Keys(d) then Keys(d) else Keys(d) + [k]
    ensures Get(r, k) == Some(v)
  {
    if d == [] then [(k, v)]
    else if d[0].0 == k then [(k, v)] + d[1..]
    else
      var rest := DictSet(d[1..], k, v);
      assert ([d[0]] + rest)[1..] == rest;
      [d[0]] + rest
  }

  /** `d[k] = v` leaves every other key's value as it was. */
  lemma {:induction false} DictSetOther<K, V>(d: seq<(K, V)>, k: K, v: V, k': K)
    requires k' != k
    ensures Get(DictSet(d, k, v), k') == Get(d, k')
  {
    if d != [] && d[0].0 != k {
      DictSetOther(d[1..], k, v, k');
      assert ([d[0]] + DictSet(d[1..], k, v))[1..] == DictSet(d[1..], k, v);
    }
  }

  /** `d[k] = v` keeps the keys distinct. */
  lemma DictSetDistinct<K, V>(d: seq<(K, V)>, k: K, v: V)
    requires DistinctKeys(d)
    ensures DistinctKeys(DictSet(d, k, v))
  {
  }

  /** Writing back the value a key already has changes nothing. */
  lemma {:induction false} DictSetSame<K, V>(d: seq<(K, V)>, k: K)
    requires k in Keys(d)
    ensures DictSet(d, k, Get(d, k).value) == d
  {
    if d[0].0 != k {
      assert Keys(d) == [d[0].0] + Keys(d[1..]);
      DictSetSame(d[1..], k);
      assert [d[0]] + d[1..] == d;
    } else {
      assert [(k, d[0].1)] + d[1..] == d;
    }
  }

  lemma KeysSnoc<K, V>(d: seq<(K, V)>, p: (K, V))
    ensures Keys(d + [p]) == Keys(d) + [p.0]
  {
  }

  /**
   * A new dict filled by `d'[k] = f(i, k, v)` for the `i`-th item `(k, v)` of
   * `d`, in order.
   */
  function DictMap<K(==), V, W>(d: seq<(K, V)>, f: (nat, K, V) -> W): seq<(K, W)> {
    if d == [] then []
    else
      var i := |d| - 1;
      DictSet(DictMap(d[..i], f), d[i].0, f(i, d[i].0, d[i].1))
  }

  /** One more item of the loop that fills `DictMap`. */
  lemma DictMapStep<K, V, W>(d: seq<(K, V)>, f: (nat, K, V) -> W, i: nat)
    requires i < |d|
    ensures DictMap(d[..i + 1], f) == DictSet(DictMap(d[..i], f), d[i].0, f(i, d[i].0, d[i].1))
  {
    assert d[..i + 1][..i] == d[..i];
  }

  /** Dropping the last item keeps the keys distinct, and its key is not among the others. */
  lemma DistinctKeysInit<K, V>(d: seq<(K, V)>)
    requires DistinctKeys(d) && d != []
    ensures DistinctKeys(d[..|d| - 1])
    ensures d[|d| - 1].0 !in Keys(d[..|d| - 1])
  {
    var init := d[..|d| - 1];
    assert forall i :: 0 <= i < |init| ==> Keys(init)[i] == Keys(d)[i];
  }

  /**
   * For a dict (distinct keys), the new dict has the same keys in the same
   * order, and each key holds `f` of its own item.
   */
  lemma {:induction false} DictMapShape<K, V, W>(d: seq<(K, V)>, f: (nat, K, V) -> W)
    requires DistinctKeys(d)
    ensures Keys(DictMap(d, f)) == Keys(d)
    ensures forall i :: 0 <= i < |d| ==> Get(DictMap(d, f), d[i].0) == Some(f(i, d[i].0, d[i].1))
  {
    if d != [] {
      var n := |d| - 1;
      var init := d[..n];
      var k, v := d[n].0, d[n].1;
      assert d == init + [d[n]];
      KeysSnoc(init, d[n]);
      DistinctKeysInit(d);
      DictMapShape(init, f);
      var prev := DictMap(init, f);
      assert DictMap(d, f) == DictSet(prev, k, f(n, k, v));
      assert k !in Keys(prev);
      forall i | 0 <= i < n
        ensures Get(DictMap(d, f), d[i].0) == Some(f(i, d[i].0, d[i].1))
      {
        assert d[i] == init[i];
        assert Keys(d)[i] != Keys(d)[n];
        DictSetOther(prev, k, f(n, k, v), d[i].0);
      }
    }
  }
}
