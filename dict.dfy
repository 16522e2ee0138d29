/**
 * A Python dict with string keys, kept in insertion order: a sequence of
 * (key, value) pairs.  Both the attribute map of an XML element and the
 * decoders' raw field bags are dicts of this kind.
 */
module Dict {
  import opened Wrappers

  type Dict<V> = seq<(string, V)>

  /** The keys present in d. */
  function Keys<V>(d: Dict<V>): set<string> {
    set i | 0 <= i < |d| :: d[i].0
  }

  /** No key occurs twice; every dict built by Put alone has this property. */
  predicate DistinctKeys<V>(d: Dict<V>) {
    forall i, j :: 0 <= i < j < |d| ==> d[i].0 != d[j].0
  }

  /** The keys of a dict with one more pair in front. */
  lemma KeysCons<V>(p: (string, V), d: Dict<V>)
    ensures Keys([p] + d) == {p.0} + Keys(d)
  {
    var r := [p] + d;
    assert r[0].0 == p.0;
    forall x | x in Keys(r) ensures x in {p.0} + Keys(d) {
      var i :| 0 <= i < |r| && r[i].0 == x;
      if i > 0 { assert d[i - 1].0 == x; }
    }
    forall x | x in Keys(d) ensures x in Keys(r) {
      var i :| 0 <= i < |d| && d[i].0 == x;
      assert r[i + 1].0 == x;
    }
  }

  /** `d.get(k)`: the value stored under k, if any. */
  function Get<V>(d: Dict<V>, k: string): (r: Option<V>)
    ensures r.Some? <==> k in Keys(d)
    ensures r.Some? ==> (k, r.value) in d
  {
    if d == [] then None
    else
      KeysCons(d[0], d[1..]);
      assert d == [d[0]] + d[1..];
      if d[0].0 == k then Some(d[0].1) else Get(d[1..], k)
  }

  /**
   * `d[k] = v`: overwrites the value of an existing key where it stands,
   * otherwise appends the new pair at the end.
   */
  function Put<V>(d: Dict<V>, k: string, v: V): (r: Dict<V>)
    ensures Get(r, k) == Some(v)
    ensures forall k' :: k' != k ==> Get(r, k') == Get(d, k')
    ensures Keys(r) == Keys(d) + {k}
    ensures k in Keys(d) ==> |r| == |d|
    ensures k !in Keys(d) ==> r == d + [(k, v)]
  {
    if d == [] then [(k, v)]
    else
      assert d == [d[0]] + d[1..];
      if d[0].0 == k then
        OverwriteHead(d[0], (k, v), d[1..]);
        [(k, v)] + d[1..]
      else
        var rest := Put(d[1..], k, v);
        PutBehindHead(d[0], d[1..], rest, k, v);
        [d[0]] + rest
  }

  /** Replacing the first pair by one with the same key. */
  lemma OverwriteHead<V>(p: (string, V), q: (string, V), tl: Dict<V>)
    requires p.0 == q.0
    ensures Get([q] + tl, q.0) == Some(q.1)
    ensures forall k' :: k' != q.0 ==> Get([q] + tl, k') == Get([p] + tl, k')
    ensures Keys([q] + tl) == Keys([p] + tl)
  {
    KeysCons(p, tl);
    KeysCons(q, tl);
    GetCons(q, tl, q.0);
    forall k' | k' != q.0
      ensures Get([q] + tl, k') == Get([p] + tl, k')
    {
      GetCons(p, tl, k');
      GetCons(q, tl, k');
    }
  }

  /** A Put into the tail of a dict whose first key differs is a Put into the whole dict. */
  lemma PutBehindHead<V>(p: (string, V), tl: Dict<V>, rest: Dict<V>, k: string, v: V)
    requires p.0 != k
    requires Get(rest, k) == Some(v)
    requires forall k' :: k' != k ==> Get(rest, k') == Get(tl, k')
    requires Keys(rest) == Keys(tl) + {k}
    requires k in Keys(tl) ==> |rest| == |tl|
    requires k !in Keys(tl) ==> rest == tl + [(k, v)]
    ensures Get([p] + rest, k) == Some(v)
    ensures forall k' :: k' != k ==> Get([p] + rest, k') == Get([p] + tl, k')
    ensures Keys([p] + rest) == Keys([p] + tl) + {k}
    ensures k in Keys([p] + tl) ==> |[p] + rest| == |[p] + tl|
    ensures k !in Keys([p] + tl) ==> [p] + rest == ([p] + tl) + [(k, v)]
  {
    KeysCons(p, tl);
    KeysCons(p, rest);
    GetCons(p, rest, k);
    forall k' | k' != k
      ensures Get([p] + rest, k') == Get([p] + tl, k')
    {
      GetCons(p, rest, k');
      GetCons(p, tl, k');
    }
    if k !in Keys(tl) {
      ConsSnoc(p, tl, (k, v));
    }
  }

  /** A sequence-algebra helper, not a model of the source: consing and snocing commute. */
  lemma ConsSnoc<T>(x: T, s: seq<T>, y: T)
    ensures [x] + (s + [y]) == ([x] + s) + [y]
  {
  }

  /** Looking a key up in a dict with one more pair in front. */
  lemma GetCons<V>(p: (string, V), tl: Dict<V>, k: string)
    ensures Get([p] + tl, k) == if p.0 == k then Some(p.1) else Get(tl, k)
  {
    assert ([p] + tl)[0] == p && ([p] + tl)[1..] == tl;
  }

  /** Writing a key that no pair carries appends the pair at the end. */
  lemma PutNew<V>(d: Dict<V>, k: string, v: V)
    requires forall i :: 0 <= i < |d| ==> d[i].0 != k
    ensures Put(d, k, v) == d + [(k, v)]
  {
    assert k !in Keys(d);
  }

  /** Writing the same key twice keeps only the second value. */
  lemma {:induction false} PutPut<V>(d: Dict<V>, k: string, a: V, b: V)
    ensures Put(Put(d, k, a), k, b) == Put(d, k, b)
  {
    if d != [] && d[0].0 != k {
      PutPut(d[1..], k, a, b);
      assert Put(d, k, a)[1..] == Put(d[1..], k, a);
    }
  }

  /** Put never introduces a duplicate key. */
  lemma {:induction false} PutDistinct<V>(d: Dict<V>, k: string, v: V)
    requires DistinctKeys(d)
    ensures DistinctKeys(Put(d, k, v))
  {
    if d != [] && d[0].0 != k {
      PutDistinct(d[1..], k, v);
      var rest := Put(d[1..], k, v);
      assert Put(d, k, v) == [d[0]] + rest;
      forall i | 0 <= i < |d[1..]| ensures d[1..][i].0 != d[0].0 {
        assert d[1..][i] == d[i + 1];
      }
      assert d[0].0 !in Keys(d[1..]);
      forall j | 0 <= j < |rest| ensures rest[j].0 != d[0].0 {
        assert rest[j].0 in Keys(rest);
      }
    }
  }
}
