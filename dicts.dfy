/**
 * Python dicts with string keys. A Python dict remembers insertion order, and the program's
 * output (table rows, breakup lists) follows that order, so a dict is modelled as the list of
 * its (key, value) pairs. `Put` is the assignment `d[k] = v`: it replaces the value of an
 * existing key in place and appends a new key at the end.
 */
module Dicts {
  import opened Wrappers

  type Dict<V> = seq<(string, V)>

  function Keys<V>(d: Dict<V>): (ks: seq<string>)
    ensures |ks| == |d|
    ensures forall i :: 0 <= i < |d| ==> ks[i] == d[i].0
  {
    if d == [] then [] else [d[0].0] + Keys(d[1..])
  }

  /** Every dict the program builds has distinct keys. */
  predicate KeysDistinct<V>(d: Dict<V>) {
    forall i, j :: 0 <= i < j < |d| ==> d[i].0 != d[j].0
  }

  /** `d.get(k)`: the value stored under `k`, if any. */
  function Get<V>(d: Dict<V>, k: string): Option<V> {
    if d == [] then None
    else if d[0].0 == k then Some(d[0].1)
    else Get(d[1..], k)
  }

  /** `del d[k]` when present: every pair with key `k` is dropped, the rest keep their order. */
  function Remove<V>(d: Dict<V>, k: string): (r: Dict<V>)
    ensures Get(r, k) == None
    ensures forall k' :: k' != k ==> Get(r, k') == Get(d, k')
    ensures |r| <= |d|
  {
    if d == [] then []
    else if d[0].0 == k then Remove(d[1..], k)
    else [d[0]] + Remove(d[1..], k)
  }

  /** A lookup finds a value exactly when the key is one of the dict's keys. */
  lemma {:induction false} GetPresent<V>(d: Dict<V>, k: string)
    ensures Get(d, k).Some? <==> k in Keys(d)
  {
    if d != [] && d[0].0 != k {
      GetPresent(d[1..], k);
      assert Keys(d) == [d[0].0] + Keys(d[1..]);
    }
  }

  /** `d.get(k, default)`. */
  function GetOr<V>(d: Dict<V>, k: string, default: V): V {
    Get(d, k).GetOr(default)
  }

  /** In a dict with distinct keys, a lookup finds the pair that holds the key. */
  lemma {:induction false} GetAt<V>(d: Dict<V>, i: nat)
    requires KeysDistinct(d) && i < |d|
    ensures Get(d, d[i].0) == Some(d[i].1)
  {
    if i > 0 {
      assert d[0].0 != d[i].0;
      GetAt(d[1..], i - 1);
    }
  }

  /** `d[k] = v`. */
  function Put<V>(d: Dict<V>, k: string, v: V): (r: Dict<V>)
    ensures Get(r, k) == Some(v)
    ensures forall k' :: k' != k ==> Get(r, k') == Get(d, k')
    ensures k !in Keys(d) ==> r == d + [(k, v)]
  {
    if d == [] then [(k, v)]
    else if d[0].0 == k then [(k, v)] + d[1..]
    else
      var rest := Put(d[1..], k, v);
      assert ([d[0]] + rest)[1..] == rest;
      [d[0]] + rest
  }

  /** Assigning an existing key keeps the list of keys. */
  lemma {:induction false} PutKeepsKeys<V>(d: Dict<V>, k: string, v: V)
    requires k in Keys(d)
    ensures Keys(Put(d, k, v)) == Keys(d)
  {
    if d[0].0 != k {
      PutKeepsKeys(d[1..], k, v);
      assert Put(d, k, v) == [d[0]] + Put(d[1..], k, v);
    }
  }

  /** Assignment keeps the keys distinct. */
  lemma {:induction false} PutKeepsDistinct<V>(d: Dict<V>, k: string, v: V)
    requires KeysDistinct(d)
    ensures KeysDistinct(Put(d, k, v))
  {
    if k in Keys(d) {
      PutKeepsKeys(d, k, v);
      var r := Put(d, k, v);
      forall i, j | 0 <= i < j < |r| ensures r[i].0 != r[j].0 {
        assert Keys(r)[i] == Keys(d)[i] && Keys(r)[j] == Keys(d)[j];
      }
    } else {
      assert Put(d, k, v) == d + [(k, v)];
    }
  }

  /** In a dict with distinct keys, assigning an existing key changes only that key's pair. */
  lemma {:induction false} PutExisting<V>(d: Dict<V>, i: nat, v: V)
    requires KeysDistinct(d) && i < |d|
    ensures Put(d, d[i].0, v) == d[i := (d[i].0, v)]
  {
    var k := d[i].0;
    if i == 0 {
      assert Put(d, k, v) == [(k, v)] + d[1..];
    } else {
      assert d[0].0 != k;
      var tail := d[1..];
      assert KeysDistinct(tail) by {
        forall a, b | 0 <= a < b < |tail| ensures tail[a].0 != tail[b].0 {
          assert tail[a] == d[a + 1] && tail[b] == d[b + 1];
        }
      }
      assert tail[i - 1] == d[i];
      PutExisting(tail, i - 1, v);
      assert Put(d, k, v) == [d[0]] + Put(tail, k, v);
      assert [d[0]] + tail[i - 1 := (k, v)] == d[i := (k, v)];
    }
  }

  /** A property every pair has, and the assigned pair has too, holds of every pair after `Put`. */
  lemma {:induction false} PutKeepsEntries<V>(d: Dict<V>, k: string, v: V, P: (string, V) -> bool)
    requires forall i :: 0 <= i < |d| ==> P(d[i].0, d[i].1)
    requires P(k, v)
    ensures forall i :: 0 <= i < |Put(d, k, v)| ==> P(Put(d, k, v)[i].0, Put(d, k, v)[i].1)
  {
    if d != [] && d[0].0 != k {
      PutKeepsEntries(d[1..], k, v, P);
      assert Put(d, k, v) == [d[0]] + Put(d[1..], k, v);
    }
  }

  /** Assigning a key the value it already has leaves the dict as it is. */
  lemma {:induction false} PutSame<V>(d: Dict<V>, k: string, v: V)
    requires Get(d, k) == Some(v)
    ensures Put(d, k, v) == d
  {
    if d[0].0 != k {
      PutSame(d[1..], k, v);
    }
  }
  lemma {:induction false} KeysAppend<V>(a: Dict<V>, b: Dict<V>)
    ensures Keys(a + b) == Keys(a) + Keys(b)
  {
  }

  /** A lookup of a key that sits after a stretch `p` of other keys finds its pair. */
  lemma {:induction false} GetInMiddle<V>(p: Dict<V>, k: string, v0: V, q: Dict<V>)
    requires k !in Keys(p)
    ensures Get(p + [(k, v0)] + q, k) == Some(v0)
  {
    if p != [] {
      assert Keys(p)[0] == p[0].0;
      assert Keys(p[1..]) == Keys(p)[1..];
      GetInMiddle(p[1..], k, v0, q);
      assert (p + [(k, v0)] + q)[1..] == p[1..] + [(k, v0)] + q;
    }
  }

  lemma {:induction false} PutPast<V>(x: (string, V), rest: Dict<V>, k: string, v: V)
    requires x.0 != k
    ensures Put([x] + rest, k, v) == [x] + Put(rest, k, v)
  {
    assert ([x] + rest)[1..] == rest;
  }

  lemma {:induction false} PutFront<V>(k: string, v0: V, q: Dict<V>, v: V)
    ensures Put([(k, v0)] + q, k, v) == [(k, v)] + q
  {
    assert ([(k, v0)] + q)[1..] == q;
  }

  /** Assigning a key that sits after a stretch `p` of other keys replaces its pair where it stands. */
  lemma {:induction false} PutInMiddle<V>(p: Dict<V>, k: string, v0: V, q: Dict<V>, v: V)
    requires k !in Keys(p)
    ensures Put(p + [(k, v0)] + q, k, v) == p + [(k, v)] + q
  {
    if p == [] {
      assert p + [(k, v0)] + q == [(k, v0)] + q;
      assert p + [(k, v)] + q == [(k, v)] + q;
      PutFront(k, v0, q, v);
    } else {
      assert Keys(p) == [p[0].0] + Keys(p[1..]);
      PutInMiddle(p[1..], k, v0, q, v);
      PutInMiddleStep(p, k, v0, q, v);
    }
  }

  lemma {:induction false} PutInMiddleStep<V>(p: Dict<V>, k: string, v0: V, q: Dict<V>, v: V)
    requires p != [] && p[0].0 != k
    requires Put(p[1..] + [(k, v0)] + q, k, v) == p[1..] + [(k, v)] + q
    ensures Put(p + [(k, v0)] + q, k, v) == p + [(k, v)] + q
  {
    Regroup(p, (k, v0), q);
    PutPast(p[0], p[1..] + [(k, v0)] + q, k, v);
    Regroup(p, (k, v), q);
  }

  lemma Regroup<V>(p: Dict<V>, m: (string, V), q: Dict<V>)
    requires p != []
    ensures p + [m] + q == [p[0]] + (p[1..] + [m] + q)
  {
    assert p == [p[0]] + p[1..];
  }
}
