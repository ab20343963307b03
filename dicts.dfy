/**
 * Python dictionaries keyed by strings, as sequences of (key, value)
 * pairs in insertion order: assigning to an existing key overwrites its
 * entry in place, assigning to a new key appends one.
 */
module Dicts {
  import opened Wrappers

  predicate KeysDistinct<V>(m: seq<(string, V)>)
  {
    forall i, j :: 0 <= i < j < |m| ==> m[i].0 != m[j].0
  }

  function Keys<V>(m: seq<(string, V)>): (ks: set<string>)
    ensures forall k :: k in ks <==> exists i :: 0 <= i < |m| && m[i].0 == k
  {
    set i | 0 <= i < |m| :: m[i].0
  }

  /** `d[k] = v`: overwrites the entry for `k` in place, or appends one. */
  function Put<V>(m: seq<(string, V)>, k: string, v: V): (r: seq<(string, V)>)
    ensures (k, v) in r
    ensures Keys(r) == Keys(m) + {k}
    ensures forall e :: e in r ==> e == (k, v) || e in m
    ensures |r| <= |m| + 1
    decreases |m|
  {
    if |m| == 0 then [(k, v)]
    else if m[0].0 == k then
      KeysCons(m[0], m[1..]);
      KeysCons((k, v), m[1..]);
      assert [m[0]] + m[1..] == m;
      [(k, v)] + m[1..]
    else
      var rest := Put(m[1..], k, v);
      KeysCons(m[0], rest);
      KeysCons(m[0], m[1..]);
      assert [m[0]] + m[1..] == m;
      [m[0]] + rest
  }

  lemma KeysCons<V>(e: (string, V), m: seq<(string, V)>)
    ensures Keys([e] + m) == {e.0} + Keys(m)
  {
    var r := [e] + m;
    forall x | x in Keys(m) ensures x in Keys(r) {
      var i :| 0 <= i < |m| && m[i].0 == x;
      assert r[i + 1].0 == x;
    }
    assert r[0].0 == e.0;
  }

  /** Like a dictionary, `Put` keeps keys unique. */
  lemma {:induction false} PutDistinct<V>(m: seq<(string, V)>, k: string, v: V)
    requires KeysDistinct(m)
    ensures KeysDistinct(Put(m, k, v))
    decreases |m|
  {
    if |m| > 0 {
      var tail := m[1..];
      assert KeysDistinct(tail) by {
        forall i, j | 0 <= i < j < |tail| ensures tail[i].0 != tail[j].0 {
          assert tail[i] == m[i + 1] && tail[j] == m[j + 1];
        }
      }
      forall i | 0 <= i < |tail| ensures tail[i].0 != m[0].0 {
        assert tail[i] == m[i + 1];
      }
      var r := Put(m, k, v);
      if m[0].0 != k {
        PutDistinct(tail, k, v);
        var rest := Put(tail, k, v);
        assert r == [m[0]] + rest;
        assert m[0].0 !in Keys(rest);
        forall i, j | 0 <= i < j < |r| ensures r[i].0 != r[j].0 {
          if i == 0 {
            assert r[j] == rest[j - 1];
          } else {
            assert r[i] == rest[i - 1] && r[j] == rest[j - 1];
          }
        }
      } else {
        assert r == [(k, v)] + tail;
        forall i, j | 0 <= i < j < |r| ensures r[i].0 != r[j].0 {
          if i == 0 {
            assert r[j] == tail[j - 1];
          } else {
            assert r[i] == tail[i - 1] && r[j] == tail[j - 1];
          }
        }
      }
    }
  }

  /** In a dictionary a key has one value. */
  lemma DistinctValue<V>(m: seq<(string, V)>, k: string, a: V, b: V)
    requires KeysDistinct(m) && (k, a) in m && (k, b) in m
    ensures a == b
  {
    var i :| 0 <= i < |m| && m[i] == (k, a);
    var j :| 0 <= j < |m| && m[j] == (k, b);
    assert i == j;
  }

  /** A lookup after `d[k] = v` finds `v` at `k` and the old value at
      every other key. */
  lemma GetPut<V>(m: seq<(string, V)>, k: string, v: V, j: string)
    requires KeysDistinct(m)
    ensures Get(Put(m, k, v), j) == if j == k then Some(v) else Get(m, j)
  {
    var r := Put(m, k, v);
    PutDistinct(m, k, v);
    var g := Get(r, j);
    if j == k {
      DistinctValue(r, k, g.value, v);
    } else if g.Some? {
      assert (j, g.value) in m;
      DistinctValue(m, j, g.value, Get(m, j).value);
    }
  }

  /** `d.get(k)`. */
  function Get<V>(m: seq<(string, V)>, k: string): (r: Option<V>)
    ensures r.Some? <==> k in Keys(m)
    ensures r.Some? ==> (k, r.value) in m
    decreases |m|
  {
    if |m| == 0 then None
    else if m[0].0 == k then Some(m[0].1)
    else
      KeysCons(m[0], m[1..]);
      assert [m[0]] + m[1..] == m;
      Get(m[1..], k)
  }
}
