// The bounded, access-ordered token cache of the JWT filter: a LinkedHashMap in
// access order whose eldest entry is removed once the size passes the capacity.
// The entries are kept as a sequence from least to most recently accessed.

module AccessOrderCache {
  import opened Wrappers

  const Capacity: nat := 1000

  /** The keys in the cache. */
  function Keys<V>(es: seq<(string, V)>): set<string>
  {
    set i | 0 <= i < |es| :: es[i].0
  }

  /** No key occurs twice. */
  predicate DistinctKeys<V>(es: seq<(string, V)>)
  {
    forall i, j :: 0 <= i < j < |es| ==> es[i].0 != es[j].0
  }

  /** The position of a key. */
  function Find<V>(es: seq<(string, V)>, k: string): (r: Option<nat>)
    ensures r.Some? ==> r.value < |es| && es[r.value].0 == k
    ensures r.None? <==> k !in Keys(es)
  {
    if es == [] then None
    else if es[0].0 == k then Some(0)
    else
      var r := Find(es[1..], k);
      assert Keys(es) == {es[0].0} + Keys(es[1..]) by {
        forall x | x in Keys(es) ensures x in {es[0].0} + Keys(es[1..]) {
          var i :| 0 <= i < |es| && es[i].0 == x;
          if i > 0 { assert es[1..][i - 1] == es[i]; }
        }
        forall x | x in Keys(es[1..]) ensures x in Keys(es) {
          var i :| 0 <= i < |es[1..]| && es[1..][i].0 == x;
          assert es[i + 1] == es[1..][i];
        }
      }
      if r.Some? then Some(r.value + 1) else None
  }

  /** The entries without position `i`. */
  function RemoveAt<V>(es: seq<(string, V)>, i: nat): seq<(string, V)>
    requires i < |es|
  {
    es[..i] + es[i + 1..]
  }

  /** `get(k)`: the value, and a hit becomes the most recently accessed entry. */
  function LruGet<V>(es: seq<(string, V)>, k: string): (Option<V>, seq<(string, V)>)
  {
    match Find(es, k)
    case None => (None, es)
    case Some(i) => (Some(es[i].1), RemoveAt(es, i) + [es[i]])
  }

  /** `put(k, v)`: the entry becomes the most recently accessed one, and when the
      size passes the capacity the eldest entry goes. */
  function LruPut<V>(es: seq<(string, V)>, k: string, v: V): seq<(string, V)>
  {
    var others := match Find(es, k) case None => es case Some(i) => RemoveAt(es, i);
    var grown := others + [(k, v)];
    if |grown| > Capacity then grown[1..] else grown
  }

  /** The cache object. */
  class LinkedCache<V> {
    var entries: seq<(string, V)>

    ghost predicate Valid()
      reads this
    {
      DistinctKeys(entries) && |entries| <= Capacity
    }

    constructor ()
      ensures Valid() && entries == []
    {
      entries := [];
    }

    method Get(k: string) returns (v: Option<V>)
      requires Valid()
      modifies this
      ensures Valid()
      ensures (v, entries) == LruGet(old(entries), k)
    {
      var found := Find(entries, k);
      if found.Some? {
        var i := found.value;
        v := Some(entries[i].1);
        RemoveKeepsDistinct(entries, i);
        AppendAbsentKeepsDistinct(RemoveAt(entries, i), entries[i]);
        entries := RemoveAt(entries, i) + [entries[i]];
      } else {
        v := None;
      }
    }

    method Put(k: string, v: V)
      requires Valid()
      modifies this
      ensures Valid()
      ensures entries == LruPut(old(entries), k, v)
    {
      LruPutBounded(entries, k, v);
      var found := Find(entries, k);
      var others := if found.Some? then RemoveAt(entries, found.value) else entries;
      var grown := others + [(k, v)];
      if |grown| > Capacity {
        entries := grown[1..];
      } else {
        entries := grown;
      }
    }
  }

  // ---------------------------------------------------------------------------
  // Properties

  lemma RemoveKeepsDistinct<V>(es: seq<(string, V)>, i: nat)
    requires i < |es| && DistinctKeys(es)
    ensures DistinctKeys(RemoveAt(es, i))
    ensures Keys(RemoveAt(es, i)) == Keys(es) - {es[i].0}
    ensures |RemoveAt(es, i)| == |es| - 1
  {
    var r := RemoveAt(es, i);
    assert forall j :: 0 <= j < |r| ==> r[j] == if j < i then es[j] else es[j + 1];
    forall x | x in Keys(es) - {es[i].0} ensures x in Keys(r) {
      var j :| 0 <= j < |es| && es[j].0 == x;
      if j < i { assert r[j] == es[j]; } else { assert r[j - 1] == es[j]; }
    }
  }

  lemma AppendAbsentKeepsDistinct<V>(es: seq<(string, V)>, e: (string, V))
    requires DistinctKeys(es) && e.0 !in Keys(es)
    ensures DistinctKeys(es + [e])
    ensures Keys(es + [e]) == Keys(es) + {e.0}
  {
    var r := es + [e];
    forall i, j | 0 <= i < j < |r| ensures r[i].0 != r[j].0 {
      if j == |es| { assert r[i] == es[i]; }
    }
    forall x | x in Keys(r) ensures x in Keys(es) + {e.0} {
      var j :| 0 <= j < |r| && r[j].0 == x;
      if j < |es| { assert r[j] == es[j]; }
    }
    forall x | x in Keys(es) ensures x in Keys(r) {
      var j :| 0 <= j < |es| && es[j].0 == x;
      assert r[j] == es[j];
    }
    assert r[|es|] == e;
  }

  /** `put` keeps the keys distinct and the size within the capacity, and the new
      entry is the most recently accessed one. */
  lemma LruPutBounded<V>(es: seq<(string, V)>, k: string, v: V)
    requires DistinctKeys(es) && |es| <= Capacity
    ensures DistinctKeys(LruPut(es, k, v)) && |LruPut(es, k, v)| <= Capacity
    ensures LruPut(es, k, v) != [] && LruPut(es, k, v)[|LruPut(es, k, v)| - 1] == (k, v)
  {
    var found := Find(es, k);
    var others := if found.Some? then RemoveAt(es, found.value) else es;
    if found.Some? {
      RemoveKeepsDistinct(es, found.value);
    }
    assert k !in Keys(others) && DistinctKeys(others);
    AppendAbsentKeepsDistinct(others, (k, v));
    var grown := others + [(k, v)];
    if |grown| > Capacity {
      assert |grown| == Capacity + 1;
      forall i, j | 0 <= i < j < |grown[1..]| ensures grown[1..][i].0 != grown[1..][j].0 {
        assert grown[1..][i] == grown[i + 1] && grown[1..][j] == grown[j + 1];
      }
    }
  }

  /** Inserting a new key into a full cache drops exactly the least recently
      accessed entry. */
  lemma LruEvictsEldest<V>(es: seq<(string, V)>, k: string, v: V)
    requires DistinctKeys(es) && |es| == Capacity && k !in Keys(es)
    ensures LruPut(es, k, v) == es[1..] + [(k, v)]
    ensures es[0].0 !in Keys(LruPut(es, k, v))
  {
    var r := LruPut(es, k, v);
    assert (es + [(k, v)])[1..] == es[1..] + [(k, v)];
    assert r == es[1..] + [(k, v)];
    forall j | 0 <= j < |r| ensures r[j].0 != es[0].0 {
      if j < |es| - 1 { assert r[j] == es[j + 1]; } else { assert es[0].0 in Keys(es); }
    }
  }

  /** A hit returns the key's value and moves its entry to the most recent end;
      the entries themselves do not change. */
  lemma LruGetHit<V>(es: seq<(string, V)>, k: string)
    requires DistinctKeys(es)
    ensures LruGet(es, k).0.Some? <==> k in Keys(es)
    ensures LruGet(es, k).0.Some? ==>
      (k, LruGet(es, k).0.value) in es && LruGet(es, k).1[|LruGet(es, k).1| - 1] == (k, LruGet(es, k).0.value)
    ensures multiset(LruGet(es, k).1) == multiset(es)
    ensures DistinctKeys(LruGet(es, k).1)
  {
    var found := Find(es, k);
    if found.Some? {
      var i := found.value;
      RemoveKeepsDistinct(es, i);
      AppendAbsentKeepsDistinct(RemoveAt(es, i), es[i]);
      assert es == es[..i] + [es[i]] + es[i + 1..];
      calc {
        multiset(RemoveAt(es, i) + [es[i]]);
        multiset(es[..i]) + multiset(es[i + 1..]) + multiset([es[i]]);
        multiset(es[..i] + [es[i]] + es[i + 1..]);
      }
    }
  }

  /** What was just put is found by the next `get`. */
  lemma PutThenGet<V>(es: seq<(string, V)>, k: string, v: V)
    requires DistinctKeys(es) && |es| <= Capacity
    ensures LruGet(LruPut(es, k, v), k).0 == Some(v)
  {
    LruPutBounded(es, k, v);
    var r := LruPut(es, k, v);
    var f := Find(r, k);
    assert r[|r| - 1].0 == k;
    assert k in Keys(r);
    assert f.Some?;
    assert r[f.value].0 == r[|r| - 1].0;
    assert f.value == |r| - 1;
  }
}
