/**
 The two helpers both bounded maps share (client/chain/cache.go:194-215, client/route/ratelimit.go:
 91-100): sweeping the entries whose deadline has passed, and making room for a new key at the cap.
 Time is an integer.
 */
module Sweeping {
  type Key = string

  /** maxCachedProviders and maxLimiterKeys. */
  const CAP := 4096

  /** The entries whose deadline is still ahead. */
  function Swept<V>(m: map<Key, V>, now: int, deadline: V -> int): (out: map<Key, V>)
    ensures out.Keys <= m.Keys && |out| <= |m|
    ensures forall k :: k in out <==> k in m && now < deadline(m[k])
    ensures forall k :: k in out ==> out[k] == m[k]
  {
    var out := map k | k in m && now < deadline(m[k]) :: m[k];
    SmallerDomain(out, m);
    out
  }

  lemma SmallerDomain<V>(a: map<Key, V>, b: map<Key, V>)
    requires a.Keys <= b.Keys
    ensures |a| <= |b|
  {
    SmallerSet(a.Keys, b.Keys);
    assert |a| == |a.Keys| && |b| == |b.Keys|;
  }

  lemma SmallerSet<K>(a: set<K>, b: set<K>)
    requires a <= b
    ensures |a| <= |b|
  {
    assert b == a + (b - a);
  }

  /** sweepExpired: deletes them one at a time, in whatever order the map is ranged over. */
  method SweepExpired<V>(m: map<Key, V>, now: int, deadline: V -> int) returns (out: map<Key, V>)
    ensures out == Swept(m, now, deadline)
  {
    out := m;
    var todo := m.Keys;
    while todo != {}
      invariant todo <= out.Keys <= m.Keys
      invariant forall k :: k in m && k !in todo ==> (k in out <==> now < deadline(m[k]))
      invariant forall k :: k in out ==> out[k] == m[k]
      decreases todo
    {
      var k :| k in todo;
      todo := todo - {k};
      if now >= deadline(m[k]) {
        out := out - {k};
      }
    }
  }

  /** What an insertion under the cap leaves, and whether the new key was declined. */
  datatype Inserted<V> = Inserted(m: map<Key, V>, declined: bool)

  /** A new key is admitted under the cap, after a sweep when the map is full; a held one always. */
  function Insert<V>(m: map<Key, V>, k: Key, v: V, now: int, deadline: V -> int): (r: Inserted<V>)
    ensures |m| <= CAP ==> |r.m| <= CAP
    ensures r.declined ==> k !in m && r.m == Swept(m, now, deadline)
    ensures !r.declined ==> k in r.m && r.m[k] == v
  {
    if k in m then Inserted(m[k := v], false)
    else
      var roomy := if |m| < CAP then m else Swept(m, now, deadline);
      if |roomy| < CAP then Inserted(roomy[k := v], false) else Inserted(roomy, true)
  }
}
