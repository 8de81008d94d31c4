/** The id search both managers share: start at the last counter value and step, with
    wrap-around, to the first id that no in-flight op uses. */
module FlightIds {

  /** The ids below `limit`. */
  ghost function AllIds(limit: nat): (ids: set<nat>)
    ensures |ids| == limit && forall i: nat :: i in ids <==> i < limit
  {
    if limit == 0 then {} else AllIds(limit - 1) + {limit - 1}
  }

  /** Pigeonhole: fewer used ids than there are ids leaves one unused. */
  lemma UnusedIdExists(used: set<nat>, limit: nat)
    requires |used| < limit
    ensures exists id: nat :: id < limit && id !in used
  {
    if AllIds(limit) <= used {
      CardSubset(AllIds(limit), used);
    }
  }

  lemma CardSubset<T>(a: set<T>, b: set<T>)
    requires a <= b
    ensures |a| <= |b|
  {
    assert b == a + (b - a);
  }

  /** A map that holds nothing twice has as many values as keys. */
  lemma {:induction false} InjectiveCard<V>(m: map<nat, V>)
    requires forall a, b :: a in m && b in m && m[a] == m[b] ==> a == b
    ensures |m| <= |m.Values|
    decreases |m|
  {
    if m == map[] {
    } else {
      var id :| id in m;
      var n := m - {id};
      InjectiveCard(n);
      assert forall a :: a in n ==> n[a] == m[a];
      assert m[id] !in n.Values;
      assert m.Values == n.Values + {m[id]} by {
        forall v | v in m.Values ensures v in n.Values + {m[id]} {
          var a :| a in m && m[a] == v;
          assert a == id || n[a] == v;
        }
      }
    }
  }

  /** How far `id` lies ahead of `from` when counting upwards and wrapping at `limit`. */
  function Ahead(from: nat, id: nat, limit: nat): nat
    requires from < limit && id < limit
  {
    if from <= id then id - from else id + limit - from
  }

  /** `++id` in an unsigned type with `limit` values. */
  function Next(id: nat, limit: nat): nat
    requires id < limit
  {
    if id + 1 == limit then 0 else id + 1
  }

  /** The counter wraps around like an unsigned number. */
  lemma NextWraps(id: nat, limit: nat)
    requires id < limit
    ensures Next(id, limit) == (id + 1) % limit
  {
  }

  /** When the counter's own id is free, it is the one taken. */
  lemma OwnIdFirst(used: set<nat>, from: nat, limit: nat, id: nat)
    requires from < limit && FirstFree(used, from, limit, id) && from !in used
    ensures id == from
  {
    assert Ahead(from, from, limit) == 0;
  }

  /** `id` is the first unused id at or after `from`. */
  ghost predicate FirstFree(used: set<nat>, from: nat, limit: nat, id: nat)
    requires from < limit
  {
    && id < limit && id !in used
    && forall j: nat :: j < limit && Ahead(from, j, limit) < Ahead(from, id, limit) ==> j in used
  }

  lemma FirstFreeExists(used: set<nat>, from: nat, limit: nat)
    requires from < limit && |used| < limit
    ensures exists id: nat :: FirstFree(used, from, limit, id)
  {
    UnusedIdExists(used, limit);
    var free: nat :| free < limit && free !in used;
    Nearest(used, from, limit, free);
  }

  lemma {:induction false} Nearest(used: set<nat>, from: nat, limit: nat, free: nat)
    requires from < limit && free < limit && free !in used
    ensures exists id: nat :: FirstFree(used, from, limit, id)
    decreases Ahead(from, free, limit)
  {
    if j: nat :| j < limit && Ahead(from, j, limit) < Ahead(from, free, limit) && j !in used {
      Nearest(used, from, limit, j);
    } else {
      assert FirstFree(used, from, limit, free);
    }
  }

  /** The search itself. It ends because some id is free and every step comes one
      closer to it; `free` only names that id. */
  method Search(used: set<nat>, from: nat, limit: nat) returns (id: nat)
    requires from < limit && |used| < limit
    ensures FirstFree(used, from, limit, id)
  {
    UnusedIdExists(used, limit);
    ghost var free: nat :| free < limit && free !in used;
    id := from;
    while id in used
      invariant id < limit
      invariant forall j: nat :: j < limit && Ahead(from, j, limit) < Ahead(from, id, limit) ==> j in used
      invariant Ahead(from, id, limit) <= Ahead(from, free, limit)
      decreases Ahead(id, free, limit)
    {
      id := Next(id, limit);
    }
  }
}
