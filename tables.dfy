// The JavaScript `Map<string, V>` the in-memory stores, the channel registry and
// the analytics counters are built on: a finite map plus the order in which its
// keys were first inserted. `Map.set` on a present key keeps that key's place,
// on a new key appends it; `Map.delete` removes the key from the order;
// `Array.from(map.values())` lists the values in key order.
module Tables {
  import opened Prelude

  datatype Table<V> = Table(data: map<Id, V>, order: seq<Id>) {

    /** The keys listed in `order` are exactly the keys of `data`, once each. */
    predicate Valid() {
      && Distinct(order)
      && (forall k :: k in data ==> k in order)
      && (forall k :: k in order ==> k in data)
    }

    /** `Map.get`. */
    function Get(k: Id): Option<V> {
      if k in data then Some(data[k]) else None
    }

    /** `Array.from(map.values())`. */
    function Values(): (r: seq<V>)
      requires Valid()
      ensures |r| == |order|
      ensures forall i :: 0 <= i < |order| ==> r[i] == data[order[i]]
    {
      seq(|order|, i requires 0 <= i < |order| => data[order[i]])
    }

    /** `Map.set`. */
    function Set(k: Id, v: V): Table<V> {
      Table(data[k := v], if k in data then order else order + [k])
    }

    /** `Map.delete` (its boolean result is `k in data`). */
    function Delete(k: Id): Table<V> {
      Table(data - {k}, Filter(order, (x: Id) => x != k))
    }

    /** Every value is stored under its own identifier. */
    ghost predicate KeyedBy(idOf: V -> Id) {
      forall k :: k in data ==> idOf(data[k]) == k
    }
  }

  /** The values whose identifier is not `k`. */
  function IdIsNot<V>(idOf: V -> Id, k: Id): V -> bool {
    (e: V) => idOf(e) != k
  }

  function Empty<V>(): (t: Table<V>)
    ensures t.Valid() && t.data == map[] && t.Values() == []
  {
    Table(map[], [])
  }

  lemma SetValid<V>(t: Table<V>, k: Id, v: V)
    requires t.Valid()
    ensures t.Set(k, v).Valid()
  {
  }

  lemma DeleteValid<V>(t: Table<V>, k: Id)
    requires t.Valid()
    ensures t.Delete(k).Valid()
  {
    var order' := Filter(t.order, (x: Id) => x != k);
    FilterIsSubseq(t.order, (x: Id) => x != k);
    forall x ensures multiset(order')[x] <= 1 {
      FilterMultiset(t.order, (x: Id) => x != k, x);
      DistinctMultiset(t.order, x);
    }
    MultisetDistinct(order');
  }

  lemma {:induction false} DistinctMultiset<T>(s: seq<T>, x: T)
    requires Distinct(s)
    ensures multiset(s)[x] <= 1
    decreases |s|
  {
    if s != [] {
      var init := s[..|s| - 1];
      assert s == init + [s[|s| - 1]];
      DistinctMultiset(init, x);
      if s[|s| - 1] == x {
        assert x !in init;
      }
    }
  }

  lemma {:induction false} MultisetDistinct<T>(s: seq<T>)
    requires forall x :: multiset(s)[x] <= 1
    ensures Distinct(s)
  {
    forall i, j | 0 <= i < j < |s| ensures s[i] != s[j] {
      assert s == s[..i] + [s[i]] + s[i + 1..j] + [s[j]] + s[j + 1..];
      assert multiset(s) == multiset(s[..i]) + multiset([s[i]]) + multiset(s[i + 1..j])
                            + multiset([s[j]]) + multiset(s[j + 1..]);
      assert multiset(s)[s[i]] >= 1 + multiset([s[j]])[s[i]];
    }
  }

  /** Setting a key that is not yet present appends its value to `values()`:
      `Map` iteration follows insertion order. */
  lemma SetNewValues<V>(t: Table<V>, k: Id, v: V)
    requires t.Valid() && k !in t.data
    ensures t.Set(k, v).Valid()
    ensures t.Set(k, v).Values() == t.Values() + [v]
  {
    var t' := t.Set(k, v);
    assert forall i :: 0 <= i < |t.order| ==> t.order[i] != k;
    assert t'.Values() == t.Values() + [v];
  }

  /** Setting a present key replaces its value in place: the order of
      `values()` is unchanged. */
  lemma SetExistingValues<V>(t: Table<V>, k: Id, v: V)
    requires t.Valid() && k in t.data
    ensures t.Set(k, v).Valid()
    ensures t.Set(k, v).order == t.order
    ensures |t.Set(k, v).Values()| == |t.Values()|
    ensures forall i :: 0 <= i < |t.order| ==>
              t.Set(k, v).Values()[i] == if t.order[i] == k then v else t.Values()[i]
  {
  }

  /** Under a valid table, the position of a present key. */
  lemma IndexOf<V>(t: Table<V>, k: Id) returns (i: nat)
    requires t.Valid() && k in t.data
    ensures i < |t.order| && t.order[i] == k
    ensures t.Values()[i] == t.data[k]
  {
    i :| 0 <= i < |t.order| && t.order[i] == k;
  }

  /** Overwriting a present key is a point update of `values()`. */
  lemma SetExistingIsUpdate<V>(t: Table<V>, k: Id, v: V) returns (i: nat)
    requires t.Valid() && k in t.data
    ensures i < |t.order| && t.order[i] == k
    ensures t.Set(k, v).Valid()
    ensures t.Set(k, v).Values() == t.Values()[i := v]
  {
    i := IndexOf(t, k);
    SetExistingValues(t, k, v);
    forall j | 0 <= j < |t.order| ensures t.Set(k, v).Values()[j] == t.Values()[i := v][j] {
      if j != i {
        assert t.order[j] != k;
      }
    }
  }

  /** The values stored under `ks`, in the order of `ks`. */
  function Lookups<V>(m: map<Id, V>, ks: seq<Id>): (r: seq<V>)
    requires forall x :: x in ks ==> x in m
    ensures |r| == |ks|
  {
    seq(|ks|, i requires 0 <= i < |ks| => m[ks[i]])
  }

  lemma LookupsSnoc<V>(m: map<Id, V>, ks: seq<Id>, x: Id)
    requires forall y :: y in ks ==> y in m
    requires x in m
    ensures Lookups(m, ks + [x]) == Lookups(m, ks) + [m[x]]
  {
  }

  lemma {:induction false} LookupFilter<V(!new)>(ks: seq<Id>, m: map<Id, V>, k: Id, idOf: V -> Id)
    requires forall x :: x in ks ==> x in m
    requires forall x :: x in m ==> idOf(m[x]) == x
    ensures Filter(Lookups(m, ks), IdIsNot(idOf, k)) == Lookups(m, Filter(ks, (x: Id) => x != k))
    decreases |ks|
  {
    if ks != [] {
      var init := ks[..|ks| - 1];
      var last := ks[|ks| - 1];
      assert ks == init + [last];
      assert forall y :: y in init ==> y in ks;
      LookupsSnoc(m, init, last);
      LookupFilter(init, m, k, idOf);
      FilterSnoc(init, last, (x: Id) => x != k);
      FilterSnoc(Lookups(m, init), m[last], IdIsNot(idOf, k));
      if last != k {
        LookupsSnoc(m, Filter(init, (x: Id) => x != k), last);
      }
    }
  }

  /** In a table that stores every value under its own identifier, deleting a
      key drops exactly the value with that identifier from `values()` and keeps
      the order of the rest. */
  lemma DeleteValues<V(!new)>(t: Table<V>, k: Id, idOf: V -> Id)
    requires t.Valid() && t.KeyedBy(idOf)
    ensures t.Delete(k).Valid()
    ensures t.Delete(k).Values() == Filter(t.Values(), IdIsNot(idOf, k))
  {
    DeleteValid(t, k);
    var order' := Filter(t.order, (x: Id) => x != k);
    assert t.Values() == Lookups(t.data, t.order);
    LookupFilter(t.order, t.data, k, idOf);
    var t' := t.Delete(k);
    assert t'.Values() == Lookups(t.data, order');
  }

  /** The number of values equals the number of keys. */
  lemma {:induction false} SizeIsCardinality<V>(t: Table<V>)
    requires t.Valid()
    ensures |t.Values()| == |t.data|
  {
    DistinctCardinality(t.order);
    assert t.data.Keys == set x | x in t.order;
  }

  lemma {:induction false} DistinctCardinality<T>(s: seq<T>)
    requires Distinct(s)
    ensures |set x | x in s| == |s|
    decreases |s|
  {
    if s != [] {
      var init := s[..|s| - 1];
      DistinctCardinality(init);
      assert (set x | x in s) == (set x | x in init) + {s[|s| - 1]};
      assert s[|s| - 1] !in init;
    }
  }

  /** In a keyed table no value occurs twice in `values()`. */
  lemma KeyedValuesDistinct<V>(t: Table<V>, idOf: V -> Id)
    requires t.Valid() && t.KeyedBy(idOf)
    ensures Distinct(t.Values())
  {
    var vs := t.Values();
    forall i, j | 0 <= i < j < |vs| ensures vs[i] != vs[j] {
      assert idOf(vs[i]) == t.order[i];
      assert idOf(vs[j]) == t.order[j];
    }
  }

  /** In a keyed table every listed value is stored under its identifier. */
  lemma KeyedValueStored<V>(t: Table<V>, idOf: V -> Id, v: V)
    requires t.Valid() && t.KeyedBy(idOf) && v in t.Values()
    ensures idOf(v) in t.data && t.data[idOf(v)] == v
  {
    var vs := t.Values();
    var i :| 0 <= i < |vs| && vs[i] == v;
    assert idOf(t.data[t.order[i]]) == t.order[i];
  }

  /** In a keyed table two stored values with the same identifier are the same
      value. */
  lemma KeyedSameId<V>(t: Table<V>, idOf: V -> Id, v: V, w: V)
    requires t.Valid() && t.KeyedBy(idOf)
    requires v in t.Values() && w in t.Values() && idOf(v) == idOf(w)
    ensures v == w
  {
    var vs := t.Values();
    var i :| 0 <= i < |vs| && vs[i] == v;
    var j :| 0 <= j < |vs| && vs[j] == w;
    assert idOf(vs[i]) == t.order[i];
    assert idOf(vs[j]) == t.order[j];
  }

  /** The keys whose value passes `p`. */
  function KeysWhere<V>(t: Table<V>, p: V -> bool): set<Id> {
    set k | k in t.data && p(t.data[k])
  }

  /** Filtering `values()` counts the stored keys whose value passes. */
  lemma FilterCountsKeys<V(!new)>(t: Table<V>, p: V -> bool)
    requires t.Valid()
    ensures |Filter(t.Values(), p)| == |KeysWhere(t, p)|
  {
    assert t.Values() == Lookups(t.data, t.order);
    LookupsFilterCount(t.data, t.order, p);
    assert PassingKeys(t.data, t.order, p) == KeysWhere(t, p);
  }

  /** The keys of `ks` stored in `m` under a value that passes `p`. */
  function PassingKeys<V>(m: map<Id, V>, ks: seq<Id>, p: V -> bool): set<Id> {
    set k | k in ks && k in m && p(m[k])
  }

  lemma PassingKeysSnoc<V>(m: map<Id, V>, ks: seq<Id>, x: Id, p: V -> bool)
    requires x !in ks && x in m
    ensures |PassingKeys(m, ks + [x], p)| == |PassingKeys(m, ks, p)| + (if p(m[x]) then 1 else 0)
  {
    var before, after := PassingKeys(m, ks, p), PassingKeys(m, ks + [x], p);
    assert x !in before;
    if p(m[x]) {
      assert after == before + {x};
    } else {
      assert after == before;
    }
  }

  lemma {:induction false} LookupsFilterCount<V(!new)>(m: map<Id, V>, ks: seq<Id>, p: V -> bool)
    requires Distinct(ks) && forall x :: x in ks ==> x in m
    ensures |Filter(Lookups(m, ks), p)| == |PassingKeys(m, ks, p)|
    decreases |ks|
  {
    if ks != [] {
      var init, x := ks[..|ks| - 1], ks[|ks| - 1];
      assert ks == init + [x];
      assert forall y :: y in init ==> y in ks;
      LookupsFilterCount(m, init, p);
      LookupsSnoc(m, init, x);
      FilterSnoc(Lookups(m, init), m[x], p);
      PassingKeysSnoc(m, init, x, p);
    }
  }
}
