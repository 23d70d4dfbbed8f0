// AlertVisibilityRepository: the visibility-row query `findByAlert` over the
// store's `findAll()` snapshot, and `deleteByAlert`, which deletes the rows it
// found one by one.
module VisibilityRepository {
  import opened Prelude
  import opened Domain
  import opened Tables
  import opened Repository

  /** The predicate `findByAlert` passes to `filter`. */
  function AlertIs(alertId: Id): AlertVisibility -> bool {
    (v: AlertVisibility) => v.alertId == alertId
  }

  function AlertIsNot(alertId: Id): AlertVisibility -> bool {
    (v: AlertVisibility) => v.alertId != alertId
  }

  function FindByAlert(all: seq<AlertVisibility>, alertId: Id): (r: seq<AlertVisibility>)
    ensures forall v :: v in r <==> v in all && v.alertId == alertId
    ensures forall v :: multiset(r)[v] == if v.alertId == alertId then multiset(all)[v] else 0
    ensures SubseqOf(r, all)
  {
    FilterExact(all, AlertIs(alertId));
    Filter(all, AlertIs(alertId))
  }

  /** `av.id`: the key `delete` is called with. */
  function RowId(v: AlertVisibility): Id {
    v.id
  }

  function RowIds(rows: seq<AlertVisibility>): (ids: seq<Id>)
    ensures |ids| == |rows|
    ensures forall i :: 0 <= i < |rows| ==> ids[i] == rows[i].id
  {
    seq(|rows|, i requires 0 <= i < |rows| => rows[i].id)
  }

  /** The Map after `delete(id)` for each id of `ids` in turn. */
  function DeleteEach<V>(t: Table<V>, ids: seq<Id>): (r: Table<V>)
    ensures t.Valid() ==> r.Valid()
    decreases |ids|
  {
    if ids == [] then t
    else
      var prev := DeleteEach(t, ids[..|ids| - 1]);
      DeleteKeepsValid(prev, ids[|ids| - 1]);
      prev.Delete(ids[|ids| - 1])
  }

  /** Deleting one more id is one more `Map.delete`. */
  lemma DeleteEachStep<V>(t: Table<V>, ids: seq<Id>, i: nat)
    requires i < |ids|
    ensures DeleteEach(t, ids[..i + 1]) == DeleteEach(t, ids[..i]).Delete(ids[i])
  {
    assert ids[..i + 1][..i] == ids[..i];
  }

  lemma DeleteKeepsValid<V>(t: Table<V>, k: Id)
    ensures t.Valid() ==> t.Delete(k).Valid()
  {
    if t.Valid() {
      DeleteValid(t, k);
    }
  }

  method DeleteByAlert(store: Store<AlertVisibility>, alertId: Id)
    requires store.Valid()
    modifies store
    ensures store.Valid()
    ensures store.data == DeleteEach(old(store.data), RowIds(FindByAlert(old(store.FindAll()), alertId)))
  {
    var toDelete := store.Where(AlertIs(alertId));
    assert toDelete == FindByAlert(store.FindAll(), alertId);
    ghost var before := store.data;
    ghost var ids := RowIds(toDelete);
    for i := 0 to |toDelete|
      invariant store.Valid()
      invariant store.data == DeleteEach(before, ids[..i])
    {
      ghost var prior := store.data;
      var _ := store.Delete(toDelete[i].id);
      assert store.data == prior.Delete(ids[i]);
      DeleteEachStep(before, ids, i);
    }
    assert ids[..|toDelete|] == ids;
  }

  function NotIn(ids: seq<Id>): AlertVisibility -> bool {
    (v: AlertVisibility) => v.id !in ids
  }

  /** Deleting a list of ids from a keyed store keeps exactly the rows whose id
      is not in the list, in their order. */
  lemma {:induction false} DeleteEachValues(t: Table<AlertVisibility>, ids: seq<Id>)
    requires t.Valid() && t.KeyedBy(RowId)
    ensures DeleteEach(t, ids).Valid() && DeleteEach(t, ids).KeyedBy(RowId)
    ensures DeleteEach(t, ids).Values() == Filter(t.Values(), NotIn(ids))
    decreases |ids|
  {
    if ids == [] {
      NotInNone(t.Values());
    } else {
      DeleteEachValues(t, ids[..|ids| - 1]);
      DeleteLastValues(t, ids);
    }
  }

  /** One more id deleted after the others drops exactly its row. */
  lemma DeleteLastValues(t: Table<AlertVisibility>, ids: seq<Id>)
    requires ids != [] && t.Valid() && t.KeyedBy(RowId)
    requires var t1 := DeleteEach(t, ids[..|ids| - 1]);
             t1.Valid() && t1.KeyedBy(RowId) && t1.Values() == Filter(t.Values(), NotIn(ids[..|ids| - 1]))
    ensures DeleteEach(t, ids).Valid() && DeleteEach(t, ids).KeyedBy(RowId)
    ensures DeleteEach(t, ids).Values() == Filter(t.Values(), NotIn(ids))
  {
    var init, k := ids[..|ids| - 1], ids[|ids| - 1];
    var t1 := DeleteEach(t, init);
    assert DeleteEach(t, ids) == t1.Delete(k);
    DeleteValues(t1, k, RowId);
    assert ids == init + [k];
    NotInSnoc(t.Values(), init, k);
  }

  /** Deleting no id keeps every row. */
  lemma NotInNone(s: seq<AlertVisibility>)
    ensures Filter(s, NotIn([])) == s
  {
    FilterCongruence(s, NotIn([]), (v: AlertVisibility) => true);
    AllPass(s);
  }

  /** Dropping the rows with id `k` from those whose id is not in `ids` leaves
      those whose id is not in `ids + [k]`. */
  lemma NotInSnoc(s: seq<AlertVisibility>, ids: seq<Id>, k: Id)
    ensures Filter(Filter(s, NotIn(ids)), IdIsNot(RowId, k)) == Filter(s, NotIn(ids + [k]))
  {
    FilterFilter(s, NotIn(ids), IdIsNot(RowId, k));
    forall v ensures Both(NotIn(ids), IdIsNot(RowId, k))(v) == NotIn(ids + [k])(v) {
      assert v.id in ids + [k] <==> v.id in ids || v.id == k;
    }
    FilterCongruence(s, Both(NotIn(ids), IdIsNot(RowId, k)), NotIn(ids + [k]));
  }

  lemma {:induction false} AllPass(s: seq<AlertVisibility>)
    ensures Filter(s, (v: AlertVisibility) => true) == s
    decreases |s|
  {
    if s != [] {
      AllPass(s[..|s| - 1]);
      assert s == s[..|s| - 1] + [s[|s| - 1]];
    }
  }

  /** In a keyed store, a row's id is among the ids of alert `a`'s rows
      exactly when the row belongs to `a`. */
  lemma RowIdsOfAlert(t: Table<AlertVisibility>, alertId: Id)
    requires t.Valid() && t.KeyedBy(RowId)
    ensures forall v :: v in t.Values() ==>
              NotIn(RowIds(FindByAlert(t.Values(), alertId)))(v) == AlertIsNot(alertId)(v)
  {
    var found := FindByAlert(t.Values(), alertId);
    var ids := RowIds(found);
    forall v | v in t.Values() ensures (v.id in ids) == (v.alertId == alertId) {
      if v.id in ids {
        var i :| 0 <= i < |ids| && ids[i] == v.id;
        assert found[i] in t.Values();
        KeyedSameId(t, RowId, v, found[i]);
      } else {
        assert v.alertId == alertId ==> v in found;
      }
    }
  }

  lemma NoneLeft(s: seq<AlertVisibility>, alertId: Id)
    ensures FindByAlert(Filter(s, AlertIsNot(alertId)), alertId) == []
  {
    var r := FindByAlert(Filter(s, AlertIsNot(alertId)), alertId);
    assert forall v :: v !in r;
  }

  /** `deleteByAlert(a)` on a keyed store removes exactly the rows of alert
      `a`: afterwards `findByAlert(a)` is empty and the rows of every other
      alert are kept, in their order. */
  lemma DeleteByAlertRemovesExactly(t: Table<AlertVisibility>, alertId: Id)
    requires t.Valid() && t.KeyedBy(RowId)
    ensures DeleteEach(t, RowIds(FindByAlert(t.Values(), alertId))).Valid()
    ensures DeleteEach(t, RowIds(FindByAlert(t.Values(), alertId))).Values()
         == Filter(t.Values(), AlertIsNot(alertId))
    ensures FindByAlert(DeleteEach(t, RowIds(FindByAlert(t.Values(), alertId))).Values(), alertId) == []
  {
    var ids := RowIds(FindByAlert(t.Values(), alertId));
    DeleteEachValues(t, ids);
    RowIdsOfAlert(t, alertId);
    FilterCongruence(t.Values(), NotIn(ids), AlertIsNot(alertId));
    NoneLeft(t.Values(), alertId);
  }

  /** With no rows for the alert, `deleteByAlert` changes nothing; in
      particular a second `deleteByAlert` of the same alert is a no-op. */
  lemma DeleteByAlertIdempotent(t: Table<AlertVisibility>, alertId: Id)
    requires t.Valid() && t.KeyedBy(RowId)
    ensures var t' := DeleteEach(t, RowIds(FindByAlert(t.Values(), alertId)));
            DeleteEach(t', RowIds(FindByAlert(t'.Values(), alertId))) == t'
  {
    DeleteByAlertRemovesExactly(t, alertId);
    var t' := DeleteEach(t, RowIds(FindByAlert(t.Values(), alertId)));
    assert FindByAlert(t'.Values(), alertId) == [];
    assert |RowIds(FindByAlert(t'.Values(), alertId))| == 0;
  }
}
