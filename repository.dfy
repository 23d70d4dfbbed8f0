// InMemoryRepository<T>: every entity store is one JavaScript Map from the
// entity's id to the entity, changed in place by create/update/delete and read
// by findById/findAll/filter. The entity-specific repositories add only read-only
// filtered queries; they are modelled as functions over `FindAll()` snapshots in
// their own modules.
module Repository {
  import opened Prelude
  import opened Tables

  class Store<T(==,!new)> {
    /** The Map the repository wraps. */
    var data: Table<T>
    /** `entity.id`: the key `create` stores an entity under. */
    const idOf: T -> Id

    ghost predicate Valid()
      reads this
    {
      data.Valid()
    }

    /** Every entity is stored under its own id. */
    ghost predicate Keyed()
      reads this
    {
      data.KeyedBy(idOf)
    }

    constructor (idOf: T -> Id)
      ensures Valid() && Keyed()
      ensures data == Empty()
      ensures forall e :: this.idOf(e) == idOf(e)
    {
      data := Empty();
      this.idOf := idOf;
    }

    function FindById(id: Id): (r: Option<T>)
      reads this
      ensures r.Some? <==> id in data.data
      ensures r.Some? ==> r.value == data.data[id]
    {
      data.Get(id)
    }

    /** The stored entities in insertion order. */
    function FindAll(): (r: seq<T>)
      reads this
      requires Valid()
      ensures |r| == |data.order|
      ensures forall i :: 0 <= i < |r| ==> r[i] == data.data[data.order[i]]
    {
      data.Values()
    }

    /** The protected `filter`: the stored entities that satisfy `p`, in
        insertion order. */
    function Where(p: T -> bool): (r: seq<T>)
      reads this
      requires Valid()
      ensures forall e :: e in r <==> e in data.data.Values && p(e)
      ensures SubseqOf(r, FindAll())
      ensures forall e :: multiset(r)[e] == if p(e) then multiset(FindAll())[e] else 0
    {
      assert forall e :: e in FindAll() <==> e in data.data.Values by {
        forall e | e in data.data.Values ensures e in FindAll() {
          var k :| k in data.data && data.data[k] == e;
          var i := IndexOf(data, k);
        }
      }
      FilterExact(FindAll(), p);
      Filter(FindAll(), p)
    }

    method Create(entity: T) returns (r: T)
      requires Valid()
      modifies this
      ensures Valid()
      ensures r == entity
      ensures data == old(data).Set(idOf(entity), entity)
      ensures old(Keyed()) ==> Keyed()
    {
      var k := idOf(entity);
      data := data.Set(k, entity);
      r := entity;
    }

    /** `update(id, updates)`: `patch` is the spread `{ ...existing, ...updates }`. */
    method Update(id: Id, patch: T -> T) returns (r: Option<T>)
      requires Valid()
      modifies this
      ensures Valid()
      ensures r == if id in old(data.data) then Some(patch(old(data.data[id]))) else None
      ensures r.None? ==> data == old(data)
      ensures r.Some? ==> data == old(data).Set(id, r.value) && data.order == old(data.order)
      ensures forall k :: k in old(data.data) && k != id ==> k in data.data && data.data[k] == old(data.data[k])
    {
      if id !in data.data {
        return None;
      }
      var updated := patch(data.data[id]);
      data := data.Set(id, updated);
      r := Some(updated);
    }

    method Delete(id: Id) returns (found: bool)
      requires Valid()
      modifies this
      ensures Valid()
      ensures found <==> id in old(data.data)
      ensures data == old(data).Delete(id)
      ensures FindById(id).None?
      ensures forall k :: k != id ==> FindById(k) == old(FindById(k))
    {
      found := id in data.data;
      DeleteValid(data, id);
      data := data.Delete(id);
    }
  }
}
