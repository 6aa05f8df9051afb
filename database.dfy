/** The record store behind the resolvers (`database/animals`). Its SQL is
    not part of this model: the class keeps the table as a map from id to
    record, plus the ids in insertion order, and each operation promises
    only what the resolvers rely on. The ghost field `calls` records every
    operation invoked on the store, so that a resolver can state exactly
    which store calls it made. */
module Database {
  import opened Wrappers

  /** One row of the `animals` table; `kind` is the column the source calls `type`. */
  datatype Animal = Animal(id: int, name: string, kind: string, accessory: string)

  /** A call made on the store, with the arguments it received. A `None` id
      stands for the `NaN` that `parseInt` yields on a malformed `ID`. */
  datatype StoreCall =
    | GetAnimals
    | GetAnimalById(id: Option<int>)
    | GetAnimalByName(name: string)
    | CreateAnimal(name: string, kind: string, accessory: string)
    | UpdateAnimalById(id: Option<int>, newName: Option<string>, newKind: Option<string>, newAccessory: Option<string>)
    | DeleteAnimalById(id: Option<int>)

  /** No id occurs twice in `s`. */
  predicate Distinct(s: seq<int>) {
    forall i, j :: 0 <= i < j < |s| ==> s[i] != s[j]
  }

  /** `s` without the element `k`, the others kept in order. */
  function Without(s: seq<int>, k: int): (r: seq<int>)
    ensures forall x :: x in r <==> x in s && x != k
    ensures Distinct(s) ==> Distinct(r)
  {
    if s == [] then []
    else if s[0] == k then Without(s[1..], k)
    else
      var rest := Without(s[1..], k);
      assert Distinct(s) ==> s[0] !in s[1..];
      [s[0]] + rest
  }

  class AnimalStore {
    var animals: map<int, Animal>
    var order: seq<int>
    var nextId: int
    ghost var calls: seq<StoreCall>

    /** Each record sits under its own id, ids handed out so far are below
        `nextId`, and `order` lists every live id exactly once. */
    ghost predicate Valid()
      reads this
    {
      && (forall k :: k in animals ==> animals[k].id == k && k < nextId && k in order)
      && (forall i :: 0 <= i < |order| ==> order[i] in animals)
      && Distinct(order)
    }

    /** `a` is a record of the table. */
    ghost predicate Stored(a: Animal)
      reads this
    {
      a.id in animals && animals[a.id] == a
    }

    /** Some record in the table carries `name`. */
    ghost predicate HasName(name: string)
      reads this
    {
      exists k :: k in animals && animals[k].name == name
    }

    constructor ()
      ensures Valid() && animals == map[] && calls == []
    {
      animals := map[];
      order := [];
      nextId := 1;
      calls := [];
    }

    /** `getAnimals()`: every record, each once, in insertion order. */
    method GetAnimals() returns (r: seq<Animal>)
      requires Valid()
      modifies this
      ensures Valid() && animals == old(animals) && order == old(order) && nextId == old(nextId)
      ensures calls == old(calls) + [StoreCall.GetAnimals]
      ensures forall a :: a in r <==> Stored(a)
      ensures |r| == |order| && forall i :: 0 <= i < |r| ==> r[i] == animals[order[i]]
    {
      r := [];
      var i := 0;
      while i < |order|
        invariant 0 <= i <= |order| && |r| == i
        invariant forall j :: 0 <= j < i ==> r[j] == animals[order[j]]
      {
        r := r + [animals[order[i]]];
        i := i + 1;
      }
      forall a | Stored(a)
        ensures a in r
      {
        var j :| 0 <= j < |order| && order[j] == a.id;
        assert r[j] == a;
      }
      forall a | a in r
        ensures Stored(a)
      {
        var j :| 0 <= j < |r| && r[j] == a;
        assert order[j] in animals;
      }
      calls := calls + [StoreCall.GetAnimals];
    }

    /** `getAnimalById(id)`: the record under `id`, or none (also for `NaN`). */
    method GetAnimalById(id: Option<int>) returns (r: Option<Animal>)
      requires Valid()
      modifies this
      ensures Valid() && animals == old(animals) && order == old(order) && nextId == old(nextId)
      ensures calls == old(calls) + [StoreCall.GetAnimalById(id)]
      ensures r.Some? <==> id.Some? && id.value in animals
      ensures r.Some? ==> r.value == animals[id.value]
    {
      r := if id.Some? && id.value in animals then Some(animals[id.value]) else None;
      calls := calls + [StoreCall.GetAnimalById(id)];
    }

    /** `getAnimalByName(name)`: some record with that name, or none when no
        record has it. Which one among several is left open. */
    method GetAnimalByName(name: string) returns (r: Option<Animal>)
      requires Valid()
      modifies this
      ensures Valid() && animals == old(animals) && order == old(order) && nextId == old(nextId)
      ensures calls == old(calls) + [StoreCall.GetAnimalByName(name)]
      ensures r.Some? <==> HasName(name)
      ensures r.Some? ==> Stored(r.value) && r.value.name == name
    {
      if k :| k in animals && animals[k].name == name {
        r := Some(animals[k]);
      } else {
        r := None;
      }
      calls := calls + [StoreCall.GetAnimalByName(name)];
    }

    /** `createAnimal(name, type, accessory)`: a new record under a fresh id. */
    method CreateAnimal(name: string, kind: string, accessory: string) returns (a: Animal)
      requires Valid()
      modifies this
      ensures Valid()
      ensures calls == old(calls) + [StoreCall.CreateAnimal(name, kind, accessory)]
      ensures a.id !in old(animals)
      ensures a == Animal(a.id, name, kind, accessory)
      ensures animals == old(animals)[a.id := a]
      ensures order == old(order) + [a.id]
    {
      a := Animal(nextId, name, kind, accessory);
      animals := animals[nextId := a];
      order := order + [nextId];
      nextId := nextId + 1;
      calls := calls + [StoreCall.CreateAnimal(name, kind, accessory)];
    }

    /** `updateAnimalById(id, name, type, accessory)`. Only the frame is
        promised: no id appears or disappears and no other record changes;
        the updated record keeps its id. */
    method UpdateAnimalById(id: Option<int>, name: Option<string>, kind: Option<string>, accessory: Option<string>)
      returns (r: Option<Animal>)
      requires Valid()
      modifies this
      ensures Valid() && animals.Keys == old(animals.Keys) && order == old(order) && nextId == old(nextId)
      ensures calls == old(calls) + [StoreCall.UpdateAnimalById(id, name, kind, accessory)]
      ensures forall k :: k in old(animals) && Some(k) != id ==> animals[k] == old(animals)[k]
      ensures r.Some? <==> id.Some? && id.value in old(animals)
      ensures r.Some? ==> r.value == animals[id.value]
    {
      if id.Some? && id.value in animals {
        var current := animals[id.value];
        var updated := Animal(
          current.id,
          if name.Some? then name.value else current.name,
          if kind.Some? then kind.value else current.kind,
          if accessory.Some? then accessory.value else current.accessory);
        animals := animals[id.value := updated];
        r := Some(updated);
      } else {
        r := None;
      }
      calls := calls + [StoreCall.UpdateAnimalById(id, name, kind, accessory)];
    }

    /** `deleteAnimalById(id)`: removes the record under `id` and returns it,
        or returns none when there is no such record. */
    method DeleteAnimalById(id: Option<int>) returns (r: Option<Animal>)
      requires Valid()
      modifies this
      ensures Valid() && nextId == old(nextId)
      ensures calls == old(calls) + [StoreCall.DeleteAnimalById(id)]
      ensures animals == if id.Some? then old(animals) - {id.value} else old(animals)
      ensures order == if id.Some? then Without(old(order), id.value) else old(order)
      ensures r.Some? <==> id.Some? && id.value in old(animals)
      ensures r.Some? ==> r.value == old(animals)[id.value]
    {
      r := if id.Some? && id.value in animals then Some(animals[id.value]) else None;
      if id.Some? {
        animals := animals - {id.value};
        order := Without(order, id.value);
        forall i | 0 <= i < |order|
          ensures order[i] in animals
        {
          assert order[i] in old(order);
        }
      }
      calls := calls + [StoreCall.DeleteAnimalById(id)];
    }
  }
}
