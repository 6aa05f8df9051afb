/** The query resolvers: `animals`, `animal` and `fakeLoggedInAnimal`. Each
    one makes at most one store call and changes no record. */
module Query {
  import opened Wrappers
  import DB = Database
  import opened GraphQL
  import P = ParseInt

  /** `animals`: every record of the store, each once, in insertion order. */
  method Animals(db: DB.AnimalStore) returns (r: seq<DB.Animal>)
    requires db.Valid()
    modifies db
    ensures db.Valid() && db.animals == old(db.animals) && db.order == old(db.order)
    ensures db.calls == old(db.calls) + [DB.StoreCall.GetAnimals]
    ensures forall a :: a in r <==> db.Stored(a)
    ensures |r| == |db.order| && forall i :: 0 <= i < |r| ==> r[i] == db.animals[db.order[i]]
  {
    r := db.GetAnimals();
  }

  /** `animal(id)`: the record under `parseInt(id)`, or null. */
  method Animal(db: DB.AnimalStore, id: string) returns (r: Option<DB.Animal>)
    requires db.Valid()
    modifies db
    ensures db.Valid() && db.animals == old(db.animals) && db.order == old(db.order)
    ensures db.calls == old(db.calls) + [DB.StoreCall.GetAnimalById(P.ParseInt(id))]
    ensures r.Some? <==> P.ParseInt(id).Some? && P.ParseInt(id).value in db.animals
    ensures r.Some? ==> r.value == db.animals[P.ParseInt(id).value]
  {
    r := db.GetAnimalById(P.ParseInt(id));
  }

  /** `fakeLoggedInAnimal(name)`: throws when the name is missing or empty,
      before any store call; otherwise looks the name up. */
  method FakeLoggedInAnimal(db: DB.AnimalStore, name: Option<string>) returns (r: Result<Option<DB.Animal>, Thrown>)
    requires db.Valid()
    modifies db
    ensures db.Valid() && db.animals == old(db.animals) && db.order == old(db.order)
    ensures !Filled(name) ==> r == Err(Error(NotLoggedIn)) && unchanged(db)
    ensures Filled(name) ==>
              && db.calls == old(db.calls) + [DB.StoreCall.GetAnimalByName(name.value)]
              && r.Ok?
              && (r.value.Some? <==> db.HasName(name.value))
              && (r.value.Some? ==> db.Stored(r.value.value) && r.value.value.name == name.value)
  {
    var checked := RequireName(name);
    if checked.Err? {
      return Err(checked.error);
    }
    var found := db.GetAnimalByName(checked.value);
    r := Ok(found);
  }
}
