/** The mutation resolvers: `createAnimal`, `updateAnimal`, `deleteAnimal`
    and `login`. A request that a guard rejects touches neither the store
    nor the response; an accepted one makes exactly one store call, with
    the arguments it received. */
module Mutation {
  import opened Wrappers
  import DB = Database
  import opened Http
  import opened GraphQL
  import P = ParseInt
  import Session

  /** `createAnimal(name, type, accessory)`. */
  method CreateAnimal(db: DB.AnimalStore, name: Option<string>, kind: Option<string>, accessory: Option<string>)
    returns (r: Result<DB.Animal, Thrown>)
    requires db.Valid()
    modifies db
    ensures db.Valid()
    ensures r.Err? <==> !(Filled(name) && Filled(kind) && Filled(accessory))
    ensures r.Err? ==> r.error == Error(AllFieldsRequired) && unchanged(db)
    ensures r.Ok? ==>
              && db.calls == old(db.calls) + [DB.StoreCall.CreateAnimal(name.value, kind.value, accessory.value)]
              && r.value == DB.Animal(r.value.id, name.value, kind.value, accessory.value)
              && r.value.id !in old(db.animals)
              && db.animals == old(db.animals)[r.value.id := r.value]
              && db.order == old(db.order) + [r.value.id]
  {
    var checked := CheckCreateArgs(name, kind, accessory);
    if checked.Err? {
      return Err(checked.error);
    }
    var (n, k, a) := checked.value;
    var created := db.CreateAnimal(n, k, a);
    r := Ok(created);
  }

  /** `updateAnimal(id, name, type, accessory)`: no validation; the parsed
      id and the three optional fields go to the store as they are. */
  method UpdateAnimal(db: DB.AnimalStore, id: string, name: Option<string>, kind: Option<string>, accessory: Option<string>)
    returns (r: Option<DB.Animal>)
    requires db.Valid()
    modifies db
    ensures db.Valid() && db.animals.Keys == old(db.animals.Keys) && db.order == old(db.order)
    ensures db.calls == old(db.calls) + [DB.StoreCall.UpdateAnimalById(P.ParseInt(id), name, kind, accessory)]
    ensures forall k :: k in old(db.animals) && Some(k) != P.ParseInt(id) ==> db.animals[k] == old(db.animals)[k]
    ensures r.Some? <==> P.ParseInt(id).Some? && P.ParseInt(id).value in old(db.animals)
    ensures r.Some? ==> r.value == db.animals[P.ParseInt(id).value]
  {
    r := db.UpdateAnimalById(P.ParseInt(id), name, kind, accessory);
  }

  /** `deleteAnimal(id)`: the gate first; on a pass, deletes the record
      under `parseInt(id)` and returns it (or null if there was none). */
  method DeleteAnimal(db: DB.AnimalStore, id: string, ctx: Context) returns (r: Result<Option<DB.Animal>, Thrown>)
    requires db.Valid()
    modifies db
    ensures db.Valid()
    ensures r.Err? <==> Authorize(ctx.fakeAdminAnimal, SessionToken(ctx.req)).Fail?
    ensures r.Err? ==> r.error == Authorize(ctx.fakeAdminAnimal, SessionToken(ctx.req)).error && unchanged(db)
    ensures r.Ok? ==>
              && db.calls == old(db.calls) + [DB.StoreCall.DeleteAnimalById(P.ParseInt(id))]
              && db.animals == (if P.ParseInt(id).Some? then old(db.animals) - {P.ParseInt(id).value} else old(db.animals))
              && db.order == (if P.ParseInt(id).Some? then DB.Without(old(db.order), P.ParseInt(id).value) else old(db.order))
              && (r.value.Some? <==> P.ParseInt(id).Some? && P.ParseInt(id).value in old(db.animals))
              && (r.value.Some? ==> r.value.value == old(db.animals)[P.ParseInt(id).value])
  {
    var gate := Authorize(ctx.fakeAdminAnimal, SessionToken(ctx.req));
    if gate.Fail? {
      return Err(gate.error);
    }
    var deleted := db.DeleteAnimalById(P.ParseInt(id));
    r := Ok(deleted);
  }

  /** `login(username, password)`: presence checks, then the credential
      check; only then the session cookie is set, once, and the user's
      record is looked up by name. */
  method Login(db: DB.AnimalStore, res: Response, username: Option<string>, password: Option<string>)
    returns (r: Result<Option<DB.Animal>, Thrown>)
    requires db.Valid()
    modifies db, res
    ensures db.Valid() && db.animals == old(db.animals) && db.order == old(db.order)
    ensures r.Err? <==> CheckLogin(username, password).Err?
    ensures r.Err? ==> r.error == CheckLogin(username, password).error && unchanged(db) && unchanged(res)
    ensures r.Ok? ==>
              && res.setHeaderCalls == old(res.setHeaderCalls)
                   + [("Set-Cookie", Session.CreateFakeSerializedCookie(ValidUsername))]
              && res.headers == old(res.headers)["Set-Cookie" := Session.CreateFakeSerializedCookie(ValidUsername)]
              && db.calls == old(db.calls) + [DB.StoreCall.GetAnimalByName(ValidUsername)]
              && (r.value.Some? <==> db.HasName(ValidUsername))
              && (r.value.Some? ==> db.Stored(r.value.value) && r.value.value.name == ValidUsername)
  {
    var checked := CheckLogin(username, password);
    if checked.Err? {
      return Err(checked.error);
    }
    var fakeSerializedCookie := Session.CreateFakeSerializedCookie(checked.value);
    res.SetHeader("Set-Cookie", fakeSerializedCookie);
    var found := db.GetAnimalByName(checked.value);
    r := Ok(found);
  }
}
