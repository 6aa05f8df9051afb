/** Requests chained the way a client chains them, proved from the
    resolvers' contracts alone. */
module Scenarios {
  import opened Wrappers
  import DB = Database
  import opened Http
  import opened GraphQL
  import P = ParseInt
  import Session
  import Query
  import Mutation

  /** `createAnimal` with three non-empty fields, then `animal` with the id
      the response carries: the same record comes back. */
  method CreateThenFetch(db: DB.AnimalStore, name: string, kind: string, accessory: string)
    returns (created: DB.Animal, fetched: Option<DB.Animal>)
    requires db.Valid()
    requires name != "" && kind != "" && accessory != ""
    modifies db
    ensures db.Valid()
    ensures created.id !in old(db.animals)
    ensures created.name == name && created.kind == kind && created.accessory == accessory
    ensures fetched == Some(created)
  {
    var r := Mutation.CreateAnimal(db, Some(name), Some(kind), Some(accessory));
    created := r.value;
    P.ParseIntRoundTrip(created.id);
    fetched := Query.Animal(db, P.IntString(created.id));
  }

  /** A `deleteAnimal` the gate rejects leaves the target retrievable. */
  method RejectedDeleteKeepsRecord(db: DB.AnimalStore, id: int, ctx: Context)
    returns (deleted: Result<Option<DB.Animal>, Thrown>, fetched: Option<DB.Animal>)
    requires db.Valid()
    requires id in db.animals
    requires Authorize(ctx.fakeAdminAnimal, SessionToken(ctx.req)).Fail?
    modifies db
    ensures deleted.Err?
    ensures db.animals == old(db.animals)
    ensures fetched == Some(old(db.animals)[id])
  {
    deleted := Mutation.DeleteAnimal(db, P.IntString(id), ctx);
    P.ParseIntRoundTrip(id);
    fetched := Query.Animal(db, P.IntString(id));
  }

  /** A `deleteAnimal` the gate accepts removes the target: fetching it
      afterwards gives null. */
  method AdminDeleteRemovesRecord(db: DB.AnimalStore, id: int, ctx: Context)
    returns (deleted: Result<Option<DB.Animal>, Thrown>, fetched: Option<DB.Animal>)
    requires db.Valid()
    requires id in db.animals
    requires Authorize(ctx.fakeAdminAnimal, SessionToken(ctx.req)).Pass?
    modifies db
    ensures deleted == Ok(Some(old(db.animals)[id]))
    ensures db.animals == old(db.animals) - {id}
    ensures fetched == None
  {
    P.ParseIntRoundTrip(id);
    deleted := Mutation.DeleteAnimal(db, P.IntString(id), ctx);
    fetched := Query.Animal(db, P.IntString(id));
  }

  /** A successful `login`, whose cookie the client sends back with its next
      request: that request's `deleteAnimal` is rejected and deletes nothing,
      because the admin is looked up as "Ralph" and the token says "Lulu". */
  method LoginCookieCannotDelete(db: DB.AnimalStore, res: Response, id: string)
    returns (deleted: Result<Option<DB.Animal>, Thrown>)
    requires db.Valid()
    modifies db, res
    ensures deleted.Err?
    ensures db.animals == old(db.animals)
  {
    var user := Mutation.Login(db, res, Some(ValidUsername), Some(ValidPassword));
    var header := res.headers["Set-Cookie"];
    Session.SessionCookieRoundTrip(ValidUsername);
    var token := Session.CookieValue(header);
    var req := Request(map[Session.CookieName := token.value]);
    var ctx := CreateContext(db, req);
    LoginCookieNeverAuthorizesDelete(ctx.fakeAdminAnimal);
    deleted := Mutation.DeleteAnimal(db, id, ctx);
  }
}
