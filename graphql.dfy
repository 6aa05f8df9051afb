/** What the resolvers of the GraphQL endpoint share: the errors they throw,
    the checks they run before touching the store, and the per-request
    context with its admin lookup. The resolvers themselves are in the
    modules `Query` and `Mutation`. */
module GraphQL {
  import opened Wrappers
  import opened Database
  import opened Http
  import Session

  /** An exception escaping a resolver: `new Error(message)`, or the
      TypeError the runtime raises when a property of `undefined` is read. */
  datatype Thrown = Error(message: string) | TypeError(message: string)

  const AllFieldsRequired := "All fields are required"
  const NotAuthorized := "You are not authorized to delete this animal"
  const InvalidCredentials := "Invalid username or password"
  const NotLoggedIn := "User must be logged in"
  const AdminUndefined := "Cannot read properties of undefined (reading 'name')"

  /** The name looked up for every request to find the admin record. */
  const AdminName := "Ralph"
  /** The one user name and password `login` accepts. */
  const ValidUsername := "Lulu"
  const ValidPassword := "asdf"

  /** `typeof arg === 'string' && !!arg`: the argument is present, is a
      string, and is not the empty string (the only falsy string). */
  predicate Filled(arg: Option<string>) {
    arg.Some? && arg.value != ""
  }

  /** The guard of `fakeLoggedInAnimal`: `!args.name` throws. */
  function RequireName(name: Option<string>): (r: Result<string, Thrown>)
    ensures r.Ok? <==> Filled(name)
    ensures r.Ok? ==> r.value == name.value
    ensures r.Err? ==> r.error == Error(NotLoggedIn)
  {
    if name.None? || name.value == "" then Err(Error(NotLoggedIn)) else Ok(name.value)
  }

  /** The guard of `createAnimal`: the three type tests, then the three
      emptiness tests. `accessory` is required although the schema lets
      it be omitted. */
  function CheckCreateArgs(name: Option<string>, kind: Option<string>, accessory: Option<string>)
    : (r: Result<(string, string, string), Thrown>)
    ensures r.Ok? <==> Filled(name) && Filled(kind) && Filled(accessory)
    ensures r.Ok? ==> r.value == (name.value, kind.value, accessory.value)
    ensures r.Err? ==> r.error == Error(AllFieldsRequired)
  {
    if name.None? || kind.None? || accessory.None?
       || name.value == "" || kind.value == "" || accessory.value == ""
    then Err(Error(AllFieldsRequired))
    else Ok((name.value, kind.value, accessory.value))
  }

  /** The guards of `login`, in order: presence first, then the one
      hard-coded pair. On success the result is the accepted user name. */
  function CheckLogin(username: Option<string>, password: Option<string>): (r: Result<string, Thrown>)
    ensures !Filled(username) || !Filled(password) ==> r == Err(Error(AllFieldsRequired))
    ensures Filled(username) && Filled(password) && r.Err? ==> r.error == Error(InvalidCredentials)
    ensures r.Ok? <==> username == Some(ValidUsername) && password == Some(ValidPassword)
    ensures r.Ok? ==> r.value == ValidUsername
  {
    if username.None? || password.None? || username.value == "" || password.value == "" then
      Err(Error(AllFieldsRequired))
    else if username.value != ValidUsername || password.value != ValidPassword then
      Err(Error(InvalidCredentials))
    else
      Ok(username.value)
  }

  /** The gate of `deleteAnimal`: the admin record's name must equal the
      session token. A missing admin record makes reading its name throw;
      a missing cookie never equals a name. */
  function Authorize(admin: Option<Animal>, token: Option<string>): (r: Outcome<Thrown>)
    ensures r.Pass? <==> admin.Some? && token == Some(admin.value.name)
    ensures admin.None? ==> r == Fail(TypeError(AdminUndefined))
    ensures admin.Some? && r.Fail? ==> r.error == Error(NotAuthorized)
  {
    if admin.None? then Fail(TypeError(AdminUndefined))
    else if token != Some(admin.value.name) then Fail(Error(NotAuthorized))
    else Pass
  }

  /** The per-request context: the request and the admin lookup's result. */
  datatype Context = Context(req: Request, fakeAdminAnimal: Option<Animal>)

  /** `req.cookies.fakeSessionToken`, undefined when the cookie is absent. */
  function SessionToken(req: Request): (t: Option<string>)
    ensures t.Some? <==> Session.CookieName in req.cookies
    ensures t.Some? ==> t.value == req.cookies[Session.CookieName]
  {
    if Session.CookieName in req.cookies then Some(req.cookies[Session.CookieName]) else None
  }

  /** The context factory: looks up the admin record by name on every request. */
  method CreateContext(db: AnimalStore, req: Request) returns (ctx: Context)
    requires db.Valid()
    modifies db
    ensures db.Valid() && db.animals == old(db.animals) && db.order == old(db.order)
    ensures db.calls == old(db.calls) + [StoreCall.GetAnimalByName(AdminName)]
    ensures ctx.req == req
    ensures ctx.fakeAdminAnimal.Some? <==> db.HasName(AdminName)
    ensures ctx.fakeAdminAnimal.Some? ==>
              db.Stored(ctx.fakeAdminAnimal.value) && ctx.fakeAdminAnimal.value.name == AdminName
  {
    var admin := db.GetAnimalByName(AdminName);
    ctx := Context(req, admin);
  }

  /** With the admin found by its name, the gate lets through exactly the
      requests whose session token is that name. */
  lemma GateAdmitsOnlyAdminName(admin: Option<Animal>, token: Option<string>)
    requires admin.Some? ==> admin.value.name == AdminName
    ensures Authorize(admin, token).Pass? <==> admin.Some? && token == Some(AdminName)
  {
  }

  /** The cookie `login` issues carries the token "Lulu", which never opens
      the gate, whose admin is the record named "Ralph". */
  lemma LoginCookieNeverAuthorizesDelete(admin: Option<Animal>)
    requires admin.Some? ==> admin.value.name == AdminName
    ensures Authorize(admin, Session.CookieValue(Session.CreateFakeSerializedCookie(ValidUsername))).Fail?
  {
  }
}
