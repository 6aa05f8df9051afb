# Animal GraphQL resolvers, modelled in Dafny

This project models the resolver layer of a small Next.js/Apollo GraphQL
endpoint for "animals". Each record has an id, a name, a type and an
accessory. The endpoint has three queries (`animals`, `animal`,
`fakeLoggedInAnimal`) and four mutations (`createAnimal`, `updateAnimal`,
`deleteAnimal`, `login`). It also has a toy session:

- `login` accepts one hard-coded user, `Lulu` with password `asdf`.
- On success it sets a `fakeSessionToken` cookie whose value is just the user name.
- `deleteAnimal` is allowed only when that token equals the name of the admin record.
- The admin record is found on every request by looking up the name `Ralph`.

Modules:

- `Wrappers` (`wrappers.dfy`): `Option`, `Result`, `Outcome`.
- `ParseInt` (`parse_int.dfy`): the part of JavaScript's `parseInt` that turns a GraphQL `ID` into a record id. It reads an optional sign and then the longest run of decimal digits. `NaN` is `None`.
- `Session` (`session.dfy`): `createFakeSerializedCookie`, and `CookieValue`, which extracts the raw cookie value from the header. For a plain token, that raw value is what arrives as `req.cookies.fakeSessionToken`. A plain token is made only of characters that RFC 6265 (section 4.1.1) allows in a cookie value, other than '%'. That is printable ASCII except '"', ',', ';', '\\' and '%'.
- `Database` (`database.dfy`): the record store the resolvers call. Its implementation is not part of this model. The class `AnimalStore` holds the table as a map from id to record, plus the live ids in insertion order. Each operation promises only what the resolvers rely on. The ghost field `calls` logs every store operation with its arguments.
- `Http` (`http.dfy`): the request's cookies. Also the response's headers and `setHeader`, whose calls are logged in the ghost field `setHeaderCalls`.
- `GraphQL` (`graphql.dfy`): what the resolvers share. That is the thrown errors with their exact messages, the guards of each resolver as pure functions, the per-request context and the admin lookup that builds it.
- `Query`, `Mutation` (`query.dfy`, `mutation.dfy`): one method per resolver. Each states which guard fires, which error is thrown, that a rejected request leaves the store and the response `unchanged`, and that an accepted one makes exactly one store call with the forwarded arguments.
- `Scenarios` (`scenarios.dfy`): requests chained as a client chains them, proved from the resolvers' contracts.

Two consequences proved about the code as written:

- A cookie that `login` issues never passes the delete gate. Login only issues `Lulu`, and the gate compares against the record found under `Ralph` (`GraphQL.LoginCookieNeverAuthorizesDelete`, `Scenarios.LoginCookieCannotDelete`).
- `createFakeSerializedCookie` does not escape the name. A `;` in it would end the token early (`Session.SessionCookieTruncatesAtSeparator`). This is unreachable today, because only `Lulu` is ever serialised.

Where the code and a plain description of the service differ, the model follows the code:

- When no record is named `Ralph`, the admin lookup gives `undefined`. Reading its `name` then throws a runtime `TypeError` before any comparison with the token. The request still fails closed, but with a different error from "not authorized".
- `fakeLoggedInAnimal` with an unknown name returns null. It does not throw a not-found error.
- `createAnimal` requires `accessory`, although the schema declares it optional.

## Model

| member | source | states |
|---|---|---|
| `ParseInt.ParseInt` | pages/api/graphql.ts:134 | `parseInt(id)` is `NaN` (None) exactly when no decimal digit follows the optional sign; without a leading '-' the value is non-negative |
| `ParseInt.ParseIntOfIntString` | pages/api/graphql.ts:134 | an id printed in decimal, followed by nothing or a non-digit, parses back to that id (`parseInt` keeps the longest digit prefix) |
| `ParseInt.ParseIntRoundTrip` | pages/api/graphql.ts:134 | `parseInt` of any printed integer id gives back that id |
| `Session.CreateFakeSerializedCookie` | pages/api/graphql.ts:120-122 | the cookie is `fakeSessionToken=`, then the name verbatim, then `; HttpOnly; SameSite=lax; Path=/; Max-Age=3600`, with the length of the three together |
| `Session.CookieValue` | pages/api/graphql.ts:20-24 | the raw cookie value is present exactly when the header starts with `fakeSessionToken=`, and it never contains ';' |
| `Session.SessionCookieRoundTrip` | pages/api/graphql.ts:120-122 | for every plain name (printable ASCII except '"', ',', ';', '\\' and '%'), reading the issued cookie back yields exactly that name |
| `Session.SessionCookieTruncatesAtSeparator` | pages/api/graphql.ts:121 | the name is not escaped: with a ';' in the name, only the part before it comes back as the token |
| `Database.AnimalStore.GetAnimals` | pages/api/graphql.ts:129 | returns exactly the stored records, once each, in insertion order; no record changes; logs one `GetAnimals` call |
| `Database.AnimalStore.GetAnimalById` | pages/api/graphql.ts:134 | returns the record under the id, or none when the id is `NaN` or absent; no record changes |
| `Database.AnimalStore.GetAnimalByName` | pages/api/graphql.ts:143 | returns some stored record with that name exactly when one exists (which one is left open); no record changes |
| `Database.AnimalStore.CreateAnimal` | pages/api/graphql.ts:161 | adds one record with the three given fields under an id not in use before, appended to the insertion order; nothing else changes |
| `Database.AnimalStore.UpdateAnimalById` | pages/api/graphql.ts:169 | no id appears or disappears, the insertion order is kept and every other record is unchanged; returns the record under the id when it exists |
| `Database.AnimalStore.DeleteAnimalById` | pages/api/graphql.ts:179 | removes exactly the given id from the table and from the insertion order, keeping the others' order, and returns the removed record or none |
| `Http.Response.SetHeader` | pages/api/graphql.ts:27-31 | sets one header, replacing any earlier value, and logs the call |
| `GraphQL.RequireName` | pages/api/graphql.ts:139-141 | passes exactly when the name is present and non-empty; otherwise throws `User must be logged in` |
| `GraphQL.CheckCreateArgs` | pages/api/graphql.ts:151-160 | passes exactly when name, type and accessory are all present non-empty strings, and hands on those three strings; otherwise throws `All fields are required` |
| `GraphQL.CheckLogin` | pages/api/graphql.ts:188-199 | a missing or empty username or password throws `All fields are required` before any credential comparison; it passes exactly for (`Lulu`, `asdf`); every other complete pair throws `Invalid username or password` |
| `GraphQL.Authorize` | pages/api/graphql.ts:174-178 | passes exactly when an admin record exists and the token equals its name; a missing admin throws a `TypeError`; any other mismatch, a missing cookie included, throws `You are not authorized to delete this animal` |
| `GraphQL.SessionToken` | pages/api/graphql.ts:175 | the token is present exactly when the request carries a `fakeSessionToken` cookie, and equals its value |
| `GraphQL.CreateContext` | pages/api/graphql.ts:222-226 | makes one store call, a lookup of `Ralph`; the admin is present exactly when a record of that name exists, and is such a record |
| `GraphQL.GateAdmitsOnlyAdminName` | pages/api/graphql.ts:174-178 | with the admin found under `Ralph`, the gate passes exactly the requests whose token is `Ralph` |
| `GraphQL.LoginCookieNeverAuthorizesDelete` | pages/api/graphql.ts:197-202 | the cookie issued by a successful login, read back, never passes the delete gate |
| `Query.Animals` | pages/api/graphql.ts:128-130 | returns exactly the stored records, each once, in insertion order; one `getAnimals` call; no record changes |
| `Query.Animal` | pages/api/graphql.ts:133-135 | forwards `parseInt(id)` in one call and returns the record under it, or null |
| `Query.FakeLoggedInAnimal` | pages/api/graphql.ts:138-144 | a missing or empty name throws `User must be logged in` with the store untouched; otherwise one lookup by that name, whose result is returned |
| `Mutation.CreateAnimal` | pages/api/graphql.ts:150-162 | fails with `All fields are required` exactly when a field is missing or empty, store untouched; otherwise one `createAnimal` call with the same three strings, adding just that record under a fresh id |
| `Mutation.UpdateAnimal` | pages/api/graphql.ts:165-170 | no validation: one `updateAnimalById` call with `parseInt(id)` and the three optional fields as received; other records are unchanged |
| `Mutation.DeleteAnimal` | pages/api/graphql.ts:173-180 | fails exactly when the gate fails, with the gate's error and the store untouched; otherwise one `deleteAnimalById(parseInt(id))` call, removing exactly that id |
| `Mutation.Login` | pages/api/graphql.ts:183-205 | a rejected login throws the guard's error and touches neither the store nor the response; a successful one sets exactly one `Set-Cookie` header, equal to the serialised cookie for `Lulu`, then returns the store's lookup of `Lulu` |
| `Scenarios.CreateThenFetch` | pages/api/graphql.ts:150-162 | after a valid `createAnimal`, `animal` with the returned id yields the created record with the given fields |
| `Scenarios.RejectedDeleteKeepsRecord` | pages/api/graphql.ts:174-177 | after a rejected `deleteAnimal`, the target is still retrievable and unchanged |
| `Scenarios.AdminDeleteRemovesRecord` | pages/api/graphql.ts:179 | after an accepted `deleteAnimal`, exactly that record is gone and `animal` returns null |
| `Scenarios.LoginCookieCannotDelete` | pages/api/graphql.ts:201-202 | a client that logs in and sends the issued cookie back cannot delete anything |

## Left out

- Apollo and Next.js wiring (`makeExecutableSchema`, `ApolloServer`, `startServerAndCreateNextHandler`) is framework glue. Only the context factory's admin lookup is modelled. Also left out: the schema text, the commented-out seed data and the React create-animal page.
- Schema-level argument checks (`String!`, `ID!`) are done by the GraphQL engine, not by the resolvers. Every optional argument is `Option<string>`, so the resolvers' own `typeof` tests have something to reject.
- The store's SQL is not part of this model, and neither are its connection errors. The store is an abstract class whose contracts say only what the resolvers need. Among records with the same name, which one the lookup by name returns is left open.
- `Database.AnimalStore.UpdateAnimalById`: promises only its frame. No id appears or disappears, no other record changes, and the record keeps its id. Which fields an update keeps is decided by the unseen store. The body fills in omitted fields from the old record, but the contract does not promise that.
- `ParseInt.ParseInt`: models only an optional sign and a prefix of decimal digits. Not modelled: skipping leading whitespace, the `0x` hexadecimal prefix, `-0`, and the loss of precision above 2^53.
- `Session.CookieValue`: returns the raw characters between `fakeSessionToken=` and the first ';'. It does not trim blanks, strip enclosing double quotes or percent-decode, as cookie parsing on the way to `req.cookies` does. So the round trip is proved only for plain names: RFC 6265 cookie characters other than '%'. That covers `Lulu`, the only name ever serialised. Not modelled: whitespace trimming and the `ERR_INVALID_CHAR` that `setHeader` raises for characters outside tab, 0x20-0x7E and 0x80-0xFF.
- `Http.Response.SetHeader`: header names are compared exactly, not case-insensitively, and array values are not modelled.
- `async`/`await` and the per-request execution are not modelled. A thrown error is the resolver's result. How Apollo formats it for the client is not modelled.
