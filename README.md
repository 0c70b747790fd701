# Product catalog and broadcast hub, modelled in Dafny

The repository has two Express servers, `backend/server.js` and `Practice6/server.js`. Both keep
a product catalog in a JSON file and offer create, get, update and delete on it through
`/products` REST handlers. Both also expose a GraphQL `products` query. The backend server also
runs a WebSocket hub: it tracks the set of connected clients, and every message a client sends
is relayed to every other client whose socket is open.

The model strips out the I/O and keeps the logic:

- `ProductModel` (`product_model.dfy`) holds the data model. JSON/JavaScript values are a
  datatype `Value`, and `Truthy` is JavaScript's ToBoolean. A record has the five known keys
  plus a map of any other keys it carries. `Fields` are the four fields a request body supplies,
  and `Complete` is the presence check `!name || !price || !category || !description`, negated.
  `Merge` is the object spread used by update. `Result` has one constructor per outcome:
  success, 400 (`ValidationError`), 404 (`NotFound`), and 500 (`StorageError`) for a failed
  read, parse or write.
- `CatalogSpec` (`catalog_spec.dfy`) holds the pure parts of the handlers: `find`, `findIndex`
  and `filter` on the id, and id uniqueness. It also has the lemmas that tie them to the
  handlers' updates: append, point update and filter.
- `CatalogStore` (`catalog_store.dfy`) has the class `Catalog`. Its field `products` is the
  content of the catalog file: reading the file reads the field and writing the file assigns it.
  Its methods follow the handlers branch by branch and in the same order: presence check, read,
  lookup, write. The success of the read (with its JSON parse) and of the write are inputs, and
  so is the clock reading `Date.now().toString()` used as the new id. The two servers' handlers
  are the same line for line, so one class models both. In the table below, each row cites one
  server's lines. The twin lines are `Practice6/server.js:48-72` (create), `75-90` (get),
  `93-116` (update) and `119-135` (delete).
- `GraphQLResolver` (`graphql_resolver.dfy`) models the Practice6 resolver, which maps every
  record to `{id, name, price, description}`.
- `BroadcastHub` (`broadcast_hub.dfy`) has the class `Hub`, whose field `clients` is a set of
  `Connection` objects. Each connection has a `readyState` and an `outbox` that records what was
  sent to it. The message handler loops over the set as the source's `for ... of` does.

Behaviour of the code worth noting:

- A failed presence check returns one fixed message ('Все поля обязательны'); it does not name
  the missing field.
- A price only has to be truthy, so a negative price is accepted.
- Update spreads the stored record before the four fields, so it keeps every other key that
  record has. A record may therefore carry keys beyond the five known ones; `WellFormed` says
  that none of those repeats a known key, as in any decoded JSON object, and every operation
  keeps that.
- Read, parse and write failures all give the same 500 response, so the model has one
  `StorageError`.
- The backend's GraphQL resolver returns the stored records unchanged; only the Practice6
  resolver projects them.
- Lookups compare a record's id with the `:id` route parameter, which is always a string, so the
  lookup functions take a string key and match records whose id is that string.

## Model

| member | source | states |
|---|---|---|
| `ProductModel.Truthy` | backend/server.js:85 | JavaScript truthiness as `!name` uses it: a value is truthy exactly when it is none of the six falsy values undefined, null, false, 0, NaN and the empty string (also backend/server.js:120) |
| `ProductModel.Complete` | backend/server.js:84-87 | the presence check passes exactly when none of name, price, category and description is a falsy value, so a missing field, an empty string or a zero price is rejected (also Practice6/server.js:49-53, 95-99) |
| `ProductModel.NewProduct` | backend/server.js:89-95 | the new record has the supplied id as a string, exactly the four request fields and no other key, and is well formed (also Practice6/server.js:55-61) |
| `ProductModel.Merge` | backend/server.js:129 | the spread result carries the four new fields and keeps the old record's id and all its other keys; a well-formed record stays well formed (also Practice6/server.js:109) |
| `CatalogSpec.FindIndex` | backend/server.js:126 | the result is -1 exactly when no record has the id; otherwise the record at that index has the id and no earlier record does (also Practice6/server.js:103) |
| `CatalogSpec.Find` | backend/server.js:110 | the result is present exactly when some record has the id, and then it is a record of the catalog carrying that id (also Practice6/server.js:80) |
| `CatalogSpec.FindIsFirstMatch` | backend/server.js:110 | `find` yields exactly the record at the index `findIndex` reports, and `undefined` when that index is -1 |
| `CatalogSpec.RemoveId` | backend/server.js:140-141 | the filter keeps exactly the records whose id differs; it is never longer than the input; its length is unchanged exactly when no record had the id, which is when Delete reports not-found (also Practice6/server.js:124-126) |
| `CatalogSpec.RemoveIdAppend` | Practice6/server.js:124 | filtering a concatenation is the concatenation of the filtered parts, so the kept records stay in their relative order |
| `CatalogSpec.DeleteMiddle` | Practice6/server.js:123-130 | deleting B's id from [A, B, C], where A's and C's ids differ from B's, yields [A, C] |
| `CatalogSpec.RemoveIdKeepsUnique` | backend/server.js:140 | if ids are unique before a delete, they are unique after it |
| `CatalogSpec.AppendKeepsUnique` | backend/server.js:89-99 | if ids are unique and the new id is absent, they stay unique after the push |
| `CatalogSpec.UpdateKeepsUnique` | backend/server.js:129 | overwriting a record by one with the same id keeps ids unique |
| `CatalogSpec.FindAfterAppend` | backend/server.js:89-111 | round trip: after a create whose id was absent, a get of that id returns exactly the created record |
| `CatalogSpec.FindAfterUpdate` | Practice6/server.js:102-112 | round trip: after an update, a get of the id returns the updated record |
| `CatalogStore.Catalog.List` | backend/server.js:166-168 | the whole catalog is returned unmodified, or a storage error when the file cannot be read (also the GET /products handler, backend/server.js:74-81) |
| `CatalogStore.Catalog.Get` | backend/server.js:107-116 | not-found exactly when no record has the id; otherwise the first record with that id; a storage error when the read fails |
| `CatalogStore.Catalog.Create` | backend/server.js:83-105 | a falsy field gives a validation error and a failed read or write gives a storage error, and in both cases the catalog is unchanged; on success the catalog becomes old ++ [p], where p has the supplied id and the four fields and no other key, and p is returned; ids stay unique when the new id is fresh, and records stay well formed |
| `CatalogStore.Catalog.Update` | backend/server.js:118-135 | a falsy field gives a validation error, an absent id gives not-found and a failed read or write gives a storage error, and in each case nothing changes; on success the length is kept, only the first matching index changes, that record keeps its id and other keys, it takes the four new fields, and it is returned; ids stay unique and records stay well formed |
| `CatalogStore.Catalog.Delete` | backend/server.js:137-150 | not-found, with nothing written, exactly when no record has the id; a failed read or write gives a storage error and no change; on success the catalog becomes the filter that drops every record with the id; ids stay unique and records stay well formed |
| `GraphQLResolver.Project` | Practice6/server.js:156-161 | the result has the catalog's length and order, and each element carries the source record's id, name, price and description; the result type has no category field |
| `GraphQLResolver.ProjectAppend` | Practice6/server.js:156 | the projection is taken record by record: it commutes with concatenation |
| `GraphQLResolver.Products` | Practice6/server.js:153-162 | the resolver returns the projection of the whole catalog, or a storage error when the read fails |
| `BroadcastHub.Hub.constructor` | backend/server.js:37 | the hub starts with no clients |
| `BroadcastHub.Hub.OnConnect` | backend/server.js:39-41 | the new socket is added to the set |
| `BroadcastHub.Hub.OnClose` | backend/server.js:52-55 | the socket is removed from the set; removing an absent socket changes nothing |
| `BroadcastHub.Hub.OnMessage` | backend/server.js:43-50 | every member that is not the sender and whose socket is open is sent the message once; every other member is sent nothing; the sender never receives its own message; no ready state changes |
| `BroadcastHub.Connection.Send` | backend/server.js:47 | the message is appended to the socket's outbox and its ready state is unchanged |

## Left out

- File I/O and JSON encoding: `readFileSync`, `JSON.parse`, `writeFile` and `JSON.stringify`
  become reads and writes of the `products` field. A read, parse or write failure appears only
  as the `readOk`/`writeOk` inputs and the `StorageError` outcome.
- A failed write leaves the modelled catalog unchanged. A torn or truncated file after a write
  that fails midway is not modelled.
- A catalog file that parses but is not an array of records is treated as a failed read.
- TLS and certificate loading, the construction of the HTTPS and WebSocket servers, and
  `listen`: transport plumbing.
- Express wiring: route registration, CORS, static files, the `/` route, and the JSON response
  bodies. HTTP status codes appear only as the four `Result` constructors.
- GraphQL schema building and the `graphqlHTTP` middleware are library calls. The backend
  resolver is modelled as `Catalog.List`; how the library then trims each record to the
  schema's fields is not modelled.
- Concurrency: lost updates between interleaved read-modify-write cycles, and concurrent
  access to the hub's set. The model is sequential.
- `Date.now()`: the new id is an input. Two creates in the same millisecond can produce the
  same id, so uniqueness after a create is proved only when the new id is fresh.
- Prices are reals, with a separate constructor for NaN. Floating-point rounding, -0 and the
  infinities are not represented.
- `console.log` output.
- Ready-state transitions of a socket (connecting, open, closed) belong to the transport; the
  hub only reads them. `send` errors reported later by the socket are not modelled.
- JavaScript iterates a `Set` in insertion order; the model visits the members in any order.
  Each connection's outbox does not depend on that order.
