# Scoped key-value store of the chat server

This project models the in-memory key-value store that the chat server exposes under
`/api/storage`. The store is one mutable object, `storage`, that maps composite keys to
the values clients put. Four handlers use it:

- GET `/api/storage/:key` reads one entry.
- POST `/api/storage/:key` writes one entry.
- DELETE `/api/storage/:key` removes one entry.
- GET `/api/storage` lists logical keys by prefix.

Each request falls into a scope. In the shared scope the composite key is `"shared_" + key`.
In the caller's private scope it is `ip + "_" + key`, where `ip` is the request's `req.ip`,
passed here as an opaque string.

GET, DELETE and the listing choose the shared scope only when the query parameter `shared` is
exactly the string `"true"` (`Keys.SharedQuery`). POST chooses it by the truthiness of the body
field `shared` (`Values.Truthy`). So a body `shared: "false"` writes the shared scope.

GET and DELETE test an entry by truthiness. An entry holding `""`, `0`, `false`, `null` or
`undefined` answers NotFound, and DELETE leaves it in place. The listing still reports it.

Layout:

- `values.dfy`: the values (JSON values plus `undefined`, numbers reduced to zero or non-zero) and JavaScript truthiness.
- `keys.dfy`: key and scope-prefix derivation, and the proofs that scopes do not collide for caller identities that contain no `_` and are not `"shared"`.
- `strings.dfy`: `startsWith`, `indexOf` and `replace` with a string pattern.
- `sequences.dfy`: distinctness and removal for the key order.
- `listing.dfy`: the filter/map pipeline of the listing handler and its characterisation.
- `store.dfy`: the class `Store` with the four handlers as methods, and client methods that chain them.

`Store` keeps `storage` as a map, plus `order`, the sequence of its keys in the order
`Object.keys` returns them. Every composite key contains `_`, so none is an array index, and
that order is insertion order. Overwriting a key keeps its place. Deleting a key and putting it
again moves it to the end.

The scope separator is `_`, as server.js writes it (`shared_`, `${req.ip}_`).

## Model

| member | source | states |
|---|---|---|
| Keys.ScopePrefixSeparator | server.js:55 | the listing's scope prefix, shared or of a plain identity, is non-empty and its first `_` is its last character |
| Keys.StorageKey | server.js:21 | the composite key of GET, POST and DELETE is the listing's scope prefix followed by the logical key, so it starts with that prefix |
| Keys.ScopeOfKey | server.js:55-58 | for plain identities, a composite key starts with a scope prefix only if it was made in that scope (and, when private, by that caller) |
| Keys.StorageKeyInjective | server.js:33 | for plain identities, equal composite keys come from the same logical key and scope, and from the same caller when private |
| Keys.PrivateKeysOfDistinctCallers | server.js:21 | two different callers never share a private composite key for the same logical key, whatever their identities |
| Keys.IdentityWithSeparatorCollides | server.js:42 | an identity containing `_` makes two callers' private keys collide ("a_b"+"c" vs "a"+"b_c") |
| Keys.IdentityNamedSharedCollides | server.js:33 | an identity equal to `shared` makes a private key equal to the shared key |
| Strings.IndexOf | server.js:59 | the index found is an occurrence of the pattern, and no earlier index at or after the start is one; None only when there is no occurrence |
| Strings.ReplaceLeadingOccurrence | server.js:59 | `replace` on a key that starts with the pattern removes exactly that leading occurrence |
| Sequences.Without | server.js:45 | removing a key from the key order keeps exactly the other keys, keeps them distinct, and changes nothing when the key is absent |
| Listing.Filter | server.js:58 | the filtered keys are exactly the keys that start with the selector, and stay distinct |
| Listing.StripMembers | server.js:59 | on keys that all start with the scope prefix, `x` is a stripped key iff prefix + `x` is a key |
| Listing.ListedMembers | server.js:57-59 | `x` is listed iff scope prefix + `x` is a stored key and `x` starts with the requested prefix; with prefix "" that is every logical key of the scope |
| Listing.ListedDistinct | server.js:57-59 | each logical key is listed once |
| Listing.ListedAppend | server.js:57-59 | a newly added key appears, if at all, at the end of a listing, with the scope prefix removed |
| Listing.ForeignKeyNotListed | server.js:55-58 | for a plain writing identity (and a plain reading identity when the listing is private), a key added in one scope leaves the listing of every other scope unchanged |
| ScopedStore.Store.constructor | server.js:15 | the store starts empty |
| ScopedStore.Store.Get | server.js:18-28 | Found iff the composite entry exists and is truthy; then the body carries the logical key, the stored value and the shared flag |
| ScopedStore.Store.Put | server.js:30-37 | never fails; changes exactly the composite entry chosen by the truthiness of `shared`; new keys go last in key order; echoes `!!shared` |
| ScopedStore.Store.Delete | server.js:39-50 | removes the entry iff it was truthy and reports deleted; otherwise NotFound and storage and key order unchanged |
| ScopedStore.Store.List | server.js:52-62 | keys in key order, exactly the scope's logical keys with the prefix, once each; an empty or missing prefix is echoed as absent |
| ScopedStore.QueryFor | server.js:20 | gives the query string that selects the same scope as a POST with the given truthiness of `shared` |
| ScopedStore.PutThenGet | server.js:18-37 | a GET of a key just put with a truthy value returns that value; every other composite entry is unchanged |
| ScopedStore.DeleteThenGet | server.js:39-50 | after a DELETE, a GET of the same key and scope answers NotFound |
| ScopedStore.FalsyValueQuirk | server.js:18-62 | a falsy value that is put is listed and stays stored, yet GET and DELETE answer NotFound |
| ScopedStore.StringFalseMeansShared | server.js:20-36 | a POST with `shared: "false"` writes the shared scope; a GET with `?shared=false` does not see it |
| ScopedStore.PrivateColorScenario | server.js:18-37 | a private value put by caller A is returned to A and not found for caller B |

## Left out

- Express setup, CORS, the JSON body parser and static files (server.js:1-12) are library wiring with no logic of their own.
- The catch-all route that serves `index.html` (server.js:65-75) and `app.listen` with its logging (server.js:77-81) are filesystem and network I/O.
- How Express computes `req.ip` is not modelled. The identity is a string parameter.
- HTTP status codes and JSON serialisation are not modelled. Responses are the datatypes `Entry`, `Removal`, `KeyList` and `Response` (`Ok` or `NotFound`, the 404 `{error: 'Key not found'}`).
- Presence tracking, chat broadcast, user search and the online list are not in this source file. There is no code of theirs to model.
- Numbers are not floating point. A number keeps only whether it is zero, the one thing truthiness inspects.
- Query parameters are a string or absent. A repeated or bracketed parameter (an array or object from the query parser) never equals `"true"`, so for `shared` it acts as absent. For `prefix`, the string conversion JavaScript applies when concatenating such a value is not modelled.
- The storage object is treated as a plain dictionary. Names inherited from `Object.prototype`, such as `__proto__`, can only be a composite key when the identity is empty or starts with `_`, which no network address does.
- Concurrency is not modelled. The server runs handlers one at a time on a single thread.
