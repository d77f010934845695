/** The in-memory store behind the four `/api/storage` handlers: one object, mutated in place,
    from composite keys to the values clients put. HTTP routing, status codes and JSON
    encoding stay outside; each handler takes its request fields as parameters and returns
    its response body as a value. */
module ScopedStore {
  import opened Wrappers
  import opened Values
  import opened Strings
  import opened Sequences
  import opened Keys
  import opened Listing

  /** The body `{key, value, shared}` a successful GET or a POST responds with. */
  datatype Entry = Entry(key: string, value: Value, shared: bool)

  /** The body `{key, deleted: true, shared}` of a successful DELETE. */
  datatype Removal = Removal(key: string, shared: bool)

  /** The body `{keys, prefix, shared}` of a listing; `prefix` None is `undefined`. */
  datatype KeyList = KeyList(keys: seq<string>, prefix: Option<string>, shared: bool)

  /** A GET or DELETE outcome: the body, or the 404 `{error: 'Key not found'}`. */
  datatype Response<B> = Ok(body: B) | NotFound

  /** Reading a property of the storage object: a key it does not have reads as `undefined`. */
  function Property(storage: map<string, Value>, k: string): Value {
    if k in storage then storage[k] else Undefined
  }

  /** The prefix a listing request selects by: `req.query.prefix || ''`. */
  function QueryPrefix(q: Option<string>): string {
    if q.Some? then q.value else ""
  }

  class Store {
    /** The own properties of the storage object and their values. */
    var storage: map<string, Value>
    /** The same keys in the order `Object.keys` returns them: insertion order, since no
        composite key is an array index (each contains the separator). */
    var order: seq<string>

    ghost predicate Valid()
      reads this
    {
      Distinct(order) && forall k :: k in order <==> k in storage
    }

    /** `let storage = {}` */
    constructor ()
      ensures Valid()
      ensures storage == map[] && order == []
    {
      storage := map[];
      order := [];
    }

    /** GET /api/storage/:key. Found only when the composite entry exists and holds a truthy
        value; an entry holding a falsy value answers like a missing one. */
    method Get(key: string, sharedQuery: Option<string>, ip: string) returns (r: Response<Entry>)
      ensures var sk := StorageKey(key, SharedQuery(sharedQuery), ip);
              r.Ok? <==> sk in storage && Truthy(storage[sk])
      ensures var sk := StorageKey(key, SharedQuery(sharedQuery), ip);
              r.Ok? ==> r.body == Entry(key, storage[sk], SharedQuery(sharedQuery))
    {
      var shared := SharedQuery(sharedQuery);
      var storageKey := StorageKey(key, shared, ip);
      if Truthy(Property(storage, storageKey)) {
        r := Ok(Entry(key, Property(storage, storageKey), shared));
      } else {
        r := NotFound;
      }
    }

    /** POST /api/storage/:key with body `{value, shared}`. Always succeeds: it overwrites the
        one composite entry the truthiness of `shared` selects, whatever `value` is, and echoes
        `shared` coerced to a boolean. A new key goes to the end of the key order; an
        overwritten one keeps its place. */
    method Put(key: string, value: Value, shared: Value, ip: string) returns (r: Entry)
      requires Valid()
      modifies this
      ensures Valid()
      ensures storage == old(storage)[StorageKey(key, Truthy(shared), ip) := value]
      ensures var sk := StorageKey(key, Truthy(shared), ip);
              order == if sk in old(storage) then old(order) else old(order) + [sk]
      ensures r == Entry(key, value, Truthy(shared))
    {
      var storageKey := StorageKey(key, Truthy(shared), ip);
      if storageKey !in storage {
        order := order + [storageKey];
      }
      storage := storage[storageKey := value];
      r := Entry(key, value, Truthy(shared));
    }

    /** DELETE /api/storage/:key. Removes the composite entry only when it holds a truthy
        value; otherwise answers NotFound and changes nothing. */
    method Delete(key: string, sharedQuery: Option<string>, ip: string) returns (r: Response<Removal>)
      requires Valid()
      modifies this
      ensures Valid()
      ensures var sk := StorageKey(key, SharedQuery(sharedQuery), ip);
              r.Ok? <==> sk in old(storage) && Truthy(old(storage)[sk])
      ensures var sk := StorageKey(key, SharedQuery(sharedQuery), ip);
              r.Ok? ==> r.body == Removal(key, SharedQuery(sharedQuery))
                        && storage == old(storage) - {sk} && order == Without(old(order), sk)
      ensures r.NotFound? ==> storage == old(storage) && order == old(order)
    {
      var shared := SharedQuery(sharedQuery);
      var storageKey := StorageKey(key, shared, ip);
      if Truthy(Property(storage, storageKey)) {
        storage := storage - {storageKey};
        order := Without(order, storageKey);
        r := Ok(Removal(key, shared));
      } else {
        r := NotFound;
      }
    }

    /** GET /api/storage?prefix=&shared=. Lists, in key order and once each, the logical keys
        of the caller's scope that start with the requested prefix, falsy values included.
        An empty or missing prefix is echoed as absent. */
    method List(prefixQuery: Option<string>, sharedQuery: Option<string>, ip: string) returns (r: KeyList)
      requires Valid()
      ensures r.keys == Listed(order, ScopePrefix(SharedQuery(sharedQuery), ip), QueryPrefix(prefixQuery))
      ensures forall x :: x in r.keys <==>
                ScopePrefix(SharedQuery(sharedQuery), ip) + x in storage && StartsWith(x, QueryPrefix(prefixQuery))
      ensures Distinct(r.keys)
      ensures r.prefix == if prefixQuery == None || prefixQuery == Some("") then None else prefixQuery
      ensures r.shared == SharedQuery(sharedQuery)
    {
      var prefix := QueryPrefix(prefixQuery);
      var shared := SharedQuery(sharedQuery);
      var userPrefix := ScopePrefix(shared, ip);
      var keys := Listed(order, userPrefix, prefix);
      forall x ensures x in keys <==> userPrefix + x in storage && StartsWith(x, prefix) {
        ListedMembers(order, userPrefix, prefix, x);
      }
      ListedDistinct(order, userPrefix, prefix);
      r := KeyList(keys, if prefix == "" then None else Some(prefix), shared);
    }
  }

  /** The query string that selects the same scope as a POST whose body field `shared`
      has the given truthiness. */
  function QueryFor(shared: bool): (q: Option<string>)
    ensures SharedQuery(q) == shared
  {
    if shared then Some("true") else None
  }

  /** A truthy value put under a key is what a GET of that key in the same scope from the
      same caller returns; every other composite entry is left as it was. */
  method PutThenGet(s: Store, key: string, value: Value, shared: Value, ip: string)
    returns (put: Entry, got: Response<Entry>)
    requires s.Valid()
    requires Truthy(value)
    modifies s
    ensures s.Valid()
    ensures put == Entry(key, value, Truthy(shared))
    ensures got == Ok(Entry(key, value, Truthy(shared)))
    ensures forall k :: k != StorageKey(key, Truthy(shared), ip) ==>
              (k in s.storage <==> k in old(s.storage)) &&
              (k in s.storage ==> s.storage[k] == old(s.storage)[k])
  {
    put := s.Put(key, value, shared, ip);
    got := s.Get(key, QueryFor(Truthy(shared)), ip);
  }

  /** After a DELETE, a GET of the same key in the same scope finds nothing, whether the
      DELETE removed an entry or answered NotFound. */
  method DeleteThenGet(s: Store, key: string, sharedQuery: Option<string>, ip: string)
    returns (deleted: Response<Removal>, got: Response<Entry>)
    requires s.Valid()
    modifies s
    ensures s.Valid()
    ensures got == NotFound
    ensures deleted.Ok? ==> forall k :: k != StorageKey(key, SharedQuery(sharedQuery), ip) ==>
              (k in s.storage <==> k in old(s.storage))
  {
    deleted := s.Delete(key, sharedQuery, ip);
    got := s.Get(key, sharedQuery, ip);
  }

  /** A falsy value (an empty string, zero, false, null, or a missing `value` field) is
      stored and listed, yet GET and DELETE of its key answer NotFound and the entry stays. */
  method FalsyValueQuirk(s: Store, key: string, value: Value, shared: bool, ip: string)
    returns (got: Response<Entry>, listed: KeyList, deleted: Response<Removal>)
    requires s.Valid()
    requires !Truthy(value)
    modifies s
    ensures s.Valid()
    ensures got == NotFound && deleted == NotFound
    ensures key in listed.keys
    ensures StorageKey(key, shared, ip) in s.storage
  {
    var _ := s.Put(key, value, Bool(shared), ip);
    got := s.Get(key, QueryFor(shared), ip);
    listed := s.List(None, QueryFor(shared), ip);
    deleted := s.Delete(key, QueryFor(shared), ip);
  }

  /** A POST whose `shared` field is the string "false" writes the shared scope, because a
      non-empty string is truthy, while a GET with `?shared=false` reads the private scope. */
  method StringFalseMeansShared(s: Store, key: string, value: Value, ip: string)
    returns (privately: Response<Entry>, publicly: Response<Entry>)
    requires s.Valid()
    requires PlainIdentity(ip)
    requires Truthy(value)
    requires StorageKey(key, false, ip) !in s.storage
    modifies s
    ensures s.Valid()
    ensures privately == NotFound
    ensures publicly == Ok(Entry(key, value, true))
  {
    var _ := s.Put(key, value, Str("false"), ip);
    if StorageKey(key, false, ip) == StorageKey(key, true, ip) {
      StorageKeyInjective(key, false, ip, key, true, ip);
    }
    privately := s.Get(key, Some("false"), ip);
    publicly := s.Get(key, Some("true"), ip);
  }

  /** A value one caller stores privately is returned to that caller and to no other:
      `POST /api/storage/color {value: "blue", shared: false}` from A, then
      `GET /api/storage/color?shared=false` from A and from B. */
  method PrivateColorScenario(callerA: string, callerB: string)
    returns (seenByA: Response<Entry>, seenByB: Response<Entry>)
    requires callerA != callerB
    ensures seenByA == Ok(Entry("color", Str("blue"), false))
    ensures seenByB == NotFound
  {
    var store := new Store();
    var _ := store.Put("color", Str("blue"), Bool(false), callerA);
    PrivateKeysOfDistinctCallers("color", callerA, callerB);
    seenByA := store.Get("color", Some("false"), callerA);
    seenByB := store.Get("color", Some("false"), callerB);
  }
}
