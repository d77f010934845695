/** How a request's logical key, scope and caller identity become the key under which the
    entry is stored. The caller identity is the request's `req.ip`, taken as an opaque string. */
module Keys {
  import opened Wrappers
  import opened Strings

  /** The name of the shared namespace. */
  const SharedScope: string := "shared"

  /** The character between a namespace and a logical key. */
  const Separator: char := '_'

  /** The scope flag of a GET or DELETE request: `req.query.shared === 'true'`. A query value
      that is not a string (a repeated or bracketed parameter) never equals 'true'. */
  predicate SharedQuery(q: Option<string>) {
    q == Some("true")
  }

  /** The namespace a scope stands for: the shared one, or the caller's own. */
  function Namespace(shared: bool, ip: string): string {
    if shared then SharedScope else ip
  }

  /** The prefix every stored key of a scope begins with (`userPrefix` of the listing handler). */
  function ScopePrefix(shared: bool, ip: string): (p: string)
    ensures p == Namespace(shared, ip) + [Separator]
  {
    if shared then "shared_" else ip + "_"
  }

  /** The composite key the GET, POST and DELETE handlers compute. It is the same prefix the
      listing handler selects a scope by, followed by the logical key. */
  function StorageKey(key: string, shared: bool, ip: string): (sk: string)
    ensures sk == ScopePrefix(shared, ip) + key
    ensures StartsWith(sk, ScopePrefix(shared, ip))
  {
    if shared then "shared_" + key else ip + "_" + key
  }

  /** A caller identity that cannot be confused with another namespace: it contains no
      separator and is not the name of the shared namespace. Network addresses are such. */
  predicate PlainIdentity(ip: string) {
    Separator !in ip && ip != SharedScope
  }

  /** The index of the first separator in `s`, or `|s|` when there is none. */
  function FirstSeparator(s: string): (i: nat)
    ensures i <= |s|
    ensures forall j :: 0 <= j < i ==> s[j] != Separator
    ensures i < |s| ==> s[i] == Separator
  {
    if s == [] then 0
    else if s[0] == Separator then 0
    else 1 + FirstSeparator(s[1..])
  }

  /** A separator-free name followed by a separator puts the first separator right after it. */
  lemma {:induction false} FirstSeparatorAfterName(name: string, rest: string)
    requires Separator !in name
    ensures FirstSeparator(name + [Separator] + rest) == |name|
  {
    if name != [] {
      assert (name + [Separator] + rest)[1..] == name[1..] + [Separator] + rest;
      FirstSeparatorAfterName(name[1..], rest);
    }
  }

  /** A scope prefix ends in its one and only separator: the shared one, and that of any
      plain identity. */
  lemma ScopePrefixSeparator(shared: bool, ip: string)
    requires shared || PlainIdentity(ip)
    ensures var p := ScopePrefix(shared, ip); |p| > 0 && FirstSeparator(p) == |p| - 1
  {
    assert Separator !in SharedScope;
    FirstSeparatorAfterName(Namespace(shared, ip), []);
  }

  /** A string made of a separator-free name, a separator and anything else starts with
      another separator-free name and a separator only if the two names are the same. */
  lemma SeparatorSplit(a: string, rest: string, b: string)
    requires Separator !in a && Separator !in b
    requires StartsWith(a + [Separator] + rest, b + [Separator])
    ensures a == b
  {
    var s := a + [Separator] + rest;
    var p := b + [Separator];
    assert s == b + [Separator] + s[|p|..] by {
      assert s == s[..|p|] + s[|p|..];
    }
    FirstSeparatorAfterName(a, rest);
    FirstSeparatorAfterName(b, s[|p|..]);
    assert a == s[..|a|];
    assert b == s[..|b|];
  }

  /** For plain identities, the scope prefix a composite key starts with tells its scope, and
      for a private key also its caller: a key never falls into another caller's scope or
      into the shared scope, and a shared key never falls into a private one. */
  lemma ScopeOfKey(key: string, shared: bool, ip: string, shared': bool, ip': string)
    requires PlainIdentity(ip) && PlainIdentity(ip')
    requires StartsWith(StorageKey(key, shared, ip), ScopePrefix(shared', ip'))
    ensures shared == shared'
    ensures !shared ==> ip == ip'
  {
    var n, n' := Namespace(shared, ip), Namespace(shared', ip');
    assert StorageKey(key, shared, ip) == n + [Separator] + key;
    assert Separator !in SharedScope;
    SeparatorSplit(n, key, n');
  }

  /** For plain identities, distinct (logical key, scope, caller) triples never share a
      composite key; the caller of a shared entry plays no part in its key. */
  lemma StorageKeyInjective(key: string, shared: bool, ip: string, key': string, shared': bool, ip': string)
    requires PlainIdentity(ip) && PlainIdentity(ip')
    requires StorageKey(key, shared, ip) == StorageKey(key', shared', ip')
    ensures key == key' && shared == shared'
    ensures !shared ==> ip == ip'
  {
    ScopeOfKey(key, shared, ip, shared', ip');
    var p := ScopePrefix(shared, ip);
    assert p == ScopePrefix(shared', ip');
    assert key == (p + key)[|p|..];
    assert key' == (p + key')[|p|..];
  }

  /** Two callers writing the same logical key in their private scopes use distinct composite
      keys whatever their identities are. */
  lemma PrivateKeysOfDistinctCallers(key: string, ip: string, ip': string)
    requires ip != ip'
    ensures StorageKey(key, false, ip) != StorageKey(key, false, ip')
  {
    var sk, sk' := StorageKey(key, false, ip), StorageKey(key, false, ip');
    if |ip| == |ip'| {
      assert sk[..|ip|] == ip;
      assert sk'[..|ip'|] == ip';
    }
  }

  /** Without the first condition of PlainIdentity the private scopes overlap: a caller
      whose identity contains the separator shares composite keys with another caller. */
  lemma IdentityWithSeparatorCollides()
    ensures StorageKey("c", false, "a_b") == StorageKey("b_c", false, "a")
  {
  }

  /** Without the second condition the private scope of a caller named like the shared
      namespace is the shared scope. */
  lemma IdentityNamedSharedCollides(key: string, ip: string)
    ensures StorageKey(key, false, SharedScope) == StorageKey(key, true, ip)
  {
  }
}
