/** The listing handler's pipeline over the store's keys: keep the keys that start with the
    scope prefix followed by the requested prefix, then strip the scope prefix from each. */
module Listing {
  import opened Strings
  import opened Sequences
  import opened Keys

  /** `keys.filter(k => k.startsWith(p))`: the keys that start with `p`, in their order. */
  function Filter(keys: seq<string>, p: string): (r: seq<string>)
    ensures forall k :: k in r <==> k in keys && StartsWith(k, p)
    ensures Distinct(keys) ==> Distinct(r)
  {
    if keys == [] then []
    else
      var rest := Filter(keys[1..], p);
      assert Distinct(keys) ==> keys[0] !in keys[1..] && Distinct(keys[1..]) by {
        if Distinct(keys) {
          forall j | 0 <= j < |keys[1..]| ensures keys[1..][j] != keys[0] {
            assert keys[1..][j] == keys[j + 1];
          }
        }
      }
      if StartsWith(keys[0], p) then [keys[0]] + rest else rest
  }

  /** `keys.map(k => k.replace(pat, ''))`: each key with the first occurrence of `pat` removed. */
  function Strip(keys: seq<string>, pat: string): (r: seq<string>)
    ensures |r| == |keys|
  {
    if keys == [] then [] else [ReplaceFirst(keys[0], pat, "")] + Strip(keys[1..], pat)
  }

  /** The logical keys the listing handler returns for the scope prefix and the requested prefix. */
  function Listed(keys: seq<string>, scopePrefix: string, prefix: string): seq<string> {
    Strip(Filter(keys, scopePrefix + prefix), scopePrefix)
  }

  /** On keys that all start with `pat`, each stripped key is the rest of the key after `pat`. */
  lemma {:induction false} StripAt(keys: seq<string>, pat: string, i: nat)
    requires forall k :: k in keys ==> StartsWith(k, pat)
    requires i < |keys|
    ensures |pat| <= |keys[i]| && Strip(keys, pat)[i] == keys[i][|pat|..]
  {
    assert keys[i] in keys;
    if i == 0 {
      ReplaceLeadingOccurrence(keys[0], pat);
    } else {
      StripAt(keys[1..], pat, i - 1);
    }
  }

  /** On keys that all start with `pat`, `x` is a stripped key exactly when `pat + x` is a key. */
  lemma {:induction false} StripMembers(keys: seq<string>, pat: string, x: string)
    requires forall k :: k in keys ==> StartsWith(k, pat)
    ensures x in Strip(keys, pat) <==> pat + x in keys
  {
    if keys != [] {
      var k := keys[0];
      ReplaceLeadingOccurrence(k, pat);
      assert k == pat + k[|pat|..];
      assert keys == [k] + keys[1..];
      StripMembers(keys[1..], pat, x);
    }
  }

  /** Stripping a common prefix from distinct keys leaves them distinct. */
  lemma StripDistinct(keys: seq<string>, pat: string)
    requires forall k :: k in keys ==> StartsWith(k, pat)
    requires Distinct(keys)
    ensures Distinct(Strip(keys, pat))
  {
    var r := Strip(keys, pat);
    forall i, j | 0 <= i < j < |r| ensures r[i] != r[j] {
      StripAt(keys, pat, i);
      StripAt(keys, pat, j);
      assert keys[i] in keys && keys[j] in keys;
      assert keys[i] == pat + r[i] by {
        assert keys[i] == keys[i][..|pat|] + keys[i][|pat|..];
      }
      assert keys[j] == pat + r[j] by {
        assert keys[j] == keys[j][..|pat|] + keys[j][|pat|..];
      }
    }
  }

  /** A logical key is listed exactly when the scope prefix followed by it is a stored key and
      it starts with the requested prefix. With the empty prefix that is every logical key of
      the scope. */
  lemma ListedMembers(keys: seq<string>, scopePrefix: string, prefix: string, x: string)
    ensures x in Listed(keys, scopePrefix, prefix) <==> scopePrefix + x in keys && StartsWith(x, prefix)
  {
    var p := scopePrefix + prefix;
    var selected := Filter(keys, p);
    forall k | k in selected ensures StartsWith(k, scopePrefix) {
      assert k[..|scopePrefix|] == p[..|scopePrefix|];
    }
    StripMembers(selected, scopePrefix, x);
    var k := scopePrefix + x;
    if StartsWith(k, p) {
      assert k[|scopePrefix|..][..|prefix|] == k[..|p|][|scopePrefix|..];
    }
    if StartsWith(x, prefix) {
      assert k[..|p|] == scopePrefix + x[..|prefix|];
    }
  }

  /** Every logical key is listed at most once. */
  lemma ListedDistinct(keys: seq<string>, scopePrefix: string, prefix: string)
    requires Distinct(keys)
    ensures Distinct(Listed(keys, scopePrefix, prefix))
  {
    var p := scopePrefix + prefix;
    var selected := Filter(keys, p);
    forall k | k in selected ensures StartsWith(k, scopePrefix) {
      assert k[..|scopePrefix|] == p[..|scopePrefix|];
    }
    StripDistinct(selected, scopePrefix);
  }

  /** Filtering a sequence with one more key at its end. */
  lemma {:induction false} FilterAppend(keys: seq<string>, k: string, p: string)
    ensures Filter(keys + [k], p) == Filter(keys, p) + (if StartsWith(k, p) then [k] else [])
  {
    if keys != [] {
      assert (keys + [k])[1..] == keys[1..] + [k];
      FilterAppend(keys[1..], k, p);
    }
  }

  /** Stripping a concatenation strips each part. */
  lemma {:induction false} StripAppend(keys: seq<string>, more: seq<string>, pat: string)
    ensures Strip(keys + more, pat) == Strip(keys, pat) + Strip(more, pat)
  {
    if keys != [] {
      var head := [ReplaceFirst(keys[0], pat, "")];
      assert (keys + more)[0] == keys[0];
      assert (keys + more)[1..] == keys[1..] + more;
      StripAppend(keys[1..], more, pat);
      calc {
        Strip(keys + more, pat);
        head + Strip(keys[1..] + more, pat);
        head + (Strip(keys[1..], pat) + Strip(more, pat));
        (head + Strip(keys[1..], pat)) + Strip(more, pat);
        Strip(keys, pat) + Strip(more, pat);
      }
    } else {
      assert keys + more == more;
    }
  }

  /** A key added at the end of the store's keys shows up, if at all, at the end of a listing,
      with the scope prefix removed. */
  lemma ListedAppend(keys: seq<string>, k: string, scopePrefix: string, prefix: string)
    ensures Listed(keys + [k], scopePrefix, prefix)
         == Listed(keys, scopePrefix, prefix)
            + (if StartsWith(k, scopePrefix + prefix) then [k[|scopePrefix|..]] else [])
  {
    var p := scopePrefix + prefix;
    FilterAppend(keys, k, p);
    if StartsWith(k, p) {
      StripAppend(Filter(keys, p), [k], scopePrefix);
      assert k[..|scopePrefix|] == p[..|scopePrefix|];
      ReplaceLeadingOccurrence(k, scopePrefix);
    } else {
      assert Filter(keys + [k], p) == Filter(keys, p);
    }
  }

  /** For plain identities, a key stored under one scope never appears in the listing of
      another: the shared scope and the private scopes of different callers are invisible to
      each other's listings. */
  lemma ForeignKeyNotListed(keys: seq<string>, key: string, shared: bool, ip: string,
                            shared': bool, ip': string, prefix: string)
    requires PlainIdentity(ip) && (shared' || PlainIdentity(ip'))
    requires shared != shared' || (!shared && ip != ip')
    ensures Listed(keys + [StorageKey(key, shared, ip)], ScopePrefix(shared', ip'), prefix)
         == Listed(keys, ScopePrefix(shared', ip'), prefix)
  {
    var k, sp := StorageKey(key, shared, ip), ScopePrefix(shared', ip');
    ListedAppend(keys, k, sp, prefix);
    if StartsWith(k, sp + prefix) {
      assert StartsWith(k, sp) by {
        assert k[..|sp|] == (sp + prefix)[..|sp|];
      }
      ScopeOfKey(key, shared, ip, shared', if shared' then ip else ip');
      assert false;
    }
  }
}
