/** Route normalisation and the store key built from the route and the client address. */
module RouteKey {

  /** Every character of `s` is `/`. */
  predicate AllSlashes(s: string) {
    forall i :: 0 <= i < |s| ==> s[i] == '/'
  }

  predicate HasNoOuterSlash(s: string) {
    s == [] || (s[0] != '/' && s[|s| - 1] != '/')
  }

  /** Removes every leading `/`. */
  function TrimLeading(s: string): (r: string)
    ensures |r| <= |s| && r == s[|s| - |r|..]
    ensures r == [] || r[0] != '/'
    ensures AllSlashes(s[..|s| - |r|])
  {
    if s != [] && s[0] == '/' then TrimLeading(s[1..]) else s
  }

  /** Removes every trailing `/`. */
  function TrimTrailing(s: string): (r: string)
    ensures |r| <= |s| && r == s[..|r|]
    ensures r == [] || r[|r| - 1] != '/'
    ensures AllSlashes(s[|r|..])
  {
    if s != [] && s[|s| - 1] == '/' then TrimTrailing(s[..|s| - 1]) else s
  }

  /** The route with its leading run and its trailing run of `/` removed. */
  function NormalizePath(path: string): (r: string)
    ensures HasNoOuterSlash(r)
  {
    TrimTrailing(TrimLeading(path))
  }

  lemma SplitLeading(s: string) returns (lead: string)
    ensures AllSlashes(lead) && s == lead + TrimLeading(s)
  {
    var t := TrimLeading(s);
    lead := s[..|s| - |t|];
    assert t == s[|s| - |t|..];
    assert s == lead + t;
  }

  lemma SplitTrailing(s: string) returns (trail: string)
    ensures AllSlashes(trail) && s == TrimTrailing(s) + trail
  {
    var r := TrimTrailing(s);
    trail := s[|r|..];
    assert s == s[..|r|] + s[|r|..];
  }

  /** Normalisation removes only slashes, and only at the two ends of the route. */
  lemma NormalizeRemovesOnlyOuterSlashes(path: string) returns (lead: string, trail: string)
    ensures AllSlashes(lead) && AllSlashes(trail)
    ensures path == lead + NormalizePath(path) + trail
  {
    lead := SplitLeading(path);
    var t := TrimLeading(path);
    trail := SplitTrailing(t);
    var r := TrimTrailing(t);
    assert path == lead + (r + trail);
  }

  /** Where the leading run of slashes ends is fixed by the string. */
  lemma {:induction false} TrimLeadingAt(s: string, k: nat)
    requires k <= |s| && AllSlashes(s[..k]) && (k == |s| || s[k] != '/')
    ensures TrimLeading(s) == s[k..]
  {
    if k > 0 {
      assert s[..k][0] == '/';
      assert s[1..][..k - 1] == s[..k][1..];
      TrimLeadingAt(s[1..], k - 1);
    }
  }

  /** Where the trailing run of slashes starts is fixed by the string. */
  lemma {:induction false} TrimTrailingAt(s: string, k: nat)
    requires k <= |s| && AllSlashes(s[k..]) && (k == 0 || s[k - 1] != '/')
    ensures TrimTrailing(s) == s[..k]
  {
    if k < |s| {
      assert s[k..][|s| - 1 - k] == '/';
      var u := s[..|s| - 1];
      assert u[k..] == s[k..][..|s| - 1 - k];
      TrimTrailingAt(u, k);
      assert u[..k] == s[..k];
    }
  }

  /** A middle with no outer slash, wrapped in runs of slashes, normalises to that middle. */
  lemma NormalizeCharacterised(lead: string, m: string, trail: string)
    requires AllSlashes(lead) && AllSlashes(trail) && HasNoOuterSlash(m)
    ensures NormalizePath(lead + m + trail) == m
  {
    var s := lead + m + trail;
    if m == [] {
      assert s == lead + trail;
      assert AllSlashes(s[..|s|]);
      TrimLeadingAt(s, |s|);
      TrimTrailingAt([], 0);
    } else {
      assert s[..|lead|] == lead;
      assert s[|lead|] == m[0];
      TrimLeadingAt(s, |lead|);
      var t := s[|lead|..];
      assert t == m + trail;
      assert t[|m|..] == trail;
      assert t[|m| - 1] == m[|m| - 1];
      TrimTrailingAt(t, |m|);
    }
  }

  /** Normalising an already normalised route changes nothing. */
  lemma NormalizeIdempotent(path: string)
    ensures NormalizePath(NormalizePath(path)) == NormalizePath(path)
  {
    var m := NormalizePath(path);
    NormalizeCharacterised([], m, []);
    assert [] + m + [] == m;
  }

  /** The store key `storeKey_path_ip`. */
  function Key(storeKey: string, path: string, clientIp: string): (k: string)
    ensures |k| == |storeKey| + |path| + |clientIp| + 2
    ensures k[..|storeKey|] == storeKey && k[|storeKey|] == '_'
    ensures k[|storeKey| + 1..|storeKey| + 1 + |path|] == path && k[|storeKey| + 1 + |path|] == '_'
    ensures k[|k| - |clientIp|..] == clientIp
  {
    storeKey + "_" + path + "_" + clientIp
  }

  /** Two different (route, client) pairs can share one key, because `_` may occur in either part. */
  lemma KeyNotInjective()
    ensures Key("ipLimiter", "a_b", "c") == Key("ipLimiter", "a", "b_c")
  {
  }

  /** When the client part holds no `_` (as in IPv4 and IPv6 addresses), the key does determine the pair. */
  lemma KeyInjectiveForUnderscoreFreeClients(storeKey: string, p1: string, ip1: string, p2: string, ip2: string)
    requires '_' !in ip1 && '_' !in ip2
    requires Key(storeKey, p1, ip1) == Key(storeKey, p2, ip2)
    ensures p1 == p2 && ip1 == ip2
  {
  }
}
