/** The request handler: derive the key, read the stored record, decide, write the record back, answer. */
module Middleware {
  import opened LimiterTypes
  import RouteKey
  import Engine

  /** How a request leaves the middleware. */
  datatype Response =
    | Next                                       // limiting is off: `next()` with nothing attached
    | Continue(delay: LimitInfo)                 // `next()` with the written record attached to the request
    | Reject(status: int, body: LimitInfo)       // a `status` reply whose body is the written record

  const TooManyRequests: int := 429

  /** `getRedisValue`: the stored record, or None when the key has none. */
  function Lookup(store: map<string, LimitInfo>, key: string): (r: Option<LimitInfo>)
    ensures r.Some? <==> key in store
    ensures r.Some? ==> store[key] == r.value
  {
    if key in store then Some(store[key]) else None
  }

  /** Writing one key leaves every other key as it was. */
  lemma WriteKeepsOtherKeys(m: map<string, LimitInfo>, key: string, v: LimitInfo)
    ensures forall k :: k in m && k != key ==> k in m[key := v] && m[key := v][k] == m[k]
  {
  }

  /** The store key of a request: the configured prefix, the normalised route and the client address. */
  function RequestKey(cfg: Config, path: string, clientIp: string): (k: string)
    ensures var p := RouteKey.NormalizePath(path);
      && |k| == |cfg.storeKey| + |p| + |clientIp| + 2
      && k[..|cfg.storeKey|] == cfg.storeKey && k[|cfg.storeKey|] == '_'
      && k[|cfg.storeKey| + 1..|cfg.storeKey| + 1 + |p|] == p && k[|cfg.storeKey| + 1 + |p|] == '_'
      && RouteKey.HasNoOuterSlash(k[|cfg.storeKey| + 1..|cfg.storeKey| + 1 + |p|])
      && k[|k| - |clientIp|..] == clientIp
  {
    var p := RouteKey.NormalizePath(path);
    var k := RouteKey.Key(cfg.storeKey, p, clientIp);
    assert RouteKey.HasNoOuterSlash(p);
    k
  }

  /** One middleware instance: its settings and the key-value store it reads and writes. */
  class IpLimiter {
    const cfg: Config
    var store: map<string, LimitInfo>

    constructor (settings: Settings, initial: map<string, LimitInfo>)
      ensures cfg == WithDefaults(settings) && store == initial
    {
      cfg := WithDefaults(settings);
      store := initial;
    }

    /** `continueRequest`: store the record, then pass the request on with the record attached. */
    method ContinueRequest(key: string, info: LimitInfo) returns (resp: Response)
      modifies this
      ensures store == old(store)[key := info]
      ensures resp == Continue(info)
    {
      store := store[key := info];
      resp := Continue(info);
    }

    /** `stopRequest`: store the record, then refuse with 429 and the record as the body. */
    method StopRequest(key: string, info: LimitInfo) returns (resp: Response)
      modifies this
      ensures store == old(store)[key := info]
      ensures resp == Reject(TooManyRequests, info)
    {
      store := store[key := info];
      resp := Reject(TooManyRequests, info);
    }

    /** The middleware body for one request on `path` from `clientIp` at time `now`. */
    method Handle(path: string, clientIp: string, now: int) returns (resp: Response)
      modifies this
      ensures |cfg.delays| == 0 ==> resp == Next && store == old(store)
      ensures |cfg.delays| > 0 ==>
        var key := RequestKey(cfg, path, clientIp);
        var d := Engine.Decide(Lookup(old(store), key), cfg, now);
        && store == old(store)[key := d.written.value]
        && resp == (if d.verdict == Allow then Continue(d.written.value) else Reject(TooManyRequests, d.written.value))
      ensures var key := RequestKey(cfg, path, clientIp);
        // only the request's own key is touched
        && (forall k :: k in old(store) && k != key ==> k in store && store[k] == old(store)[k])
        // a 429 carries exactly the record that was stored
        && (resp.Reject? ==> resp.status == TooManyRequests && key in store && resp.body == store[key])
    {
      if |cfg.delays| == 0 {
        return Next;
      }
      var key := RequestKey(cfg, path, clientIp);
      var stored := Lookup(store, key);
      var d := Engine.Decide(stored, cfg, now);
      assert d.written.Some?;
      var info := d.written.value;
      ghost var before := store;
      if d.verdict == Allow {
        resp := ContinueRequest(key, info);
      } else {
        resp := StopRequest(key, info);
      }
      assert store == before[key := info];
      WriteKeepsOtherKeys(before, key, info);
    }
  }
}
