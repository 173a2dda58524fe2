/** Values shared by the limiter: the per-route record, the settings and the verdict. */
module LimiterTypes {

  datatype Option<+T> = None | Some(value: T)

  /** The record kept per (route, client) key. Timestamps are whole seconds. */
  datatype LimitInfo = LimitInfo(
    delay: int,
    attemptsLeft: int,
    nextRequestTime: Option<int>,
    freeAttemptsUnlockTime: Option<int>)

  /** The settings a caller passes to the middleware factory; every field is optional. */
  datatype Settings = Settings(
    delays: Option<seq<int>>,
    storeKey: Option<string>,
    increaseByLimitReached: Option<int>,
    freeAttempts: Option<int>,
    freeAttemptsUnlockDelay: Option<int>)

  /** The settings once the factory's defaults are filled in. */
  datatype Config = Config(
    delays: seq<int>,
    storeKey: string,
    increaseByLimitReached: int,
    freeAttempts: int,
    freeAttemptsUnlockDelay: int)

  datatype Verdict = Allow | Deny

  const DefaultDelays: seq<int> := [10, 20, 30, 40, 50, 60]
  const DefaultStoreKey: string := "ipLimiter"
  const DefaultIncreaseByLimitReached: int := 0
  const DefaultFreeAttempts: int := 3
  const DefaultFreeAttemptsUnlockDelay: int := 10

  function OrElse<T>(o: Option<T>, default: T): T {
    match o
    case Some(v) => v
    case None => default
  }

  /** Destructuring with defaults: a field the caller gave is kept, a missing one gets its default. */
  function WithDefaults(s: Settings): (c: Config)
    ensures c.delays == (if s.delays.Some? then s.delays.value else DefaultDelays)
    ensures c.storeKey == (if s.storeKey.Some? then s.storeKey.value else DefaultStoreKey)
    ensures c.increaseByLimitReached ==
      (if s.increaseByLimitReached.Some? then s.increaseByLimitReached.value else DefaultIncreaseByLimitReached)
    ensures c.freeAttempts == (if s.freeAttempts.Some? then s.freeAttempts.value else DefaultFreeAttempts)
    ensures c.freeAttemptsUnlockDelay ==
      (if s.freeAttemptsUnlockDelay.Some? then s.freeAttemptsUnlockDelay.value else DefaultFreeAttemptsUnlockDelay)
  {
    Config(
      OrElse(s.delays, DefaultDelays),
      OrElse(s.storeKey, DefaultStoreKey),
      OrElse(s.increaseByLimitReached, DefaultIncreaseByLimitReached),
      OrElse(s.freeAttempts, DefaultFreeAttempts),
      OrElse(s.freeAttemptsUnlockDelay, DefaultFreeAttemptsUnlockDelay))
  }
}
