/** The admission decision: from the stored record, the settings and the time, a verdict and the record to store. */
module Engine {
  import opened LimiterTypes

  /** Seconds from `now` until `t`; an absent `t` stands for `now` itself. */
  function SecondsDiff(t: Option<int>, now: int): (d: int)
    ensures t.None? ==> d == 0
    ensures t.Some? ==> now + d == t.value
  {
    match t
    case None => 0
    case Some(v) => v - now
  }

  /** Free-attempt mode: an unlock time and no next-request time. */
  predicate IsFree(r: LimitInfo) {
    r.freeAttemptsUnlockTime.Some? && r.nextRequestTime.None?
  }

  /** Backoff mode: a next-request time and no unlock time. */
  predicate IsBackoff(r: LimitInfo) {
    r.nextRequestTime.Some? && r.freeAttemptsUnlockTime.None?
  }

  /** What every record written at time `now` looks like: exactly one of the two timestamps,
      and that timestamp is `now` plus the window or the delay. */
  predicate WrittenAt(r: LimitInfo, cfg: Config, now: int) {
    || (IsFree(r) && r.delay == 0 && r.freeAttemptsUnlockTime.value == now + cfg.freeAttemptsUnlockDelay)
    || (IsBackoff(r) && r.attemptsLeft == 0 && r.nextRequestTime.value == now + r.delay)
  }

  /** `getDelay`: with quota left, spend one free attempt and open the unlock window;
      otherwise back off for the schedule entry at `index`. */
  function GetDelay(cfg: Config, index: int, attemptsLeft: int, now: int): (r: LimitInfo)
    requires 0 <= index < |cfg.delays|
    ensures WrittenAt(r, cfg, now)
    ensures IsFree(r) <==> attemptsLeft > 0
    ensures attemptsLeft > 0 ==> r.attemptsLeft == attemptsLeft - 1
    ensures attemptsLeft <= 0 ==> r.delay == cfg.delays[index]
  {
    if attemptsLeft > 0 then
      LimitInfo(0, attemptsLeft - 1, None, Some(now + cfg.freeAttemptsUnlockDelay))
    else
      LimitInfo(cfg.delays[index], 0, Some(now + cfg.delays[index]), None)
  }

  /** `getDelay()` with its defaults: index 0 and the full configured quota. */
  function Fresh(cfg: Config, now: int): (r: LimitInfo)
    requires |cfg.delays| > 0
    ensures WrittenAt(r, cfg, now)
    ensures cfg.freeAttempts > 0 ==> IsFree(r) && r.attemptsLeft == cfg.freeAttempts - 1
    ensures cfg.freeAttempts <= 0 ==> IsBackoff(r) && r.delay == cfg.delays[0]
  {
    GetDelay(cfg, 0, cfg.freeAttempts, now)
  }

  /** `i` is the first position at which `x` occurs in `s`. */
  predicate IsFirstIndex(s: seq<int>, x: int, i: int) {
    0 <= i < |s| && s[i] == x && forall j :: 0 <= j < i ==> s[j] != x
  }

  /** `Array.prototype.findIndex` with `===`: the first position of `x`, or -1. */
  function FindIndex(s: seq<int>, x: int): (i: int)
    ensures -1 <= i < |s|
    ensures i == -1 <==> x !in s
    ensures i != -1 ==> IsFirstIndex(s, x, i)
  {
    if |s| == 0 then -1
    else if s[0] == x then 0
    else
      var k := FindIndex(s[1..], x);
      if k == -1 then -1 else k + 1
  }

  /** The first position is unique, so FindIndex returns it. */
  lemma FindIndexIsFirst(s: seq<int>, x: int, i: int)
    requires IsFirstIndex(s, x, i)
    ensures FindIndex(s, x) == i
  {
  }

  /** The record sent with a 429: one step up the schedule, clamped at its end,
      or the old delay plus `increaseByLimitReached` at or past the end when that is non-zero. */
  function Escalate(rec: LimitInfo, cfg: Config, now: int): (r: LimitInfo)
    requires |cfg.delays| > 0
    ensures IsBackoff(r) && WrittenAt(r, cfg, now)
    ensures forall i :: IsFirstIndex(cfg.delays, rec.delay, i) && i < |cfg.delays| - 1 ==>
      r.delay == cfg.delays[i + 1]
    ensures IsFirstIndex(cfg.delays, rec.delay, |cfg.delays| - 1) ==>
      r.delay == (if cfg.increaseByLimitReached != 0 then rec.delay + cfg.increaseByLimitReached
                  else cfg.delays[|cfg.delays| - 1])
    ensures rec.delay !in cfg.delays ==>
      r.delay == (if cfg.increaseByLimitReached != 0 then rec.delay + cfg.increaseByLimitReached
                  else cfg.delays[0])
  {
    var index := FindIndex(cfg.delays, rec.delay);
    var last := |cfg.delays| - 1;
    assert forall i :: IsFirstIndex(cfg.delays, rec.delay, i) ==> index == i by {
      forall i | IsFirstIndex(cfg.delays, rec.delay, i) ensures index == i {
        FindIndexIsFirst(cfg.delays, rec.delay, i);
      }
    }
    if (index == -1 || index == last) && cfg.increaseByLimitReached != 0 then
      var delay := rec.delay + cfg.increaseByLimitReached;
      LimitInfo(delay, 0, Some(now + delay), None)
    else
      GetDelay(cfg, if index == last then index else index + 1, 0, now)
  }

  /** The verdict and the record to write back; `written` is None when nothing is written. */
  datatype Decision = Decision(verdict: Verdict, written: Option<LimitInfo>)

  /** The stored record's state that leads to a 429: no quota, and a next-request time not yet passed. */
  predicate InBackoffWindow(r: LimitInfo, now: int) {
    r.attemptsLeft <= 0 && r.nextRequestTime.Some? && r.nextRequestTime.value >= now
  }

  /** The middleware's cascade, with every `moment()` read as the one instant `now`. */
  function Decide(rec: Option<LimitInfo>, cfg: Config, now: int): (d: Decision)
    ensures d.written.None? <==> |cfg.delays| == 0
    ensures d.written.Some? ==> WrittenAt(d.written.value, cfg, now)
    ensures d.verdict == Deny <==> |cfg.delays| > 0 && rec.Some? && InBackoffWindow(rec.value, now)
  {
    if |cfg.delays| == 0 then Decision(Allow, None)
    else match rec
      case None => Decision(Allow, Some(Fresh(cfg, now)))
      case Some(r) =>
        if r.attemptsLeft > 0 then
          if SecondsDiff(r.freeAttemptsUnlockTime, now) > 0 then
            Decision(Allow, Some(GetDelay(cfg, 0, r.attemptsLeft, now)))
          else
            Decision(Allow, Some(Fresh(cfg, now)))
        else if r.nextRequestTime.Some? then
          if SecondsDiff(r.nextRequestTime, now) < 0 then
            Decision(Allow, Some(Fresh(cfg, now)))
          else
            Decision(Deny, Some(Escalate(r, cfg, now)))
        else
          Decision(Allow, Some(GetDelay(cfg, 0, 0, now)))
  }

  // ---------------------------------------------------------------------------
  // The cases of the cascade, one lemma each

  /** An empty schedule turns the limiter off: every request passes and nothing is written. */
  lemma EmptyScheduleBypasses(rec: Option<LimitInfo>, cfg: Config, now: int)
    requires |cfg.delays| == 0
    ensures Decide(rec, cfg, now) == Decision(Allow, None)
  {
  }

  /** A client with no record passes and is given the full quota (minus the request itself). */
  lemma AbsentRecordAllowed(cfg: Config, now: int)
    requires |cfg.delays| > 0
    ensures Decide(None, cfg, now) == Decision(Allow, Some(Fresh(cfg, now)))
  {
  }

  /** With quota left the request passes; the quota counts down while the unlock window is open
      and starts over from the configured amount once it has closed (an absent unlock time counts as closed). */
  lemma QuotaLeftAllowed(r: LimitInfo, cfg: Config, now: int)
    requires |cfg.delays| > 0 && r.attemptsLeft > 0
    ensures Decide(Some(r), cfg, now).verdict == Allow
    ensures var w := Decide(Some(r), cfg, now).written.value;
      if r.freeAttemptsUnlockTime.Some? && r.freeAttemptsUnlockTime.value > now then
        IsFree(w) && w.attemptsLeft == r.attemptsLeft - 1
      else
        w == Fresh(cfg, now)
  {
  }

  /** Quota spent and no backoff timer: this request passes, and the first schedule entry is armed for the next. */
  lemma FirstBackoffArmed(r: LimitInfo, cfg: Config, now: int)
    requires |cfg.delays| > 0 && r.attemptsLeft <= 0 && r.nextRequestTime.None?
    ensures Decide(Some(r), cfg, now) ==
      Decision(Allow, Some(LimitInfo(cfg.delays[0], 0, Some(now + cfg.delays[0]), None)))
  {
  }

  /** A backoff timer strictly in the past releases the client with a fresh quota, however far it had escalated. */
  lemma BackoffElapsedResets(r: LimitInfo, cfg: Config, now: int)
    requires |cfg.delays| > 0 && r.attemptsLeft <= 0 && r.nextRequestTime.Some? && r.nextRequestTime.value < now
    ensures Decide(Some(r), cfg, now) == Decision(Allow, Some(Fresh(cfg, now)))
  {
  }

  /** A backoff timer now or in the future yields a 429 and an escalated record. */
  lemma InWindowDenied(r: LimitInfo, cfg: Config, now: int)
    requires |cfg.delays| > 0 && InBackoffWindow(r, now)
    ensures Decide(Some(r), cfg, now) == Decision(Deny, Some(Escalate(r, cfg, now)))
  {
  }

  // ---------------------------------------------------------------------------
  // The record invariant kept across requests

  /** Settings the limiter is meant to be used with. */
  predicate SaneConfig(cfg: Config) {
    && (forall i :: 0 <= i < |cfg.delays| ==> cfg.delays[i] > 0)
    && cfg.freeAttempts >= 0
    && cfg.freeAttemptsUnlockDelay >= 0
    && cfg.increaseByLimitReached >= 0
  }

  /** A record that a limiter with these settings can have written: in free mode with no more quota
      than the settings give, or backing off for a positive delay that is a schedule entry unless
      increases are switched on. */
  predicate Consistent(r: LimitInfo, cfg: Config) {
    || (IsFree(r) && r.delay == 0 && 0 <= r.attemptsLeft < cfg.freeAttempts)
    || (&& IsBackoff(r) && r.attemptsLeft == 0 && r.delay > 0
        && (cfg.increaseByLimitReached == 0 ==> r.delay in cfg.delays))
  }

  /** Whatever was stored before (even nothing), a record Decide writes is a valid input to the next call. */
  lemma DecideKeepsConsistent(rec: Option<LimitInfo>, cfg: Config, now: int)
    requires SaneConfig(cfg)
    requires rec.Some? ==> Consistent(rec.value, cfg)
    ensures var d := Decide(rec, cfg, now); d.written.Some? ==> Consistent(d.written.value, cfg)
  {
  }

  predicate StrictlyAscending(s: seq<int>) {
    forall i, j :: 0 <= i < j < |s| ==> s[i] < s[j]
  }

  /** Under an ascending schedule a 429 never shortens the delay: it moves one entry up, stays at the
      last entry when increases are off, or grows by the increase. */
  lemma DenyEscalates(r: LimitInfo, cfg: Config, now: int)
    requires SaneConfig(cfg) && StrictlyAscending(cfg.delays) && Consistent(r, cfg)
    requires Decide(Some(r), cfg, now).verdict == Deny
    ensures var w := Decide(Some(r), cfg, now).written.value;
      || w.delay > r.delay
      || (cfg.increaseByLimitReached == 0 && r.delay == cfg.delays[|cfg.delays| - 1] && w.delay == r.delay)
  {
  }

  /** With no settings at all the limiter is on, and its settings meet the requirements of
      DecideKeepsConsistent and DenyEscalates. */
  lemma DefaultsAreSane()
    ensures var c := WithDefaults(Settings(None, None, None, None, None));
      && |c.delays| > 0 && SaneConfig(c) && StrictlyAscending(c.delays)
      && c.freeAttempts > 0 && c.freeAttemptsUnlockDelay > 0
  {
  }
}
