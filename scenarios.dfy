/** Worked request sequences, stated as facts about the decision function. */
module Scenarios {
  import opened LimiterTypes
  import opened Engine

  /** One free attempt, a 10 s window and the schedule 10, 20, 30. */
  function OneFreeAttempt(): Config {
    Config([10, 20, 30], DefaultStoreKey, 0, 1, 10)
  }

  /** The first request spends the only free attempt; the second, inside the window, passes but arms
      a 10 s backoff; a third inside that backoff is refused and escalated to 20 s. */
  lemma FreeAttemptThenBackoffThenDeny(t: int)
    ensures Decide(None, OneFreeAttempt(), t) == Decision(Allow, Some(LimitInfo(0, 0, None, Some(t + 10))))
    ensures Decide(Some(LimitInfo(0, 0, None, Some(t + 10))), OneFreeAttempt(), t + 5)
      == Decision(Allow, Some(LimitInfo(10, 0, Some(t + 15), None)))
    ensures Decide(Some(LimitInfo(10, 0, Some(t + 15), None)), OneFreeAttempt(), t + 6)
      == Decision(Deny, Some(LimitInfo(20, 0, Some(t + 26), None)))
  {
  }

  /** Had the third request come after the backoff ended, it would pass with a fresh window. */
  lemma BackoffOverReleases(t: int)
    ensures Decide(Some(LimitInfo(10, 0, Some(t + 15), None)), OneFreeAttempt(), t + 16)
      == Decision(Allow, Some(LimitInfo(0, 0, None, Some(t + 26))))
  {
  }

  /** At the last entry with an increase of 5, a refusal adds 5 s to the delay. */
  lemma CeilingIncrease(now: int, next: int)
    requires next >= now
    ensures var cfg := Config([10, 20], DefaultStoreKey, 5, 3, 10);
      Decide(Some(LimitInfo(20, 0, Some(next), None)), cfg, now)
        == Decision(Deny, Some(LimitInfo(25, 0, Some(now + 25), None)))
  {
  }

  /** Defaults except no free attempts. */
  function NoFreeAttempts(): Config {
    Config(DefaultDelays, DefaultStoreKey, 0, 0, 10)
  }

  /** With no free attempts the first request passes and arms 10 s; a second at the end of it is refused with 20 s. */
  lemma ArmedThenDenied(t: int)
    ensures Decide(None, NoFreeAttempts(), t) == Decision(Allow, Some(LimitInfo(10, 0, Some(t + 10), None)))
    ensures Decide(Some(LimitInfo(10, 0, Some(t + 10), None)), NoFreeAttempts(), t + 10)
      == Decision(Deny, Some(LimitInfo(20, 0, Some(t + 30), None)))
  {
  }
}
