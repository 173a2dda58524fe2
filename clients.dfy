/** A client of the middleware: requests played against one limiter instance. */
module Clients {
  import opened LimiterTypes
  import Middleware
  import Scenarios

  /** With no free attempts the first request passes and arms a 10 s backoff,
      and a second one at its end is refused and escalated to the next entry, 20 s. */
  method TwoRequests(path: string, clientIp: string, t: int) returns (first: Middleware.Response, second: Middleware.Response)
    ensures first == Middleware.Continue(LimitInfo(10, 0, Some(t + 10), None))
    ensures second == Middleware.Reject(Middleware.TooManyRequests, LimitInfo(20, 0, Some(t + 30), None))
  {
    Scenarios.ArmedThenDenied(t);
    var limiter := new Middleware.IpLimiter(Settings(None, None, None, Some(0), None), map[]);
    assert limiter.cfg == Scenarios.NoFreeAttempts();
    first := limiter.Handle(path, clientIp, t);
    second := limiter.Handle(path, clientIp, t + 10);
  }
}
