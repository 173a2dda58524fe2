/** Successive requests from one client on one route, each deciding on the record the previous one stored. */
module Replay {
  import opened LimiterTypes
  import opened Engine

  /** The record in the store after a decision: the written one, or the old one when nothing was written. */
  function After(rec: Option<LimitInfo>, d: Decision): Option<LimitInfo> {
    if d.written.Some? then d.written else rec
  }

  /** The verdicts of requests arriving at `times`, and the record stored at the end. */
  function Replay(rec: Option<LimitInfo>, cfg: Config, times: seq<int>): (out: (seq<Verdict>, Option<LimitInfo>))
    ensures |out.0| == |times|
    decreases |times|
  {
    if times == [] then ([], rec)
    else
      var d := Decide(rec, cfg, times[0]);
      var rest := Replay(After(rec, d), cfg, times[1..]);
      ([d.verdict] + rest.0, rest.1)
  }

  function Repeat<T>(x: T, n: nat): (s: seq<T>)
    ensures |s| == n && forall i :: 0 <= i < n ==> s[i] == x
  {
    if n == 0 then [] else [x] + Repeat(x, n - 1)
  }

  lemma {:induction false} RepeatAdd<T>(x: T, a: nat, b: nat)
    ensures Repeat(x, a) + Repeat(x, b) == Repeat(x, a + b)
  {
    if a > 0 {
      RepeatAdd(x, a - 1, b);
      assert Repeat(x, a) + Repeat(x, b) == [x] + (Repeat(x, a - 1) + Repeat(x, b));
    }
  }

  /** Replaying two runs one after the other is replaying their concatenation. */
  lemma {:induction false} ReplayAppend(rec: Option<LimitInfo>, cfg: Config, xs: seq<int>, ys: seq<int>)
    ensures var first := Replay(rec, cfg, xs);
      var second := Replay(first.1, cfg, ys);
      Replay(rec, cfg, xs + ys) == (first.0 + second.0, second.1)
    decreases |xs|
  {
    if xs != [] {
      assert (xs + ys)[0] == xs[0];
      assert (xs + ys)[1..] == xs[1..] + ys;
      var d := Decide(rec, cfg, xs[0]);
      var mid := After(rec, d);
      ReplayAppend(mid, cfg, xs[1..], ys);
      var first := Replay(mid, cfg, xs[1..]);
      var second := Replay(first.1, cfg, ys);
      assert Replay(rec, cfg, xs) == ([d.verdict] + first.0, first.1);
      assert Replay(rec, cfg, xs + ys) == ([d.verdict] + (first.0 + second.0), second.1);
      assert [d.verdict] + (first.0 + second.0) == ([d.verdict] + first.0) + second.0;
    } else {
      assert xs + ys == ys;
      assert Replay(rec, cfg, xs) == ([], rec);
      assert [] + Replay(rec, cfg, ys).0 == Replay(rec, cfg, ys).0;
    }
  }

  function Min(a: int, b: int): int {
    if a < b then a else b
  }

  /** A record without a backoff timer lets through one request more than the quota it can still spend,
      whenever the requests arrive. */
  lemma {:induction false} NoTimerAllowsQuotaPlusOne(r: LimitInfo, cfg: Config, times: seq<int>)
    requires r.nextRequestTime.None?
    requires |times| <= Min(r.attemptsLeft, cfg.freeAttempts) + 1
    ensures forall k :: 0 <= k < |times| ==> Replay(Some(r), cfg, times).0[k] == Allow
    decreases |times|
  {
    if times != [] {
      var d := Decide(Some(r), cfg, times[0]);
      assert d.verdict == Allow;
      var next := After(Some(r), d);
      var rest := Replay(next, cfg, times[1..]);
      if |times| > 1 {
        var w := next.value;
        if |cfg.delays| > 0 {
          assert r.attemptsLeft > 0;
          assert IsFree(w) && w.attemptsLeft >= Min(r.attemptsLeft, cfg.freeAttempts) - 1;
        }
        NoTimerAllowsQuotaPlusOne(w, cfg, times[1..]);
      }
      assert Replay(Some(r), cfg, times).0 == [Allow] + rest.0;
    }
  }

  /** A client with no record gets `freeAttempts + 1` requests through, whenever they arrive. */
  lemma FreshClientAllowsQuotaPlusOne(cfg: Config, times: seq<int>)
    requires |times| <= cfg.freeAttempts + 1
    ensures forall k :: 0 <= k < |times| ==> Replay(None, cfg, times).0[k] == Allow
    decreases |times|
  {
    if times != [] {
      var d := Decide(None, cfg, times[0]);
      var rest := Replay(After(None, d), cfg, times[1..]);
      if |times| > 1 {
        assert cfg.freeAttempts > 0;
        if |cfg.delays| > 0 {
          var w := d.written.value;
          assert IsFree(w) && w.attemptsLeft == cfg.freeAttempts - 1;
          NoTimerAllowsQuotaPlusOne(w, cfg, times[1..]);
        } else {
          FreshClientAllowsQuotaPlusOne(cfg, times[1..]);
        }
      }
      assert Replay(None, cfg, times).0 == [d.verdict] + rest.0;
    }
  }

  /** Inside an open unlock window, `n` requests at one instant spend `n` free attempts. */
  lemma {:induction false} QuotaCountsDown(cfg: Config, t: int, a: nat, n: nat)
    requires |cfg.delays| > 0 && cfg.freeAttemptsUnlockDelay > 0 && n <= a
    ensures var u := Some(t + cfg.freeAttemptsUnlockDelay);
      Replay(Some(LimitInfo(0, a, None, u)), cfg, Repeat(t, n)) == (Repeat(Allow, n), Some(LimitInfo(0, a - n, None, u)))
  {
    if n > 0 {
      QuotaCountsDown(cfg, t, a - 1, n - 1);
    }
  }

  /** Inside the unlock window the quota counts down one attempt per request, whatever the arrival
      times, as long as each request comes before the window the previous one opened has closed. */
  lemma {:induction false} CountsDownAnyTimes(cfg: Config, unlock: int, a: nat, times: seq<int>)
    requires |cfg.delays| > 0 && |times| <= a
    requires times != [] ==> times[0] < unlock
    requires forall k :: 1 <= k < |times| ==> times[k] < times[k - 1] + cfg.freeAttemptsUnlockDelay
    ensures var out := Replay(Some(LimitInfo(0, a, None, Some(unlock))), cfg, times);
      && (forall k :: 0 <= k < |times| ==> out.0[k] == Allow)
      && out.1 == Some(LimitInfo(0, a - |times|, None,
                                 Some(if times == [] then unlock else times[|times| - 1] + cfg.freeAttemptsUnlockDelay)))
    decreases |times|
  {
    if times != [] {
      var r := LimitInfo(0, a, None, Some(unlock));
      var d := Decide(Some(r), cfg, times[0]);
      var w := LimitInfo(0, a - 1, None, Some(times[0] + cfg.freeAttemptsUnlockDelay));
      assert d == Decision(Allow, Some(w));
      var tail := times[1..];
      assert forall k :: 1 <= k < |tail| ==> tail[k] == times[k + 1] && tail[k - 1] == times[k];
      CountsDownAnyTimes(cfg, times[0] + cfg.freeAttemptsUnlockDelay, a - 1, tail);
      var rest := Replay(Some(w), cfg, tail);
      assert Replay(Some(r), cfg, times) == ([Allow] + rest.0, rest.1);
      if tail != [] {
        assert tail[|tail| - 1] == times[|times| - 1];
      }
    }
  }

  /** A free-mode record whose window has already closed by the next request, or no record at all. */
  predicate ClosedBy(rec: Option<LimitInfo>, t: int) {
    rec.Some? ==>
      && IsFree(rec.value) && rec.value.attemptsLeft > 0 && rec.value.freeAttemptsUnlockTime.value <= t
  }

  /** With an unlock window of zero seconds or less and two or more free attempts, every request
      restarts the quota, so a client whose requests arrive in time order is never refused. */
  lemma {:induction false} ClosedWindowNeverDenies(rec: Option<LimitInfo>, cfg: Config, times: seq<int>)
    requires cfg.freeAttemptsUnlockDelay <= 0 && cfg.freeAttempts >= 2
    requires times != [] ==> ClosedBy(rec, times[0])
    requires forall k :: 1 <= k < |times| ==> times[k - 1] <= times[k]
    ensures forall k :: 0 <= k < |times| ==> Replay(rec, cfg, times).0[k] == Allow
    decreases |times|
  {
    if times != [] {
      var d := Decide(rec, cfg, times[0]);
      assert d.verdict == Allow;
      var next := After(rec, d);
      var tail := times[1..];
      if tail != [] {
        assert tail[0] == times[1] && times[0] <= times[1];
        if |cfg.delays| > 0 {
          assert next == Some(Fresh(cfg, times[0]));
        }
        assert ClosedBy(next, tail[0]);
      }
      assert forall k :: 1 <= k < |tail| ==> tail[k] == times[k + 1] && tail[k - 1] == times[k];
      ClosedWindowNeverDenies(next, cfg, tail);
      assert Replay(rec, cfg, times).0 == [Allow] + Replay(next, cfg, tail).0;
    }
  }

  /** The bound is tight: with an open window and a non-negative first delay, `freeAttempts + 2` requests
      at one instant end in a 429. */
  lemma BurstDeniedAfterQuotaPlusOne(cfg: Config, t: int)
    requires |cfg.delays| > 0 && cfg.delays[0] >= 0
    requires cfg.freeAttempts >= 0 && cfg.freeAttemptsUnlockDelay > 0
    ensures Replay(None, cfg, Repeat(t, cfg.freeAttempts + 2)).0 == Repeat(Allow, cfg.freeAttempts + 1) + [Deny]
  {
    var n := cfg.freeAttempts;
    var u := Some(t + cfg.freeAttemptsUnlockDelay);
    var backoff := Some(LimitInfo(cfg.delays[0], 0, Some(t + cfg.delays[0]), None));
    if n == 0 {
      assert Decide(None, cfg, t).written == backoff;
      assert Decide(backoff, cfg, t).verdict == Deny;
      assert Replay(None, cfg, Repeat(t, 2)).0 == [Allow, Deny];
    } else {
      // first request opens the window, the next n - 1 spend it, one more arms the backoff, the last is refused
      var spent := Some(LimitInfo(0, 0, None, u));
      RepeatAdd(t, 1, n - 1);
      RepeatAdd(t, n, 2);
      ReplayAppend(None, cfg, Repeat(t, 1), Repeat(t, n - 1));
      ReplayAppend(None, cfg, Repeat(t, n), Repeat(t, 2));
      assert Repeat(t, 1) == [t] && [t][1..] == [];
      var windowOpen := Some(LimitInfo(0, n - 1, None, u));
      assert After(None, Decide(None, cfg, t)) == windowOpen;
      assert Replay(None, cfg, [t]) == ([Allow] + Replay(windowOpen, cfg, []).0, windowOpen);
      assert [Allow] + [] == [Allow];
      QuotaCountsDown(cfg, t, n - 1, n - 1);
      RepeatAdd(Allow, 1, n - 1);
      assert Replay(None, cfg, Repeat(t, n)) == (Repeat(Allow, n), spent);
      assert Decide(spent, cfg, t) == Decision(Allow, backoff);
      assert Decide(backoff, cfg, t).verdict == Deny;
      assert Replay(spent, cfg, Repeat(t, 2)).0 == [Allow, Deny];
      RepeatAdd(Allow, n, 1);
      assert Repeat(Allow, n) + [Allow, Deny] == Repeat(Allow, n + 1) + [Deny];
    }
  }
}
