/** Restarting before the served certificate expires (app/common/server.py). Times are in
    seconds; a sleep may last longer than asked for, by at most `jitter`. */
module CertRestart {

  /** `max(min(remaining - margin, 60), 0)`. */
  function RestartDelay(remaining: real, margin: real): real {
    var wait := if remaining - margin < 60.0 then remaining - margin else 60.0;
    if wait > 0.0 then wait else 0.0
  }

  /** The clock after the `n`-th sleep: at least what was asked for, at most `jitter` more. */
  predicate Sleeps(oversleep: nat -> real, jitter: real, n: nat) {
    0.0 <= oversleep(n) <= jitter
  }

  /** The most time that `n` sleeps of up to a minute take. */
  function Longest(n: nat, jitter: real): real {
    if n == 0 then 0.0 else Longest(n - 1, jitter) + 60.0 + jitter
  }

  /** The loop: it ends, and it ends in time. A process started with more than the margin left
      exits neither before the margin is reached nor more than one oversleep after it; one
      started later exits at once. It sleeps once a minute: no more often, but for the last
      sleep, and for no longer at a time. */
  method RestartBeforeExpiry(expiresAt: real, margin: real, start: real, jitter: real, oversleep: nat -> real)
    returns (exit: real, sleeps: nat)
    requires forall n :: Sleeps(oversleep, jitter, n)
    ensures start >= expiresAt - margin ==> exit == start && sleeps == 0
    ensures start < expiresAt - margin ==> expiresAt - margin <= exit <= expiresAt - margin + jitter
    ensures start < expiresAt && jitter < margin ==> exit < expiresAt
    ensures start < expiresAt - margin ==>
      60.0 * (sleeps as real - 1.0) <= expiresAt - margin - start <= Longest(sleeps, jitter)
  {
    var now := start;
    sleeps := 0;
    assert Sleeps(oversleep, jitter, 0);
    while expiresAt - now > margin
      invariant start <= now <= start + Longest(sleeps, jitter)
      invariant start >= expiresAt - margin ==> now == start && sleeps == 0
      invariant start < expiresAt - margin ==> now <= expiresAt - margin + jitter
      invariant start < expiresAt - margin && expiresAt - now > margin ==> 60.0 * sleeps as real <= now - start
      invariant start < expiresAt - margin && expiresAt - now <= margin ==>
        60.0 * (sleeps as real - 1.0) <= expiresAt - margin - start
      decreases if expiresAt - now > margin then (expiresAt - margin - now).Floor + 1 else 0
    {
      assert Sleeps(oversleep, jitter, sleeps);
      now := now + RestartDelay(expiresAt - now, margin) + oversleep(sleeps);
      sleeps := sleeps + 1;
    }
    exit := now;
  }
}
