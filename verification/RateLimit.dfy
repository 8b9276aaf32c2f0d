/**
  The per-socket event limiter of the socket service: a fixed window kept as two
  numbers, a start and a count, advanced by every inbound event.

  A fixed window does not bound a sliding one as tightly as its name suggests.
  What it does guarantee is proved here for every stream of events whose
  timestamps do not go back, together with a stream that reaches the bound.
*/
module RateLimit {
  datatype Config = Config(window: int, max: int) {
    // The ranges the environment schema enforces.
    predicate Valid() {
      window >= 100 && max >= 1
    }
  }

  datatype Bucket = Bucket(windowStart: int, count: nat)

  datatype Verdict = Accepted | Rejected

  function OnEvent(c: Config, b: Bucket, now: int): (r: (Bucket, Verdict)) {
    var open := if now - b.windowStart >= c.window then Bucket(now, 0) else b;
    var counted := open.(count := open.count + 1);
    (counted, if counted.count > c.max then Rejected else Accepted)
  }

  function Verdicts(c: Config, b: Bucket, times: seq<int>): (vs: seq<Verdict>)
    ensures |vs| == |times|
    decreases |times|
  {
    if times == [] then []
    else var (next, v) := OnEvent(c, b, times[0]); [v] + Verdicts(c, next, times[1..])
  }

  predicate NeverBack(from: int, times: seq<int>)
    decreases |times|
  {
    times == [] || (from <= times[0] && NeverBack(times[0], times[1..]))
  }

  // Events with lo <= time < hi.
  function EventsIn(times: seq<int>, lo: int, hi: int): nat {
    if times == [] then 0 else (if lo <= times[0] < hi then 1 else 0) + EventsIn(times[1..], lo, hi)
  }

  function InWindow(c: Config, times: seq<int>, start: int): nat {
    EventsIn(times, start, start + c.window)
  }

  function AcceptedIn(times: seq<int>, vs: seq<Verdict>, lo: int, hi: int): nat
    requires |times| == |vs|
  {
    if times == [] then 0
    else (if vs[0].Accepted? && lo <= times[0] < hi then 1 else 0) + AcceptedIn(times[1..], vs[1..], lo, hi)
  }

  function Room(c: Config, b: Bucket): nat {
    if b.count < c.max then c.max - b.count else 0
  }

  lemma OneLess(n: nat, k: int)
    requires n >= 1
    ensures (n - 1) * k == n * k - k
  {
  }

  // While the interval ends within n windows of the current start, at most n - 1 further windows can open.
  lemma {:induction false} AcceptedUntil(c: Config, b: Bucket, times: seq<int>, lo: int, hi: int, n: nat)
    requires c.Valid() && n >= 1 && NeverBack(b.windowStart, times)
    requires hi <= b.windowStart + n * c.window
    ensures AcceptedIn(times, Verdicts(c, b, times), lo, hi) <= Room(c, b) + (n - 1) * c.max
    decreases |times|
  {
    OneLess(n, c.max);
    if times != [] {
      var t, rest := times[0], times[1..];
      var (next, v) := OnEvent(c, b, t);
      if t >= hi {
        NoneFrom(rest, Verdicts(c, next, rest), t, lo, hi);
      } else if t - b.windowStart >= c.window {
        OneLess(n, c.window);
        assert n >= 2 by { if n == 1 { assert false; } }
        OneLess(n - 1, c.max);
        AcceptedUntil(c, next, rest, lo, hi, n - 1);
      } else {
        BackTo(t, b.windowStart, rest);
        AcceptedUntil(c, next, rest, lo, hi, n);
      }
    }
  }

  lemma BackTo(from: int, earlier: int, times: seq<int>)
    requires earlier <= from && NeverBack(from, times)
    ensures NeverBack(earlier, times)
  {
  }

  lemma {:induction false} NoneFrom(times: seq<int>, vs: seq<Verdict>, from: int, lo: int, hi: int)
    requires |times| == |vs| && NeverBack(from, times) && hi <= from
    ensures AcceptedIn(times, vs, lo, hi) == 0
  {
    if times != [] { NoneFrom(times[1..], vs[1..], times[0], lo, hi); }
  }

  /**
    In any stretch of k windows, wherever it starts, at most k + 1 windows' worth of events is accepted.
    For k = 1: any sliding window accepts at most twice the configured maximum.
  */
  lemma {:induction false} SlidingBound(c: Config, b: Bucket, times: seq<int>, lo: int, k: nat)
    requires c.Valid() && k >= 1 && NeverBack(b.windowStart, times)
    ensures AcceptedIn(times, Verdicts(c, b, times), lo, lo + k * c.window) <= (k + 1) * c.max
    decreases |times|
  {
    OneLess(k + 1, c.max);
    OneLess(k, c.max);
    var hi := lo + k * c.window;
    if times != [] {
      var t, rest := times[0], times[1..];
      var (next, v) := OnEvent(c, b, t);
      if t < lo {
        if next.windowStart != t { BackTo(t, b.windowStart, rest); }
        SlidingBound(c, next, rest, lo, k);
      } else if t - b.windowStart >= c.window {
        AcceptedUntil(c, next, rest, lo, hi, k);
      } else {
        OneLess(k + 1, c.window);
        AcceptedUntil(c, b, times, lo, hi, k + 1);
      }
    }
  }

  // ── the bound is reached ─────────────────────────────────────────

  function Burst(t: int, n: nat): seq<int> {
    if n == 0 then [] else [t] + Burst(t, n - 1)
  }

  lemma {:induction false} BurstAccepted(c: Config, b: Bucket, t: int, n: nat, rest: seq<int>, lo: int, hi: int)
    requires c.Valid() && lo <= t < hi && b.windowStart <= t < b.windowStart + c.window && b.count + n <= c.max
    ensures AcceptedIn(Burst(t, n) + rest, Verdicts(c, b, Burst(t, n) + rest), lo, hi)
              == n + AcceptedIn(rest, Verdicts(c, b.(count := b.count + n), rest), lo, hi)
    decreases n
  {
    var all := Burst(t, n) + rest;
    if n == 0 {
      assert all == rest;
    } else {
      assert all[1..] == Burst(t, n - 1) + rest && all[0] == t;
      BurstAccepted(c, b.(count := b.count + 1), t, n - 1, rest, lo, hi);
    }
  }

  lemma {:induction false} BurstNeverBack(from: int, t: int, n: nat, rest: seq<int>)
    requires from <= t && NeverBack(t, rest)
    ensures NeverBack(from, Burst(t, n) + rest)
    decreases n
  {
    if n == 0 {
      assert Burst(t, n) + rest == rest;
      BackTo(t, from, rest);
    } else {
      assert (Burst(t, n) + rest)[1..] == Burst(t, n - 1) + rest;
      BurstNeverBack(t, t, n - 1, rest);
    }
  }

  /** Twice the maximum is reached under every configuration: one burst just before the window turns, one just after. */
  lemma TwiceTheMaximum(c: Config)
    requires c.Valid()
    ensures var times := Burst(c.window - 1, c.max) + Burst(c.window, c.max);
            && NeverBack(0, times)
            && AcceptedIn(times, Verdicts(c, Bucket(0, 0), times), c.window - 1, c.window - 1 + c.window) == 2 * c.max
  {
    var second := Burst(c.window, c.max);
    var lo, hi := c.window - 1, c.window - 1 + c.window;
    assert second + [] == second;
    BurstNeverBack(c.window - 1, c.window, c.max, []);
    BurstNeverBack(0, c.window - 1, c.max, second);
    BurstAccepted(c, Bucket(0, 0), c.window - 1, c.max, second, lo, hi);
    BurstAfterTurn(c, lo, hi);
  }

  lemma BurstAfterTurn(c: Config, lo: int, hi: int)
    requires c.Valid() && lo <= c.window < hi
    ensures AcceptedIn(Burst(c.window, c.max), Verdicts(c, Bucket(0, c.max), Burst(c.window, c.max)), lo, hi) == c.max
  {
    var burst, tail := Burst(c.window, c.max), Burst(c.window, c.max - 1);
    assert burst[1..] == tail && tail + [] == tail;
    BurstAccepted(c, Bucket(c.window, 1), c.window, c.max - 1, [], lo, hi);
  }

  // ── no event is refused without cause ────────────────────────────

  lemma {:induction false} EventsShrink(times: seq<int>, n: nat, lo: int, hi: int)
    requires n <= |times|
    ensures EventsIn(times[..n], lo, hi) <= EventsIn(times, lo, hi)
  {
    if n > 0 {
      assert times[..n][1..] == times[1..][..n - 1];
      EventsShrink(times[1..], n - 1, lo, hi);
    } else {
      assert times[..n] == [];
    }
  }

  // The events up to number i of the stretch of one window that starts at `start`.
  ghost predicate Flood(c: Config, seen: nat, times: seq<int>, i: nat, start: int)
    requires i < |times|
  {
    start <= times[i] < start + c.window && seen + InWindow(c, times[..i + 1], start) > c.max
  }

  // b.count events fell in the current window before the first of `times`.
  lemma {:induction false} RefusalHasCause(c: Config, b: Bucket, times: seq<int>, i: nat)
    requires c.Valid() && NeverBack(b.windowStart, times) && i < |times| && Verdicts(c, b, times)[i].Rejected?
    ensures || Flood(c, b.count, times, i, b.windowStart)
            || exists start :: start >= b.windowStart && Flood(c, 0, times, i, start)
    decreases |times|
  {
    var t, rest := times[0], times[1..];
    var (next, v) := OnEvent(c, b, t);
    var upto := times[..i + 1];
    if i == 0 {
      assert upto == [t];
    } else {
      if next.windowStart != t { BackTo(t, b.windowStart, rest); }
      RefusalHasCause(c, next, rest, i - 1);
      assert upto[1..] == rest[..i];
      if Flood(c, next.count, rest, i - 1, next.windowStart) {
        if next.windowStart == b.windowStart && next.count == b.count + 1 {
          assert Flood(c, b.count, times, i, b.windowStart);
        } else {
          assert Flood(c, 0, times, i, t);
        }
      } else {
        var start :| start >= next.windowStart && Flood(c, 0, rest, i - 1, start);
        assert Flood(c, 0, times, i, start);
      }
    }
  }

  lemma FloodIsSeen(c: Config, times: seq<int>, i: nat, start: int)
    requires i < |times| && Flood(c, 0, times, i, start)
    ensures InWindow(c, times, start) > c.max
  {
    EventsShrink(times, i + 1, start, start + c.window);
  }

  /**
    A socket is refused, and disconnected, only on an event by which it has sent more than the maximum
    within one window: a client that keeps to the limit in every sliding window is never refused.
  */
  lemma CompliantClientIsNeverRefused(c: Config, connectedAt: int, times: seq<int>)
    requires c.Valid() && NeverBack(connectedAt, times)
    requires forall start :: InWindow(c, times, start) <= c.max
    ensures forall i :: 0 <= i < |times| ==> Verdicts(c, Bucket(connectedAt, 0), times)[i].Accepted?
  {
    var b := Bucket(connectedAt, 0);
    forall i | 0 <= i < |times| ensures Verdicts(c, b, times)[i].Accepted? {
      if Verdicts(c, b, times)[i].Rejected? {
        RefusalHasCause(c, b, times, i);
        var start :| Flood(c, 0, times, i, start);
        FloodIsSeen(c, times, i, start);
      }
    }
  }

  // ── the limiter ──────────────────────────────────────────────────

  class RateLimiter {
    const config: Config
    var windowStart: int
    var count: nat

    function View(): Bucket
      reads this
    {
      Bucket(windowStart, count)
    }

    constructor(config: Config, connectedAt: int)
      ensures View() == Bucket(connectedAt, 0) && this.config == config
    {
      this.config := config;
      windowStart := connectedAt;
      count := 0;
    }

    method Receive(now: int) returns (v: Verdict)
      modifies this
      ensures (View(), v) == OnEvent(config, old(View()), now)
    {
      if now - windowStart >= config.window {
        windowStart := now;
        count := 0;
      }
      count := count + 1;
      v := if count > config.max then Rejected else Accepted;
    }
  }
}
