/** The sliding-window limiter of the invitation landing. Times are in nanoseconds. */
module RateLimiter {
  import opened Prelude

  const SECOND := 1_000_000_000

  datatype Limits = Limits(window: int, max: nat, block: int)

  /** What the limiter keeps of one key. */
  datatype Track = Track(attempts: seq<int>, until: Option<int>)

  const FRESH := Track([], None)

  function Recent(attempts: seq<int>, now: int, window: int): seq<int> {
    if attempts == [] then []
    else
      var n := |attempts| - 1;
      Recent(attempts[..n], now, window) + if now - attempts[n] < window then [attempts[n]] else []
  }

  /** Whole seconds, towards zero. */
  function Seconds(d: int): int {
    if d >= 0 then d / SECOND else -((-d) / SECOND)
  }

  /** One attempt: seconds to wait, or nothing positive when it is let through. */
  function Attempt(l: Limits, t: Track, now: int): (Track, int) {
    if t.until.Some? && t.until.value > now then (t, Seconds(t.until.value - now) + 1)
    else
      var kept := Recent(t.attempts, now, l.window) + [now];
      if |kept| > l.max then (Track(kept, Some(now + l.block)), Seconds(l.block)) else (t.(attempts := kept), 0)
  }

  predicate LetThrough(l: Limits, t: Track, now: int) {
    Attempt(l, t, now).1 <= 0
  }

  function After(l: Limits, times: seq<int>): Track {
    if times == [] then FRESH else Attempt(l, After(l, times[..|times| - 1]), times[|times| - 1]).0
  }

  /** The attempts let through, in order. */
  function Accepted(l: Limits, times: seq<int>): seq<int> {
    if times == [] then []
    else
      var n := |times| - 1;
      Accepted(l, times[..n]) + if LetThrough(l, After(l, times[..n]), times[n]) then [times[n]] else []
  }

  // ---- Counting ----

  function CountFrom(ts: seq<int>, a: int): nat {
    if ts == [] then 0
    else CountFrom(ts[..|ts| - 1], a) + if ts[|ts| - 1] >= a then 1 else 0
  }

  function CountIn(ts: seq<int>, a: int, b: int): nat {
    if ts == [] then 0
    else CountIn(ts[..|ts| - 1], a, b) + if a <= ts[|ts| - 1] < b then 1 else 0
  }

  lemma CountSnoc(ts: seq<int>, t: int, a: int)
    ensures CountFrom(ts + [t], a) == CountFrom(ts, a) + if t >= a then 1 else 0
  {
    assert (ts + [t])[..|ts|] == ts;
  }

  lemma {:induction false} CountAtMost(ts: seq<int>, a: int)
    ensures CountFrom(ts, a) <= |ts|
  {
    if ts != [] {
      CountAtMost(ts[..|ts| - 1], a);
    }
  }

  /** Pruning never loses an attempt that still counts. */
  lemma {:induction false} RecentCounts(attempts: seq<int>, now: int, window: int, a: int)
    requires a > now - window
    ensures CountFrom(Recent(attempts, now, window), a) == CountFrom(attempts, a)
  {
    if attempts != [] {
      var n := |attempts| - 1;
      RecentCounts(attempts[..n], now, window, a);
      var rest := Recent(attempts[..n], now, window);
      if now - attempts[n] < window {
        CountSnoc(rest, attempts[n], a);
      } else {
        assert rest + [] == rest;
      }
    }
  }

  predicate Ordered(times: seq<int>) {
    forall i, j :: 0 <= i < j < |times| ==> times[i] <= times[j]
  }

  lemma RunSnoc(l: Limits, times: seq<int>, now: int)
    ensures After(l, times + [now]) == Attempt(l, After(l, times), now).0
    ensures Accepted(l, times + [now]) == Accepted(l, times) + if LetThrough(l, After(l, times), now) then [now] else []
  {
    assert (times + [now])[..|times|] == times;
  }

  lemma TrackCountsStep(l: Limits, t: Track, log: seq<int>, at: int, now: int, a: int)
    requires CountFrom(log, a) <= CountFrom(t.attempts, a) && at <= now && a > now - l.window
    ensures CountFrom(log + if LetThrough(l, t, at) then [at] else [], a) <= CountFrom(Attempt(l, t, at).0.attempts, a)
  {
    assert log + [] == log;
    CountSnoc(log, at, a);
    RecentCounts(t.attempts, at, l.window, a);
    CountSnoc(Recent(t.attempts, at, l.window), at, a);
    hide CountFrom;
    hide Recent;
  }

  /** The track holds at least every accepted attempt that a window ending now still reaches. */
  lemma {:induction false} TrackCounts(l: Limits, times: seq<int>, now: int, a: int)
    requires Ordered(times) && (times != [] ==> times[|times| - 1] <= now) && a > now - l.window
    ensures CountFrom(Accepted(l, times), a) <= CountFrom(After(l, times).attempts, a)
    decreases |times|
  {
    if times != [] {
      hide CountFrom;
      hide Attempt;
      hide LetThrough;
      var init, at := times[..|times| - 1], times[|times| - 1];
      assert times == init + [at];
      TrackCounts(l, init, now, a);
      TrackCountsStep(l, After(l, init), Accepted(l, init), at, now, a);
      RunSnoc(l, init, at);
      hide After;
      hide Accepted;
      hide Ordered;
    }
  }

  /** Every attempt let through finds at most max, itself included, in the window that ends with it. */
  lemma AcceptedBound(l: Limits, times: seq<int>, now: int, a: int)
    requires l.block >= SECOND && Ordered(times + [now]) && a > now - l.window && LetThrough(l, After(l, times), now)
    ensures CountFrom(Accepted(l, times) + [now], a) <= l.max
  {
    var t := After(l, times);
    assert (times + [now])[..|times|] == times;
    assert forall i :: 0 <= i < |times| ==> times[i] == (times + [now])[i];
    assert (times + [now])[|times|] == now;
    TrackCounts(l, times, now, a);
    CountSnoc(Accepted(l, times), now, a);
    var recent := Recent(t.attempts, now, l.window);
    RecentCounts(t.attempts, now, l.window, a);
    CountSnoc(recent, now, a);
    CountAtMost(recent + [now], a);
    assert |recent + [now]| <= l.max;
  }

  lemma {:induction false} InBelowFrom(ts: seq<int>, a: int, b: int)
    ensures CountIn(ts, a, b) <= CountFrom(ts, a)
  {
    if ts != [] {
      InBelowFrom(ts[..|ts| - 1], a, b);
    }
  }

  /** No half-open interval one window long holds more than max accepted attempts. */
  lemma {:induction false} WindowBound(l: Limits, times: seq<int>, a: int)
    requires l.block >= SECOND && Ordered(times)
    ensures CountIn(Accepted(l, times), a, a + l.window) <= l.max
    decreases |times|
  {
    if times != [] {
      var init, at := times[..|times| - 1], times[|times| - 1];
      assert times == init + [at];
      hide After;
      hide Accepted;
      hide LetThrough;
      hide CountIn;
      WindowBound(l, init, a);
      WindowStep(l, init, at, a);
    }
  }

  lemma WindowStep(l: Limits, times: seq<int>, at: int, a: int)
    requires l.block >= SECOND && Ordered(times + [at]) && CountIn(Accepted(l, times), a, a + l.window) <= l.max
    ensures CountIn(Accepted(l, times + [at]), a, a + l.window) <= l.max
  {
    hide After;
    hide Accepted;
    hide LetThrough;
    hide CountIn;
    hide CountFrom;
    RunSnoc(l, times, at);
    var log := Accepted(l, times);
    assert log + [] == log;
    InSnoc(log, at, a, a + l.window);
    if LetThrough(l, After(l, times), at) && a <= at < a + l.window {
      hide Ordered;
      AcceptedBound(l, times, at, a);
      InBelowFrom(log + [at], a, a + l.window);
    }
  }

  lemma InSnoc(ts: seq<int>, t: int, a: int, b: int)
    ensures CountIn(ts + [t], a, b) == CountIn(ts, a, b) + if a <= t < b then 1 else 0
  {
    assert (ts + [t])[..|ts|] == ts;
  }

  function Repeat(t: int, n: nat): (ts: seq<int>)
    ensures |ts| == n && forall i :: 0 <= i < n ==> ts[i] == t
  {
    seq(n, _ => t)
  }

  lemma {:induction false} RecentAll(t: int, n: nat, window: int)
    requires window > 0
    ensures Recent(Repeat(t, n), t, window) == Repeat(t, n)
  {
    if n > 0 {
      assert Repeat(t, n)[..n - 1] == Repeat(t, n - 1);
      RecentAll(t, n - 1, window);
    }
  }

  /** Up to max attempts at one instant are kept, none blocked. */
  lemma {:induction false} Burst(l: Limits, n: nat)
    requires l.window > 0 && n <= l.max
    ensures After(l, Repeat(0, n)) == Track(Repeat(0, n), None) && Accepted(l, Repeat(0, n)) == Repeat(0, n)
  {
    if n > 0 {
      assert Repeat(0, n)[..n - 1] == Repeat(0, n - 1);
      Burst(l, n - 1);
      RecentAll(0, n - 1, l.window);
      assert Repeat(0, n - 1) + [0] == Repeat(0, n);
    }
  }

  lemma {:induction false} CountRepeat(n: nat, b: int)
    requires b > 0
    ensures CountIn(Repeat(0, n), 0, b) == n
  {
    if n > 0 {
      assert Repeat(0, n)[..n - 1] == Repeat(0, n - 1);
      CountRepeat(n - 1, b);
    }
  }

  /** One attempt too many, at the same instant, is let through when the block is shorter than a second. */
  lemma BurstTooMany(l: Limits)
    requires l.window > 0 && l.block < SECOND
    ensures CountIn(Accepted(l, Repeat(0, l.max + 1)), 0, l.window) == l.max + 1
  {
    var n := l.max;
    Burst(l, n);
    RunSnoc(l, Repeat(0, n), 0);
    AttemptIff(l, After(l, Repeat(0, n)), 0);
    assert Repeat(0, n) + [0] == Repeat(0, n + 1);
    CountRepeat(n + 1, l.window);
    hide After;
    hide Accepted;
    hide LetThrough;
    hide Attempt;
    hide CountIn;
  }

  predicate Within(l: Limits, times: seq<int>, a: int) {
    CountIn(Accepted(l, times), a, a + l.window) <= l.max
  }

  /** On every run, every interval. */
  ghost predicate Bounded(l: Limits) {
    forall times, a :: Ordered(times) ==> Within(l, times, a)
  }

  /** With a clock that never goes back, the limiter keeps its bound exactly when it blocks for a second or more. */
  lemma BoundIffBlockSeconds(l: Limits)
    requires l.window > 0
    ensures Bounded(l) <==> l.block >= SECOND
  {
    if l.block >= SECOND {
      forall times, a | Ordered(times)
        ensures Within(l, times, a)
      {
        WindowBound(l, times, a);
      }
    } else {
      BurstTooMany(l);
      assert Ordered(Repeat(0, l.max + 1));
      assert !Within(l, Repeat(0, l.max + 1), 0);
    }
  }

  // ---- Blocking ----

  /** Over the limit, nothing more is let through, or even noted, until the block has run out. */
  lemma {:induction false} BlockLasts(l: Limits, before: seq<int>, now: int, later: seq<int>)
    requires |Recent(After(l, before).attempts, now, l.window)| + 1 > l.max
    requires After(l, before).until.None? || After(l, before).until.value <= now
    requires forall i :: 0 <= i < |later| ==> later[i] < now + l.block
    ensures After(l, before + [now] + later) == After(l, before + [now])
    ensures Accepted(l, before + [now] + later) == Accepted(l, before + [now])
    decreases |later|
  {
    hide After;
    hide Accepted;
    hide Recent;
    if later == [] {
      assert before + [now] + later == before + [now];
    } else {
      var init, at := later[..|later| - 1], later[|later| - 1];
      Blocks(l, before, now);
      BlockLasts(l, before, now, init);
      RefusedSnoc(l, before + [now] + init, at);
      assert before + [now] + later == before + [now] + init + [at];
    }
  }

  lemma Blocks(l: Limits, before: seq<int>, now: int)
    requires |Recent(After(l, before).attempts, now, l.window)| + 1 > l.max
    requires After(l, before).until.None? || After(l, before).until.value <= now
    ensures After(l, before + [now]).until == Some(now + l.block)
  {
    hide After;
    hide Accepted;
    hide Recent;
    hide LetThrough;
    RunSnoc(l, before, now);
  }

  lemma RefusedSnoc(l: Limits, times: seq<int>, at: int)
    requires After(l, times).until.Some? && After(l, times).until.value > at
    ensures After(l, times + [at]) == After(l, times) && Accepted(l, times + [at]) == Accepted(l, times)
  {
    hide After;
    hide Accepted;
    hide Recent;
    RunSnoc(l, times, at);
    assert Accepted(l, times) + [] == Accepted(l, times);
  }

  // ---- What is let through ----

  predicate Blocked(l: Limits, times: seq<int>, now: int) {
    After(l, times).until.Some? && now < After(l, times).until.value
  }

  /** The attempts made while no block ran: those let through, and each one that brought on a block. */
  function Noted(l: Limits, times: seq<int>): seq<int> {
    if times == [] then []
    else
      var n := |times| - 1;
      Noted(l, times[..n]) + if Blocked(l, times[..n], times[n]) then [] else [times[n]]
  }

  lemma {:induction false} RecentSize(attempts: seq<int>, now: int, window: int)
    ensures |Recent(attempts, now, window)| == CountFrom(attempts, now - window + 1)
  {
    if attempts != [] {
      RecentSize(attempts[..|attempts| - 1], now, window);
    }
  }

  lemma NotedStep(l: Limits, t: Track, log: seq<int>, at: int, a: int)
    requires CountFrom(log, a) == CountFrom(t.attempts, a) && a > at - l.window
    ensures var blocked := t.until.Some? && at < t.until.value;
            CountFrom(log + (if blocked then [] else [at]), a) == CountFrom(Attempt(l, t, at).0.attempts, a)
  {
    assert log + [] == log;
    CountSnoc(log, at, a);
    RecentCounts(t.attempts, at, l.window, a);
    CountSnoc(Recent(t.attempts, at, l.window), at, a);
    hide CountFrom;
    hide Recent;
  }

  /** What is kept counts every noted attempt that a window ending now still reaches. */
  lemma {:induction false} NotedCounts(l: Limits, times: seq<int>, now: int, a: int)
    requires Ordered(times) && (times != [] ==> times[|times| - 1] <= now) && a > now - l.window
    ensures CountFrom(Noted(l, times), a) == CountFrom(After(l, times).attempts, a)
    decreases |times|
  {
    hide CountFrom;
    hide Attempt;
    hide LetThrough;
    hide Accepted;
    hide Ordered;
    if times != [] {
      hide Noted;
      hide After;
      var init, at := times[..|times| - 1], times[|times| - 1];
      assert times == init + [at];
      OrderedInit(init, at);
      NotedCounts(l, init, now, a);
      NotedStep(l, After(l, init), Noted(l, init), at, a);
      RunSnoc(l, init, at);
      NotedSnoc(l, init, at);
    }
  }

  lemma NotedSnoc(l: Limits, times: seq<int>, at: int)
    ensures Noted(l, times + [at]) == Noted(l, times) + if Blocked(l, times, at) then [] else [at]
  {
    assert (times + [at])[..|times|] == times;
    hide After;
  }

  /**
   * With a clock that never goes back an attempt is let through exactly when no block runs and fewer than max attempts
   * were noted in the window before it, or the block it would bring on is shorter than a second.
   */
  lemma LetThroughIff(l: Limits, times: seq<int>, now: int)
    requires Ordered(times + [now])
    ensures LetThrough(l, After(l, times), now) <==>
              !Blocked(l, times, now) && (CountFrom(Noted(l, times), now - l.window + 1) < l.max || l.block < SECOND)
  {
    hide CountFrom;
    hide Noted;
    hide Recent;
    hide After;
    hide LetThrough;
    hide Ordered;
    OrderedInit(times, now);
    NotedCounts(l, times, now, now - l.window + 1);
    RecentSize(After(l, times).attempts, now, l.window);
    AttemptIff(l, After(l, times), now);
  }

  lemma OrderedInit(times: seq<int>, now: int)
    requires Ordered(times + [now])
    ensures Ordered(times) && (times != [] ==> times[|times| - 1] <= now)
  {
    var all := times + [now];
    assert forall i :: 0 <= i < |times| ==> times[i] == all[i];
    assert all[|times|] == now;
  }

  lemma AttemptIff(l: Limits, t: Track, now: int)
    ensures LetThrough(l, t, now) <==>
              !(t.until.Some? && now < t.until.value) && (|Recent(t.attempts, now, l.window)| < l.max || l.block < SECOND)
  {
    hide Recent;
  }

  lemma FirstAttempt(l: Limits, t: int)
    requires l.max > 0
    ensures After(l, [t]) == Track([t], None) && Accepted(l, [t]) == [t]
  {
    assert [t][..0] == [];
  }

  lemma SecondBlocks(l: Limits, t: int, u: int)
    requires l.max == 1 && u - t < l.window && l.block >= SECOND
    ensures After(l, [t, u]) == Track([t, u], Some(u + l.block)) && Accepted(l, [t, u]) == [t]
  {
    FirstAttempt(l, t);
    RunSnoc(l, [t], u);
    RecentSnoc([], t, u, l.window);
    assert Recent([], u, l.window) == [];
    hide After;
    hide Accepted;
    hide Recent;
    assert [] + [t] == [t] && [t] + [u] == [t, u] && [t] + [] == [t];
  }

  lemma OneOfTwo(t: int, u: int, now: int, window: int)
    requires now - t >= window && now - u < window
    ensures Recent([t, u], now, window) == [u] && CountFrom([t], now - window + 1) == 0
  {
    assert Recent([], now, window) == [];
    RecentSnoc([], t, now, window);
    RecentSnoc([t], u, now, window);
    assert [] + [t] == [t] && [t] + [u] == [t, u] && [t][..0] == [];
  }

  /** Counting only what was let through is not enough: an attempt that brought on a block still counts once the block is over. */
  lemma AcceptedNotEnough()
    ensures var l, times, now := Limits(10 * SECOND, 1, SECOND), [0, SECOND], 10 * SECOND + SECOND / 2;
            && Accepted(l, times) == [0] && CountFrom([0], now - l.window + 1) == 0
            && !Blocked(l, times, now) && !LetThrough(l, After(l, times), now)
  {
    var l := Limits(10 * SECOND, 1, SECOND);
    hide After;
    hide Accepted;
    hide Recent;
    hide CountFrom;
    SecondBlocks(l, 0, SECOND);
    OneOfTwo(0, SECOND, 10 * SECOND + SECOND / 2, l.window);
    AttemptIff(l, After(l, [0, SECOND]), 10 * SECOND + SECOND / 2);
    hide LetThrough;
  }

  lemma RecentSnoc(attempts: seq<int>, t: int, now: int, window: int)
    ensures Recent(attempts + [t], now, window) == Recent(attempts, now, window) + if now - t < window then [t] else []
  {
    assert (attempts + [t])[..|attempts|] == attempts;
  }

  // ---- Many keys ----

  function TimesOf(calls: seq<(string, int)>, key: string): seq<int> {
    if calls == [] then []
    else
      var n := |calls| - 1;
      TimesOf(calls[..n], key) + if calls[n].0 == key then [calls[n].1] else []
  }

  lemma TimesSnoc(calls: seq<(string, int)>, key: string, now: int, k: string)
    ensures TimesOf(calls + [(key, now)], k) == TimesOf(calls, k) + if k == key then [now] else []
  {
    assert (calls + [(key, now)])[..|calls|] == calls;
  }

  /** A call moves its own key on by one attempt and no other. */
  lemma CallAdds(l: Limits, calls: seq<(string, int)>, key: string, now: int)
    ensures forall k :: After(l, TimesOf(calls + [(key, now)], k)) ==
                        if k == key then Attempt(l, After(l, TimesOf(calls, k)), now).0 else After(l, TimesOf(calls, k))
  {
    hide After;
    hide Attempt;
    hide Accepted;
    hide LetThrough;
    hide TimesOf;
    forall k
      ensures After(l, TimesOf(calls + [(key, now)], k)) ==
              if k == key then Attempt(l, After(l, TimesOf(calls, k)), now).0 else After(l, TimesOf(calls, k))
    {
      TimesSnoc(calls, key, now, k);
      if k == key {
        RunSnoc(l, TimesOf(calls, k), now);
      } else {
        assert TimesOf(calls, k) + [] == TimesOf(calls, k);
      }
    }
  }

  class InviteRateLimiter {
    const limits: Limits
    var attempts: map<string, seq<int>>
    var blockedUntil: map<string, int>
    ghost var calls: seq<(string, int)>

    function TrackOf(key: string): Track
      reads this
    {
      Track(if key in attempts then attempts[key] else [], if key in blockedUntil then Some(blockedUntil[key]) else None)
    }

    /** Each key is where its own attempts alone would have brought it. */
    ghost predicate Valid()
      reads this
    {
      forall key :: TrackOf(key) == After(limits, TimesOf(calls, key))
    }

    constructor (limits: Limits)
      ensures Valid() && this.limits == limits && calls == []
    {
      this.limits := limits;
      attempts, blockedUntil, calls := map[], map[], [];
    }

    method Record(key: string, now: int) returns (retry: int)
      requires Valid()
      modifies this
      ensures Valid() && calls == old(calls) + [(key, now)]
      ensures (TrackOf(key), retry) == Attempt(limits, old(TrackOf(key)), now)
      ensures forall other :: other != key ==> TrackOf(other) == old(TrackOf(other))
    {
      CallAdds(limits, calls, key, now);
      hide TimesOf;
      hide After;
      hide Recent;
      hide Seconds;
      ghost var t := TrackOf(key);
      calls := calls + [(key, now)];
      if key in blockedUntil && blockedUntil[key] > now {
        return Seconds(blockedUntil[key] - now) + 1;
      }
      var kept := Prune(if key in attempts then attempts[key] else [], now);
      kept := kept + [now];
      attempts := attempts[key := kept];
      if |kept| > limits.max {
        blockedUntil := blockedUntil[key := now + limits.block];
        assert TrackOf(key) == Attempt(limits, t, now).0;
        return Seconds(limits.block);
      }
      assert TrackOf(key) == Attempt(limits, t, now).0;
      return 0;
    }

    method Prune(earlier: seq<int>, now: int) returns (kept: seq<int>)
      ensures kept == Recent(earlier, now, limits.window)
    {
      kept := [];
      for i := 0 to |earlier|
        invariant kept == Recent(earlier[..i], now, limits.window)
      {
        assert earlier[..i + 1][..i] == earlier[..i];
        if now - earlier[i] < limits.window {
          kept := kept + [earlier[i]];
        }
      }
      assert earlier[..|earlier|] == earlier;
    }
  }
}
