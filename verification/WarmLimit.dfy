/** The fixed-window limiter for `query_warm_tier` (warm_limit.rs). Instants are nanoseconds. */
module WarmLimit {

  const WINDOW: nat := 60_000_000_000

  type u32 = n: int | 0 <= n < 0x1_0000_0000

  datatype Window = Window(start: nat, count: u32)

  /** `duration_since`, which is zero when the clock seems to run backwards. */
  function Elapsed(now: nat, since: nat): nat
  {
    if since <= now then now - since else 0
  }

  /** The window a request at `now` falls into. */
  function Current(w: Window, now: nat): Window
  {
    if Elapsed(now, w.start) >= WINDOW then Window(now, 0) else w
  }

  predicate Grants(max: u32, w: Window, now: nat)
  {
    Current(w, now).count < max
  }

  function After(max: u32, w: Window, now: nat): Window
  {
    var cur := Current(w, now);
    if cur.count < max then Window(cur.start, cur.count + 1) else cur
  }

  class WarmTierLimiter {
    var windowStart: nat
    var count: u32
    const maxPerMinute: u32

    ghost function State(): Window
      reads this
    {
      Window(windowStart, count)
    }

    constructor (now: nat, maxPerMinute: u32)
      ensures State() == Window(now, 0) && this.maxPerMinute == maxPerMinute
    {
      windowStart, count := now, 0;
      this.maxPerMinute := maxPerMinute;
    }

    method Acquire(now: nat) returns (ok: bool)
      modifies this
      ensures State() == After(maxPerMinute, old(State()), now)
      ensures ok <==> Grants(maxPerMinute, old(State()), now)
    {
      if Elapsed(now, windowStart) >= WINDOW {
        windowStart := now;
        count := 0;
      }
      if count >= maxPerMinute {
        return false;
      }
      count := count + 1;
      return true;
    }
  }

  // ---- Runs ----

  /** Requests come in clock order, the first no earlier than `from`. */
  ghost predicate InOrder(from: nat, times: seq<nat>)
    decreases |times|
  {
    times == [] || (from <= times[0] && InOrder(times[0], times[1..]))
  }

  /** The number of requests in the run that are granted at an instant in `[a, b)`. */
  ghost function GrantedIn(max: u32, w: Window, times: seq<nat>, a: nat, b: nat): nat
    decreases |times|
  {
    if times == [] then 0
    else
      (if Grants(max, w, times[0]) && a <= times[0] < b then 1 else 0)
      + GrantedIn(max, After(max, w, times[0]), times[1..], a, b)
  }

  ghost function StateAfter(max: u32, w: Window, times: seq<nat>): Window
    decreases |times|
  {
    if times == [] then w else StateAfter(max, After(max, w, times[0]), times[1..])
  }

  /** The number of requests before an instant. */
  ghost function Before(times: seq<nat>, b: nat): nat
  {
    if times == [] then 0 else (if times[0] < b then 1 else 0) + Before(times[1..], b)
  }

  function Min(a: int, b: int): int
  {
    if a <= b then a else b
  }

  lemma {:induction false} NoneBefore(times: seq<nat>, b: nat, now: nat)
    requires b <= now && InOrder(now, times)
    ensures Before(times, b) == 0
    decreases |times|
  {
    if times != [] {
      NoneBefore(times[1..], b, times[0]);
    }
  }

  lemma {:induction false} NothingLate(max: u32, w: Window, times: seq<nat>, a: nat, now: nat)
    requires a + WINDOW <= now && InOrder(now, times)
    ensures GrantedIn(max, w, times, a, a + WINDOW) == 0
    decreases |times|
  {
    if times != [] {
      NothingLate(max, After(max, w, times[0]), times[1..], a, times[0]);
    }
  }

  /** How many requests of the interval the open window still covers, and how many come after it. */
  ghost function Early(w: Window, times: seq<nat>, a: nat): nat
  {
    Before(times, Min(w.start + WINDOW, a + WINDOW))
  }

  ghost function Late(w: Window, times: seq<nat>, a: nat): int
  {
    Before(times, a + WINDOW) - Early(w, times, a)
  }

  /**
   The exact number of grants in an interval that starts with the open window `w`: early requests use up
   what is left of that window, late ones the budget of one more window.
   */
  lemma {:induction false} GrantedInside(max: u32, w: Window, times: seq<nat>, a: nat, now: nat)
    requires w.count <= max && a <= now && w.start <= now && InOrder(now, times)
    ensures GrantedIn(max, w, times, a, a + WINDOW) == Min(max - w.count, Early(w, times, a)) + Min(max, Late(w, times, a))
    decreases |times|
  {
    if times != [] {
      var t, next, rest := times[0], After(max, w, times[0]), times[1..];
      if t >= a + WINDOW {
        NothingLate(max, w, times, a, t);
        NoneBefore(times, a + WINDOW, t);
        NoneBefore(times, Min(w.start + WINDOW, a + WINDOW), t);
      } else {
        GrantedInside(max, next, rest, a, t);
        if t >= w.start + WINDOW {
          NoneBefore(times, w.start + WINDOW, t);
          NoneBefore(rest, w.start + WINDOW, t);
        }
      }
    }
  }

  /** Requests before the interval only move the window. */
  lemma {:induction false} SkipEarlier(max: u32, w: Window, before: seq<nat>, times: seq<nat>, a: nat)
    requires forall i :: 0 <= i < |before| ==> before[i] < a
    ensures GrantedIn(max, w, before + times, a, a + WINDOW)
         == GrantedIn(max, StateAfter(max, w, before), times, a, a + WINDOW)
    decreases |before|
  {
    if before == [] {
      assert before + times == times;
    } else {
      assert (before + times)[1..] == before[1..] + times;
      assert forall i :: 0 <= i < |before[1..]| ==> before[1..][i] == before[i + 1];
      SkipEarlier(max, After(max, w, before[0]), before[1..], times, a);
    }
  }

  lemma {:induction false} StaysWithin(max: u32, w: Window, times: seq<nat>, now: nat)
    requires w.count <= max && w.start <= now && forall i :: 0 <= i < |times| ==> times[i] <= now
    ensures StateAfter(max, w, times).count <= max && StateAfter(max, w, times).start <= now
    decreases |times|
  {
    if times != [] {
      assert forall i :: 0 <= i < |times[1..]| ==> times[1..][i] == times[i + 1];
      StaysWithin(max, After(max, w, times[0]), times[1..], now);
    }
  }

  /**
   For every run and every 60-second interval: the grants of the interval, from the window that is open
   when it begins. So the interval keeps to the per-minute budget exactly when these two terms do.
   */
  lemma GrantedExactly(max: u32, w: Window, before: seq<nat>, times: seq<nat>, a: nat)
    requires w.count <= max && w.start <= a && InOrder(a, times)
    requires forall i :: 0 <= i < |before| ==> before[i] < a
    ensures var open := StateAfter(max, w, before);
            var granted := GrantedIn(max, w, before + times, a, a + WINDOW);
            && granted == Min(max - open.count, Early(open, times, a)) + Min(max, Late(open, times, a))
            && (granted <= max <==>
                  || Min(max, Late(open, times, a)) <= open.count
                  || Early(open, times, a) + Min(max, Late(open, times, a)) <= max)
  {
    SkipEarlier(max, w, before, times, a);
    StaysWithin(max, w, before, a);
    GrantedInside(max, StateAfter(max, w, before), times, a, a);
  }

  /** In any half-open 60-second interval at most twice the per-minute budget is granted. */
  lemma {:induction false} RateBound(max: u32, w: Window, times: seq<nat>, a: nat, now: nat)
    requires w.count <= max && w.start <= now && InOrder(now, times)
    ensures GrantedIn(max, w, times, a, a + WINDOW) <= 2 * max
    decreases |times|
  {
    if times != [] {
      if a <= times[0] {
        GrantedInside(max, w, times, a, times[0]);
      } else {
        RateBound(max, After(max, w, times[0]), times[1..], a, times[0]);
      }
    }
  }

  function Repeat(t: nat, n: nat): seq<nat>
  {
    seq(n, _ => t)
  }

  lemma {:induction false} Burst(max: u32, w: Window, t: nat, n: nat, rest: seq<nat>, a: nat)
    requires w.count + n <= max && w.start <= t < w.start + WINDOW && a <= t < a + WINDOW
    ensures GrantedIn(max, w, Repeat(t, n) + rest, a, a + WINDOW)
         == n + GrantedIn(max, Window(w.start, w.count + n), rest, a, a + WINDOW)
    decreases n
  {
    if n == 0 {
      assert Repeat(t, n) + rest == rest;
    } else {
      Burst(max, Window(w.start, w.count + 1), t, n - 1, rest, a);
      assert (Repeat(t, n) + rest)[1..] == Repeat(t, n - 1) + rest;
    }
  }

  lemma {:induction false} BurstInOrder(from: nat, t: nat, n: nat, rest: seq<nat>)
    requires from <= t && InOrder(t, rest)
    ensures InOrder(from, Repeat(t, n) + rest)
    decreases n
  {
    if n == 0 {
      assert Repeat(t, n) + rest == rest;
    } else {
      BurstInOrder(t, t, n - 1, rest);
      assert (Repeat(t, n) + rest)[1..] == Repeat(t, n - 1) + rest;
    }
  }

  /**
   The bound is reached for every budget, so "per minute" holds of the limiter's own windows and not
   of every minute: a burst at the end of one window and a burst at the start of the next.
   */
  lemma BoundIsReached(max: u32) returns (times: seq<nat>)
    ensures InOrder(0, times)
    ensures GrantedIn(max, Window(0, 0), times, WINDOW - 1, (WINDOW - 1) + WINDOW) == 2 * max
  {
    var first, second := Repeat(WINDOW - 1, max), Repeat(WINDOW, max);
    times := first + second;
    assert second + [] == second;
    BurstInOrder(WINDOW - 1, WINDOW, max, []);
    BurstInOrder(0, WINDOW - 1, max, second);
    Burst(max, Window(0, 0), WINDOW - 1, max, second, WINDOW - 1);
    if max > 0 {
      var w := Window(0, max);
      assert second[0] == WINDOW && second[1..] == Repeat(WINDOW, max - 1);
      assert After(max, w, WINDOW) == Window(WINDOW, 1);
      assert second[1..] + [] == second[1..];
      Burst(max, Window(WINDOW, 1), WINDOW, max - 1, [], WINDOW - 1);
    }
  }

  /** The counter counts exactly the requests granted in the open window, and never exceeds the budget. */
  lemma {:induction false} CountIsExact(max: u32, w: Window, times: seq<nat>, now: nat, b: nat)
    requires w.count <= max && w.start <= now && InOrder(now, times)
    requires forall i :: 0 <= i < |times| ==> times[i] < b
    ensures var end := StateAfter(max, w, times);
            && end.count <= max
            && w.start <= end.start
            && GrantedIn(max, w, times, end.start, b) == if end.start == w.start then end.count - w.count else end.count
    decreases |times|
  {
    if times != [] {
      var next := After(max, w, times[0]);
      assert forall i :: 0 <= i < |times[1..]| ==> times[1..][i] == times[i + 1];
      CountIsExact(max, next, times[1..], times[0], b);
      if next.start < StateAfter(max, w, times).start {
        LaterWindow(max, next, times[1..], times[0]);
      }
    }
  }

  /** A window opened later starts after every request seen before it. */
  lemma {:induction false} LaterWindow(max: u32, w: Window, times: seq<nat>, now: nat)
    requires w.start <= now && InOrder(now, times) && now < w.start + WINDOW
    ensures StateAfter(max, w, times).start == w.start || StateAfter(max, w, times).start > now
    decreases |times|
  {
    if times != [] {
      LaterWindow(max, After(max, w, times[0]), times[1..], times[0]);
    }
  }

  lemma {:induction false} NoBudgetNoGrant(w: Window, times: seq<nat>, a: nat, b: nat)
    ensures GrantedIn(0, w, times, a, b) == 0
    decreases |times|
  {
    if times != [] {
      NoBudgetNoGrant(After(0, w, times[0]), times[1..], a, b);
    }
  }

  /** A request is refused only when the whole budget was granted less than 60 seconds earlier. */
  lemma RefusedOnlyWhenSpent(max: u32, start: nat, times: seq<nat>, now: nat) returns (a: nat)
    requires InOrder(start, times) && forall i :: 0 <= i < |times| ==> times[i] <= now
    requires start <= now && !Grants(max, StateAfter(max, Window(start, 0), times), now)
    ensures a <= now < a + WINDOW && GrantedIn(max, Window(start, 0), times, a, now + 1) == max
  {
    var w := Window(start, 0);
    if max == 0 {
      a := now;
      NoBudgetNoGrant(w, times, a, now + 1);
    } else {
      a := StateAfter(max, w, times).start;
      CountIsExact(max, w, times, start, now + 1);
      StaysWithin(max, w, times, now);
    }
  }
}
