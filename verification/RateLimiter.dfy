/** The fixed-window limiter on new connections per address, and the bound it
    gives on any sliding interval. Times are nanoseconds of a monotone clock. */
module RateLimiter {
  type Ip = string

  const MAX_CONNECTIONS_PER_IP: nat := 20
  const RATE_WINDOW: nat := 60_000_000_000

  datatype Window = Window(count: nat, start: nat)

  /** One arrival from `w`'s address; a first arrival finds an empty window. */
  function Decide(w: Window, now: nat): (Window, bool) {
    if now >= w.start + RATE_WINDOW then (Window(1, now), true)
    else if w.count < MAX_CONNECTIONS_PER_IP then (w.(count := w.count + 1), true)
    else (w, false)
  }

  function Entry(windows: map<Ip, Window>, ip: Ip, now: nat): Window {
    if ip in windows then windows[ip] else Window(0, now)
  }

  class IpRateLimiter {
    var windows: map<Ip, Window>

    constructor ()
      ensures windows == map[]
    {
      windows := map[];
    }

    method Check(ip: Ip, loopback: bool, now: nat) returns (allowed: bool)
      modifies this
      ensures loopback ==> allowed && windows == old(windows)
      ensures !loopback ==> allowed == Decide(Entry(old(windows), ip, now), now).1
      ensures !loopback ==> windows == old(windows)[ip := Decide(Entry(old(windows), ip, now), now).0]
    {
      if loopback {
        return true;
      }
      if ip !in windows {
        windows := windows[ip := Window(0, now)];
      }
      var entry := windows[ip];
      if now >= entry.start && now - entry.start >= RATE_WINDOW {
        windows := windows[ip := Window(1, now)];
        allowed := true;
      } else if entry.count < MAX_CONNECTIONS_PER_IP {
        windows := windows[ip := entry.(count := entry.count + 1)];
        allowed := true;
      } else {
        allowed := false;
      }
    }
  }

  // ---- Traces over many addresses ----

  datatype Arrival = Arrival(ip: Ip, loopback: bool, time: nat)

  ghost predicate Monotone(trace: seq<Arrival>) {
    forall i, j :: 0 <= i <= j < |trace| ==> trace[i].time <= trace[j].time
  }

  /** The limiter's table after the trace. */
  function After(trace: seq<Arrival>): map<Ip, Window> {
    if trace == [] then map[]
    else
      var n := |trace| - 1;
      var a := trace[n];
      var windows := After(trace[..n]);
      if a.loopback then windows else windows[a.ip := Decide(Entry(windows, a.ip, a.time), a.time).0]
  }

  /** Whether the arrival at `i` is let in. */
  function Allowed(trace: seq<Arrival>, i: nat): bool
    requires i < |trace|
  {
    trace[i].loopback || Decide(Entry(After(trace[..i]), trace[i].ip, trace[i].time), trace[i].time).1
  }

  /** How many arrivals of `ip` in lo <= time < hi were let in. */
  function Accepted(trace: seq<Arrival>, ip: Ip, lo: int, hi: int): nat {
    if trace == [] then 0
    else
      var n := |trace| - 1;
      var a := trace[n];
      Accepted(trace[..n], ip, lo, hi) +
      if a.ip == ip && !a.loopback && lo <= a.time < hi && Allowed(trace, n) then 1 else 0
  }

  /** Only an address's own arrivals matter to it. */
  function Of(trace: seq<Arrival>, ip: Ip): seq<Arrival> {
    if trace == [] then []
    else
      var n := |trace| - 1;
      Of(trace[..n], ip) + if trace[n].ip == ip then [trace[n]] else []
  }

  /** Arrivals from other addresses change neither the table entry of `ip` nor
      any decision about it. */
  lemma {:induction false} OthersDoNotMatter(trace: seq<Arrival>, ip: Ip)
    ensures ip in After(trace) <==> ip in After(Of(trace, ip))
    ensures ip in After(trace) ==> After(trace)[ip] == After(Of(trace, ip))[ip]
  {
    if trace != [] {
      var n := |trace| - 1;
      OthersDoNotMatter(trace[..n], ip);
      if trace[n].ip == ip {
        assert Of(trace, ip)[..|Of(trace, ip)| - 1] == Of(trace[..n], ip);
      } else {
        assert Of(trace, ip) == Of(trace[..n], ip);
      }
    }
  }

  lemma DecisionIsLocal(trace: seq<Arrival>, next: Arrival)
    ensures Allowed(trace + [next], |trace|) == Allowed(Of(trace, next.ip) + [next], |Of(trace, next.ip)|)
  {
    assert (trace + [next])[..|trace|] == trace;
    assert (Of(trace, next.ip) + [next])[..|Of(trace, next.ip)|] == Of(trace, next.ip);
    OthersDoNotMatter(trace, next.ip);
  }

  // ---- The bound ----

  /** How many arrivals of `ip` at or after `lo` were let in. */
  function Since(trace: seq<Arrival>, ip: Ip, lo: int): nat {
    if trace == [] then 0
    else
      var n := |trace| - 1;
      Since(trace[..n], ip, lo) +
      if trace[n].ip == ip && !trace[n].loopback && lo <= trace[n].time && Allowed(trace, n) then 1 else 0
  }

  lemma {:induction false} AcceptedIsDifference(trace: seq<Arrival>, ip: Ip, lo: int, hi: int)
    requires lo <= hi
    ensures Accepted(trace, ip, lo, hi) == Since(trace, ip, lo) - Since(trace, ip, hi)
  {
    if trace != [] {
      AcceptedIsDifference(trace[..|trace| - 1], ip, lo, hi);
    }
  }

  lemma {:induction false} SinceShrinks(trace: seq<Arrival>, ip: Ip, lo: int, hi: int)
    requires lo <= hi
    ensures Since(trace, ip, hi) <= Since(trace, ip, lo)
    ensures (forall i :: 0 <= i < |trace| ==> trace[i].time < hi) ==> Since(trace, ip, hi) == 0
  {
    if trace != [] {
      assert forall i :: 0 <= i < |trace| - 1 ==> trace[..|trace| - 1][i] == trace[i];
      SinceShrinks(trace[..|trace| - 1], ip, lo, hi);
    }
  }

  /** The window of `ip` was opened by an arrival let in at `start`, has let in
      `count` so far and nothing beyond its end; and less than 60 seconds
      before `start` at most 19 were let in, because the previous window was
      opened 60 seconds before or earlier. */
  ghost predicate WindowInv(trace: seq<Arrival>, ip: Ip, w: Window) {
    && 1 <= w.count <= MAX_CONNECTIONS_PER_IP
    && Since(trace, ip, w.start) == w.count
    && Since(trace, ip, w.start + 1) < w.count
    && Since(trace, ip, w.start + RATE_WINDOW) == 0
    && forall a: int :: w.start - RATE_WINDOW < a <= w.start ==>
         Since(trace, ip, a) - w.count <= MAX_CONNECTIONS_PER_IP - 1
  }

  ghost predicate SlidingBound(trace: seq<Arrival>, ip: Ip) {
    forall a: int :: Since(trace, ip, a) - Since(trace, ip, a + RATE_WINDOW) <= 2 * MAX_CONNECTIONS_PER_IP - 1
  }

  ghost predicate LimiterInv(trace: seq<Arrival>, ip: Ip) {
    && SlidingBound(trace, ip)
    && (if ip in After(trace) then WindowInv(trace, ip, After(trace)[ip])
        else forall a: int :: Since(trace, ip, a) == 0)
  }

  /** Adding an arrival that is let in adds one to every count up to its time. */
  lemma SinceAfter(trace: seq<Arrival>, next: Arrival, ip: Ip, lo: int)
    ensures Since(trace + [next], ip, lo) == Since(trace, ip, lo) +
      if next.ip == ip && !next.loopback && lo <= next.time && Allowed(trace + [next], |trace|) then 1 else 0
  {
  }

  /** What the counts look like once an arrival at `t` was let in. */
  ghost predicate OneMore(trace: seq<Arrival>, longer: seq<Arrival>, ip: Ip, t: nat) {
    forall a: int :: Since(longer, ip, a) == Since(trace, ip, a) + if a <= t then 1 else 0
  }

  /** The arrival comes after the end of window `w` and opens a new one. */
  lemma NewWindow(trace: seq<Arrival>, longer: seq<Arrival>, ip: Ip, w: Window, t: nat)
    requires WindowInv(trace, ip, w) && OneMore(trace, longer, ip, t) && t >= w.start + RATE_WINDOW
    ensures WindowInv(longer, ip, Window(1, t))
  {
    SinceShrinks(trace, ip, w.start + RATE_WINDOW, t);
    SinceShrinks(trace, ip, t, t + 1);
    SinceShrinks(trace, ip, t, t + RATE_WINDOW);
    forall a: int | t - RATE_WINDOW < a <= t
      ensures Since(longer, ip, a) - 1 <= MAX_CONNECTIONS_PER_IP - 1
    {
      SinceShrinks(trace, ip, w.start + 1, a);
    }
  }

  lemma SameWindow(trace: seq<Arrival>, longer: seq<Arrival>, ip: Ip, w: Window, t: nat)
    requires WindowInv(trace, ip, w) && OneMore(trace, longer, ip, t)
    requires w.start <= t < w.start + RATE_WINDOW && w.count < MAX_CONNECTIONS_PER_IP
    ensures WindowInv(longer, ip, w.(count := w.count + 1))
  {
  }

  /** A window is never opened in the future. */
  lemma WindowHasBegun(trace: seq<Arrival>, ip: Ip, w: Window, t: nat)
    requires WindowInv(trace, ip, w) && forall i :: 0 <= i < |trace| ==> trace[i].time <= t
    ensures w.start <= t
  {
    SinceShrinks(trace, ip, w.start, w.start);
  }

  lemma BoundAfter(trace: seq<Arrival>, longer: seq<Arrival>, ip: Ip, w: Window, t: nat)
    requires WindowInv(trace, ip, w) && OneMore(trace, longer, ip, t) && SlidingBound(trace, ip)
    requires w.start <= t && (t >= w.start + RATE_WINDOW || w.count < MAX_CONNECTIONS_PER_IP)
    ensures SlidingBound(longer, ip)
  {
    forall a: int
      ensures Since(longer, ip, a) - Since(longer, ip, a + RATE_WINDOW) <= 2 * MAX_CONNECTIONS_PER_IP - 1
    {
      if a <= t < a + RATE_WINDOW && a > w.start {
        SinceShrinks(trace, ip, w.start + 1, a);
      }
    }
  }

  lemma ArrivalKeeps(trace: seq<Arrival>, next: Arrival)
    requires !next.loopback && LimiterInv(trace, next.ip)
    requires forall i :: 0 <= i < |trace| ==> trace[i].time <= next.time
    ensures LimiterInv(trace + [next], next.ip)
  {
    hide WindowInv, SlidingBound;
    var longer, ip, t := trace + [next], next.ip, next.time;
    assert longer[..|trace|] == trace;
    forall a: int
      ensures Since(longer, ip, a) == Since(trace, ip, a) + if a <= t && Allowed(longer, |trace|) then 1 else 0
    {
      SinceAfter(trace, next, ip, a);
    }
    if ip !in After(trace) {
      FirstWindow(longer, ip, t);
    } else {
      var w := After(trace)[ip];
      WindowHasBegun(trace, ip, w, t);
      if Allowed(longer, |trace|) {
        BoundAfter(trace, longer, ip, w, t);
        if t >= w.start + RATE_WINDOW {
          NewWindow(trace, longer, ip, w, t);
        } else {
          SameWindow(trace, longer, ip, w, t);
        }
      } else {
        SameCounts(trace, longer, ip, w);
      }
    }
  }

  lemma FirstWindow(trace: seq<Arrival>, ip: Ip, t: nat)
    requires forall a: int :: Since(trace, ip, a) == if a <= t then 1 else 0
    ensures WindowInv(trace, ip, Window(1, t)) && SlidingBound(trace, ip)
  {
  }

  lemma SameCounts(trace: seq<Arrival>, longer: seq<Arrival>, ip: Ip, w: Window)
    requires forall a: int :: Since(longer, ip, a) == Since(trace, ip, a)
    ensures WindowInv(trace, ip, w) ==> WindowInv(longer, ip, w)
    ensures SlidingBound(trace, ip) ==> SlidingBound(longer, ip)
  {
  }

  lemma {:induction false} LimiterKeeps(trace: seq<Arrival>, ip: Ip)
    requires Monotone(trace)
    ensures LimiterInv(trace, ip)
  {
    if trace != [] {
      var n := |trace| - 1;
      var before, last := trace[..n], trace[n];
      assert trace == before + [last];
      LimiterKeeps(before, ip);
      if last.ip == ip && !last.loopback {
        ArrivalKeeps(before, last);
      } else {
        forall a: int ensures Since(trace, ip, a) == Since(before, ip, a) {
          SinceAfter(before, last, ip, a);
        }
      }
    }
  }

  /** Any half-open interval of 60 seconds holds at most 39 connections let in
      for one address: twice the limit less one. */
  lemma SlidingWindowBound(trace: seq<Arrival>, ip: Ip, lo: int)
    requires Monotone(trace)
    ensures Accepted(trace, ip, lo, lo + RATE_WINDOW) <= 2 * MAX_CONNECTIONS_PER_IP - 1
  {
    LimiterKeeps(trace, ip);
    AcceptedIsDifference(trace, ip, lo, lo + RATE_WINDOW);
  }

  // ---- The bound is reached ----

  const PEER: Ip := "10.0.0.1"

  function Burst(n: nat, time: nat): (b: seq<Arrival>)
    ensures |b| == n && forall i :: 0 <= i < n ==> b[i] == Arrival(PEER, false, time)
  {
    seq(n, _ => Arrival(PEER, false, time))
  }

  /** A burst that fits the open window is let in entirely. */
  lemma {:induction false} BurstLetIn(trace: seq<Arrival>, n: nat, time: nat, lo: int)
    requires PEER in After(trace)
    requires time < After(trace)[PEER].start + RATE_WINDOW && After(trace)[PEER].count + n <= MAX_CONNECTIONS_PER_IP
    ensures PEER in After(trace + Burst(n, time))
    ensures After(trace + Burst(n, time))[PEER] == After(trace)[PEER].(count := After(trace)[PEER].count + n)
    ensures Since(trace + Burst(n, time), PEER, lo) == Since(trace, PEER, lo) + if lo <= time then n else 0
  {
    if n == 0 {
      assert trace + Burst(0, time) == trace;
    } else {
      BurstLetIn(trace, n - 1, time, lo);
      var before, next := trace + Burst(n - 1, time), Arrival(PEER, false, time);
      assert trace + Burst(n, time) == before + [next];
      assert (before + [next])[..|before|] == before;
      SinceAfter(before, next, PEER, lo);
    }
  }

  lemma OpensWindow(trace: seq<Arrival>, time: nat, lo: int)
    requires PEER !in After(trace) || time >= After(trace)[PEER].start + RATE_WINDOW
    ensures var t := trace + [Arrival(PEER, false, time)];
      && PEER in After(t) && After(t)[PEER] == Window(1, time)
      && Since(t, PEER, lo) == Since(trace, PEER, lo) + if lo <= time then 1 else 0
  {
  }

  /** One arrival opens a window, 19 more come at its very end and 20 right
      after it: 39 within less than 60 seconds. */
  lemma BoundIsReached()
    ensures var last := RATE_WINDOW - 1;
      var trace := [Arrival(PEER, false, 0)] + Burst(19, last) + [Arrival(PEER, false, RATE_WINDOW)] + Burst(19, RATE_WINDOW);
      Monotone(trace) && Accepted(trace, PEER, last, last + RATE_WINDOW) == 2 * MAX_CONNECTIONS_PER_IP - 1
  {
    var last, end := RATE_WINDOW - 1, 2 * RATE_WINDOW - 1;
    var t1 := [] + [Arrival(PEER, false, 0)];
    var t2 := t1 + Burst(19, last);
    var t3 := t2 + [Arrival(PEER, false, RATE_WINDOW)];
    var t4 := t3 + Burst(19, RATE_WINDOW);
    assert t1 == [Arrival(PEER, false, 0)];
    OpensWindow([], 0, last);
    OpensWindow([], 0, end);
    BurstLetIn(t1, 19, last, last);
    BurstLetIn(t1, 19, last, end);
    OpensWindow(t2, RATE_WINDOW, last);
    OpensWindow(t2, RATE_WINDOW, end);
    BurstLetIn(t3, 19, RATE_WINDOW, last);
    BurstLetIn(t3, 19, RATE_WINDOW, end);
    AcceptedIsDifference(t4, PEER, last, end);
  }
}
