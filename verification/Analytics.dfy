/** The analytics endpoint's rate limiter and payload sanitizer. */
module Analytics {

  // ----- the fixed-window rate limiter -----

  const ENTRIES_PER_WINDOW: nat := 10
  const WINDOW_MS: int := 1000

  datatype Window = Window(counter: nat, start: int)

  /** The limiter's state after one call, and whether the call is allowed. */
  function Checked(w: Window, now: int): (Window, bool) {
    var w' := if now - w.start >= WINDOW_MS then Window(0, now) else w;
    if w'.counter < ENTRIES_PER_WINDOW then (w'.(counter := w'.counter + 1), true) else (w', false)
  }

  class RateLimiter {
    var counter: nat
    var windowStart: int

    function State(): Window
      reads this
    {
      Window(counter, windowStart)
    }

    constructor (now: int)
      ensures State() == Window(0, now)
    {
      counter, windowStart := 0, now;
    }

    method CheckRateLimit(now: int) returns (allowed: bool)
      modifies this
      ensures (State(), allowed) == Checked(old(State()), now)
    {
      if now - windowStart >= WINDOW_MS {
        counter := 0;
        windowStart := now;
      }
      if counter < ENTRIES_PER_WINDOW {
        counter := counter + 1;
        return true;
      }
      return false;
    }
  }

  /** The state after calls at the given times. */
  function After(w: Window, times: seq<int>): Window {
    if times == [] then w
    else Checked(After(w, times[..|times| - 1]), times[|times| - 1]).0
  }

  /** The times of the calls that are allowed. */
  function Allowed(w: Window, times: seq<int>): seq<int> {
    if times == [] then []
    else
      var n := |times| - 1;
      Allowed(w, times[..n]) + if Checked(After(w, times[..n]), times[n]).1 then [times[n]] else []
  }

  /** Drive the limiter over a whole run. */
  method RunLimiter(start: int, times: seq<int>) returns (allowed: seq<int>)
    ensures allowed == Allowed(Window(0, start), times)
  {
    var limiter := new RateLimiter(start);
    allowed := [];
    for i := 0 to |times|
      invariant fresh(limiter) && limiter.State() == After(Window(0, start), times[..i])
      invariant allowed == Allowed(Window(0, start), times[..i])
    {
      assert times[..i + 1][..i] == times[..i];
      var ok := limiter.CheckRateLimit(times[i]);
      if ok { allowed := allowed + [times[i]]; }
    }
    assert times[..|times|] == times;
  }

  ghost predicate Clock(start: int, times: seq<int>) {
    && (forall i :: 0 <= i < |times| ==> start <= times[i])
    && forall i, j :: 0 <= i < j < |times| ==> times[i] <= times[j]
  }

  /** How many of the times lie in [a, b). */
  function CountIn(times: seq<int>, a: int, b: int): nat {
    if times == [] then 0
    else
      var t := times[|times| - 1];
      CountIn(times[..|times| - 1], a, b) + if a <= t < b then 1 else 0
  }

  /** The number of whole or partial windows in d milliseconds. */
  function Windows(d: int): nat {
    if d <= 0 then 0 else (d + 999) / 1000
  }

  lemma CountAppend(times: seq<int>, t: int, a: int, b: int)
    ensures CountIn(times + [t], a, b) == CountIn(times, a, b) + if a <= t < b then 1 else 0
  {
    assert (times + [t])[..|times|] == times;
  }

  lemma {:induction false} CountBelow(times: seq<int>, a: int, b: int)
    requires forall i :: 0 <= i < |times| ==> times[i] < a
    ensures CountIn(times, a, b) == 0
  {
    if times != [] { CountBelow(times[..|times| - 1], a, b); }
  }

  lemma {:induction false} AllowedAreTimes(w: Window, times: seq<int>)
    ensures forall t :: t in Allowed(w, times) ==> t in times
  {
    if times != [] { AllowedAreTimes(w, times[..|times| - 1]); }
  }

  /** One call keeps the budget: what was allowed from time a on fits the current window and the windows since a. */
  lemma CallKeepsBudget(w: Window, now: int, count: nat, a: int, b: int)
    requires w.counter <= 10 && w.start <= now && count <= w.counter + 10 * Windows(w.start - a)
    requires a >= now >= w.start + 1000 ==> count == 0
    ensures var (w', ok) := Checked(w, now);
            && w'.counter <= 10 && w.start <= w'.start <= now < w'.start + 1000
            && count + (if ok && a <= now < b then 1 else 0) <= w'.counter + 10 * Windows(w'.start - a)
  {
    if a < now && now >= w.start + 1000 { assert Windows(now - a) >= Windows(w.start - a) + 1; }
  }

  lemma AllowedBefore(w: Window, start: int, times: seq<int>, a: int, b: int)
    requires Clock(start, times) && (times != [] ==> times[|times| - 1] < a)
    ensures CountIn(Allowed(w, times), a, b) == 0
  {
    AllowedAreTimes(w, times);
    assert forall i :: 0 <= i < |times| ==> times[i] <= times[|times| - 1];
    var allowed := Allowed(w, times);
    assert forall i :: 0 <= i < |allowed| ==> allowed[i] in allowed;
    CountBelow(allowed, a, b);
  }

  lemma CountAllowed(w: Window, times: seq<int>, before: seq<int>, now: int, a: int, b: int)
    requires times != [] && before == times[..|times| - 1] && now == times[|times| - 1]
    ensures CountIn(Allowed(w, times), a, b) ==
            CountIn(Allowed(w, before), a, b) + if Checked(After(w, before), now).1 && a <= now < b then 1 else 0
  {
    CountAppend(Allowed(w, before), now, a, b);
    assert Allowed(w, before) + [] == Allowed(w, before);
  }

  lemma ClockPrefix(start: int, times: seq<int>, before: seq<int>)
    requires Clock(start, times) && times != [] && before == times[..|times| - 1]
    ensures Clock(start, before) && (if before == [] then start else before[|before| - 1]) <= times[|times| - 1]
  {
  }

  /** The current window covers the last call. */
  lemma {:induction false} WindowCoversLast(start: int, times: seq<int>)
    requires Clock(start, times)
    ensures var w := After(Window(0, start), times);
            && w.counter <= 10
            && if times == [] then w.start == start else w.start <= times[|times| - 1] < w.start + 1000
  {
    if times != [] {
      var before := times[..|times| - 1];
      WindowCoversLast(start, before);
      assert before != [] ==> before[|before| - 1] <= times[|times| - 1];
    }
  }

  lemma WindowBefore(start: int, times: seq<int>, before: seq<int>, w: Window)
    requires Clock(start, times) && times != [] && before == times[..|times| - 1] && w == After(Window(0, start), before)
    ensures w.counter <= 10 && w.start <= times[|times| - 1]
    ensures before != [] ==> before[|before| - 1] < w.start + 1000
  {
    ClockPrefix(start, times, before);
    WindowCoversLast(start, before);
  }

  /** What was allowed from time a on fits the current window and the full windows since a. */
  ghost predicate InBudget(start: int, times: seq<int>, a: int, b: int) {
    Paid(CountIn(Allowed(Window(0, start), times), a, b), After(Window(0, start), times), a)
  }

  ghost predicate Paid(count: nat, w: Window, a: int) {
    count <= w.counter + 10 * Windows(w.start - a)
  }

  /** The last call, given what is known of the calls before it. */
  lemma CallStaysInBudget(start: int, times: seq<int>, before: seq<int>, now: int, w: Window, count: nat, a: int, b: int)
    requires times != [] && before == times[..|times| - 1] && now == times[|times| - 1]
    requires w == After(Window(0, start), before) && count == CountIn(Allowed(Window(0, start), before), a, b)
    requires w.counter <= 10 && w.start <= now && Paid(count, w, a)
    requires a >= now >= w.start + 1000 ==> count == 0
    ensures InBudget(start, times, a, b)
  {
    hide Allowed, CountIn, Checked, Windows;
    CountAllowed(Window(0, start), times, before, now, a, b);
    CallKeepsBudget(w, now, count, a, b);
    assert After(Window(0, start), times) == Checked(w, now).0;
  }

  lemma {:induction false} WindowBudget(start: int, times: seq<int>, a: int, b: int)
    requires Clock(start, times)
    ensures InBudget(start, times, a, b)
  {
    if times != [] {
      var before, now := times[..|times| - 1], times[|times| - 1];
      var w := After(Window(0, start), before);
      ClockPrefix(start, times, before);
      WindowBudget(start, before, a, b);
      WindowBefore(start, times, before, w);
      if a >= now >= w.start + 1000 { AllowedBefore(Window(0, start), start, before, a, b); }
      CallStaysInBudget(start, times, before, now, w, CountIn(Allowed(Window(0, start), before), a, b), a, b);
    }
  }

  /** In every run, any n * 1000 ms contain at most 10 * (n + 1) allowed calls. */
  lemma {:induction false} AtMostPerInterval(start: int, times: seq<int>, a: int, n: nat)
    requires Clock(start, times)
    ensures CountIn(Allowed(Window(0, start), times), a, a + 1000 * n) <= 10 * (n + 1)
    decreases |times|
  {
    var b := a + 1000 * n;
    if times != [] {
      var m := |times| - 1;
      if times[m] >= b {
        AtMostPerInterval(start, times[..m], a, n);
        CountAllowed(Window(0, start), times, times[..m], times[m], a, b);
      } else {
        WindowBudget(start, times, a, b);
        WindowCoversLast(start, times);
        assert Windows(After(Window(0, start), times).start - a) <= n;
      }
    }
  }

  /** Ten calls just before the first window ends, then ten at the start of each later one. */
  function Bursts(n: nat): seq<int> {
    if n == 0 then Burst(999, 10) else Bursts(n - 1) + Burst(1000 * n, 10)
  }

  function Burst(t: int, k: nat): (r: seq<int>)
    ensures |r| == k && forall x :: x in r ==> x == t
  {
    seq(k, i requires 0 <= i < k => t)
  }

  lemma BurstGrows(times: seq<int>, t: int, k: nat)
    requires k > 0
    ensures times + Burst(t, k) == times + Burst(t, k - 1) + [t]
  {
  }

  /** One more call at t is allowed when its window is new or has room. */
  lemma OneMoreIsAllowed(w: Window, times: seq<int>, t: int)
    requires Checked(After(w, times), t).1
    ensures Allowed(w, times + [t]) == Allowed(w, times) + [t]
    ensures After(w, times + [t]) == Checked(After(w, times), t).0
  {
    assert (times + [t])[..|times|] == times;
  }

  lemma {:induction false} BurstIsAllowed(w: Window, times: seq<int>, t: int, k: nat)
    requires 1 <= k <= 10 && (t - After(w, times).start >= 1000 || After(w, times).counter == 0)
    ensures Allowed(w, times + Burst(t, k)) == Allowed(w, times) + Burst(t, k)
    ensures After(w, times + Burst(t, k)) == Window(k, if t - After(w, times).start >= 1000 then t else After(w, times).start)
  {
    if k == 1 {
      assert Burst(t, 1) == [t];
      OneMoreIsAllowed(w, times, t);
    } else {
      BurstIsAllowed(w, times, t, k - 1);
      BurstGrows(times, t, k);
      OneMoreIsAllowed(w, times + Burst(t, k - 1), t);
      BurstGrows(Allowed(w, times), t, k);
    }
  }

  lemma {:induction false} CountBurst(times: seq<int>, t: int, k: nat, a: int, b: int)
    requires a <= t < b
    ensures CountIn(times + Burst(t, k), a, b) == CountIn(times, a, b) + k
  {
    if k == 0 {
      assert times + Burst(t, 0) == times;
    } else {
      CountBurst(times, t, k - 1, a, b);
      BurstGrows(times, t, k);
      CountAppend(times + Burst(t, k - 1), t, a, b);
    }
  }

  lemma {:induction false} BurstsAreAllowed(n: nat)
    ensures Allowed(Window(0, 0), Bursts(n)) == Bursts(n)
    ensures After(Window(0, 0), Bursts(n)) == Window(10, 1000 * n)
  {
    var w := Window(0, 0);
    if n == 0 {
      BurstIsAllowed(w, [], 999, 10);
      assert [] + Burst(999, 10) == Bursts(0) && Allowed(w, []) + Burst(999, 10) == Bursts(0);
    } else {
      BurstsAreAllowed(n - 1);
      BurstIsAllowed(w, Bursts(n - 1), 1000 * n, 10);
    }
  }

  lemma {:induction false} CountBursts(n: nat, b: int)
    requires 1000 * n < b && 999 < b
    ensures CountIn(Bursts(n), 999, b) == 10 * (n + 1)
  {
    if n == 0 {
      CountBurst([], 999, 10, 999, b);
      assert [] + Burst(999, 10) == Bursts(0);
    } else {
      CountBursts(n - 1, b);
      CountBurst(Bursts(n - 1), 1000 * n, 10, 999, b);
    }
  }

  lemma {:induction false} BurstsAreClocked(n: nat)
    ensures Clock(0, Bursts(n))
    ensures forall t :: t in Bursts(n) ==> t <= if n == 0 then 999 else 1000 * n
  {
    if n == 0 {
      assert forall i :: 0 <= i < |Bursts(0)| ==> Bursts(0)[i] in Bursts(0);
    } else {
      BurstsAreClocked(n - 1);
      var u, v := Bursts(n - 1), Burst(1000 * n, 10);
      assert forall i :: 0 <= i < |u| ==> u[i] in u;
      assert forall i :: 0 <= i < |v| ==> v[i] in v;
    }
  }

  /** The bound is exact: for every n >= 1 some run meets it. So a sliding second can contain 20 allowed calls. */
  lemma BoundIsReached(n: nat)
    requires n >= 1
    ensures Clock(0, Bursts(n))
    ensures CountIn(Allowed(Window(0, 0), Bursts(n)), 999, 999 + 1000 * n) == 10 * (n + 1)
  {
    BurstsAreAllowed(n);
    CountBursts(n, 999 + 1000 * n);
    BurstsAreClocked(n);
  }

  // ----- when a second holds no more than the ten calls that were promised -----

  /** The guard under which a call starts a new window. */
  predicate Resets(start: int, times: seq<int>, r: nat)
    requires r < |times|
  {
    times[r] - After(Window(0, start), times[..r]).start >= WINDOW_MS
  }

  /** Call r lies in the second from a and starts a new window. */
  predicate ResetsIn(start: int, times: seq<int>, a: int, r: nat) {
    r < |times| && a <= times[r] < a + 1000 && Resets(start, times, r)
  }

  function AtMostTen(n: nat): nat {
    if n <= ENTRIES_PER_WINDOW then n else ENTRIES_PER_WINDOW
  }

  /** What was allowed in the second before call r, and what the new window allows of the calls from r on. */
  function AroundReset(start: int, times: seq<int>, a: int, r: nat): nat
    requires r < |times|
  {
    CountIn(Allowed(Window(0, start), times[..r]), a, a + 1000) + AtMostTen(CountIn(times[r..], a, a + 1000))
  }

  /** One more call after the reset: it is allowed, and counted, as long as fewer than ten came since. */
  lemma CallAfterReset(w: Window, t: int, a: int, k: nat, reset: int)
    requires a <= reset <= t && reset < a + 1000 && (t < a + 1000 ==> w == Window(AtMostTen(k), reset))
    ensures var (w', ok) := Checked(w, t);
            && (t < a + 1000 ==> w' == Window(AtMostTen(k + 1), reset))
            && (if ok && a <= t < a + 1000 then 1 else 0) == AtMostTen(if t < a + 1000 then k + 1 else k) - AtMostTen(k)
  {
  }

  lemma CountSince(times: seq<int>, before: seq<int>, t: int, r: nat, a: int, b: int)
    requires before + [t] == times && r <= |before|
    ensures CountIn(times[r..], a, b) == CountIn(before[r..], a, b) + if a <= t < b then 1 else 0
    ensures times[..r] == before[..r]
  {
    assert times[r..] == before[r..] + [t];
    CountAppend(before[r..], t, a, b);
  }

  ghost predicate CountedAround(start: int, times: seq<int>, a: int, r: nat)
    requires r < |times|
  {
    var w := After(Window(0, start), times);
    && CountIn(Allowed(Window(0, start), times), a, a + 1000) == AroundReset(start, times, a, r)
    && (times[|times| - 1] < a + 1000 ==> w == Window(AtMostTen(CountIn(times[r..], a, a + 1000)), times[r]))
  }

  lemma CountedAtReset(start: int, times: seq<int>, before: seq<int>, t: int, a: int)
    requires times == before + [t] && ResetsIn(start, times, a, |before|)
    ensures CountedAround(start, times, a, |before|)
  {
    assert before[|before|..] == [] && CountIn([], a, a + 1000) == 0;
    hide CountIn, Allowed;
    assert times[..|before|] == before;
    CountAllowed(Window(0, start), times, before, t, a, a + 1000);
    CountSince(times, before, t, |before|, a, a + 1000);
  }

  lemma CountedFurther(start: int, times: seq<int>, before: seq<int>, t: int, a: int, r: nat)
    requires times == before + [t] && r < |before| && a <= before[r] <= before[|before| - 1] <= t && before[r] < a + 1000
    requires CountedAround(start, before, a, r)
    ensures CountedAround(start, times, a, r)
  {
    var w := After(Window(0, start), before);
    assert times[..|before|] == before;
    CountAllowed(Window(0, start), times, before, t, a, a + 1000);
    CountSince(times, before, t, r, a, a + 1000);
    CallAfterReset(w, t, a, CountIn(before[r..], a, a + 1000), before[r]);
    assert After(Window(0, start), times) == Checked(w, t).0;
  }

  /** A second with a reset holds what was allowed before it and up to ten calls after it. */
  lemma {:induction false} CountAroundReset(start: int, times: seq<int>, a: int, r: nat)
    requires Clock(start, times) && ResetsIn(start, times, a, r)
    ensures CountedAround(start, times, a, r)
    ensures CountIn(Allowed(Window(0, start), times), a, a + 1000) == AroundReset(start, times, a, r)
    decreases |times|
  {
    hide After, Allowed, CountIn, Checked;
    var n := |times| - 1;
    var before := times[..n];
    assert times == before + [times[n]];
    if r == n {
      CountedAtReset(start, times, before, times[n], a);
    } else {
      assert before[..r] == times[..r];
      CountAroundReset(start, before, a, r);
      CountedFurther(start, times, before, times[n], a, r);
    }
  }

  /** At most one call in a second starts a new window. */
  lemma OneResetPerSecond(start: int, times: seq<int>, a: int, r: nat, s: nat)
    requires Clock(start, times) && r < s && ResetsIn(start, times, a, r)
    ensures !ResetsIn(start, times, a, s)
  {
    if ResetsIn(start, times, a, s) {
      var before := times[..s];
      assert before[..r] == times[..r];
      CountAroundReset(start, before, a, r);
    }
  }

  /** Without a reset the second lies in one window. */
  lemma {:induction false} CountWithoutReset(start: int, times: seq<int>, a: int)
    requires Clock(start, times) && forall r: nat :: !ResetsIn(start, times, a, r)
    ensures var count, w := CountIn(Allowed(Window(0, start), times), a, a + 1000), After(Window(0, start), times);
            count <= 10 && (times == [] || times[|times| - 1] < a + 1000 ==> count <= w.counter <= 10)
    decreases |times|
  {
    if times != [] {
      var n := |times| - 1;
      var before, t := times[..n], times[n];
      forall r: nat ensures !ResetsIn(start, before, a, r) {
        if r < n {
          assert before[..r] == times[..r];
          assert !ResetsIn(start, times, a, r);
        }
      }
      CountWithoutReset(start, before, a);
      CountAllowed(Window(0, start), times, before, t, a, a + 1000);
      WindowCoversLast(start, times);
      assert !ResetsIn(start, times, a, n);
      if t < a { AllowedBefore(Window(0, start), start, before, a, a + 1000); }
    }
  }

  /** Exactly when a second holds at most ten allowed calls: if no call in it starts a new window, or if what was
      allowed before the one that does leaves room for what the new window allows. */
  lemma TenPerSecondIff(start: int, times: seq<int>, a: int)
    requires Clock(start, times)
    ensures CountIn(Allowed(Window(0, start), times), a, a + 1000) <= 10 <==>
            forall r: nat :: ResetsIn(start, times, a, r) ==> AroundReset(start, times, a, r) <= 10
  {
    if r: nat :| ResetsIn(start, times, a, r) {
      CountAroundReset(start, times, a, r);
      forall s: nat | ResetsIn(start, times, a, s) ensures s == r {
        if s < r { OneResetPerSecond(start, times, a, s, r); }
        if s > r { OneResetPerSecond(start, times, a, r, s); }
      }
    } else {
      CountWithoutReset(start, times, a);
    }
  }

  // ----- the sanitizer -----

  const MAX_DEPTH: nat := 2
  const MAX_KEYS: nat := 20
  const MAX_KEY_LENGTH: nat := 50
  const MAX_STRING_LENGTH: nat := 2000

  /** A payload. An object or array is the list of its key-value pairs, in enumeration order. */
  datatype Json = Null | Bool(b: bool) | Num(n: int) | Str(s: string) | Obj(fields: seq<(string, Json)>)

  const RECURSION_LIMIT := Obj([("error", Str("recursion limit"))])

  function Slice(s: string, n: nat): (r: string)
    ensures r <= s && |r| == if |s| <= n then |s| else n
    ensures |s| <= n ==> r == s
  {
    if |s| <= n then s else s[..n]
  }

  function Keys(fields: seq<(string, Json)>): set<string> {
    set f | f in fields :: f.0
  }

  lemma KeysOfConcat(a: seq<(string, Json)>, b: seq<(string, Json)>)
    ensures Keys(a + b) == Keys(a) + Keys(b)
  {
    forall k | k in Keys(a) + Keys(b) ensures k in Keys(a + b) {
      if k in Keys(a) {
        var f :| f in a && f.0 == k;
        assert f in a + b;
      } else {
        var f :| f in b && f.0 == k;
        assert f in a + b;
      }
    }
  }

  /** Assignment to a property: in place if the key exists, else at the end. */
  function Put(fields: seq<(string, Json)>, key: string, value: Json): (r: seq<(string, Json)>)
    ensures Keys(r) == Keys(fields) + {key}
    ensures key !in Keys(fields) ==> r == fields + [(key, value)]
    ensures |r| == |fields| + if key in Keys(fields) then 0 else 1
    ensures forall i :: 0 <= i < |fields| ==> r[i].0 == fields[i].0
    ensures forall f :: f in r ==> f in fields || f == (key, value)
  {
    if fields == [] then [(key, value)]
    else
      KeysOfConcat([fields[0]], fields[1..]);
      assert fields == [fields[0]] + fields[1..];
      if fields[0].0 == key then
        KeysOfConcat([(key, value)], fields[1..]);
        [(key, value)] + fields[1..]
      else
        KeysOfConcat([fields[0]], Put(fields[1..], key, value));
        [fields[0]] + Put(fields[1..], key, value)
  }

  /** The loop of `sanitize` over the pairs that are left, with the count and the result so far. */
  function Fill(fields: seq<(string, Json)>, count: nat, depth: nat, ret: seq<(string, Json)>): seq<(string, Json)>
    requires depth < MAX_DEPTH
    decreases MAX_DEPTH - depth, |fields|
  {
    if fields == [] || count + 1 > MAX_KEYS then ret
    else
      var (key, value) := fields[0];
      var ret' :=
        if value.Null? then ret
        else Put(ret, Slice(key, MAX_KEY_LENGTH), SanitizedValue(value, depth));
      Fill(fields[1..], count + 1, depth, ret')
  }

  function SanitizedValue(value: Json, depth: nat): Json
    requires depth < MAX_DEPTH
    decreases MAX_DEPTH - depth, 0
  {
    match value
    case Obj(fields) => Sanitized(fields, depth + 1)
    case Str(s) => Str(Slice(s, MAX_STRING_LENGTH))
    case _ => value
  }

  function Sanitized(fields: seq<(string, Json)>, depth: nat): Json
    decreases MAX_DEPTH - depth, |fields| + 1
  {
    if depth >= MAX_DEPTH then RECURSION_LIMIT else Obj(Fill(fields, 0, depth, []))
  }

  /** What the loop makes of the pairs from i on. */
  function FillFrom(fields: seq<(string, Json)>, i: nat, depth: nat, ret: seq<(string, Json)>): seq<(string, Json)>
    requires i <= |fields| && depth < MAX_DEPTH
  {
    Fill(fields[i..], i, depth, ret)
  }

  lemma FillFromStart(fields: seq<(string, Json)>, depth: nat)
    ensures Sanitized(fields, depth) == if depth < MAX_DEPTH then Obj(FillFrom(fields, 0, depth, [])) else RECURSION_LIMIT
  {
    assert fields[0..] == fields;
  }

  /** What the loop does with a pair that is not null, once its value is clean. */
  function Stored(ret: seq<(string, Json)>, key: string, clean: Json): seq<(string, Json)> {
    Put(ret, Slice(key, MAX_KEY_LENGTH), clean)
  }

  /** One turn of the loop, and its end. */
  lemma FillStep(fields: seq<(string, Json)>, i: nat, depth: nat, ret: seq<(string, Json)>)
    requires i <= |fields| && depth < MAX_DEPTH
    ensures FillFrom(fields, i, depth, ret) ==
            if i == |fields| || i + 1 > MAX_KEYS then ret
            else
              var (key, value) := fields[i];
              FillFrom(fields, i + 1, depth,
                       if value.Null? then ret else Stored(ret, key, SanitizedValue(value, depth)))
  {
    hide Put, SanitizedValue, Slice;
    if i < |fields| { assert fields[i..][1..] == fields[i + 1..] && fields[i..][0] == fields[i]; }
  }

  lemma ValueCases(value: Json, depth: nat)
    requires depth < MAX_DEPTH
    ensures SanitizedValue(value, depth) ==
            if value.Obj? then Sanitized(value.fields, depth + 1)
            else if value.Str? then Str(Slice(value.s, MAX_STRING_LENGTH)) else value
  {
    hide Sanitized, Slice;
  }

  method Sanitize(fields: seq<(string, Json)>, depth: nat) returns (r: Json)
    ensures r == Sanitized(fields, depth)
    decreases MAX_DEPTH - depth
  {
    hide FillFrom, Sanitized, SanitizedValue, Stored, Slice;
    FillFromStart(fields, depth);
    if depth >= MAX_DEPTH { return RECURSION_LIMIT; }
    var ret := [];
    var count := 0;
    var i := 0;
    while i < |fields|
      invariant 0 <= i <= |fields| && count == i
      invariant FillFrom(fields, 0, depth, []) == FillFrom(fields, i, depth, ret)
    {
      FillStep(fields, i, depth, ret);
      count := count + 1;
      if count > MAX_KEYS { break; }
      var (key, value) := fields[i];
      i := i + 1;
      if value.Null? { continue; }
      var clean := value;
      match value {
        case Obj(inner) => clean := Sanitize(inner, depth + 1);
        case Str(s) => clean := Str(Slice(s, MAX_STRING_LENGTH));
        case _ =>
      }
      ValueCases(value, depth);
      ret := Stored(ret, key, clean);
    }
    FillStep(fields, i, depth, ret);
    return Obj(ret);
  }

  // ----- what a sanitized payload is, and that sanitizing is idempotent -----

  ghost predicate DistinctKeys(fields: seq<(string, Json)>) {
    forall i, j :: 0 <= i < j < |fields| ==> fields[i].0 != fields[j].0
  }

  /** At most 20 keys of at most 50 characters, no nulls, strings of at most 2000 characters, and objects
      nested at most two deep below the top, where the third level says that the limit was hit. */
  ghost predicate Clean(j: Json, depth: nat)
    decreases MAX_DEPTH - depth, 2
  {
    if depth >= MAX_DEPTH then j == RECURSION_LIMIT
    else j.Obj? && |j.fields| <= MAX_KEYS && DistinctKeys(j.fields) && forall f :: f in j.fields ==> CleanField(f, depth)
  }

  ghost predicate CleanField(f: (string, Json), depth: nat)
    requires depth < MAX_DEPTH
    decreases MAX_DEPTH - depth, 1
  {
    |f.0| <= MAX_KEY_LENGTH && CleanValue(f.1, depth)
  }

  ghost predicate CleanValue(v: Json, depth: nat)
    requires depth < MAX_DEPTH
    decreases MAX_DEPTH - depth, 0
  {
    match v
    case Null => false
    case Str(s) => |s| <= MAX_STRING_LENGTH
    case Obj(_) => Clean(v, depth + 1)
    case _ => true
  }

  lemma PutKeepsDistinct(fields: seq<(string, Json)>, key: string, value: Json)
    requires DistinctKeys(fields)
    ensures DistinctKeys(Put(fields, key, value))
  {
    if fields != [] && fields[0].0 != key {
      PutKeepsDistinct(fields[1..], key, value);
      var rest := Put(fields[1..], key, value);
      forall i | 0 <= i < |rest| ensures rest[i].0 != fields[0].0 {
        assert rest[i] in rest;
        if rest[i] in fields[1..] { assert exists j :: 0 <= j < |fields[1..]| && fields[1..][j] == rest[i]; }
      }
    }
  }

  lemma {:induction false} FillIsClean(fields: seq<(string, Json)>, count: nat, depth: nat, ret: seq<(string, Json)>)
    requires depth < MAX_DEPTH && |ret| <= count <= MAX_KEYS
    requires DistinctKeys(ret) && forall f :: f in ret ==> CleanField(f, depth)
    ensures Clean(Obj(Fill(fields, count, depth, ret)), depth)
    decreases MAX_DEPTH - depth, |fields|, 1
  {
    hide CleanField, DistinctKeys, Put, SanitizedValue, Slice;
    if fields != [] && count + 1 <= MAX_KEYS {
      var (key, value) := fields[0];
      if value.Null? {
        FillIsClean(fields[1..], count + 1, depth, ret);
      } else {
        var v := SanitizedValue(value, depth);
        ValueIsClean(fields, depth);
        PutKeepsDistinct(ret, Slice(key, MAX_KEY_LENGTH), v);
        FillIsClean(fields[1..], count + 1, depth, Put(ret, Slice(key, MAX_KEY_LENGTH), v));
      }
    }
  }

  lemma {:induction false} ValueIsClean(fields: seq<(string, Json)>, depth: nat)
    requires depth < MAX_DEPTH && fields != [] && !fields[0].1.Null?
    ensures CleanField((Slice(fields[0].0, MAX_KEY_LENGTH), SanitizedValue(fields[0].1, depth)), depth)
    decreases MAX_DEPTH - depth, |fields|, 0
  {
    hide Sanitized, Clean;
    var value := fields[0].1;
    if value.Obj? { SanitizedIsClean(value.fields, depth + 1); }
  }

  /** Whatever comes in, what goes out is bounded in depth, breadth, key length and string length. */
  lemma {:induction false} SanitizedIsClean(fields: seq<(string, Json)>, depth: nat)
    ensures Clean(Sanitized(fields, depth), depth) && Sanitized(fields, depth).Obj?
    decreases MAX_DEPTH - depth, |fields| + 1
  {
    if depth < MAX_DEPTH { FillIsClean(fields, 0, depth, []); }
  }

  lemma {:induction false} CleanIsFixed(j: Json, depth: nat)
    requires Clean(j, depth) && j.Obj?
    ensures Sanitized(j.fields, depth) == j
    decreases MAX_DEPTH - depth, |j.fields| + 1
  {
    if depth < MAX_DEPTH {
      assert j.fields[..0] == [];
      FillFromStart(j.fields, depth);
      FillOfClean(j, depth, 0);
    }
  }

  lemma {:induction false} FillOfClean(j: Json, depth: nat, i: nat)
    requires depth < MAX_DEPTH && Clean(j, depth) && i <= |j.fields|
    ensures FillFrom(j.fields, i, depth, j.fields[..i]) == j.fields
    decreases MAX_DEPTH - depth, |j.fields| - i, 1
  {
    hide FillFrom, Put, Slice, SanitizedValue, Keys, CleanField;
    FillStep(j.fields, i, depth, j.fields[..i]);
    if i < |j.fields| {
      FieldIsFixed(j, depth, i);
      KeyIsNew(j.fields, i);
      assert j.fields[..i] + [j.fields[i]] == j.fields[..i + 1];
      FillOfClean(j, depth, i + 1);
    } else {
      assert j.fields[..i] == j.fields;
    }
  }

  lemma {:induction false} FieldIsFixed(j: Json, depth: nat, i: nat)
    requires depth < MAX_DEPTH && Clean(j, depth) && i < |j.fields|
    ensures var (key, value) := j.fields[i];
            !value.Null? && Slice(key, MAX_KEY_LENGTH) == key && SanitizedValue(value, depth) == value
    decreases MAX_DEPTH - depth, |j.fields| - i, 0
  {
    hide Sanitized;
    var f := j.fields[i];
    assert f in j.fields && CleanField(f, depth);
    if f.1.Obj? { CleanIsFixed(f.1, depth + 1); }
  }

  lemma KeyIsNew(fields: seq<(string, Json)>, i: nat)
    requires DistinctKeys(fields) && i < |fields|
    ensures fields[i].0 !in Keys(fields[..i])
  {
  }

  /** The first pairs that the loop looks at. */
  function Considered(fields: seq<(string, Json)>): nat {
    if |fields| <= MAX_KEYS then |fields| else MAX_KEYS
  }

  /** The result after the first i pairs. */
  function FilledUpTo(fields: seq<(string, Json)>, i: nat, depth: nat): seq<(string, Json)>
    requires i <= |fields| && depth < MAX_DEPTH
  {
    if i == 0 then []
    else
      var ret := FilledUpTo(fields, i - 1, depth);
      var (key, value) := fields[i - 1];
      if value.Null? then ret else Put(ret, Slice(key, MAX_KEY_LENGTH), SanitizedValue(value, depth))
  }

  lemma FilledStep(fields: seq<(string, Json)>, i: nat, depth: nat)
    requires i < |fields| && depth < MAX_DEPTH
    ensures var (key, value), ret := fields[i], FilledUpTo(fields, i, depth);
            FilledUpTo(fields, i + 1, depth) ==
            if value.Null? then ret else Put(ret, Slice(key, MAX_KEY_LENGTH), SanitizedValue(value, depth))
  {
    hide Put, Slice, SanitizedValue;
  }

  lemma {:induction false} FillIsFilledUpTo(fields: seq<(string, Json)>, i: nat, depth: nat)
    requires i <= Considered(fields) && depth < MAX_DEPTH
    ensures FillFrom(fields, i, depth, FilledUpTo(fields, i, depth)) == FilledUpTo(fields, Considered(fields), depth)
    decreases Considered(fields) - i
  {
    hide FillFrom, FilledUpTo, Put, Slice, SanitizedValue;
    FillStep(fields, i, depth, FilledUpTo(fields, i, depth));
    if i < Considered(fields) {
      FilledStep(fields, i, depth);
      FillIsFilledUpTo(fields, i + 1, depth);
    }
  }

  /** Pair i is the last of the first n that writes its shortened key. */
  ghost predicate Survives(fields: seq<(string, Json)>, n: nat, i: nat) {
    && i < n <= |fields| && !fields[i].1.Null?
    && forall j :: i < j < n && !fields[j].1.Null? ==>
         Slice(fields[j].0, MAX_KEY_LENGTH) != Slice(fields[i].0, MAX_KEY_LENGTH)
  }

  ghost predicate From(f: (string, Json), fields: seq<(string, Json)>, n: nat, depth: nat)
    requires depth < MAX_DEPTH
  {
    exists i: nat :: Survives(fields, n, i) && f == (Slice(fields[i].0, MAX_KEY_LENGTH), SanitizedValue(fields[i].1, depth))
  }

  lemma {:induction false} PutMembers(fields: seq<(string, Json)>, key: string, value: Json, f: (string, Json))
    requires DistinctKeys(fields)
    ensures f in Put(fields, key, value) <==> f == (key, value) || (f in fields && f.0 != key)
  {
    if fields != [] {
      assert fields == [fields[0]] + fields[1..];
      if fields[0].0 == key {
        assert f in fields[1..] ==> f.0 != key;
      } else {
        PutMembers(fields[1..], key, value, f);
      }
    }
  }

  lemma SurvivesStep(fields: seq<(string, Json)>, n: nat)
    requires 0 < n <= |fields| && !fields[n - 1].1.Null?
    ensures Survives(fields, n, n - 1)
    ensures forall i: nat :: i < n - 1 ==>
              (Survives(fields, n, i) <==>
               Survives(fields, n - 1, i) && Slice(fields[i].0, MAX_KEY_LENGTH) != Slice(fields[n - 1].0, MAX_KEY_LENGTH))
  {
  }

  lemma NullStep(fields: seq<(string, Json)>, n: nat, depth: nat, f: (string, Json))
    requires 0 < n <= |fields| && depth < MAX_DEPTH && fields[n - 1].1.Null?
    ensures From(f, fields, n, depth) <==> From(f, fields, n - 1, depth)
  {
    hide Slice, SanitizedValue;
    assert forall i: nat :: Survives(fields, n, i) <==> Survives(fields, n - 1, i);
  }

  lemma PutStep(fields: seq<(string, Json)>, n: nat, depth: nat, f: (string, Json))
    requires 0 < n <= |fields| && depth < MAX_DEPTH && !fields[n - 1].1.Null?
    ensures var k := Slice(fields[n - 1].0, MAX_KEY_LENGTH);
            From(f, fields, n, depth) <==>
              f == (k, SanitizedValue(fields[n - 1].1, depth)) || (From(f, fields, n - 1, depth) && f.0 != k)
  {
    SurvivesStep(fields, n);
    hide Slice, SanitizedValue, Survives;
    SurviveWithin(fields, n);
    SurviveWithin(fields, n - 1);
  }

  lemma SurviveWithin(fields: seq<(string, Json)>, n: nat)
    ensures forall i: nat :: Survives(fields, n, i) ==> i < n
  {
  }

  lemma NothingFilled(fields: seq<(string, Json)>, depth: nat, f: (string, Json))
    requires depth < MAX_DEPTH
    ensures FilledUpTo(fields, 0, depth) == [] && DistinctKeys([]) && !From(f, fields, 0, depth)
  {
    hide Slice, SanitizedValue;
  }

  lemma {:induction false} FilledMembers(fields: seq<(string, Json)>, n: nat, depth: nat, f: (string, Json))
    requires n <= |fields| && depth < MAX_DEPTH
    ensures DistinctKeys(FilledUpTo(fields, n, depth))
    ensures f in FilledUpTo(fields, n, depth) <==> From(f, fields, n, depth)
  {
    hide DistinctKeys, From, Put, Slice, SanitizedValue;
    if n == 0 {
      NothingFilled(fields, depth, f);
    } else {
      FilledMembers(fields, n - 1, depth, f);
      MembersStep(fields, n, depth, f);
    }
  }

  lemma MembersStep(fields: seq<(string, Json)>, n: nat, depth: nat, f: (string, Json))
    requires 0 < n <= |fields| && depth < MAX_DEPTH
    requires DistinctKeys(FilledUpTo(fields, n - 1, depth))
    requires f in FilledUpTo(fields, n - 1, depth) <==> From(f, fields, n - 1, depth)
    ensures DistinctKeys(FilledUpTo(fields, n, depth))
    ensures f in FilledUpTo(fields, n, depth) <==> From(f, fields, n, depth)
  {
    hide DistinctKeys, From, Put, Slice, SanitizedValue;
    var ret := FilledUpTo(fields, n - 1, depth);
    var (key, value) := fields[n - 1];
    if value.Null? {
      NullStep(fields, n, depth, f);
    } else {
      var k := Slice(key, MAX_KEY_LENGTH);
      PutKeepsDistinct(ret, k, SanitizedValue(value, depth));
      PutMembers(ret, k, SanitizedValue(value, depth), f);
      PutStep(fields, n, depth, f);
    }
  }

  /** What a sanitized payload holds: of the first 20 pairs, those that are not null and not overwritten by a
      later one with the same shortened key, with their values sanitized in turn; and nothing else. */
  lemma SanitizedHolds(fields: seq<(string, Json)>, depth: nat, f: (string, Json))
    requires depth < MAX_DEPTH
    ensures Sanitized(fields, depth).Obj?
    ensures f in Sanitized(fields, depth).fields <==> From(f, fields, Considered(fields), depth)
  {
    FilledMembers(fields, Considered(fields), depth, f);
    FillIsFilledUpTo(fields, 0, depth);
    FillFromStart(fields, depth);
  }

  // ----- the same in terms of the payload alone -----

  /** r is what is left of s when it is cut after n characters. */
  predicate Cut(r: string, s: string, n: nat) {
    r <= s && |r| == if |s| <= n then |s| else n
  }

  /** Two keys that cannot be told apart by their first 50 characters. */
  predicate Clash(a: string, b: string) {
    a == b || (|a| >= 50 && |b| >= 50 && a[..50] == b[..50])
  }

  /** Pair i is among the first 20 and not null, and no later one of these clashes with it. */
  ghost predicate Chosen(fields: seq<(string, Json)>, i: nat) {
    && i < |fields| && i < 20 && !fields[i].1.Null?
    && forall j :: i < j < |fields| && j < 20 && !fields[j].1.Null? ==> !Clash(fields[j].0, fields[i].0)
  }

  /** The pair f is what g becomes: its key and its string cut after 50 and 2000 characters, an object sanitized in turn,
      or replaced by a note if it is the third level. */
  ghost predicate Trims(f: (string, Json), g: (string, Json), depth: nat)
    requires depth < 2
    decreases 2 - depth, 0
  {
    && Cut(f.0, g.0, 50)
    && match g.1
       case Str(s) => f.1.Str? && Cut(f.1.s, s, 2000)
       case Obj(inner) =>
         if depth == 1 then f.1 == Obj([("error", Str("recursion limit"))])
         else f.1.Obj? && Selects(f.1.fields, inner, depth + 1)
       case _ => f.1 == g.1
  }

  /** The result has one pair for each chosen one, and no others. */
  ghost predicate Selects(out: seq<(string, Json)>, fields: seq<(string, Json)>, depth: nat)
    requires depth < 2
    decreases 2 - depth, 2
  {
    && DistinctKeys(out)
    && (forall f :: f in out ==> Stems(f, fields, depth))
    && forall i: nat {:trigger Chosen(fields, i)} :: Chosen(fields, i) ==> exists f :: f in out && Trims(f, fields[i], depth)
  }

  ghost predicate Stems(f: (string, Json), fields: seq<(string, Json)>, depth: nat)
    requires depth < 2
    decreases 2 - depth, 1
  {
    exists i: nat {:trigger Chosen(fields, i)} :: Chosen(fields, i) && Trims(f, fields[i], depth)
  }

  lemma ClashIff(a: string, b: string)
    ensures Slice(a, MAX_KEY_LENGTH) == Slice(b, MAX_KEY_LENGTH) <==> Clash(a, b)
  {
    var x, y := Slice(a, MAX_KEY_LENGTH), Slice(b, MAX_KEY_LENGTH);
    assert |a| >= 50 ==> x == a[..50];
    assert |b| >= 50 ==> y == b[..50];
  }

  lemma ChosenIff(fields: seq<(string, Json)>, i: nat)
    ensures Chosen(fields, i) <==> Survives(fields, Considered(fields), i)
  {
    hide Clash, Slice;
    forall j | 0 <= j < |fields| && i < |fields|
      ensures Slice(fields[j].0, MAX_KEY_LENGTH) == Slice(fields[i].0, MAX_KEY_LENGTH) <==> Clash(fields[j].0, fields[i].0)
    {
      ClashIff(fields[j].0, fields[i].0);
    }
  }

  lemma {:induction false} ValueTrims(g: (string, Json), depth: nat)
    requires depth < 2
    ensures Trims((Slice(g.0, MAX_KEY_LENGTH), SanitizedValue(g.1, depth)), g, depth)
    decreases 2 - depth, 0
  {
    hide Slice, Selects;
    if g.1.Obj? && depth == 0 { SanitizedSelects(g.1.fields, 1); }
  }

  /** What a sanitized payload is, for every payload: a selection of its pairs, cut and sanitized in turn. */
  lemma {:induction false} SanitizedSelects(fields: seq<(string, Json)>, depth: nat)
    requires depth < 2
    ensures Sanitized(fields, depth).Obj? && Selects(Sanitized(fields, depth).fields, fields, depth)
    decreases 2 - depth, 1
  {
    hide Sanitized, Slice, SanitizedValue, Trims, DistinctKeys, Clash;
    SanitizedIsClean(fields, depth);
    var out := Sanitized(fields, depth).fields;
    forall f | f in out ensures Stems(f, fields, depth) {
      SanitizedHolds(fields, depth, f);
      var i: nat :| Survives(fields, Considered(fields), i)
                    && f == (Slice(fields[i].0, MAX_KEY_LENGTH), SanitizedValue(fields[i].1, depth));
      ChosenIff(fields, i);
      ValueTrims(fields[i], depth);
    }
    forall i: nat | Chosen(fields, i) ensures exists f :: f in out && Trims(f, fields[i], depth) {
      ChosenIff(fields, i);
      var f := (Slice(fields[i].0, MAX_KEY_LENGTH), SanitizedValue(fields[i].1, depth));
      SanitizedHolds(fields, depth, f);
      ValueTrims(fields[i], depth);
    }
  }

  /** Sanitizing a sanitized payload changes nothing. */
  lemma SanitizeIsIdempotent(fields: seq<(string, Json)>)
    ensures Sanitized(fields, 0).Obj?
    ensures Sanitized(Sanitized(fields, 0).fields, 0) == Sanitized(fields, 0)
  {
    SanitizedIsClean(fields, 0);
    CleanIsFixed(Sanitized(fields, 0), 0);
  }
}
