/** The fixed-window rate limiter: lazy expiry, periodic sweeping, and the
    never-swept specification it refines. Times are milliseconds. */
module RateLimit {
  import opened Common

  datatype Entry = Entry(count: nat, resetAt: int)

  datatype Decision = Decision(allowed: bool, retryAfterSeconds: int)

  datatype Limits = Limits(limit: int, windowMs: nat)

  /** `now` is when a call consults the windows, `later` when it reads the clock
      again for its answer. */
  datatype Call =
    | Hit(key: string, now: nat, later: nat)
    | Check(key: string, now: nat, later: nat)

  /** The limiter's fields. */
  datatype Limiter = Limiter(windows: map<string, Entry>, nextSweepAt: int)

  const Fresh := Limiter(map[], 0)

  /** Least number of whole seconds not below `ms` milliseconds, at least one. */
  function RetryAfter(resetAt: int, later: int): int {
    Max(1, (resetAt - later + 999) / 1000)
  }

  function Decide(entry: Entry, later: int, allowed: bool): Decision {
    Decision(allowed, RetryAfter(entry.resetAt, later))
  }

  function Live(windows: map<string, Entry>, now: int): map<string, Entry> {
    map k | k in windows && windows[k].resetAt > now :: windows[k]
  }

  function Sweep(l: Limiter, now: int, windowMs: nat): Limiter {
    if now >= l.nextSweepAt then Limiter(Live(l.windows, now), now + windowMs) else l
  }

  /** The entry a call works on, after expiry and, for a hit, creation. */
  function Current(l: Limiter, limits: Limits, key: string, now: int, create: bool): (Limiter, Option<Entry>) {
    var swept := Sweep(l, now, limits.windowMs);
    if key in swept.windows && swept.windows[key].resetAt > now then (swept, Some(swept.windows[key]))
    else
      var dropped := swept.(windows := swept.windows - {key});
      if create then
        var entry := Entry(0, now + limits.windowMs);
        (dropped.(windows := dropped.windows[key := entry]), Some(entry))
      else (dropped, None)
  }

  function Step(l: Limiter, limits: Limits, c: Call): (Limiter, Decision) {
    match c
    case Hit(key, now, later) =>
      var (l', entry) := Current(l, limits, key, now, true);
      var counted := Entry(entry.value.count + 1, entry.value.resetAt);
      (l'.(windows := l'.windows[key := counted]), Decide(counted, later, counted.count <= limits.limit))
    case Check(key, now, later) =>
      var (l', entry) := Current(l, limits, key, now, false);
      (l', if entry.Some? then Decide(entry.value, later, entry.value.count < limits.limit) else Decision(true, 0))
  }

  function Run(l: Limiter, limits: Limits, calls: seq<Call>): (r: (Limiter, seq<Decision>))
    ensures |r.1| == |calls|
  {
    if calls == [] then (l, [])
    else
      var (l', decisions) := Run(l, limits, calls[..|calls| - 1]);
      var (l'', decision) := Step(l', limits, calls[|calls| - 1]);
      (l'', decisions + [decision])
  }

  // ---------------------------------------------------------------------
  // The specification: one window per key, nothing ever swept

  /** The window of `key` that is open at `now`, if any. */
  function OpenWindow(windows: map<string, Entry>, key: string, now: int): Option<Entry> {
    if key in windows && windows[key].resetAt > now then Some(windows[key]) else None
  }

  function SpecStep(windows: map<string, Entry>, limits: Limits, c: Call): (map<string, Entry>, Decision) {
    var open := OpenWindow(windows, c.key, c.now);
    match c
    case Hit(key, now, later) =>
      var counted := if open.Some? then Entry(open.value.count + 1, open.value.resetAt) else Entry(1, now + limits.windowMs);
      (windows[key := counted], Decide(counted, later, counted.count <= limits.limit))
    case Check(_, _, later) =>
      (windows, if open.Some? then Decide(open.value, later, open.value.count < limits.limit) else Decision(true, 0))
  }

  function SpecRun(limits: Limits, calls: seq<Call>): (r: (map<string, Entry>, seq<Decision>))
    ensures |r.1| == |calls|
  {
    if calls == [] then (map[], [])
    else
      var (windows, decisions) := SpecRun(limits, calls[..|calls| - 1]);
      var (windows', decision) := SpecStep(windows, limits, calls[|calls| - 1]);
      (windows', decisions + [decision])
  }

  ghost predicate ClockMonotone(calls: seq<Call>) {
    forall i, j :: 0 <= i < j < |calls| ==> calls[i].now <= calls[j].now
  }

  /** From `now` on, both sides see the same open windows. */
  ghost predicate Agree(l: Limiter, windows: map<string, Entry>, now: int) {
    Live(l.windows, now) == Live(windows, now)
  }

  lemma LaterStillAgrees(l: Limiter, windows: map<string, Entry>, now: int, then': int)
    requires Agree(l, windows, now) && now <= then'
    ensures Agree(l, windows, then')
  {
    forall k
      ensures k in Live(l.windows, then') <==> k in Live(windows, then')
      ensures k in Live(l.windows, then') ==> Live(l.windows, then')[k] == Live(windows, then')[k]
    {
      assert k in Live(l.windows, now) <==> k in Live(windows, now);
    }
  }

  lemma SweepAgrees(l: Limiter, limits: Limits, now: int)
    ensures Live(Sweep(l, now, limits.windowMs).windows, now) == Live(l.windows, now)
  {
  }

  lemma StepAgrees(l: Limiter, windows: map<string, Entry>, limits: Limits, c: Call)
    requires Agree(l, windows, c.now)
    ensures Step(l, limits, c).1 == SpecStep(windows, limits, c).1
    ensures Agree(Step(l, limits, c).0, SpecStep(windows, limits, c).0, c.now)
  {
    SweepAgrees(l, limits, c.now);
    var swept := Sweep(l, c.now, limits.windowMs);
    assert c.key in Live(swept.windows, c.now) <==> c.key in Live(windows, c.now);
    var l', windows' := Step(l, limits, c).0, SpecStep(windows, limits, c).0;
    forall k
      ensures k in Live(l'.windows, c.now) <==> k in Live(windows', c.now)
      ensures k in Live(l'.windows, c.now) ==> Live(l'.windows, c.now)[k] == Live(windows', c.now)[k]
    {
      assert k in Live(swept.windows, c.now) <==> k in Live(windows, c.now);
      if k in Live(swept.windows, c.now) { assert Live(swept.windows, c.now)[k] == Live(windows, c.now)[k]; }
    }
  }

  /** For every sequence of hits and checks of any keys under a monotone clock,
      sweeping and lazy expiry never change an answer. */
  lemma {:induction false} RefinesUnsweptWindows(limits: Limits, calls: seq<Call>)
    requires ClockMonotone(calls)
    ensures Run(Fresh, limits, calls).1 == SpecRun(limits, calls).1
    ensures calls != [] ==> Agree(Run(Fresh, limits, calls).0, SpecRun(limits, calls).0, calls[|calls| - 1].now)
  {
    if calls != [] {
      var init, last := calls[..|calls| - 1], calls[|calls| - 1];
      RefinesUnsweptWindows(limits, init);
      var l, windows := Run(Fresh, limits, init).0, SpecRun(limits, init).0;
      if init != [] {
        LaterStillAgrees(l, windows, init[|init| - 1].now, last.now);
      } else {
        assert Agree(l, windows, last.now);
      }
      StepAgrees(l, windows, limits, last);
    }
  }

  // ---------------------------------------------------------------------
  // Memory

  /** Entries survive a sweep only while open, and a sweep is never more than a
      window away. */
  ghost predicate Bounded(l: Limiter, limits: Limits, now: int) {
    && now < l.nextSweepAt <= now + limits.windowMs
    && forall k | k in l.windows :: l.nextSweepAt - limits.windowMs < l.windows[k].resetAt <= now + limits.windowMs
  }

  lemma StepBounded(l: Limiter, limits: Limits, c: Call, before: int)
    requires limits.windowMs > 0 && before <= c.now
    requires Bounded(l, limits, before) || l == Fresh
    ensures Bounded(Step(l, limits, c).0, limits, c.now)
  {
  }

  /** Every entry still stored after a call was created less than two windows,
      indeed at most two windows less two milliseconds, before that call. */
  lemma {:induction false} StoredEntriesAreRecent(limits: Limits, calls: seq<Call>)
    requires limits.windowMs > 0 && ClockMonotone(calls) && calls != []
    ensures var l, now := Run(Fresh, limits, calls).0, calls[|calls| - 1].now;
            Bounded(l, limits, now)
            && forall k | k in l.windows :: now - 2 * limits.windowMs + 2 <= l.windows[k].resetAt - limits.windowMs <= now
  {
    var init, last := calls[..|calls| - 1], calls[|calls| - 1];
    if init == [] {
      StepBounded(Fresh, limits, last, last.now);
    } else {
      StoredEntriesAreRecent(limits, init);
      StepBounded(Run(Fresh, limits, init).0, limits, last, init[|init| - 1].now);
    }
  }

  /** A hit right after a sweep is still stored just before the sweep after next. */
  function LastingCalls(windowMs: nat): seq<Call>
    requires windowMs >= 1
  {
    [Hit("a", 0, 0), Hit("k", 1, 1), Check("a", windowMs, windowMs), Check("a", 2 * windowMs - 1, 2 * windowMs - 1)]
  }

  lemma RunSnoc(l: Limiter, limits: Limits, calls: seq<Call>, c: Call)
    ensures Run(l, limits, calls + [c]).0 == Step(Run(l, limits, calls).0, limits, c).0
  {
    assert (calls + [c])[..|calls|] == calls;
  }

  /** That age is attained whatever the limit: entries do outlive their window. */
  lemma EntriesOutliveTheirWindow(limits: Limits)
    requires limits.windowMs >= 2
    ensures var calls := LastingCalls(limits.windowMs);
            var windows, now := Run(Fresh, limits, calls).0.windows, calls[3].now;
            ClockMonotone(calls) && "k" in windows && windows["k"].resetAt - limits.windowMs == now - 2 * limits.windowMs + 2
  {
    var c, w := LastingCalls(limits.windowMs), limits.windowMs;
    assert [] + [c[0]] == [c[0]] && [c[0]] + [c[1]] == [c[0], c[1]];
    assert [c[0], c[1]] + [c[2]] == [c[0], c[1], c[2]] && [c[0], c[1], c[2]] + [c[3]] == c;
    RunSnoc(Fresh, limits, [], c[0]);
    var first := Run(Fresh, limits, [c[0]]).0;
    assert first.nextSweepAt == w && first.windows.Keys == {"a"};
    RunSnoc(Fresh, limits, [c[0]], c[1]);
    var second := Run(Fresh, limits, [c[0], c[1]]).0;
    assert second.nextSweepAt == w && "k" in second.windows && second.windows["k"].resetAt == w + 1;
    RunSnoc(Fresh, limits, [c[0], c[1]], c[2]);
    var third := Run(Fresh, limits, [c[0], c[1], c[2]]).0;
    assert "a" != "k" && third.nextSweepAt == 2 * w && "k" in third.windows && third.windows["k"].resetAt == w + 1;
    RunSnoc(Fresh, limits, [c[0], c[1], c[2]], c[3]);
  }

  // ---------------------------------------------------------------------
  // How many hits can be allowed in any stretch of one window's length

  function WindowAfter(limits: Limits, calls: seq<Call>, n: nat, key: string): Option<Entry>
    requires n <= |calls|
  {
    var windows := SpecRun(limits, calls[..n]).0;
    if key in windows then Some(windows[key]) else None
  }

  predicate HitOf(calls: seq<Call>, i: int, key: string) {
    0 <= i < |calls| && calls[i].Hit? && calls[i].key == key
  }

  lemma OneMoreCall(limits: Limits, calls: seq<Call>, n: nat)
    requires n < |calls|
    ensures SpecRun(limits, calls[..n + 1]).0 == SpecStep(SpecRun(limits, calls[..n]).0, limits, calls[n]).0
    ensures SpecRun(limits, calls[..n + 1]).1
            == SpecRun(limits, calls[..n]).1 + [SpecStep(SpecRun(limits, calls[..n]).0, limits, calls[n]).1]
  {
    assert calls[..n + 1][..n] == calls[..n];
  }

  /** What one call does to the window of a key. */
  lemma NextWindow(limits: Limits, calls: seq<Call>, n: nat, key: string)
    requires n < |calls|
    ensures WindowAfter(limits, calls, n + 1, key) ==
              var w := WindowAfter(limits, calls, n, key);
              if !HitOf(calls, n, key) then w
              else if w.Some? && w.value.resetAt > calls[n].now then Some(Entry(w.value.count + 1, w.value.resetAt))
              else Some(Entry(1, calls[n].now + limits.windowMs))
  {
    OneMoreCall(limits, calls, n);
  }

  /** Answers are given once and for all. */
  lemma {:induction false} AnswerOf(limits: Limits, calls: seq<Call>, i: nat)
    requires i < |calls|
    ensures SpecRun(limits, calls).1[i] == SpecStep(SpecRun(limits, calls[..i]).0, limits, calls[i]).1
    decreases |calls|
  {
    var init := calls[..|calls| - 1];
    if i < |init| {
      AnswerOf(limits, init, i);
      assert init[..i] == calls[..i];
    }
  }

  lemma {:induction false} CountsPositive(limits: Limits, calls: seq<Call>, n: nat, key: string)
    requires n <= |calls|
    ensures WindowAfter(limits, calls, n, key).Some? ==> WindowAfter(limits, calls, n, key).value.count >= 1
  {
    if n > 0 {
      NextWindow(limits, calls, n - 1, key);
      CountsPositive(limits, calls, n - 1, key);
    }
  }

  /** The window a hit is counted in. */
  lemma WindowOfHit(limits: Limits, calls: seq<Call>, i: nat, key: string)
    requires HitOf(calls, i, key) && limits.windowMs > 0
    ensures var w := WindowAfter(limits, calls, i + 1, key);
            && w.Some? && calls[i].now < w.value.resetAt && 1 <= w.value.count
            && (w.value.count == 1 ==> w.value.resetAt == calls[i].now + limits.windowMs)
            && SpecRun(limits, calls).1[i].allowed == (w.value.count <= limits.limit)
  {
    OneMoreCall(limits, calls, i);
    CountsPositive(limits, calls, i, key);
    AnswerOf(limits, calls, i);
  }

  /** Windows of one key are replaced only after they close, so they start at
      least a window's length apart; within one window the count only grows. */
  lemma {:induction false} WindowsEvolve(limits: Limits, calls: seq<Call>, i: nat, n: nat, key: string)
    requires HitOf(calls, i, key) && i < n <= |calls| && limits.windowMs > 0
    ensures var w, w' := WindowAfter(limits, calls, i + 1, key), WindowAfter(limits, calls, n, key);
            && w.Some? && w'.Some?
            && ((w'.value.resetAt == w.value.resetAt && w'.value.count >= w.value.count)
                || w'.value.resetAt >= w.value.resetAt + limits.windowMs)
  {
    WindowOfHit(limits, calls, i, key);
    if n > i + 1 {
      WindowsEvolve(limits, calls, i, n - 1, key);
      NextWindow(limits, calls, n - 1, key);
    }
  }

  lemma {:induction false} ResetNotFarAhead(limits: Limits, calls: seq<Call>, n: nat, key: string)
    requires n <= |calls| && ClockMonotone(calls)
    ensures n > 0 && WindowAfter(limits, calls, n, key).Some? ==>
              WindowAfter(limits, calls, n, key).value.resetAt <= calls[n - 1].now + limits.windowMs
    ensures n == 0 ==> WindowAfter(limits, calls, n, key).None?
  {
    if n > 0 {
      ResetNotFarAhead(limits, calls, n - 1, key);
      NextWindow(limits, calls, n - 1, key);
    }
  }

  function ResetOf(limits: Limits, calls: seq<Call>, key: string, i: nat): int {
    if i >= |calls| then 0
    else
      var w := WindowAfter(limits, calls, i + 1, key);
      if w.Some? then w.value.resetAt else 0
  }

  function CountOf(limits: Limits, calls: seq<Call>, key: string, i: nat): int {
    if i >= |calls| then 0
    else
      var w := WindowAfter(limits, calls, i + 1, key);
      if w.Some? then w.value.count else 0
  }

  /** Two hits: same window and growing count, or windows a full length apart. */
  lemma TwoHits(limits: Limits, calls: seq<Call>, key: string, i: nat, j: nat)
    requires HitOf(calls, i, key) && HitOf(calls, j, key) && i < j && limits.windowMs > 0 && ClockMonotone(calls)
    ensures ResetOf(limits, calls, key, j) == ResetOf(limits, calls, key, i) ==>
              CountOf(limits, calls, key, j) > CountOf(limits, calls, key, i)
    ensures ResetOf(limits, calls, key, j) != ResetOf(limits, calls, key, i) ==>
              ResetOf(limits, calls, key, j) >= ResetOf(limits, calls, key, i) + limits.windowMs
  {
    WindowOfHit(limits, calls, i, key);
    WindowsEvolve(limits, calls, i, j, key);
    WindowsEvolve(limits, calls, i, j + 1, key);
    NextWindow(limits, calls, j, key);
    WindowOfHit(limits, calls, j, key);
    ResetNotFarAhead(limits, calls, i + 1, key);
  }

  lemma OneHit(limits: Limits, calls: seq<Call>, key: string, i: nat)
    requires HitOf(calls, i, key) && limits.windowMs > 0 && ClockMonotone(calls)
    ensures calls[i].now < ResetOf(limits, calls, key, i) <= calls[i].now + limits.windowMs
    ensures CountOf(limits, calls, key, i) >= 1
    ensures CountOf(limits, calls, key, i) == 1 ==> ResetOf(limits, calls, key, i) == calls[i].now + limits.windowMs
    ensures SpecRun(limits, calls).1[i].allowed == (CountOf(limits, calls, key, i) <= limits.limit)
  {
    WindowOfHit(limits, calls, i, key);
    ResetNotFarAhead(limits, calls, i + 1, key);
  }

  predicate InStretch(limits: Limits, calls: seq<Call>, i: nat, key: string, from: int) {
    HitOf(calls, i, key) && from <= calls[i].now < from + limits.windowMs
  }

  /** The hits of `key` that the answers allow in the half-open stretch of one
      window's length that starts at `from`. */
  ghost function AllowedWithin(answers: seq<Decision>, limits: Limits, calls: seq<Call>, key: string, from: int): set<nat>
    requires |answers| == |calls|
  {
    set i: nat | i < |calls| && InStretch(limits, calls, i, key, from) && answers[i].allowed
  }

  ghost function Counted(limits: Limits, calls: seq<Call>, key: string, s: set<nat>): set<int>
  {
    set i | i in s :: CountOf(limits, calls, key, i)
  }

  lemma {:induction false} IntervalSize(s: set<int>, low: int, high: int)
    requires forall x | x in s :: low <= x <= high
    ensures |s| <= Max(0, high - low + 1)
    decreases Max(0, high - low + 1)
  {
    if low <= high {
      IntervalSize(s - {high}, low, high - 1);
      if high in s { assert s == (s - {high}) + {high}; } else { assert s == s - {high}; }
    } else {
      assert forall x :: x !in s;
      assert s == {};
    }
  }

  /** Hits of one window carry distinct counts. */
  lemma {:induction false} SameWindowSize(limits: Limits, calls: seq<Call>, key: string, s: set<nat>, low: int)
    requires limits.windowMs > 0 && ClockMonotone(calls)
    requires forall i | i in s :: HitOf(calls, i, key) && low <= CountOf(limits, calls, key, i) <= limits.limit
    requires forall i, j | i in s && j in s :: ResetOf(limits, calls, key, i) == ResetOf(limits, calls, key, j)
    ensures |s| <= Max(0, limits.limit - low + 1)
  {
    CountedSize(limits, calls, key, s);
    IntervalSize(Counted(limits, calls, key, s), low, limits.limit);
  }

  lemma CountsDiffer(limits: Limits, calls: seq<Call>, key: string, i: nat, j: nat)
    requires limits.windowMs > 0 && ClockMonotone(calls) && HitOf(calls, i, key) && HitOf(calls, j, key) && i != j
    requires ResetOf(limits, calls, key, i) == ResetOf(limits, calls, key, j)
    ensures CountOf(limits, calls, key, i) != CountOf(limits, calls, key, j)
  {
    if i < j { TwoHits(limits, calls, key, i, j); } else { TwoHits(limits, calls, key, j, i); }
  }

  lemma {:induction false} CountedSize(limits: Limits, calls: seq<Call>, key: string, s: set<nat>)
    requires limits.windowMs > 0 && ClockMonotone(calls)
    requires forall i | i in s :: HitOf(calls, i, key)
    requires forall i, j | i in s && j in s :: ResetOf(limits, calls, key, i) == ResetOf(limits, calls, key, j)
    ensures |Counted(limits, calls, key, s)| == |s|
  {
    if s != {} {
      var i :| i in s;
      var rest := s - {i};
      CountedSize(limits, calls, key, rest);
      forall j | j in rest
        ensures CountOf(limits, calls, key, j) != CountOf(limits, calls, key, i)
      {
        CountsDiffer(limits, calls, key, i, j);
      }
      assert Counted(limits, calls, key, s) == Counted(limits, calls, key, rest) + {CountOf(limits, calls, key, i)};
    }
  }

  ghost function InWindow(limits: Limits, calls: seq<Call>, key: string, s: set<nat>, resetAt: int): set<nat>
  {
    set i | i in s && ResetOf(limits, calls, key, i) == resetAt
  }

  /** At most two windows reach into one stretch, and the hit that opened the
      earlier of the two lies before it. */
  lemma StretchMeetsTwoWindows(limits: Limits, calls: seq<Call>, key: string, from: int, i: nat, j: nat)
    requires limits.windowMs > 0 && ClockMonotone(calls)
    requires InStretch(limits, calls, i, key, from) && InStretch(limits, calls, j, key, from)
    requires ResetOf(limits, calls, key, i) < ResetOf(limits, calls, key, j)
    ensures ResetOf(limits, calls, key, j) < ResetOf(limits, calls, key, i) + 2 * limits.windowMs
    ensures ResetOf(limits, calls, key, i) + limits.windowMs <= ResetOf(limits, calls, key, j)
    ensures CountOf(limits, calls, key, i) >= 2
  {
    OneHit(limits, calls, key, i);
    OneHit(limits, calls, key, j);
    if i < j { TwoHits(limits, calls, key, i, j); } else if j < i { TwoHits(limits, calls, key, j, i); }
  }

  /** In any half-open stretch of one window's length, the limiter allows at most
      `2 * limit - 1` hits of one key, whatever the calls. */
  lemma AllowedInAnyStretch(limits: Limits, calls: seq<Call>, key: string, from: int)
    requires limits.windowMs > 0 && ClockMonotone(calls)
    ensures |AllowedWithin(Run(Fresh, limits, calls).1, limits, calls, key, from)| <= Max(0, 2 * limits.limit - 1)
  {
    RefinesUnsweptWindows(limits, calls);
    SpecAllowedInAnyStretch(limits, calls, key, from);
  }

  /** Allowed hits of two windows in one stretch: the earlier window misses the hit
      that opened it. */
  lemma {:induction false} TwoWindowsSize(limits: Limits, calls: seq<Call>, key: string, from: int, s: set<nat>, i: nat, j: nat)
    requires limits.windowMs > 0 && ClockMonotone(calls) && i in s && j in s
    requires forall k | k in s :: InStretch(limits, calls, k, key, from) && 1 <= CountOf(limits, calls, key, k) <= limits.limit
    requires ResetOf(limits, calls, key, i) < ResetOf(limits, calls, key, j)
    ensures |s| <= Max(0, 2 * limits.limit - 1)
  {
    var early := InWindow(limits, calls, key, s, ResetOf(limits, calls, key, i));
    var late := InWindow(limits, calls, key, s, ResetOf(limits, calls, key, j));
    forall k | k in s
      ensures k in early + late
    {
      OnlyTwoResets(limits, calls, key, from, i, j, k);
    }
    assert s == early + late && i in early && j in late;
    forall k | k in early
      ensures CountOf(limits, calls, key, k) >= 2
    {
      StretchMeetsTwoWindows(limits, calls, key, from, k, j);
    }
    SameWindowSize(limits, calls, key, early, 2);
    SameWindowSize(limits, calls, key, late, 1);
  }

  lemma SpecAllowedInAnyStretch(limits: Limits, calls: seq<Call>, key: string, from: int)
    requires limits.windowMs > 0 && ClockMonotone(calls)
    ensures |AllowedWithin(SpecRun(limits, calls).1, limits, calls, key, from)| <= Max(0, 2 * limits.limit - 1)
  {
    var s := AllowedWithin(SpecRun(limits, calls).1, limits, calls, key, from);
    forall k | k in s
      ensures 1 <= CountOf(limits, calls, key, k) <= limits.limit
    {
      OneHit(limits, calls, key, k);
    }
    if i, j :| i in s && j in s && ResetOf(limits, calls, key, i) < ResetOf(limits, calls, key, j) {
      TwoWindowsSize(limits, calls, key, from, s, i, j);
    } else {
      SameWindowSize(limits, calls, key, s, 1);
    }
  }

  /** One hit opens a window, the others come at its last moment, and as many
      again at the first moment of the next. */
  function SharpCalls(limits: Limits): (calls: seq<Call>)
    requires limits.limit >= 1 && limits.windowMs >= 1
    ensures |calls| == 2 * limits.limit
  {
    var w := limits.windowMs;
    seq(2 * limits.limit, i => if i == 0 then Hit("k", 0, 0) else if i < limits.limit then Hit("k", w - 1, w - 1) else Hit("k", w, w))
  }

  lemma {:induction false} SharpWindow(limits: Limits, n: nat)
    requires limits.limit >= 1 && limits.windowMs >= 1 && 1 <= n <= 2 * limits.limit
    ensures WindowAfter(limits, SharpCalls(limits), n, "k") ==
              Some(if n <= limits.limit then Entry(n, limits.windowMs) else Entry(n - limits.limit, 2 * limits.windowMs))
  {
    NextWindow(limits, SharpCalls(limits), n - 1, "k");
    if n > 1 { SharpWindow(limits, n - 1); }
  }

  lemma {:induction false} RangeSize(s: set<nat>, n: nat)
    requires forall i: nat :: i in s <==> 1 <= i <= n
    ensures |s| == n
  {
    if n == 0 {
      assert s == {};
    } else {
      RangeSize(s - {n}, n - 1);
      assert s == (s - {n}) + {n};
    }
  }

  /** The bound is reached for every limit and every window of two milliseconds
      or more. */
  lemma StretchBoundIsReached(limits: Limits)
    requires limits.limit >= 1 && limits.windowMs >= 2
    ensures ClockMonotone(SharpCalls(limits))
    ensures |AllowedWithin(Run(Fresh, limits, SharpCalls(limits)).1, limits, SharpCalls(limits), "k", limits.windowMs - 1)|
            == 2 * limits.limit - 1
  {
    var calls := SharpCalls(limits);
    RefinesUnsweptWindows(limits, calls);
    var s := AllowedWithin(SpecRun(limits, calls).1, limits, calls, "k", limits.windowMs - 1);
    forall i: nat
      ensures i in s <==> 1 <= i <= 2 * limits.limit - 1
    {
      if i < 2 * limits.limit { SharpHitAllowed(limits, i); }
    }
    RangeSize(s, 2 * limits.limit - 1);
  }

  lemma SharpHitAllowed(limits: Limits, i: nat)
    requires limits.limit >= 1 && limits.windowMs >= 2 && i < 2 * limits.limit
    ensures SpecRun(limits, SharpCalls(limits)).1[i].allowed
  {
    WindowOfHit(limits, SharpCalls(limits), i, "k");
    SharpWindow(limits, i + 1);
  }

  lemma OnlyTwoResets(limits: Limits, calls: seq<Call>, key: string, from: int, i: nat, j: nat, k: nat)
    requires limits.windowMs > 0 && ClockMonotone(calls)
    requires InStretch(limits, calls, i, key, from) && InStretch(limits, calls, j, key, from)
    requires InStretch(limits, calls, k, key, from)
    requires ResetOf(limits, calls, key, i) < ResetOf(limits, calls, key, j)
    ensures ResetOf(limits, calls, key, k) == ResetOf(limits, calls, key, i)
            || ResetOf(limits, calls, key, k) == ResetOf(limits, calls, key, j)
  {
    var r, q, x := ResetOf(limits, calls, key, i), ResetOf(limits, calls, key, j), ResetOf(limits, calls, key, k);
    StretchMeetsTwoWindows(limits, calls, key, from, i, j);
    if x < r {
      StretchMeetsTwoWindows(limits, calls, key, from, k, i);
      StretchMeetsTwoWindows(limits, calls, key, from, k, j);
    } else if r < x < q {
      StretchMeetsTwoWindows(limits, calls, key, from, i, k);
      StretchMeetsTwoWindows(limits, calls, key, from, k, j);
    } else if q < x {
      StretchMeetsTwoWindows(limits, calls, key, from, j, k);
      StretchMeetsTwoWindows(limits, calls, key, from, i, k);
    }
  }

  // ---------------------------------------------------------------------
  // Waiting

  /** Waiting the advised number of seconds reaches the reset, and no smaller
      whole number of seconds (from one up) does. */
  lemma RetryAfterReachesReset(resetAt: int, later: int)
    ensures later + 1000 * RetryAfter(resetAt, later) >= resetAt
    ensures RetryAfter(resetAt, later) > 1 ==> later + 1000 * (RetryAfter(resetAt, later) - 1) < resetAt
  {
  }

  lemma SpecRunSnoc(limits: Limits, calls: seq<Call>, c: Call)
    ensures var (windows, decisions) := SpecRun(limits, calls);
            SpecRun(limits, calls + [c]) == (SpecStep(windows, limits, c).0, decisions + [SpecStep(windows, limits, c).1])
  {
    assert (calls + [c])[..|calls|] == calls;
  }

  /** The hit counted last is refused, and `next` comes when the advised wait is
      over. */
  lemma NextAfterWait(windows: map<string, Entry>, limits: Limits, last: Call, next: Call)
    requires last.Hit? && next.Hit? && next.key == last.key
    requires var d := SpecStep(windows, limits, last).1; !d.allowed && next.now >= last.later + 1000 * d.retryAfterSeconds
    ensures SpecStep(SpecStep(windows, limits, last).0, limits, next).1.allowed <==> limits.limit >= 1
  {
    var counted := SpecStep(windows, limits, last).0[last.key];
    RetryAfterReachesReset(counted.resetAt, last.later);
  }

  /** The last answer of the limiter. */
  function LastAnswer(limits: Limits, calls: seq<Call>): Decision
    requires calls != []
  {
    Run(Fresh, limits, calls).1[|calls| - 1]
  }

  lemma LastAnswerIsSpec(limits: Limits, calls: seq<Call>, c: Call)
    requires ClockMonotone(calls + [c])
    ensures LastAnswer(limits, calls + [c]) == SpecStep(SpecRun(limits, calls).0, limits, c).1
  {
    RefinesUnsweptWindows(limits, calls + [c]);
    SpecRunSnoc(limits, calls, c);
  }

  /** After any calls to the limiter that end in a refusal, a hit on the same key
      that comes once the advised wait is over opens a new window: it is allowed as
      soon as the limit admits any hit at all. */
  lemma AdvisedWaitSuffices(limits: Limits, calls: seq<Call>, last: Call, next: Call)
    requires last.Hit? && next.Hit? && next.key == last.key && ClockMonotone(calls + [last] + [next])
    requires var d := LastAnswer(limits, calls + [last]); !d.allowed && next.now >= last.later + 1000 * d.retryAfterSeconds
    ensures LastAnswer(limits, calls + [last] + [next]).allowed <==> limits.limit >= 1
  {
    var sofar := calls + [last];
    assert forall i | 0 <= i < |sofar| :: sofar[i] == (sofar + [next])[i];
    LastAnswerIsSpec(limits, calls, last);
    LastAnswerIsSpec(limits, sofar, next);
    SpecRunSnoc(limits, calls, last);
    NextAfterWait(SpecRun(limits, calls).0, limits, last, next);
  }

  // ---------------------------------------------------------------------
  // Checking

  /** Asking first foretells the answer to a hit made at the same time, except that
      under a limit that admits nothing a key without a window is still let through.
      Without a window there is nothing to wait for; with one, both name its end. */
  lemma CheckForetellsHit(limits: Limits, calls: seq<Call>, key: string, now: nat, later: nat)
    requires limits.windowMs > 0 && ClockMonotone(calls + [Check(key, now, later)]) && ClockMonotone(calls + [Hit(key, now, later)])
    ensures var asked, made := LastAnswer(limits, calls + [Check(key, now, later)]), LastAnswer(limits, calls + [Hit(key, now, later)]);
            var open := key in SpecRun(limits, calls).0 && now < SpecRun(limits, calls).0[key].resetAt;
            && (asked.allowed <==> made.allowed || (!open && limits.limit <= 0))
            && asked.retryAfterSeconds == if open then made.retryAfterSeconds else 0
  {
    LastAnswerIsSpec(limits, calls, Check(key, now, later));
    LastAnswerIsSpec(limits, calls, Hit(key, now, later));
  }

  /** Asking is not counted: whatever calls come later are answered as if the
      question had not been asked. */
  lemma {:induction false} CheckIsNotCounted(limits: Limits, before: seq<Call>, c: Call, after: seq<Call>)
    requires c.Check? && ClockMonotone(before + [c] + after) && ClockMonotone(before + after)
    ensures Run(Fresh, limits, before + [c] + after).1[|before| + 1..] == Run(Fresh, limits, before + after).1[|before|..]
  {
    RefinesUnsweptWindows(limits, before + [c] + after);
    RefinesUnsweptWindows(limits, before + after);
    SpecIgnoresCheck(limits, before, c, after);
  }

  lemma {:induction false} SpecIgnoresCheck(limits: Limits, before: seq<Call>, c: Call, after: seq<Call>)
    requires c.Check?
    ensures SpecRun(limits, before + [c] + after).0 == SpecRun(limits, before + after).0
    ensures SpecRun(limits, before + [c] + after).1[|before| + 1..] == SpecRun(limits, before + after).1[|before|..]
  {
    if after == [] {
      assert before + [c] + after == before + [c] && before + after == before;
      SpecRunSnoc(limits, before, c);
    } else {
      var init, last := after[..|after| - 1], after[|after| - 1];
      SpecIgnoresCheck(limits, before, c, init);
      assert before + [c] + after == (before + [c] + init) + [last] && before + after == (before + init) + [last];
      SpecRunSnoc(limits, before + [c] + init, last);
      SpecRunSnoc(limits, before + init, last);
    }
  }

  // ---------------------------------------------------------------------
  // The object

  class FixedWindowRateLimiter {
    const limits: Limits
    var windows: map<string, Entry>
    var nextSweepAt: int

    constructor (limit: int, windowMs: nat)
      ensures limits == Limits(limit, windowMs) && State() == Fresh
    {
      limits := Limits(limit, windowMs);
      windows, nextSweepAt := map[], 0;
    }

    function State(): Limiter
      reads this
    {
      Limiter(windows, nextSweepAt)
    }

    method FindCurrent(key: string, now: int, create: bool) returns (entry: Option<Entry>)
      modifies this
      ensures (State(), entry) == Current(old(State()), limits, key, now, create)
    {
      if now >= nextSweepAt {
        var candidates := windows.Keys;
        while candidates != {}
          invariant candidates <= old(windows).Keys
          invariant windows == map k | k in old(windows) && (k in candidates || old(windows)[k].resetAt > now) :: old(windows)[k]
          invariant nextSweepAt == old(nextSweepAt)
          decreases candidates
        {
          var candidate :| candidate in candidates;
          if windows[candidate].resetAt <= now { windows := windows - {candidate}; }
          candidates := candidates - {candidate};
        }
        nextSweepAt := now + limits.windowMs;
      }
      assert State() == Sweep(old(State()), now, limits.windowMs);
      entry := if key in windows then Some(windows[key]) else None;
      if entry.Some? && entry.value.resetAt <= now {
        windows := windows - {key};
        entry := None;
      }
      assert entry.None? ==> windows == Sweep(old(State()), now, limits.windowMs).windows - {key};
      if entry.None? && create {
        entry := Some(Entry(0, now + limits.windowMs));
        windows := windows[key := entry.value];
      }
    }

    method CountHit(key: string, now: nat, later: nat) returns (d: Decision)
      modifies this
      ensures (State(), d) == Step(old(State()), limits, Hit(key, now, later))
    {
      var entry := FindCurrent(key, now, true);
      var counted := Entry(entry.value.count + 1, entry.value.resetAt);
      windows := windows[key := counted];
      d := Decide(counted, later, counted.count <= limits.limit);
    }

    method CheckOnly(key: string, now: nat, later: nat) returns (d: Decision)
      modifies this
      ensures (State(), d) == Step(old(State()), limits, Check(key, now, later))
    {
      var entry := FindCurrent(key, now, false);
      if entry.None? { return Decision(true, 0); }
      d := Decide(entry.value, later, entry.value.count < limits.limit);
    }
  }
}
