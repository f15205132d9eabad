/** The per-service ingest limiter: ring-buffer sliding windows, two of them per service, one pair
    per service. Times are nanoseconds; 0 is the zero time.Time. */
module Limit {

  /** How many entries of `log` are real times not before `bound`. */
  function CountFrom(log: seq<int>, bound: int): nat {
    if log == [] then 0
    else
      var t := log[|log| - 1];
      CountFrom(log[..|log| - 1], bound) + if t == 0 || t < bound then 0 else 1
  }

  /** The last `n` entries of `log`, or all of it. */
  function LastOf(log: seq<int>, n: nat): seq<int> {
    if |log| <= n then log else log[|log| - n..]
  }

  /** Does a window of `size` and `cap` that accepted `log` accept a call at `now`? */
  predicate Fits(log: seq<int>, size: int, cap: nat, now: int) {
    CountFrom(LastOf(log, cap), now - size) < cap
  }

  /** The index the code computes for the slot `i` places after the cursor. */
  function Wrap(cur: nat, i: nat, cap: nat): nat
    requires cap > 0
  {
    (cur + i) % cap
  }

  /** Position `i` slots after the cursor in a ring of `cap`. */
  function At(cur: nat, i: nat, cap: nat): (p: nat)
    ensures cur < cap && i < cap ==> p < cap
  {
    if cur + i < cap then cur + i else cur + i - cap
  }

  lemma AtIsModulo(cur: nat, i: nat, cap: nat)
    requires cur < cap && i < cap
    ensures Wrap(cur, i, cap) == At(cur, i, cap)
  {
    if cur + i < cap {
      assert (cur + i) / cap == 0;
    } else {
      assert cur + i == cap * 1 + (cur + i - cap);
      ModuloOnce(cur + i - cap, cap);
    }
  }

  lemma ModuloOnce(r: nat, d: nat)
    requires r < d
    ensures (d + r) % d == r
  {
    assert (d + r) / d == 1;
  }

  /** Read from `cur`, the ring is the last accepted times of `log` after leading zeros. */
  ghost predicate RingHolds(ring: seq<int>, cur: nat, log: seq<int>) {
    && (if ring == [] then cur == 0 else cur < |ring|)
    && forall i :: 0 <= i < |ring| ==> ring[At(cur, i, |ring|)] == Slot(log, |ring|, i)
  }

  function Slot(log: seq<int>, cap: nat, i: nat): int
    requires i < cap
  {
    if |log| + i < cap then 0 else log[|log| + i - cap]
  }

  lemma SlotAt(ring: seq<int>, cur: nat, log: seq<int>, i: nat)
    requires RingHolds(ring, cur, log) && i < |ring|
    ensures Wrap(cur, i, |ring|) < |ring| && ring[Wrap(cur, i, |ring|)] == Slot(log, |ring|, i)
  {
    AtIsModulo(cur, i, |ring|);
  }

  lemma RingAdvance(ring: seq<int>, cur: nat, log: seq<int>, now: int)
    requires RingHolds(ring, cur, log) && ring != []
    ensures RingHolds(ring[cur := now], Wrap(cur, 1, |ring|), log + [now])
  {
    var cap, cur', log' := |ring|, Wrap(cur, 1, |ring|), log + [now];
    if cap > 1 { AtIsModulo(cur, 1, cap); }
    assert cur' == if cur + 1 < cap then cur + 1 else 0;
    forall i | 0 <= i < cap
      ensures ring[cur := now][At(cur', i, cap)] == Slot(log', cap, i)
    {
      if i < cap - 1 {
        assert At(cur', i, cap) == At(cur, i + 1, cap) != cur;
        assert ring[At(cur, i + 1, cap)] == Slot(log, cap, i + 1);
      }
    }
  }

  function Zeros(n: nat): seq<int> {
    seq(n, _ => 0)
  }

  /** Reading the ring once round from the cursor gives unused slots and then exactly the last accepted
      times, oldest first. */
  lemma RingReadFromCursor(ring: seq<int>, cur: nat, log: seq<int>)
    requires RingHolds(ring, cur, log) && ring != []
    ensures forall i :: 0 <= i < |ring| ==> Wrap(cur, i, |ring|) < |ring|
    ensures seq(|ring|, i requires 0 <= i < |ring| => ring[Wrap(cur, i, |ring|)])
            == Zeros(|ring| - |LastOf(log, |ring|)|) + LastOf(log, |ring|)
  {
    hide Wrap;
    hide RingHolds;
    forall i | 0 <= i < |ring|
      ensures Wrap(cur, i, |ring|) < |ring| && ring[Wrap(cur, i, |ring|)] == Slot(log, |ring|, i)
    {
      SlotAt(ring, cur, log, i);
    }
  }

  class Window {
    const size: int
    const cap: nat
    const times: array<int>
    var cur: nat
    /** Every time this window accepted, oldest first. */
    ghost var log: seq<int>

    ghost predicate Valid()
      reads this, times
    {
      times.Length == cap && RingHolds(times[..], cur, log)
    }

    constructor (size: int, cap: nat)
      ensures Valid() && log == [] && this.size == size && this.cap == cap && fresh(times)
    {
      this.size, this.cap, cur, log := size, cap, 0, [];
      times := new int[cap](i => 0);
    }

    method Allow(now: int) returns (ok: bool)
      requires Valid()
      modifies this, times
      ensures Valid()
      ensures ok <==> Fits(old(log), size, cap, now)
      ensures log == if ok then old(log) + [now] else old(log)
    {
      var count := CountRecent(now - size);
      if count >= cap {
        return false;
      }
      Record(now);
      ok := true;
    }

    /** How many buffered times fall inside the window, from newest to oldest. */
    method CountRecent(bound: int) returns (count: nat)
      requires Valid()
      ensures count == CountFrom(LastOf(log, cap), bound)
    {
      hide RingHolds;
      hide CountFrom;
      hide Wrap;
      count := 0;
      var i: int := cap - 1;
      while i >= 0
        invariant -1 <= i < cap
        invariant count == CountRing(log, cap, bound, i + 1)
      {
        SlotAt(times[..], cur, log, i);
        var t := times[Wrap(cur, i, cap)];
        if !(t == 0 || t < bound) {
          count := count + 1;
        }
        i := i - 1;
      }
      RingCountsLast(log, cap, bound);
    }

    /** Overwrite the oldest time and move the cursor on. */
    method Record(now: int)
      requires Valid() && cap > 0
      modifies this, times
      ensures Valid() && log == old(log) + [now]
    {
      assert cur < cap;
      ghost var ring := times[..][cur := now];
      RingAdvance(times[..], cur, log, now);
      times[cur] := now;
      cur := Wrap(cur, 1, cap);
      log := log + [now];
      assert times[..] == ring;
    }
  }

  /** What the loop has counted when slots `from` to `cap - 1` have been read. */
  ghost function CountRing(log: seq<int>, cap: nat, bound: int, from: nat): nat
    requires from <= cap
    decreases cap - from
  {
    if from == cap then 0
    else
      var t := Slot(log, cap, from);
      CountRing(log, cap, bound, from + 1) + if t == 0 || t < bound then 0 else 1
  }

  lemma {:induction false} CountFromFirst(log: seq<int>, bound: int)
    requires log != []
    ensures CountFrom(log, bound) == CountFrom(log[1..], bound) + if log[0] == 0 || log[0] < bound then 0 else 1
  {
    if |log| > 1 {
      CountFromFirst(log[..|log| - 1], bound);
      assert log[..|log| - 1][1..] == log[1..][..|log| - 2];
    }
  }

  lemma {:induction false} RingCountsFrom(log: seq<int>, cap: nat, bound: int, from: nat)
    requires from <= cap && cap <= |log| + from
    ensures CountRing(log, cap, bound, from) == CountFrom(log[|log| + from - cap..], bound)
    decreases cap - from
  {
    if from < cap {
      RingCountsFrom(log, cap, bound, from + 1);
      var rest := log[|log| + from - cap..];
      CountFromFirst(rest, bound);
      assert rest[1..] == log[|log| + from + 1 - cap..];
    }
  }

  lemma {:induction false} RingSkipsZeros(log: seq<int>, cap: nat, bound: int, from: nat)
    requires from <= cap - |log|
    ensures CountRing(log, cap, bound, from) == CountFrom(log, bound)
    decreases cap - from
  {
    if from == cap - |log| {
      RingCountsFrom(log, cap, bound, from);
      assert log[0..] == log;
    } else {
      RingSkipsZeros(log, cap, bound, from + 1);
    }
  }

  lemma RingCountsLast(log: seq<int>, cap: nat, bound: int)
    ensures CountRing(log, cap, bound, 0) == CountFrom(LastOf(log, cap), bound)
  {
    if |log| <= cap {
      RingSkipsZeros(log, cap, bound, 0);
    } else {
      RingCountsFrom(log, cap, bound, 0);
    }
  }

  // ---------- The full log ----------

  ghost predicate Ordered(log: seq<int>) {
    && (forall i :: 0 <= i < |log| ==> 0 < log[i])
    && forall i, j :: 0 <= i <= j < |log| ==> log[i] <= log[j]
  }

  lemma {:induction false} CountAtMost(log: seq<int>, bound: int)
    ensures CountFrom(log, bound) <= |log|
  {
    if log != [] { CountAtMost(log[..|log| - 1], bound); }
  }

  lemma {:induction false} AllCount(log: seq<int>, bound: int)
    requires Ordered(log) && (log != [] ==> bound <= log[0])
    ensures CountFrom(log, bound) == |log|
  {
    if log != [] { AllCount(log[..|log| - 1], bound); }
  }

  lemma {:induction false} NoneCount(log: seq<int>, bound: int)
    requires Ordered(log) && (log != [] ==> log[|log| - 1] < bound)
    ensures CountFrom(log, bound) == 0
  {
    if |log| > 1 {
      NoneCount(log[..|log| - 1], bound);
    }
  }

  lemma {:induction false} CountConcat(a: seq<int>, b: seq<int>, bound: int)
    ensures CountFrom(a + b, bound) == CountFrom(a, bound) + CountFrom(b, bound)
  {
    if b == [] {
      assert a + b == a;
    } else {
      CountConcat(a, b[..|b| - 1], bound);
      assert (a + b)[..|a + b| - 1] == a + b[..|b| - 1];
    }
  }

  lemma SliceOrdered(log: seq<int>, lo: nat, hi: nat)
    requires Ordered(log) && lo <= hi <= |log|
    ensures Ordered(log[lo..hi])
  {
  }

  /** If the newer part `b` of a log is not entirely recent, nothing in the older part `a` is. */
  lemma SuffixDecides(a: seq<int>, b: seq<int>, bound: int)
    requires Ordered(a) && Ordered(b) && (a != [] && b != [] ==> a[|a| - 1] <= b[0])
    ensures CountFrom(b, bound) < |b| ==> CountFrom(a, bound) == 0
  {
    if b != [] && b[0] < bound {
      NoneCount(a, bound);
    } else {
      AllCount(b, bound);
    }
  }

  /** With a clock that does not go back, remembering only the last `cap` accepted times decides
      exactly as remembering all of them. */
  lemma RingRefinesFullLog(log: seq<int>, size: int, cap: nat, now: int)
    requires Ordered(log)
    ensures Fits(log, size, cap, now) <==> CountFrom(log, now - size) < cap
  {
    if |log| > cap {
      var cut, bound := |log| - cap, now - size;
      var a, b := log[0..cut], log[cut..|log|];
      SliceOrdered(log, 0, cut);
      SliceOrdered(log, cut, |log|);
      SuffixDecides(a, b, bound);
      CountConcat(a, b, bound);
      CountAtMost(b, bound);
      assert a + b == log;
      assert LastOf(log, cap) == b;
    }
  }

  /** How many entries of `log` lie in the closed interval [lo, hi]. */
  function CountIn(log: seq<int>, lo: int, hi: int): nat {
    if log == [] then 0
    else CountIn(log[..|log| - 1], lo, hi) + if lo <= log[|log| - 1] <= hi then 1 else 0
  }

  /** At most `cap` entries in any closed interval no longer than the window. */
  ghost predicate Spread(log: seq<int>, size: int, cap: nat) {
    forall lo, hi :: hi <= lo + size ==> CountIn(log, lo, hi) <= cap
  }

  lemma {:induction false} InAtMostFrom(log: seq<int>, lo: int, hi: int, bound: int)
    requires Ordered(log) && bound <= lo
    ensures CountIn(log, lo, hi) <= CountFrom(log, bound)
  {
    if log != [] { InAtMostFrom(log[..|log| - 1], lo, hi, bound); }
  }

  lemma SpreadKept(log: seq<int>, size: int, cap: nat, now: int)
    requires Ordered(log + [now]) && Spread(log, size, cap) && Fits(log, size, cap, now)
    ensures Spread(log + [now], size, cap)
  {
    assert Ordered(log) by { assert forall i :: 0 <= i < |log| ==> (log + [now])[i] == log[i]; }
    RingRefinesFullLog(log, size, cap, now);
    forall lo, hi | hi <= lo + size
      ensures CountIn(log + [now], lo, hi) <= cap
    {
      assert (log + [now])[..|log|] == log;
      assert CountIn(log, lo, hi) <= cap;
      if lo <= now <= hi {
        InAtMostFrom(log, lo, hi, now - size);
      }
    }
  }

  // ---------- Two windows per service, one pair per service ----------

  const SECOND: int := 1_000_000_000
  const BURST: nat := 30
  const RATE: nat := 100

  /** What the burst window and the rate window of one service have accepted. */
  datatype Logs = Logs(burst: seq<int>, rate: seq<int>)

  const NoLogs := Logs([], [])

  /** Accepted only by both; a call the rate window rejects has still entered the burst window. */
  function Decide(l: Logs, now: int): (Logs, bool) {
    var b := Fits(l.burst, SECOND, BURST, now);
    var r := b && Fits(l.rate, 60 * SECOND, RATE, now);
    (Logs(if b then l.burst + [now] else l.burst, if r then l.rate + [now] else l.rate), r)
  }

  class Limiter {
    const burst: Window
    const rate: Window
    ghost const repr: set<object>
    ghost var view: Logs

    ghost predicate Valid()
      reads this, repr
      ensures Valid() ==> this in repr
    {
      && this in repr && burst in repr && rate in repr && burst.times in repr && rate.times in repr
      && burst.Valid() && rate.Valid() && burst != rate && burst.times != rate.times
      && burst.size == SECOND && burst.cap == BURST && rate.size == 60 * SECOND && rate.cap == RATE
      && view == Logs(burst.log, rate.log)
    }

    constructor ()
      ensures Valid() && view == NoLogs && fresh(repr)
    {
      var b := new Window(SECOND, BURST);
      var r := new Window(60 * SECOND, RATE);
      burst, rate, view, repr := b, r, NoLogs, {this, b, r, b.times, r.times};
    }

    method Allow(now: int) returns (ok: bool)
      requires Valid()
      modifies repr
      ensures Valid() && (view, ok) == Decide(old(view), now)
    {
      ok := burst.Allow(now);
      if ok {
        ok := rate.Allow(now);
      }
      view := Decide(view, now).0;
    }
  }

  function LogsOf(v: map<string, Logs>, service: string): Logs {
    if service in v then v[service] else NoLogs
  }

  function DecideFor(v: map<string, Logs>, service: string, now: int): (map<string, Logs>, bool) {
    var (l, ok) := Decide(LogsOf(v, service), now);
    (v[service := l], ok)
  }

  class Registry {
    var seen: map<string, Limiter>
    ghost var view: map<string, Logs>
    ghost var repr: set<object>

    ghost predicate Apart()
      reads `seen
    {
      forall s, s' :: s in seen && s' in seen && s != s' ==> seen[s].repr !! seen[s'].repr
    }

    ghost predicate Member(l: Limiter, logs: Logs)
      reads this, repr
    {
      l in repr && l.repr <= repr && this !in l.repr && l.Valid() && l.view == logs
    }

    ghost predicate Valid()
      reads this, repr
    {
      && this in repr && Apart()
      && view.Keys == seen.Keys
      && forall s :: s in seen ==> Member(seen[s], view[s])
    }

    constructor ()
      ensures Valid() && view == map[] && fresh(repr)
    {
      seen, view, repr := map[], map[], {this};
    }

    /** The locked part: the service's limiter, created on first use. */
    method Lookup(service: string) returns (l: Limiter)
      requires Valid()
      modifies this
      ensures Valid() && fresh(repr - old(repr))
      ensures service in seen && l == seen[service]
      ensures view == old(view)[service := LogsOf(old(view), service)]
    {
      hide Window.Valid;
      hide Limiter.Valid;
      if service in seen {
        l := seen[service];
        assert view == view[service := view[service]];
      } else {
        l := new Limiter();
        seen := seen[service := l];
        view := view[service := NoLogs];
        repr := repr + l.repr;
      }
    }

    /** The unlocked part: ask the service's own limiter; the others keep their windows. */
    method Ask(service: string, now: int) returns (ok: bool)
      requires Valid() && service in seen
      modifies `view, seen[service].repr
      ensures Valid() && repr == old(repr)
      ensures view == old(view)[service := Decide(old(view)[service], now).0]
      ensures ok == Decide(old(view)[service], now).1
    {
      hide Window.Valid;
      hide Limiter.Valid;
      hide Fits;
      hide Decide;
      var l := seen[service];
      assert Member(l, view[service]);
      ok := l.Allow(now);
      forall s | s in seen && s != service
        ensures Member(seen[s], view[s])
      {
        assert old(Member(seen[s], view[s]));
        assert seen[s].repr !! l.repr;
        assert unchanged(seen[s].repr);
      }
      view := view[service := l.view];
      assert Member(l, view[service]);
    }

    method AllowForService(service: string, now: int) returns (ok: bool)
      requires Valid()
      modifies repr
      ensures Valid() && fresh(repr - old(repr))
      ensures (view, ok) == DecideFor(old(view), service, now)
    {
      hide Window.Valid;
      hide Limiter.Valid;
      hide Fits;
      hide Decide;
      var _ := Lookup(service);
      ok := Ask(service, now);
      assert view == old(view)[service := view[service]];
    }
  }

  // ---------- Whole traces ----------

  /** One decision is that of two complete logs, as long as the clock does not go back. */
  lemma DecideIsNaive(l: Logs, now: int)
    requires Ordered(l.burst) && Ordered(l.rate)
    ensures Decide(l, now) == DecideNaively(l, now)
  {
    RingRefinesFullLog(l.burst, SECOND, BURST, now);
    RingRefinesFullLog(l.rate, 60 * SECOND, RATE, now);
  }

  datatype Request = Request(service: string, at: int)

  /** All requests through the registry, and its verdict on each. */
  function RegistryRun(trace: seq<Request>): (r: (map<string, Logs>, seq<bool>))
    ensures |r.1| == |trace|
  {
    if trace == [] then (map[], [])
    else
      var last := |trace| - 1;
      var (v, verdicts) := RegistryRun(trace[..last]);
      var (v', ok) := DecideFor(v, trace[last].service, trace[last].at);
      (v', verdicts + [ok])
  }

  /** One limiter on its own. */
  function LimiterRun(times: seq<int>): (r: (Logs, seq<bool>))
    ensures |r.1| == |times|
  {
    if times == [] then (NoLogs, [])
    else
      var last := |times| - 1;
      var (l, verdicts) := LimiterRun(times[..last]);
      var (l', ok) := Decide(l, times[last]);
      (l', verdicts + [ok])
  }

  function TimesOf(trace: seq<Request>, service: string): seq<int> {
    if trace == [] then []
    else
      var last := |trace| - 1;
      TimesOf(trace[..last], service) + if trace[last].service == service then [trace[last].at] else []
  }

  function VerdictsOf(trace: seq<Request>, verdicts: seq<bool>, service: string): seq<bool>
    requires |trace| == |verdicts|
  {
    if trace == [] then []
    else
      var last := |trace| - 1;
      VerdictsOf(trace[..last], verdicts[..last], service) + if trace[last].service == service then [verdicts[last]] else []
  }

  lemma LimiterRunAppend(times: seq<int>, t: int)
    ensures var (l, verdicts) := LimiterRun(times);
            var (l', verdicts') := LimiterRun(times + [t]);
            l' == Decide(l, t).0 && verdicts' == verdicts + [Decide(l, t).1]
  {
    hide Decide;
    assert (times + [t])[..|times|] == times;
  }

  /** What a service is told in any mixed trace is what it would be told alone. */
  lemma {:induction false} ServicesDoNotInterfere(trace: seq<Request>, service: string)
    ensures LogsOf(RegistryRun(trace).0, service) == LimiterRun(TimesOf(trace, service)).0
    ensures VerdictsOf(trace, RegistryRun(trace).1, service) == LimiterRun(TimesOf(trace, service)).1
  {
    hide Decide;
    if trace != [] {
      var last := |trace| - 1;
      ServicesDoNotInterfere(trace[..last], service);
      var (v, verdicts) := RegistryRun(trace[..last]);
      var (v', verdicts') := RegistryRun(trace);
      assert verdicts'[..last] == verdicts;
      LimiterRunAppend(TimesOf(trace[..last], service), trace[last].at);
      if trace[last].service == service {
        assert TimesOf(trace, service) == TimesOf(trace[..last], service) + [trace[last].at];
        assert v'[service] == Decide(LogsOf(v, service), trace[last].at).0;
        assert verdicts'[last] == Decide(LogsOf(v, service), trace[last].at).1;
      } else {
        assert TimesOf(trace, service) == TimesOf(trace[..last], service);
      }
    }
  }

  /** The times that were accepted. */
  function Accepted(times: seq<int>, verdicts: seq<bool>): seq<int>
    requires |times| == |verdicts|
  {
    if times == [] then []
    else
      var last := |times| - 1;
      Accepted(times[..last], verdicts[..last]) + if verdicts[last] then [times[last]] else []
  }

  ghost predicate NoLaterThan(log: seq<int>, t: int) {
    forall i :: 0 <= i < |log| ==> log[i] <= t
  }

  /** The logs of a run: ordered, within the caps, and the rate log is what was accepted. */
  ghost predicate RunLogs(l: Logs, accepted: seq<int>) {
    && Ordered(l.burst) && Ordered(l.rate)
    && Spread(l.burst, SECOND, BURST) && Spread(l.rate, 60 * SECOND, RATE)
    && l.rate == accepted
    && forall lo, hi :: CountIn(l.rate, lo, hi) <= CountIn(l.burst, lo, hi)
  }

  lemma CountInAppend(log: seq<int>, t: int, lo: int, hi: int)
    ensures CountIn(log + [t], lo, hi) == CountIn(log, lo, hi) + if lo <= t <= hi then 1 else 0
  {
    assert (log + [t])[..|log|] == log;
  }

  lemma OrderedAppend(log: seq<int>, t: int)
    requires Ordered(log) && NoLaterThan(log, t) && 0 < t
    ensures Ordered(log + [t])
  {
  }

  lemma {:induction false} RunKeepsCaps(times: seq<int>)
    requires Ordered(times)
    ensures var (l, verdicts) := LimiterRun(times);
            RunLogs(l, Accepted(times, verdicts))
            && (times != [] ==> NoLaterThan(l.burst, times[|times| - 1]) && NoLaterThan(l.rate, times[|times| - 1]))
  {
    if times == [] {
    } else {
      var last := |times| - 1;
      var now := times[last];
      SliceOrdered(times, 0, last);
      assert times[0..last] == times[..last];
      RunKeepsCaps(times[..last]);
      var (l, verdicts) := LimiterRun(times[..last]);
      assert (verdicts + [Decide(l, now).1])[..last] == verdicts;
      assert last > 0 ==> times[last - 1] <= now;
      DecideKeepsCaps(l, Accepted(times[..last], verdicts), now);
    }
  }

  /** What one window's decision does to its log. */
  lemma WindowKeepsCap(log: seq<int>, size: int, cap: nat, now: int)
    requires Ordered(log) && Spread(log, size, cap) && NoLaterThan(log, now) && 0 < now
    ensures Fits(log, size, cap, now) ==>
              Ordered(log + [now]) && Spread(log + [now], size, cap) && NoLaterThan(log + [now], now)
  {
    hide Fits;
    hide Spread;
    OrderedAppend(log, now);
    if Fits(log, size, cap, now) { SpreadKept(log, size, cap, now); }
  }

  /** A time that enters the rate log has entered the burst log. */
  lemma RateWithinBurst(burst: seq<int>, rate: seq<int>, now: int, b: bool, r: bool)
    requires (forall lo, hi :: CountIn(rate, lo, hi) <= CountIn(burst, lo, hi)) && (r ==> b)
    ensures var burst', rate' := if b then burst + [now] else burst, if r then rate + [now] else rate;
            forall lo, hi :: CountIn(rate', lo, hi) <= CountIn(burst', lo, hi)
  {
    hide CountIn;
    var burst', rate' := if b then burst + [now] else burst, if r then rate + [now] else rate;
    forall lo, hi
      ensures CountIn(rate', lo, hi) <= CountIn(burst', lo, hi)
    {
      CountInAppend(burst, now, lo, hi);
      CountInAppend(rate, now, lo, hi);
      assert CountIn(rate, lo, hi) <= CountIn(burst, lo, hi);
    }
  }

  lemma DecideKeepsCaps(l: Logs, accepted: seq<int>, now: int)
    requires RunLogs(l, accepted) && NoLaterThan(l.burst, now) && NoLaterThan(l.rate, now) && 0 < now
    ensures var (l', ok) := Decide(l, now);
            RunLogs(l', accepted + if ok then [now] else []) && NoLaterThan(l'.burst, now) && NoLaterThan(l'.rate, now)
  {
    hide Fits;
    hide Ordered;
    hide Spread;
    hide CountIn;
    hide NoLaterThan;
    WindowKeepsCap(l.burst, SECOND, BURST, now);
    WindowKeepsCap(l.rate, 60 * SECOND, RATE, now);
    var b := Fits(l.burst, SECOND, BURST, now);
    RateWithinBurst(l.burst, l.rate, now, b, b && Fits(l.rate, 60 * SECOND, RATE, now));
  }

  /** Two complete logs, each asked in full. */
  function DecideNaively(l: Logs, now: int): (Logs, bool) {
    var b := CountFrom(l.burst, now - 1_000_000_000) < 30;
    var r := b && CountFrom(l.rate, now - 60_000_000_000) < 100;
    (Logs(if b then l.burst + [now] else l.burst, if r then l.rate + [now] else l.rate), r)
  }

  function NaiveRun(times: seq<int>): (r: (Logs, seq<bool>))
    ensures |r.1| == |times|
  {
    if times == [] then (NoLogs, [])
    else
      var last := |times| - 1;
      var (l, verdicts) := NaiveRun(times[..last]);
      var (l', ok) := DecideNaively(l, times[last]);
      (l', verdicts + [ok])
  }

  /** Over a whole trace, as long as the clock does not go back, the limiter gives the verdicts of two
      complete logs. */
  lemma {:induction false} RunIsNaive(times: seq<int>)
    requires Ordered(times)
    ensures LimiterRun(times) == NaiveRun(times)
  {
    hide Fits;
    hide CountFrom;
    if times != [] {
      var last := |times| - 1;
      OrderedPrefix(times, last);
      RunIsNaive(times[..last]);
      RunKeepsCaps(times[..last]);
      DecideIsNaive(LimiterRun(times[..last]).0, times[last]);
    }
  }

  lemma OrderedPrefix(times: seq<int>, n: nat)
    requires Ordered(times) && n <= |times|
    ensures Ordered(times[..n])
  {
  }

  /** And so in any mixed trace every service gets the verdicts of its own two complete logs. */
  lemma VerdictsAreNaive(trace: seq<Request>, service: string)
    requires Ordered(TimesOf(trace, service))
    ensures VerdictsOf(trace, RegistryRun(trace).1, service) == NaiveRun(TimesOf(trace, service)).1
  {
    ServicesDoNotInterfere(trace, service);
    RunIsNaive(TimesOf(trace, service));
  }

  /** In any mixed trace whose clock does not go back, a service never gets more than 30 calls
      accepted in any second nor more than 100 in any minute. */
  lemma CapsHoldPerService(trace: seq<Request>, service: string)
    requires Ordered(TimesOf(trace, service))
    ensures |VerdictsOf(trace, RegistryRun(trace).1, service)| == |TimesOf(trace, service)|
    ensures var accepted := Accepted(TimesOf(trace, service), VerdictsOf(trace, RegistryRun(trace).1, service));
            Spread(accepted, 1_000_000_000, 30) && Spread(accepted, 60_000_000_000, 100)
  {
    ServicesDoNotInterfere(trace, service);
    RunKeepsCaps(TimesOf(trace, service));
    var l := LimiterRun(TimesOf(trace, service)).0;
    forall lo, hi | hi <= lo + SECOND
      ensures CountIn(l.rate, lo, hi) <= BURST
    {
      assert CountIn(l.burst, lo, hi) <= BURST;
    }
  }
}
