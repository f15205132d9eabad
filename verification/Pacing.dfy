/** Egress pacing. Levels are counted in units of one nanosecond's refill, so that a token is `one`
    units and refilling is exact: at 0.5 tokens a second one token is 2_000_000_000 units. */
module Pacing {

  /** The wall clock: it never goes back. `passes` says how much time of its own goes by around each
      call of it, which may be anything; a Sleep adds what was asked for. */
  class Clock {
    const passes: nat -> nat
    var time: int
    var calls: nat

    constructor (passes: nat -> nat)
      ensures this.passes == passes && time == 0 && calls == 0
    {
      this.passes, time, calls := passes, 0, 0;
    }

    /** What the clock will show when it is looked at next. */
    function NextTime(): int
      reads this
    {
      time + passes(calls)
    }

    method Now() returns (t: int)
      modifies this
      ensures t == time == old(NextTime()) >= old(time) && calls == old(calls) + 1
    {
      time, calls := NextTime(), calls + 1;
      t := time;
    }

    method Sleep(d: int)
      modifies this
      ensures time == old(NextTime()) + (if d > 0 then d else 0) && calls == old(calls) + 1
    {
      time, calls := NextTime() + (if d > 0 then d else 0), calls + 1;
    }
  }

  /** The level after refilling for `dt`, never above the capacity. */
  function Refill(level: int, capacity: int, dt: int): int {
    if level + dt > capacity then capacity else level + dt
  }

  /** The level right after the last of `takes`, for a bucket that was full at `start`. */
  function Level(capacity: int, one: int, start: int, takes: seq<int>): int {
    if takes == [] then capacity
    else
      var init := takes[..|takes| - 1];
      Refill(Level(capacity, one, start, init), capacity, takes[|takes| - 1] - LastTake(start, init)) - one
  }

  function LastTake(start: int, takes: seq<int>): int {
    if takes == [] then start else takes[|takes| - 1]
  }

  /** The clock did not go back and every take found a whole token. */
  ghost predicate Feasible(capacity: int, one: int, start: int, takes: seq<int>) {
    takes != [] ==>
      var init := takes[..|takes| - 1];
      && Feasible(capacity, one, start, init)
      && LastTake(start, init) <= takes[|takes| - 1]
      && 0 <= Level(capacity, one, start, takes)
  }

  class TokenBucket {
    const capacity: int
    const one: int
    var current: int
    var last: int
    ghost const start: int
    ghost var takes: seq<int>

    ghost predicate Valid()
      reads this
      ensures Valid() ==> 1 <= one <= capacity
    {
      && 1 <= one <= capacity
      && Feasible(capacity, one, start, takes)
      && current == Level(capacity, one, start, takes)
      && last == LastTake(start, takes)
    }

    /** A full bucket of `tokens` tokens that gains one token every `one` nanoseconds. */
    constructor (tokens: int, one: int, now: int)
      requires tokens >= 1 && one >= 1
      ensures Valid() && takes == [] && last == now && capacity == tokens * one && this.one == one
    {
      assert tokens * one >= one;
      capacity, this.one, current, last := tokens * one, one, tokens * one, now;
      start, takes := now, [];
    }

    /** Will there be a whole token at `t`? */
    predicate HasToken(t: int)
      reads this
    {
      Refill(current, capacity, t - last) >= one
    }

    /** Wait for a whole token and take it. However often it had to look, the effect is one refill
        up to the moment of the take; it never looks more than twice. */
    method Take(clock: Clock) returns (ghost rounds: nat)
      requires Valid() && last <= clock.time
      modifies this, clock
      ensures Valid() && takes == old(takes) + [last]
      ensures old(clock.time) <= last <= clock.time
      ensures 1 <= rounds <= 2
      ensures old(HasToken(clock.NextTime())) ==> rounds == 1 && last == clock.time == old(clock.NextTime()) && clock.calls == old(clock.calls) + 1
      ensures old(HasToken(clock.NextTime())) ==> current == Refill(old(current), capacity, last - old(last)) - one
      ensures !old(HasToken(clock.NextTime())) ==>
                var found := Refill(old(current), capacity, old(clock.NextTime()) - old(last));
                && rounds == 2 && clock.time == last && clock.calls == old(clock.calls) + 3
                && last == old(clock.NextTime()) + (one - found) + clock.passes(old(clock.calls) + 1) + clock.passes(old(clock.calls) + 2)
    {
      rounds := 0;
      ghost var from, level := last, current;
      while true
        invariant rounds == 1 ==> !old(HasToken(clock.NextTime()))
        invariant rounds == 0 ==> clock.time == old(clock.time) && clock.calls == old(clock.calls)
        invariant rounds == 1 ==> last == old(clock.NextTime()) && clock.calls == old(clock.calls) + 2
        invariant rounds == 1 ==> clock.time == last + clock.passes(old(clock.calls) + 1) + (one - current)
        invariant rounds <= 1 && from <= last <= clock.time && old(clock.time) <= clock.time
        invariant takes == old(takes) && from == LastTake(start, takes) && level == Level(capacity, one, start, takes)
        invariant if rounds == 0 then last == from && current == level
                  else current == Refill(level, capacity, last - from) < one && clock.time >= last + (one - current)
        invariant 0 <= level <= capacity
        decreases 2 - rounds
      {
        rounds := rounds + 1;
        var now := clock.Now();
        current := current + (now - last);
        if current > capacity {
          current := capacity;
        }
        last := now;
        if current >= one {
          current := current - one;
          assert (takes + [last])[..|takes|] == takes;
          takes := takes + [last];
          return;
        }
        var need := one - current;
        clock.Sleep(need);
      }
    }
  }

  lemma {:induction false} LevelInRange(capacity: int, one: int, start: int, takes: seq<int>)
    requires 1 <= one <= capacity && Feasible(capacity, one, start, takes)
    ensures 0 <= Level(capacity, one, start, takes) <= capacity
  {
  }

  /** Takes i to j of one bucket fit into the capacity plus what was refilled in between. */
  lemma {:induction false} TakesArePaced(capacity: int, one: int, start: int, takes: seq<int>, i: nat, j: nat)
    requires 1 <= one <= capacity && Feasible(capacity, one, start, takes) && i <= j < |takes|
    ensures (j - i + 1) * one + (if j == |takes| - 1 then Level(capacity, one, start, takes) else 0)
            <= capacity + (takes[j] - takes[i])
  {
    var init := takes[..|takes| - 1];
    if j < |takes| - 1 {
      TakesArePaced(capacity, one, start, init, i, j);
      LevelInRange(capacity, one, start, init);
    } else if i < j {
      TakesArePaced(capacity, one, start, init, i, j - 1);
      assert (j - i + 1) * one == (j - i) * one + one;
    }
  }

  /** Send `i` happens after take `i` and before take `i + 1`: one worker, one take per send. */
  ghost predicate Paired(takes: seq<int>, sends: seq<int>) {
    && |takes| == |sends|
    && (forall i :: 0 <= i < |sends| ==> takes[i] <= sends[i])
    && forall i :: 0 <= i < |sends| - 1 ==> sends[i] <= takes[i + 1]
  }

  /** What is known of the takes, as plain numbers, put together for the sends. */
  lemma PaceAtSends(units: int, capacity: int, first: int, last: int, firstSend: int, lastSend: int)
    requires units <= capacity + (last - first) && last <= lastSend
    ensures units <= capacity + (lastSend - firstSend) + (firstSend - first)
  {
  }

  /** Measured at the sends, takes that fell long before their send count against the bound: the excess
      is at most the lateness of the first send. */
  lemma SendsArePaced(capacity: int, one: int, start: int, takes: seq<int>, sends: seq<int>, i: nat, j: nat)
    requires 1 <= one <= capacity && Feasible(capacity, one, start, takes) && Paired(takes, sends) && i <= j < |sends|
    ensures (j - i + 1) * one <= capacity + (sends[j] - sends[i]) + (sends[i] - takes[i])
    ensures sends[i] == takes[i] ==> (j - i + 1) * one <= capacity + (sends[j] - sends[i])
  {
    hide Level;
    hide Feasible;
    TakesPaced(capacity, one, start, takes, i, j);
    PaceAtSends((j - i + 1) * one, capacity, takes[i], takes[j], sends[i], sends[j]);
  }

  lemma TakesPaced(capacity: int, one: int, start: int, takes: seq<int>, i: nat, j: nat)
    requires 1 <= one <= capacity && Feasible(capacity, one, start, takes) && i <= j < |takes|
    ensures (j - i + 1) * one <= capacity + (takes[j] - takes[i])
  {
    hide Level;
    hide Feasible;
    TakesArePaced(capacity, one, start, takes, i, j);
    LevelInRange(capacity, one, start, takes);
  }

  /** However late the first send is, the excess never comes to more than one token. */
  lemma LatenessCostsOneToken(capacity: int, one: int, start: int, takes: seq<int>, sends: seq<int>, i: nat, j: nat)
    requires 1 <= one <= capacity && Feasible(capacity, one, start, takes) && Paired(takes, sends) && i <= j < |sends|
    ensures (j - i) * one <= capacity + (sends[j] - sends[i])
  {
    hide Level;
    hide Feasible;
    if i < j {
      TakesPaced(capacity, one, start, takes, i + 1, j);
      assert sends[i] <= takes[i + 1];
      PaceAtSends((j - i) * one, capacity, takes[i + 1], takes[j], takes[i + 1], sends[j]);
    }
  }

  lemma {:induction false} BurstFeasible(capacity: int, one: int, start: int, takes: seq<int>, at: int, n: nat)
    requires 1 <= one <= capacity && Feasible(capacity, one, start, takes) && n * one <= capacity
    requires LastTake(start, takes) <= at && Level(capacity, one, start, takes) + (at - LastTake(start, takes)) >= capacity
    ensures var more := takes + seq(n, _ => at);
            Feasible(capacity, one, start, more) && (n > 0 ==> Level(capacity, one, start, more) == capacity - n * one)
  {
    if n == 0 {
      assert takes + seq(n, _ => at) == takes;
    } else {
      assert n * one == (n - 1) * one + one;
      BurstFeasible(capacity, one, start, takes, at, n - 1);
      var more := takes + seq(n, _ => at);
      assert more[..|more| - 1] == takes + seq(n - 1, _ => at);
    }
  }

  /** The looser bound is reached: with the production bucket (30 tokens, one every two seconds)
      31 sends can go out at the same instant, though no 31 takes can fall together. */
  lemma ThirtyOneSendsAtOnce() returns (takes: seq<int>, sends: seq<int>)
    ensures Feasible(60_000_000_000, 2_000_000_000, 0, takes) && Paired(takes, sends)
    ensures |sends| == 31 && forall i :: 0 <= i < 31 ==> sends[i] == 60_000_000_000
  {
    var one, capacity := 2_000_000_000, 60_000_000_000;
    takes := [0];
    BurstFeasible(capacity, one, 0, [0], 60_000_000_000, 30);
    takes := [0] + seq(30, _ => 60_000_000_000);
    sends := seq(31, _ => 60_000_000_000);
  }
}
