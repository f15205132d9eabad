/** In which order the batches of one key are handed to Flush. A batch leaves the map under the lock
    and is flushed outside it, so the key's next batch can overtake it. */
module FlushOrder {
  import opened Coalesce
  import opened CoalesceRuns

  /** The batches of `k` in the order they left the map. */
  function Leavers(batches: seq<Batch>, left: seq<nat>, k: Key): seq<nat>
    requires Indices(left, |batches|)
  {
    if left == [] then []
    else
      var i := left[|left| - 1];
      Leavers(batches, left[..|left| - 1], k) + if batches[i].key == k then [i] else []
  }

  /** The batches of `k` in the order of their first flushes. */
  function Firsts(flushed: seq<FlushCall>, k: Key): seq<nat> {
    if flushed == [] then []
    else
      var init, f := flushed[..|flushed| - 1], flushed[|flushed| - 1];
      Firsts(init, k) + if f.key == k && Times(init, f.id) == 0 then [f.id] else []
  }

  predicate IsFlush(st: Step) {
    st.CallerFlush? || st.TimerFlush?
  }

  function FlushedId(s: State, st: Step): nat
    requires Typed(s) && Enabled(s, st) && IsFlush(st)
    ensures FlushedId(s, st) < |s.sh.batches|
  {
    if st.CallerFlush? then s.calls[st.c].id else st.i
  }

  /** The step flushes a batch of `k` for the first time while an earlier one of `k` has not been flushed. */
  ghost predicate Overtakes(s: State, st: Step, k: Key)
    requires LeftInv(s) && Enabled(s, st)
  {
    IsFlush(st) && Times(s.flushed, FlushedId(s, st)) == 0
    && Behind(Leavers(s.sh.batches, s.left, k), FlushedId(s, st), s.flushed)
  }

  /** `i` is in `line` behind a batch that has not been flushed. */
  ghost predicate Behind(line: seq<nat>, i: nat, flushed: seq<FlushCall>) {
    exists p, q :: 0 <= p < q < |line| && line[q] == i && Times(flushed, line[p]) == 0
  }

  // ---------- What the two orders consist of ----------

  ghost predicate Distinct(ids: seq<nat>) {
    forall i, j :: 0 <= i < j < |ids| ==> ids[i] != ids[j]
  }

  lemma {:induction false} LeaversFacts(batches: seq<Batch>, left: seq<nat>, k: Key)
    requires Indices(left, |batches|) && Distinct(left)
    ensures Distinct(Leavers(batches, left, k))
    ensures forall i :: i in Leavers(batches, left, k) <==> i in left && batches[i].key == k
  {
    if left != [] {
      var init, last := left[..|left| - 1], left[|left| - 1];
      LeaversFacts(batches, init, k);
      assert left == init + [last];
    }
  }

  lemma {:induction false} LeaversFrame(batches: seq<Batch>, batches': seq<Batch>, left: seq<nat>, k: Key)
    requires Indices(left, |batches|) && |batches| <= |batches'|
    requires forall i :: 0 <= i < |batches| ==> batches'[i].key == batches[i].key
    ensures Leavers(batches', left, k) == Leavers(batches, left, k)
  {
    if left != [] { LeaversFrame(batches, batches', left[..|left| - 1], k); }
  }

  /** The recorded calls are of the batches they name. */
  ghost predicate Named(flushed: seq<FlushCall>, batches: seq<Batch>) {
    forall j :: 0 <= j < |flushed| ==> flushed[j].id < |batches| && flushed[j].key == batches[flushed[j].id].key
  }

  lemma {:induction false} FirstsFacts(flushed: seq<FlushCall>, batches: seq<Batch>, k: Key)
    requires Named(flushed, batches)
    ensures forall i: nat :: i in Firsts(flushed, k) <==> i < |batches| && batches[i].key == k && Times(flushed, i) > 0
  {
    if flushed != [] {
      var init, f := flushed[..|flushed| - 1], flushed[|flushed| - 1];
      FirstsFacts(init, batches, k);
    } else {
      assert forall i: nat :: Times(flushed, i) == 0;
    }
  }

  // ---------- One step ----------

  /** Flushing changes the calls made; any other step may let one registered batch leave. */
  lemma StepEffect(cap: int, s: State, st: Step)
    requires LeftInv(s) && TimerInv(s) && FlushInv(s) && Enabled(s, st)
    ensures var s' := Next(cap, s, st);
            && |s.sh.batches| <= |s'.sh.batches|
            && (forall i :: 0 <= i < |s.sh.batches| ==> s'.sh.batches[i].key == s.sh.batches[i].key)
            && (!IsFlush(st) ==> s'.flushed == s.flushed)
            && (!IsFlush(st) ==> s'.left == s.left || LeftOne(s, s'.left))
    ensures IsFlush(st) ==>
              var i, s' := FlushedId(s, st), Next(cap, s, st);
              && s'.left == s.left && i in s.left
              && s'.flushed == s.flushed + [FlushCall(i, s.sh.batches[i].key, s.sh.batches[i].items)]
  {
    if st.Enter? {
      EnterEffect(cap, s, st.c);
    } else if IsFlush(st) {
      FlushEffect(cap, s, st);
    } else {
      hide AddSection;
      OtherEffect(cap, s, st);
    }
  }

  ghost predicate LeftOne(s: State, left: seq<nat>) {
    exists i: nat :: i < |s.sh.batches| && s.sh.Registered(i) && left == s.left + [i]
  }

  lemma EnterEffect(cap: int, s: State, c: nat)
    requires Typed(s) && Enabled(s, Enter(c))
    ensures var s' := Next(cap, s, Enter(c));
            && |s.sh.batches| <= |s'.sh.batches| && s'.flushed == s.flushed && s'.left == s.left
            && (forall i :: 0 <= i < |s.sh.batches| ==> s'.sh.batches[i].key == s.sh.batches[i].key)
  {
  }

  lemma OtherEffect(cap: int, s: State, st: Step)
    requires Typed(s) && Enabled(s, st) && !st.Enter? && !IsFlush(st)
    ensures var s' := Next(cap, s, st);
            && |s.sh.batches| == |s'.sh.batches| && s'.flushed == s.flushed
            && (forall i :: 0 <= i < |s.sh.batches| ==> s'.sh.batches[i].key == s.sh.batches[i].key)
            && (s'.left == s.left || LeftOne(s, s'.left))
  {
    hide AddSection;
  }

  lemma FlushEffect(cap: int, s: State, st: Step)
    requires LeftInv(s) && TimerInv(s) && FlushInv(s) && Enabled(s, st) && IsFlush(st)
    ensures var i, s' := FlushedId(s, st), Next(cap, s, st);
            && |s.sh.batches| == |s'.sh.batches| && s'.left == s.left && i in s.left
            && (forall j :: 0 <= j < |s.sh.batches| ==> s'.sh.batches[j].key == s.sh.batches[j].key)
            && s'.flushed == s.flushed + [FlushCall(i, s.sh.batches[i].key, s.sh.batches[i].items)]
  {
    hide AddSection;
    hide ForceSection;
    var i := FlushedId(s, st);
    assert TimerAt(s, i) && FlushAt(s, i);
    if st.CallerFlush? { assert st.c in CallsAt(s.calls, Flushing(i)); }
  }

  /** The two orders of `k` in `s`. */
  function Line(s: State, k: Key): seq<nat>
    requires LeftInv(s)
  {
    Leavers(s.sh.batches, s.left, k)
  }

  ghost predicate InLine(s: State, k: Key)
    requires LeftInv(s)
  {
    Firsts(s.flushed, k) <= Line(s, k)
  }

  /** What was flushed has left the map. */
  lemma FirstsAreLeavers(cap: int, s: State, k: Key)
    requires Inv(cap, s)
    ensures Named(s.flushed, s.sh.batches) && Distinct(Line(s, k))
    ensures forall i :: i in Firsts(s.flushed, k) <==> i in Line(s, k) && Times(s.flushed, i) > 0
    ensures forall i :: i in Line(s, k) <==> i in s.left && s.sh.batches[i].key == k
  {
    LeaversFacts(s.sh.batches, s.left, k);
    FirstsFacts(s.flushed, s.sh.batches, k);
    forall i | 0 <= i < |s.sh.batches| && Times(s.flushed, i) > 0
      ensures i in s.left
    {
      assert FlushAt(s, i);
    }
  }

  /** A batch that leaves goes to the end of the line, behind everything flushed so far. */
  lemma LeaveKeepsLine(firsts: seq<nat>, line: seq<nat>, i: nat)
    requires (forall x :: x in firsts ==> x in line) && i !in line
    ensures firsts <= line + [i] <==> firsts <= line
  {
    assert (line + [i])[|line|] == i;
    assert firsts == line + [i] ==> i in firsts;
  }

  /** If the first flushes follow the line, it consists of a flushed part and an unflushed one. */
  lemma FlushedPart(firsts: seq<nat>, line: seq<nat>, flushed: seq<FlushCall>)
    requires Distinct(line) && firsts <= line && forall x :: x in firsts <==> x in line && Times(flushed, x) > 0
    ensures forall x :: 0 <= x < |line| ==> (Times(flushed, line[x]) > 0 <==> x < |firsts|)
  {
    hide Times;
    assert forall x :: 0 <= x < |firsts| ==> line[x] == firsts[x];
    forall x | 0 <= x < |line| && Times(flushed, line[x]) > 0
      ensures x < |firsts|
    {
      assert line[x] in firsts;
      var y :| 0 <= y < |firsts| && firsts[y] == line[x];
      assert line[y] == line[x];
    }
    forall x | 0 <= x < |firsts|
      ensures Times(flushed, line[x]) > 0
    {
      assert line[x] in firsts;
    }
  }

  /** The next batch in the line is the only one that is behind no unflushed one. */
  lemma NextInLine(line: seq<nat>, flushed: seq<FlushCall>, p: nat, q: nat)
    requires Distinct(line) && p <= q < |line| && forall x :: 0 <= x < |line| ==> (Times(flushed, line[x]) > 0 <==> x < p)
    ensures Behind(line, line[q], flushed) <==> p < q
  {
    hide Times;
    if p < q {
      assert Times(flushed, line[p]) == 0 && line[q] == line[q];
    }
    if Behind(line, line[q], flushed) {
      var x, y :| 0 <= x < y < |line| && line[y] == line[q] && Times(flushed, line[x]) == 0;
      assert y == q && p <= x;
    }
  }

  lemma PrefixOfPush(firsts: seq<nat>, line: seq<nat>, i: nat)
    ensures firsts + [i] <= line <==> firsts <= line && |firsts| < |line| && line[|firsts|] == i
  {
    if firsts + [i] <= line {
      assert firsts == (firsts + [i])[..|firsts|] && (firsts + [i])[|firsts|] == i;
    }
    if firsts <= line && |firsts| < |line| && line[|firsts|] == i {
      assert line[..|firsts| + 1] == firsts + [i];
    }
  }

  /** A first flush keeps the line exactly if it does not overtake. */
  lemma FlushKeepsLine(firsts: seq<nat>, line: seq<nat>, flushed: seq<FlushCall>, i: nat)
    requires Distinct(line) && i in line && Times(flushed, i) == 0
    requires forall x :: x in firsts <==> x in line && Times(flushed, x) > 0
    ensures firsts + [i] <= line <==> firsts <= line && !Behind(line, i, flushed)
  {
    hide Times;
    hide Behind;
    PrefixOfPush(firsts, line, i);
    if firsts <= line {
      var q :| 0 <= q < |line| && line[q] == i;
      FlushedPart(firsts, line, flushed);
      NextInLine(line, flushed, |firsts|, q);
    }
  }

  lemma FirstsPush(flushed: seq<FlushCall>, f: FlushCall, k: Key)
    ensures Firsts(flushed + [f], k) == Firsts(flushed, k) + if f.key == k && Times(flushed, f.id) == 0 then [f.id] else []
  {
    assert (flushed + [f])[..|flushed|] == flushed;
  }

  lemma LeaversPush(batches: seq<Batch>, left: seq<nat>, i: nat, k: Key)
    requires Indices(left, |batches|) && i < |batches|
    ensures Indices(left + [i], |batches|)
    ensures Leavers(batches, left + [i], k) == Leavers(batches, left, k) + if batches[i].key == k then [i] else []
  {
    assert (left + [i])[..|left|] == left;
  }

  lemma LineFlush(cap: int, s: State, st: Step, k: Key)
    requires Inv(cap, s) && Enabled(s, st) && IsFlush(st) && LeftInv(Next(cap, s, st))
    ensures InLine(Next(cap, s, st), k) <==> InLine(s, k) && !Overtakes(s, st, k)
  {
    var s', i := Next(cap, s, st), FlushedId(s, st);
    StepEffect(cap, s, st);
    hide Next;
    hide Leavers;
    hide Firsts;
    hide Times;
    hide Behind;
    hide Distinct;
    hide Named;
    FirstsAreLeavers(cap, s, k);
    LeaversFrame(s.sh.batches, s'.sh.batches, s.left, k);
    var f := FlushCall(i, s.sh.batches[i].key, s.sh.batches[i].items);
    FirstsPush(s.flushed, f, k);
    if f.key != k {
      NotBehind(Line(s, k), i, s.flushed);
    } else if Times(s.flushed, i) == 0 {
      FlushKeepsLine(Firsts(s.flushed, k), Line(s, k), s.flushed, i);
    }
  }

  lemma NotBehind(line: seq<nat>, i: nat, flushed: seq<FlushCall>)
    requires i !in line
    ensures !Behind(line, i, flushed)
  {
  }

  lemma LineOther(cap: int, s: State, st: Step, k: Key)
    requires Inv(cap, s) && Enabled(s, st) && !IsFlush(st) && LeftInv(Next(cap, s, st))
    ensures InLine(Next(cap, s, st), k) <==> InLine(s, k)
  {
    var s' := Next(cap, s, st);
    StepEffect(cap, s, st);
    hide Next;
    hide Leavers;
    hide Firsts;
    hide Times;
    hide Distinct;
    hide Named;
    FirstsAreLeavers(cap, s, k);
    LeaversFrame(s.sh.batches, s'.sh.batches, s.left, k);
    if s'.left != s.left {
      var i: nat :| i < |s.sh.batches| && s.sh.Registered(i) && s'.left == s.left + [i];
      LeaversPush(s.sh.batches, s.left, i, k);
      LeaversFrame(s.sh.batches, s'.sh.batches, s'.left, k);
      if s.sh.batches[i].key == k { LeaveKeepsLine(Firsts(s.flushed, k), Line(s, k), i); }
    }
  }

  // ---------- Whole runs ----------

  /** In every run, the batches of a key are first flushed in the order they left the map, none left
      out in between, exactly if no flush so far has overtaken an earlier batch of that key. */
  lemma {:induction false} FlushOrderIff(cap: int, run: seq<State>, steps: seq<Step>, n: nat, k: Key)
    requires IsRun(cap, run, steps) && n < |run|
    ensures forall m :: 0 <= m <= n ==> LeftInv(run[m])
    ensures InLine(run[n], k) <==> forall m :: 0 <= m < n ==> !Overtakes(run[m], steps[m], k)
  {
    hide Next;
    hide Inv;
    hide InLine;
    hide Overtakes;
    RunInv(cap, run, steps, n);
    InvLeft(cap, run[n]);
    if n > 0 {
      FlushOrderIff(cap, run, steps, n - 1, k);
      RunInv(cap, run, steps, n - 1);
      if IsFlush(steps[n - 1]) {
        LineFlush(cap, run[n - 1], steps[n - 1], k);
      } else {
        LineOther(cap, run[n - 1], steps[n - 1], k);
        NoFlushNoOvertaking(run[n - 1], steps[n - 1], k);
      }
    } else {
      InLineAtFirst(k);
    }
  }

  lemma InvLeft(cap: int, s: State)
    requires Inv(cap, s)
    ensures LeftInv(s)
  {
  }

  lemma NoFlushNoOvertaking(s: State, st: Step, k: Key)
    requires LeftInv(s) && Enabled(s, st) && !IsFlush(st)
    ensures !Overtakes(s, st, k)
  {
  }

  lemma InLineAtFirst(k: Key)
    ensures LeftInv(Init) && InLine(Init, k)
  {
  }

  /** The items of the batches `ids`, one after the other. */
  function ItemsOf(batches: seq<Batch>, ids: seq<nat>): seq<Item>
    requires Indices(ids, |batches|)
  {
    if ids == [] then [] else ItemsOf(batches, ids[..|ids| - 1]) + batches[ids[|ids| - 1]].items
  }

  lemma ItemsOfPush(batches: seq<Batch>, ids: seq<nat>, i: nat)
    requires Indices(ids, |batches|) && i < |batches|
    ensures Indices(ids + [i], |batches|) && ItemsOf(batches, ids + [i]) == ItemsOf(batches, ids) + batches[i].items
  {
    assert (ids + [i])[..|ids|] == ids;
  }

  lemma {:induction false} GoneIsLeavers(batches: seq<Batch>, left: seq<nat>, k: Key)
    requires Indices(left, |batches|)
    ensures Indices(Leavers(batches, left, k), |batches|)
    ensures ItemsOf(batches, Leavers(batches, left, k)) == Gone(batches, left, k)
  {
    hide ItemsOf;
    if left != [] {
      var init, i := left[..|left| - 1], left[|left| - 1];
      GoneIsLeavers(batches, init, k);
      ItemsOfPush(batches, Leavers(batches, init, k), i);
      if batches[i].key != k { assert Leavers(batches, left, k) == Leavers(batches, init, k); }
    } else {
      assert ItemsOf(batches, []) == [] by { NoItems(batches); }
    }
  }

  lemma NoItems(batches: seq<Batch>)
    ensures ItemsOf(batches, []) == []
  {
  }

  lemma {:induction false} ItemsOfPrefix(batches: seq<Batch>, ids: seq<nat>, more: seq<nat>)
    requires Indices(more, |batches|) && ids <= more
    ensures Indices(ids, |batches|) && ItemsOf(batches, ids) <= ItemsOf(batches, more)
  {
    if |ids| < |more| {
      ItemsOfPrefix(batches, ids, more[..|more| - 1]);
    } else {
      assert ids == more;
    }
  }

  /** And then what was flushed for the first time, put together, is the beginning of what was added
      under the key, in order and without a gap. */
  lemma UnovertakenIsInOrder(cap: int, run: seq<State>, steps: seq<Step>, n: nat, k: Key)
    requires IsRun(cap, run, steps) && n < |run|
    ensures forall m :: 0 <= m <= n ==> LeftInv(run[m])
    ensures var s := run[n];
            (forall m :: 0 <= m < n ==> !Overtakes(run[m], steps[m], k)) ==>
              Indices(Firsts(s.flushed, k), |s.sh.batches|)
              && ItemsOf(s.sh.batches, Firsts(s.flushed, k)) <= Added(s.log, k)
  {
    hide IsRun;
    hide Overtakes;
    hide Firsts;
    hide Leavers;
    hide Gone;
    hide Added;
    var s := run[n];
    FlushOrderIff(cap, run, steps, n, k);
    NothingLost(cap, run, steps, n, k);
    GoneIsLeavers(s.sh.batches, s.left, k);
    if InLine(s, k) { ItemsOfPrefix(s.sh.batches, Firsts(s.flushed, k), Line(s, k)); }
  }

  // ---------- Overtaking happens ----------

  /** Add and the locked half of forceFlush by call `c` on an empty key, under a cap of one. */
  lemma AddAndForce(s: State, c: nat, k: Key, item: Item) returns (s1: State, s2: State, s3: State)
    requires Typed(s) && k !in s.sh.reg && c !in s.calls
    ensures Enabled(s, Call(c, k, item)) && s1 == Next(1, s, Call(c, k, item))
    ensures Enabled(s1, Enter(c)) && s2 == Next(1, s1, Enter(c))
    ensures Enabled(s2, Force(c)) && s3 == Next(1, s2, Force(c))
    ensures s3.sh.reg == s.sh.reg && s3.sh.batches == s.sh.batches + [Batch(k, [item], Stopped)]
    ensures s3.calls == s.calls[c := Flushing(|s.sh.batches|)] && s3.left == s.left + [|s.sh.batches|] && s3.flushed == s.flushed
  {
    var n := |s.sh.batches|;
    s1 := Next(1, s, Call(c, k, item));
    s2 := Next(1, s1, Enter(c));
    assert s2.sh.batches == s.sh.batches + [Batch(k, [item], Armed)] && s2.calls[c] == Capped(n);
    s3 := Next(1, s2, Force(c));
    assert s3.sh.reg == s.sh.reg;
    assert s3.calls == s.calls[c := Flushing(n)];
  }

  lemma FlushedBy(s: State, c: nat) returns (s': State)
    requires Typed(s) && c in s.calls && s.calls[c].Flushing? && s.sh.batches[s.calls[c].id].items != []
    ensures Enabled(s, CallerFlush(c)) && s' == Next(1, s, CallerFlush(c))
    ensures var i := s.calls[c].id;
            && s'.sh == s.sh && s'.calls == s.calls - {c} && s'.left == s.left
            && s'.flushed == s.flushed + [FlushCall(i, s.sh.batches[i].key, s.sh.batches[i].items)]
  {
    s' := Next(1, s, CallerFlush(c));
  }

  /** A run in which the second batch of a key is flushed before the first. */
  lemma BatchOvertaken(k: Key, a: Item, b: Item) returns (run: seq<State>, steps: seq<Step>)
    ensures IsRun(1, run, steps) && |run| == 9
    ensures run[8].left == [0, 1] && run[8].flushed == [FlushCall(1, k, [b]), FlushCall(0, k, [a])]
  {
    hide Next;
    hide Enabled;
    var s1, s2, s3 := AddAndForce(Init, 0, k, a);
    var s4, s5, s6 := AddAndForce(s3, 1, k, b);
    var s7 := FlushedBy(s6, 1);
    var s8 := FlushedBy(s7, 0);
    run := [Init, s1, s2, s3, s4, s5, s6, s7, s8];
    steps := [Call(0, k, a), Enter(0), Force(0), Call(1, k, b), Enter(1), Force(1), CallerFlush(1), CallerFlush(0)];
  }
}
