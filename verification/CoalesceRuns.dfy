/** Every interleaving of Add calls, forced flushes and window timers. One step is one critical
    section, one timer firing or one call of Flush; nothing else in the source is shared. */
module CoalesceRuns {
  import opened Coalesce

  /** Where an Add call in progress stands: before its lock, between its unlock and forceFlush's
      lock, or past forceFlush's unlock with Flush still to be called. */
  datatype Pc = Entering(key: Key, item: Item) | Capped(id: nat) | Flushing(id: nat)

  datatype FlushCall = FlushCall(id: nat, key: Key, items: seq<Item>)

  /** `log`, `left`, `flushed` and `missed` are history: the items in the order Add appended them,
      the batches in the order they left the map, the calls of Flush, and the batches whose timer
      had already fired when forceFlush called Stop. */
  datatype State = State(sh: Shared, calls: map<nat, Pc>, log: seq<(Key, Item)>,
                         left: seq<nat>, flushed: seq<FlushCall>, missed: set<nat>)

  datatype Step =
    | Call(c: nat, key: Key, item: Item)
    | Enter(c: nat)
    | Force(c: nat)
    | CallerFlush(c: nat)
    | Fire(i: nat)
    | TimerLock(i: nat)
    | TimerFlush(i: nat)

  const Init := State(Shared([], map[]), map[], [], [], [], {})

  ghost predicate Typed(s: State) {
    && s.sh.WellFormed()
    && forall c :: c in s.calls && !s.calls[c].Entering? ==> s.calls[c].id < |s.sh.batches|
  }

  predicate Enabled(s: State, st: Step) {
    match st
    case Call(c, _, _) => c !in s.calls
    case Enter(c) => c in s.calls && s.calls[c].Entering?
    case Force(c) => c in s.calls && s.calls[c].Capped?
    case CallerFlush(c) => c in s.calls && s.calls[c].Flushing?
    case Fire(i) => i < |s.sh.batches| && s.sh.batches[i].timer == Armed
    case TimerLock(i) => i < |s.sh.batches| && s.sh.batches[i].timer == Fired
    case TimerFlush(i) => i < |s.sh.batches| && s.sh.batches[i].timer == Due
  }

  /** flushBatch: an empty batch is not handed on. */
  function FlushBatch(flushed: seq<FlushCall>, i: nat, b: Batch): seq<FlushCall> {
    if b.items == [] then flushed else flushed + [FlushCall(i, b.key, b.items)]
  }

  function SetTimer(sh: Shared, i: nat, t: Timer): Shared
    requires i < |sh.batches|
  {
    sh.(batches := sh.batches[i := sh.batches[i].(timer := t)])
  }

  function Next(cap: int, s: State, st: Step): (s': State)
    requires Typed(s) && Enabled(s, st)
    ensures Typed(s')
  {
    match st
    case Call(c, key, item) => s.(calls := s.calls[c := Entering(key, item)])
    case Enter(c) =>
      var key, item := s.calls[c].key, s.calls[c].item;
      var i, sh := Target(s.sh, key), AddSection(s.sh, key, item);
      s.(sh := sh, log := s.log + [(key, item)],
         calls := if |sh.batches[i].items| >= EffectiveCap(cap) then s.calls[c := Capped(i)] else s.calls - {c})
    case Force(c) =>
      var i := s.calls[c].id;
      if s.sh.Registered(i) then
        s.(sh := ForceSection(s.sh, i), calls := s.calls[c := Flushing(i)], left := s.left + [i],
           missed := if s.sh.batches[i].timer == Fired then s.missed + {i} else s.missed)
      else s.(calls := s.calls - {c})
    case CallerFlush(c) =>
      var i := s.calls[c].id;
      s.(calls := s.calls - {c}, flushed := FlushBatch(s.flushed, i, s.sh.batches[i]))
    case Fire(i) => s.(sh := SetTimer(s.sh, i, Fired))
    case TimerLock(i) =>
      s.(sh := TimerSection(s.sh, i), left := if s.sh.Registered(i) then s.left + [i] else s.left)
    case TimerFlush(i) =>
      s.(sh := SetTimer(s.sh, i, Done), flushed := FlushBatch(s.flushed, i, s.sh.batches[i]))
  }

  ghost predicate IsRun(cap: int, run: seq<State>, steps: seq<Step>) {
    && |run| == |steps| + 1
    && run[0] == Init
    && forall n :: 0 <= n < |steps| ==> Typed(run[n]) && Enabled(run[n], steps[n]) && run[n + 1] == Next(cap, run[n], steps[n])
  }

  // ---------- What the history says ----------

  /** The items added under `k`, in order. */
  function Added(log: seq<(Key, Item)>, k: Key): seq<Item> {
    if log == [] then []
    else Added(log[..|log| - 1], k) + if log[|log| - 1].0 == k then [log[|log| - 1].1] else []
  }

  ghost predicate Indices(left: seq<nat>, n: nat) {
    forall j :: 0 <= j < |left| ==> left[j] < n
  }

  /** The items of the batches of `k` that left the map, batch after batch in leaving order. */
  function Gone(batches: seq<Batch>, left: seq<nat>, k: Key): seq<Item>
    requires Indices(left, |batches|)
  {
    if left == [] then []
    else
      var b := batches[left[|left| - 1]];
      Gone(batches, left[..|left| - 1], k) + if b.key == k then b.items else []
  }

  /** How often batch `i` was handed to Flush. */
  function Times(flushed: seq<FlushCall>, i: nat): nat {
    if flushed == [] then 0
    else Times(flushed[..|flushed| - 1], i) + if flushed[|flushed| - 1].id == i then 1 else 0
  }

  function CallsAt(calls: map<nat, Pc>, pc: Pc): set<nat> {
    set c | c in calls && calls[c] == pc
  }

  /** Flushes of batch `i` that are still to come: callers on their way and a fired timer. */
  function Owed(s: State, i: nat): nat
    requires i < |s.sh.batches|
  {
    |CallsAt(s.calls, Flushing(i))| + if s.sh.batches[i].timer in {Fired, Due} then 1 else 0
  }

  // ---------- The invariant ----------

  ghost predicate LeftInv(s: State)
    ensures LeftInv(s) ==> Typed(s)
  {
    && Typed(s)
    && Indices(s.left, |s.sh.batches|)
    && (forall i, j :: 0 <= i < j < |s.left| ==> s.left[i] != s.left[j])
    && (forall i :: 0 <= i < |s.sh.batches| ==> (i in s.left <==> !s.sh.Registered(i)))
    && (forall i :: i in s.missed ==> i in s.left)
  }

  ghost predicate TimerAt(s: State, i: nat)
    requires i < |s.sh.batches|
  {
    && s.sh.batches[i].items != []
    && (s.sh.Registered(i) ==> s.sh.batches[i].timer in {Armed, Fired})
    && (s.sh.batches[i].timer == Armed ==> s.sh.Registered(i))
  }

  ghost predicate TimerInv(s: State) {
    forall i :: 0 <= i < |s.sh.batches| ==> TimerAt(s, i)
  }

  ghost predicate InOrder(s: State, k: Key)
    requires LeftInv(s)
  {
    Gone(s.sh.batches, s.left, k) + Open(s.sh, k) == Added(s.log, k)
  }

  ghost predicate OrderInv(s: State)
    requires LeftInv(s)
  {
    forall k :: InOrder(s, k)
  }

  ghost predicate CapAt(cap: int, s: State, i: nat)
    requires i < |s.sh.batches|
  {
    s.sh.Registered(i) ==>
      var n := |s.sh.batches[i].items|;
      |CallsAt(s.calls, Capped(i))| == if n >= EffectiveCap(cap) then n - EffectiveCap(cap) + 1 else 0
  }

  ghost predicate CapInv(cap: int, s: State) {
    forall i :: 0 <= i < |s.sh.batches| ==> CapAt(cap, s, i)
  }

  ghost predicate FlushAt(s: State, i: nat)
    requires i < |s.sh.batches|
  {
    if s.sh.Registered(i) then Times(s.flushed, i) == 0 && CallsAt(s.calls, Flushing(i)) == {}
    else Times(s.flushed, i) + Owed(s, i) == if i in s.missed then 2 else 1
  }

  ghost predicate FlushInv(s: State) {
    forall i :: 0 <= i < |s.sh.batches| ==> FlushAt(s, i)
  }

  ghost predicate FrozenInv(s: State) {
    forall j :: 0 <= j < |s.flushed| ==>
      var f := s.flushed[j];
      f.id < |s.sh.batches| && !s.sh.Registered(f.id)
      && f.key == s.sh.batches[f.id].key && f.items == s.sh.batches[f.id].items
  }

  /** Every item of every batch was added under the batch's key, and all of them are accounted for. */
  ghost predicate LogInv(s: State) {
    && (forall i, it :: 0 <= i < |s.sh.batches| && it in s.sh.batches[i].items ==> (s.sh.batches[i].key, it) in s.log)
    && Items(s.sh.batches) == |s.log|
  }

  /** How often event `id` occurs in a list of items, in all batches, and in the log. */
  function CopiesIn(items: seq<Item>, id: string): nat {
    if items == [] then 0 else CopiesIn(items[..|items| - 1], id) + if items[|items| - 1].eventId == id then 1 else 0
  }

  function Copies(b: seq<Batch>, id: string): nat {
    if b == [] then 0 else Copies(b[..|b| - 1], id) + CopiesIn(b[|b| - 1].items, id)
  }

  function Logged(log: seq<(Key, Item)>, id: string): nat {
    if log == [] then 0 else Logged(log[..|log| - 1], id) + if log[|log| - 1].1.eventId == id then 1 else 0
  }

  ghost predicate CopiesInv(s: State) {
    forall id :: Copies(s.sh.batches, id) == Logged(s.log, id)
  }

  ghost predicate Inv(cap: int, s: State) {
    && LeftInv(s) && TimerInv(s) && OrderInv(s) && CapInv(cap, s) && FlushInv(s) && FrozenInv(s)
    && LogInv(s) && CopiesInv(s)
  }

  // ---------- Preservation ----------

  /** What Add does to one batch. */
  lemma AddAt(sh: Shared, k: Key, item: Item, i: nat)
    requires sh.WellFormed() && i < |AddSection(sh, k, item).batches|
    ensures var sh' := AddSection(sh, k, item);
            if i != Target(sh, k) then i < |sh.batches| && sh'.batches[i] == sh.batches[i] && sh'.Registered(i) == sh.Registered(i)
            else sh'.Registered(i)
                 && sh'.batches[i].items == (if i < |sh.batches| then sh.batches[i].items else []) + [item]
                 && (i < |sh.batches| ==> sh.Registered(i) && sh'.batches[i].timer == sh.batches[i].timer)
  {
  }

  lemma LeftEnter(cap: int, s: State, c: nat)
    requires LeftInv(s) && Enabled(s, Enter(c))
    ensures LeftInv(Next(cap, s, Enter(c)))
  {
    hide AddSection;
    var key, item, s' := s.calls[c].key, s.calls[c].item, Next(cap, s, Enter(c));
    SizeAfterAdd(s.sh, key, item);
    forall i | 0 <= i < |s'.sh.batches|
      ensures i in s'.left <==> !s'.sh.Registered(i)
    {
      AddAt(s.sh, key, item, i);
    }
  }

  lemma SizeAfterAdd(sh: Shared, k: Key, item: Item)
    requires sh.WellFormed()
    ensures |AddSection(sh, k, item).batches| == |sh.batches| + (if k in sh.reg then 0 else 1)
    ensures Target(sh, k) < |AddSection(sh, k, item).batches|
  {
  }

  lemma LeftStep(cap: int, s: State, st: Step)
    requires LeftInv(s) && Enabled(s, st)
    ensures LeftInv(Next(cap, s, st))
  {
    if st.Enter? {
      LeftEnter(cap, s, st.c);
    } else if st.Force? {
      LeftForce(cap, s, st.c);
    } else {
      hide AddSection;
      hide ForceSection;
    }
  }

  lemma LeftForce(cap: int, s: State, c: nat)
    requires LeftInv(s) && Enabled(s, Force(c))
    ensures LeftInv(Next(cap, s, Force(c)))
  {
  }

  lemma TimerStep(cap: int, s: State, st: Step)
    requires LeftInv(s) && TimerInv(s) && Enabled(s, st)
    ensures TimerInv(Next(cap, s, st))
  {
    hide Next;
    hide TimerAt;
    forall i | 0 <= i < |Next(cap, s, st).sh.batches|
      ensures TimerAt(Next(cap, s, st), i)
    {
      if st.Enter? { TimerEnter(cap, s, st.c, i); } else { TimerOther(cap, s, st, i); }
    }
  }

  lemma TimerEnter(cap: int, s: State, c: nat, i: nat)
    requires LeftInv(s) && TimerInv(s) && Enabled(s, Enter(c)) && i < |Next(cap, s, Enter(c)).sh.batches|
    ensures TimerAt(Next(cap, s, Enter(c)), i)
  {
    AddAt(s.sh, s.calls[c].key, s.calls[c].item, i);
    if i < |s.sh.batches| { assert TimerAt(s, i); }
  }

  lemma TimerOther(cap: int, s: State, st: Step, i: nat)
    requires LeftInv(s) && TimerInv(s) && Enabled(s, st) && !st.Enter? && i < |Next(cap, s, st).sh.batches|
    ensures TimerAt(Next(cap, s, st), i)
  {
    hide AddSection;
    assert TimerAt(s, i);
  }

  lemma {:induction false} GoneFrame(b: seq<Batch>, b': seq<Batch>, left: seq<nat>, k: Key)
    requires Indices(left, |b|) && |b| <= |b'|
    requires forall i :: i in left ==> b[i].key == b'[i].key && b[i].items == b'[i].items
    ensures Gone(b, left, k) == Gone(b', left, k)
  {
    if left != [] {
      GoneFrame(b, b', left[..|left| - 1], k);
      assert left[|left| - 1] in left;
    }
  }

  lemma OrderAdd(s: State, k: Key, item: Item, log: seq<(Key, Item)>, key: Key)
    requires LeftInv(s) && InOrder(s, key) && log == s.log + [(k, item)]
    ensures var sh := AddSection(s.sh, k, item);
            sh.WellFormed() && Indices(s.left, |sh.batches|)
            && Gone(sh.batches, s.left, key) + Open(sh, key) == Added(log, key)
  {
    var sh := AddSection(s.sh, k, item);
    GoneFrame(s.sh.batches, sh.batches, s.left, key);
    Joined(s.sh, k, item);
    assert log[..|log| - 1] == s.log;
  }

  lemma OrderEnter(cap: int, s: State, c: nat, k: Key)
    requires LeftInv(s) && InOrder(s, k) && Enabled(s, Enter(c)) && LeftInv(Next(cap, s, Enter(c)))
    ensures InOrder(Next(cap, s, Enter(c)), k)
  {
    hide AddSection;
    hide LeftInv;
    hide Gone;
    hide Open;
    hide Added;
    OrderAdd(s, s.calls[c].key, s.calls[c].item, Next(cap, s, Enter(c)).log, k);
  }

  /** Unregistering `i` moves its items from the open end to the end of what is gone. */
  lemma OrderLeave(s: State, s': State, i: nat, k: Key)
    requires LeftInv(s) && InOrder(s, k) && LeftInv(s') && i < |s.sh.batches| && s.sh.Registered(i)
    requires |s'.sh.batches| == |s.sh.batches| && s'.sh.reg == s.sh.reg - {s.sh.batches[i].key}
    requires forall j :: 0 <= j < |s.sh.batches| ==>
               s'.sh.batches[j].key == s.sh.batches[j].key && s'.sh.batches[j].items == s.sh.batches[j].items
    requires s'.left == s.left + [i] && s'.log == s.log
    ensures InOrder(s', k)
  {
    GoneFrame(s.sh.batches, s'.sh.batches, s.left, k);
    assert s'.left[..|s.left|] == s.left;
  }

  lemma OrderSame(s: State, s': State, k: Key)
    requires LeftInv(s) && InOrder(s, k) && LeftInv(s')
    requires |s'.sh.batches| == |s.sh.batches| && s'.sh.reg == s.sh.reg
    requires forall j :: 0 <= j < |s.sh.batches| ==>
               s'.sh.batches[j].key == s.sh.batches[j].key && s'.sh.batches[j].items == s.sh.batches[j].items
    requires s'.left == s.left && s'.log == s.log
    ensures InOrder(s', k)
  {
    GoneFrame(s.sh.batches, s'.sh.batches, s.left, k);
  }

  lemma OrderOther(cap: int, s: State, st: Step, k: Key)
    requires LeftInv(s) && InOrder(s, k) && Enabled(s, st) && LeftInv(Next(cap, s, st)) && !st.Enter?
    ensures InOrder(Next(cap, s, st), k)
  {
    hide AddSection;
    hide LeftInv;
    hide InOrder;
    var s' := Next(cap, s, st);
    if st.Force? && s.sh.Registered(s.calls[st.c].id) {
      OrderLeave(s, s', s.calls[st.c].id, k);
    } else if st.TimerLock? && s.sh.Registered(st.i) {
      OrderLeave(s, s', st.i, k);
    } else {
      OrderSame(s, s', k);
    }
  }

  lemma OrderStep(cap: int, s: State, st: Step)
    requires LeftInv(s) && OrderInv(s) && Enabled(s, st) && LeftInv(Next(cap, s, st))
    ensures OrderInv(Next(cap, s, st))
  {
    hide LeftInv;
    hide Next;
    hide InOrder;
    forall k
      ensures InOrder(Next(cap, s, st), k)
    {
      if st.Enter? { OrderEnter(cap, s, st.c, k); } else { OrderOther(cap, s, st, k); }
    }
  }

  lemma CallsAtUpdate(calls: map<nat, Pc>, c: nat, pc: Pc, at: Pc)
    ensures CallsAt(calls[c := pc], at) == if pc == at then CallsAt(calls, at) + {c} else CallsAt(calls, at) - {c}
    ensures CallsAt(calls - {c}, at) == CallsAt(calls, at) - {c}
  {
  }

  lemma CapEnter(cap: int, s: State, c: nat, i: nat)
    requires LeftInv(s) && CapInv(cap, s) && Enabled(s, Enter(c)) && i < |Next(cap, s, Enter(c)).sh.batches|
    ensures CapAt(cap, Next(cap, s, Enter(c)), i)
  {
    var key, item, s' := s.calls[c].key, s.calls[c].item, Next(cap, s, Enter(c));
    var t := Target(s.sh, key);
    AddAt(s.sh, key, item, i);
    CallsAtUpdate(s.calls, c, Capped(t), Capped(i));
    assert c !in CallsAt(s.calls, Capped(i));
    if i < |s.sh.batches| {
      assert CapAt(cap, s, i);
    } else {
      assert CallsAt(s.calls, Capped(i)) == {};
    }
    if i == t {
      assert s'.calls == if |s'.sh.batches[i].items| >= EffectiveCap(cap) then s.calls[c := Capped(t)] else s.calls - {c};
    } else {
      assert CallsAt(s'.calls, Capped(i)) == CallsAt(s.calls, Capped(i));
    }
  }

  lemma CapForce(cap: int, s: State, c: nat, i: nat)
    requires LeftInv(s) && i < |s.sh.batches| && CapAt(cap, s, i) && Enabled(s, Force(c))
    requires i < |Next(cap, s, Force(c)).sh.batches|
    ensures CapAt(cap, Next(cap, s, Force(c)), i)
  {
    hide AddSection;
    CallsAtUpdate(s.calls, c, Flushing(s.calls[c].id), Capped(i));
  }

  lemma CapOther(cap: int, s: State, st: Step, i: nat)
    requires LeftInv(s) && i < |s.sh.batches| && CapAt(cap, s, i) && Enabled(s, st) && !st.Enter? && !st.Force?
    requires i < |Next(cap, s, st).sh.batches|
    ensures CapAt(cap, Next(cap, s, st), i)
  {
    hide AddSection;
    hide ForceSection;
    hide CallsAt;
    var s' := Next(cap, s, st);
    if st.Call? {
      CallsAtUpdate(s.calls, st.c, Entering(st.key, st.item), Capped(i));
      NotAmong(s.calls, st.c, Capped(i));
    } else if st.CallerFlush? {
      CallsAtUpdate(s.calls, st.c, Capped(i), Capped(i));
      NotAmong(s.calls, st.c, Capped(i));
    } else {
      assert s'.calls == s.calls && |s'.sh.batches[i].items| == |s.sh.batches[i].items|;
    }
  }

  lemma NotAmong(calls: map<nat, Pc>, c: nat, pc: Pc)
    ensures c !in calls || calls[c] != pc ==> CallsAt(calls, pc) - {c} == CallsAt(calls, pc)
  {
  }

  lemma SameSize(cap: int, s: State, st: Step)
    requires Typed(s) && Enabled(s, st) && !st.Enter?
    ensures |Next(cap, s, st).sh.batches| == |s.sh.batches|
  {
  }

  lemma CapStep(cap: int, s: State, st: Step)
    requires LeftInv(s) && CapInv(cap, s) && Enabled(s, st)
    ensures CapInv(cap, Next(cap, s, st))
  {
    hide Next;
    hide CapAt;
    forall i | 0 <= i < |Next(cap, s, st).sh.batches|
      ensures CapAt(cap, Next(cap, s, st), i)
    {
      if st.Enter? {
        CapEnter(cap, s, st.c, i);
      } else {
        SameSize(cap, s, st);
        assert CapAt(cap, s, i);
        if st.Force? { CapForce(cap, s, st.c, i); } else { CapOther(cap, s, st, i); }
      }
    }
  }

  lemma TimesAppend(flushed: seq<FlushCall>, f: FlushCall, i: nat)
    ensures Times(flushed + [f], i) == Times(flushed, i) + if f.id == i then 1 else 0
  {
    assert (flushed + [f])[..|flushed|] == flushed;
  }

  lemma FlushEnter(cap: int, s: State, c: nat, i: nat)
    requires LeftInv(s) && FlushInv(s) && FrozenInv(s) && Enabled(s, Enter(c)) && i < |Next(cap, s, Enter(c)).sh.batches|
    ensures FlushAt(Next(cap, s, Enter(c)), i)
  {
    var key, item, s' := s.calls[c].key, s.calls[c].item, Next(cap, s, Enter(c));
    AddAt(s.sh, key, item, i);
    CallsAtUpdate(s.calls, c, Capped(Target(s.sh, key)), Flushing(i));
    assert CallsAt(s'.calls, Flushing(i)) == CallsAt(s.calls, Flushing(i));
    if i < |s.sh.batches| {
      assert FlushAt(s, i);
    } else {
      NeverFlushed(s.flushed, i);
      assert CallsAt(s.calls, Flushing(i)) == {};
    }
  }

  lemma FlushForce(cap: int, s: State, c: nat, i: nat)
    requires LeftInv(s) && TimerInv(s) && FlushInv(s) && Enabled(s, Force(c)) && i < |Next(cap, s, Force(c)).sh.batches|
    ensures FlushAt(Next(cap, s, Force(c)), i)
  {
    hide AddSection;
    hide Times;
    hide CallsAt;
    var was := CallsAt(s.calls, Flushing(i));
    assert FlushAt(s, i) && TimerAt(s, i);
    CallsAtUpdate(s.calls, c, Flushing(s.calls[c].id), Flushing(i));
    AmongIff(s.calls, c, Flushing(i));
    assert was - {c} == was;
  }

  lemma FlushCaller(cap: int, s: State, c: nat, i: nat)
    requires LeftInv(s) && TimerInv(s) && FlushInv(s) && Enabled(s, CallerFlush(c))
    requires i < |Next(cap, s, CallerFlush(c)).sh.batches|
    ensures FlushAt(Next(cap, s, CallerFlush(c)), i)
  {
    hide AddSection;
    hide ForceSection;
    hide Times;
    hide CallsAt;
    var j := s.calls[c].id;
    var was := CallsAt(s.calls, Flushing(i));
    assert FlushAt(s, i) && TimerAt(s, j);
    TimesAppend(s.flushed, FlushCall(j, s.sh.batches[j].key, s.sh.batches[j].items), i);
    CallsAtUpdate(s.calls, c, Flushing(j), Flushing(i));
    AmongIff(s.calls, c, Flushing(i));
    assert |was| == |was - {c}| + if c in was then 1 else 0;
  }

  lemma AmongIff(calls: map<nat, Pc>, c: nat, pc: Pc)
    ensures c in CallsAt(calls, pc) <==> c in calls && calls[c] == pc
  {
  }

  lemma FlushTimer(cap: int, s: State, j: nat, i: nat)
    requires LeftInv(s) && TimerInv(s) && FlushInv(s) && Enabled(s, TimerFlush(j))
    requires i < |Next(cap, s, TimerFlush(j)).sh.batches|
    ensures FlushAt(Next(cap, s, TimerFlush(j)), i)
  {
    hide AddSection;
    hide ForceSection;
    hide Times;
    hide CallsAt;
    assert FlushAt(s, i) && TimerAt(s, j);
    TimesAppend(s.flushed, FlushCall(j, s.sh.batches[j].key, s.sh.batches[j].items), i);
  }

  lemma FlushOther(cap: int, s: State, st: Step, i: nat)
    requires LeftInv(s) && TimerInv(s) && FlushInv(s) && Enabled(s, st) && i < |Next(cap, s, st).sh.batches|
    requires st.Call? || st.Fire? || st.TimerLock?
    ensures FlushAt(Next(cap, s, st), i)
  {
    hide AddSection;
    hide ForceSection;
    assert FlushAt(s, i);
    if st.Call? {
      CallsAtUpdate(s.calls, st.c, Entering(st.key, st.item), Flushing(i));
    } else {
      assert TimerAt(s, i);
    }
  }

  lemma FlushStep(cap: int, s: State, st: Step)
    requires LeftInv(s) && TimerInv(s) && FlushInv(s) && FrozenInv(s) && Enabled(s, st)
    ensures FlushInv(Next(cap, s, st))
  {
    hide Next;
    hide FlushAt;
    hide FrozenInv;
    hide TimerInv;
    forall i | 0 <= i < |Next(cap, s, st).sh.batches|
      ensures FlushAt(Next(cap, s, st), i)
    {
      match st
      case Enter(c) => FlushEnter(cap, s, c, i);
      case Force(c) => FlushForce(cap, s, c, i);
      case CallerFlush(c) => FlushCaller(cap, s, c, i);
      case TimerFlush(j) => FlushTimer(cap, s, j, i);
      case Call(_, _, _) => FlushOther(cap, s, st, i);
      case Fire(_) => FlushOther(cap, s, st, i);
      case TimerLock(_) => FlushOther(cap, s, st, i);
    }
  }

  lemma {:induction false} NeverFlushed(flushed: seq<FlushCall>, i: nat)
    requires forall j :: 0 <= j < |flushed| ==> flushed[j].id != i
    ensures Times(flushed, i) == 0
  {
    if flushed != [] { NeverFlushed(flushed[..|flushed| - 1], i); }
  }

  lemma FrozenEnter(cap: int, s: State, c: nat)
    requires LeftInv(s) && FrozenInv(s) && Enabled(s, Enter(c))
    ensures FrozenInv(Next(cap, s, Enter(c)))
  {
    hide AddSection;
    var key, item, s' := s.calls[c].key, s.calls[c].item, Next(cap, s, Enter(c));
    SizeAfterAdd(s.sh, key, item);
    forall j | 0 <= j < |s.flushed|
      ensures var f := s.flushed[j];
              && f.id < |s'.sh.batches| && !s'.sh.Registered(f.id)
              && f.key == s'.sh.batches[f.id].key && f.items == s'.sh.batches[f.id].items
    {
      AddAt(s.sh, key, item, s.flushed[j].id);
    }
  }

  lemma FrozenStep(cap: int, s: State, st: Step)
    requires LeftInv(s) && TimerInv(s) && FlushInv(s) && FrozenInv(s) && Enabled(s, st)
    ensures FrozenInv(Next(cap, s, st))
  {
    var s' := Next(cap, s, st);
    if st.Enter? {
      FrozenEnter(cap, s, st.c);
    } else if st.CallerFlush? {
      assert TimerAt(s, s.calls[st.c].id);
      assert FlushAt(s, s.calls[st.c].id);
      assert st.c in CallsAt(s.calls, Flushing(s.calls[st.c].id));
    } else if st.TimerFlush? {
      assert TimerAt(s, st.i);
    }
  }

  lemma LogEnter(cap: int, s: State, c: nat)
    requires LeftInv(s) && LogInv(s) && Enabled(s, Enter(c))
    ensures LogInv(Next(cap, s, Enter(c)))
  {
    var key, item, s' := s.calls[c].key, s.calls[c].item, Next(cap, s, Enter(c));
    assert s'.log == s.log + [(key, item)];
    forall i, it | 0 <= i < |s'.sh.batches| && it in s'.sh.batches[i].items
      ensures (s'.sh.batches[i].key, it) in s'.log
    {
      AddAt(s.sh, key, item, i);
    }
    if key in s.sh.reg {
      var t := s.sh.reg[key];
      ItemsUpdate(s.sh.batches, t, s'.sh.batches[t]);
    } else {
      assert s'.sh.batches[..|s.sh.batches|] == s.sh.batches;
    }
  }

  lemma LogStep(cap: int, s: State, st: Step)
    requires LeftInv(s) && LogInv(s) && Enabled(s, st)
    ensures LogInv(Next(cap, s, st))
  {
    var s' := Next(cap, s, st);
    match st
    case Enter(c) => LogEnter(cap, s, c);
    case Force(c) => ItemsUpdate(s.sh.batches, s.calls[c].id, s'.sh.batches[s.calls[c].id]);
    case Fire(i) => ItemsUpdate(s.sh.batches, i, s'.sh.batches[i]);
    case TimerLock(i) => ItemsUpdate(s.sh.batches, i, s'.sh.batches[i]);
    case TimerFlush(i) => ItemsUpdate(s.sh.batches, i, s'.sh.batches[i]);
    case Call(_, _, _) =>
    case CallerFlush(_) =>
  }

  lemma {:induction false} CopiesUpdate(b: seq<Batch>, i: nat, x: Batch, id: string)
    requires i < |b|
    ensures Copies(b[i := x], id) == Copies(b, id) - CopiesIn(b[i].items, id) + CopiesIn(x.items, id)
  {
    if i == |b| - 1 {
      assert b[i := x][..|b| - 1] == b[..|b| - 1];
    } else {
      CopiesUpdate(b[..|b| - 1], i, x, id);
      assert b[i := x][..|b| - 1] == b[..|b| - 1][i := x];
    }
  }

  lemma CopiesAdd(sh: Shared, k: Key, item: Item, id: string)
    requires sh.WellFormed()
    ensures Copies(AddSection(sh, k, item).batches, id) == Copies(sh.batches, id) + if item.eventId == id then 1 else 0
  {
    var after := AddSection(sh, k, item);
    if k in sh.reg {
      var t := sh.reg[k];
      CopiesUpdate(sh.batches, t, after.batches[t], id);
      assert (sh.batches[t].items + [item])[..|sh.batches[t].items|] == sh.batches[t].items;
    } else {
      assert after.batches[..|sh.batches|] == sh.batches;
      assert CopiesIn([item], id) == if item.eventId == id then 1 else 0;
    }
  }

  lemma CopiesEnter(cap: int, s: State, c: nat, id: string)
    requires LeftInv(s) && CopiesInv(s) && Enabled(s, Enter(c))
    ensures var s' := Next(cap, s, Enter(c));
            Copies(s'.sh.batches, id) == Logged(s'.log, id)
  {
    hide AddSection;
    hide Copies;
    var s' := Next(cap, s, Enter(c));
    CopiesAdd(s.sh, s.calls[c].key, s.calls[c].item, id);
    assert s'.log[..|s.log|] == s.log;
  }

  lemma CopiesOther(cap: int, s: State, st: Step, id: string)
    requires LeftInv(s) && CopiesInv(s) && Enabled(s, st) && !st.Enter?
    ensures var s' := Next(cap, s, st);
            Copies(s'.sh.batches, id) == Logged(s'.log, id)
  {
    hide AddSection;
    hide Copies;
    hide Logged;
    var s' := Next(cap, s, st);
    assert Copies(s.sh.batches, id) == Logged(s.log, id);
    if st.Force? && s.sh.Registered(s.calls[st.c].id) {
      CopiesUpdate(s.sh.batches, s.calls[st.c].id, s'.sh.batches[s.calls[st.c].id], id);
    } else if st.Fire? || st.TimerLock? || st.TimerFlush? {
      CopiesUpdate(s.sh.batches, st.i, s'.sh.batches[st.i], id);
    }
  }

  lemma CopiesStep(cap: int, s: State, st: Step)
    requires LeftInv(s) && CopiesInv(s) && Enabled(s, st)
    ensures CopiesInv(Next(cap, s, st))
  {
    hide Next;
    hide LeftInv;
    forall id
      ensures Copies(Next(cap, s, st).sh.batches, id) == Logged(Next(cap, s, st).log, id)
    {
      if st.Enter? { CopiesEnter(cap, s, st.c, id); } else { CopiesOther(cap, s, st, id); }
    }
  }

  lemma InvStep(cap: int, s: State, st: Step)
    requires Inv(cap, s) && Enabled(s, st)
    ensures Inv(cap, Next(cap, s, st))
  {
    hide LeftInv;
    hide TimerInv;
    hide OrderInv;
    hide CapInv;
    hide FlushInv;
    hide FrozenInv;
    hide LogInv;
    hide CopiesInv;
    hide Next;
    hide Enabled;
    LogStep(cap, s, st);
    CopiesStep(cap, s, st);
    LeftStep(cap, s, st);
    TimerStep(cap, s, st);
    OrderStep(cap, s, st);
    CapStep(cap, s, st);
    FlushStep(cap, s, st);
    FrozenStep(cap, s, st);
  }

  lemma {:induction false} RunInv(cap: int, run: seq<State>, steps: seq<Step>, n: nat)
    requires IsRun(cap, run, steps) && n < |run|
    ensures Inv(cap, run[n])
  {
    hide Next;
    if n > 0 {
      RunInv(cap, run, steps, n - 1);
      InvStep(cap, run[n - 1], steps[n - 1]);
    }
  }

  // ---------- What every run guarantees ----------

  /** No item is lost, reordered, duplicated or moved to another key: the batches of a key, in the
      order they left the map, followed by the one still open, spell out exactly what was added. */
  lemma NothingLost(cap: int, run: seq<State>, steps: seq<Step>, n: nat, k: Key)
    requires IsRun(cap, run, steps) && n < |run|
    ensures LeftInv(run[n])
    ensures Gone(run[n].sh.batches, run[n].left, k) + Open(run[n].sh, k) == Added(run[n].log, k)
  {
    RunInv(cap, run, steps, n);
    assert InOrder(run[n], k);
  }

  lemma SubsetSize<T>(a: set<T>, b: set<T>)
    requires a <= b
    ensures |a| <= |b|
  {
    if a != {} {
      var x :| x in a;
      SubsetSize(a - {x}, b - {x});
    }
  }

  /** A registered batch has reached the cap only while callers stand between Add's unlock and
      forceFlush's lock, and their number says exactly by how much. */
  lemma OverrunIsCallersWaiting(cap: int, run: seq<State>, steps: seq<Step>, n: nat, k: Key)
    requires IsRun(cap, run, steps) && n < |run| && k in run[n].sh.reg
    ensures LeftInv(run[n])
    ensures var size, waiting := |Open(run[n].sh, k)|, |CallsAt(run[n].calls, Capped(run[n].sh.reg[k]))|;
            && (cap >= 1 ==> waiting == if size >= cap then size - cap + 1 else 0)
            && (cap < 1 ==> waiting == size)
  {
    RunInv(cap, run, steps, n);
    assert CapAt(cap, run[n], run[n].sh.reg[k]) && TimerAt(run[n], run[n].sh.reg[k]);
  }

  /** With at most `most` Adds in progress at a time no batch ever exceeds cap - 1 + most; a cap below
      one acts like one. */
  lemma {:induction false} BatchBound(cap: int, run: seq<State>, steps: seq<Step>, n: nat, most: nat)
    requires IsRun(cap, run, steps) && n < |run|
    requires forall m :: 0 <= m < |run| ==> |run[m].calls.Keys| <= most
    ensures forall i :: 0 <= i < |run[n].sh.batches| ==>
              |run[n].sh.batches[i].items| <= if cap >= 1 then cap - 1 + most else most
  {
    if n > 0 {
      BatchBound(cap, run, steps, n - 1, most);
      if steps[n - 1].Enter? {
        var s, s' := run[n - 1], run[n];
        var c := steps[n - 1].c;
        forall i | 0 <= i < |s'.sh.batches|
          ensures |s'.sh.batches[i].items| <= if cap >= 1 then cap - 1 + most else most
        {
          AddAt(s.sh, s.calls[c].key, s.calls[c].item, i);
          if s'.sh.Registered(i) {
            OverrunIsCallersWaiting(cap, run, steps, n, s'.sh.batches[i].key);
            SubsetSize(CallsAt(s'.calls, Capped(i)), s'.calls.Keys);
          }
        }
      }
    }
  }

  /** A batch is flushed at most twice; twice only if its timer had fired before forceFlush called
      Stop; and each flush carries the whole batch under its own key. */
  lemma FlushedAtMostTwice(cap: int, run: seq<State>, steps: seq<Step>, n: nat, i: nat)
    requires IsRun(cap, run, steps) && n < |run| && i < |run[n].sh.batches|
    ensures Times(run[n].flushed, i) <= if i in run[n].missed then 2 else 1
    ensures forall f :: f in run[n].flushed && f.id == i ==>
              f.key == run[n].sh.batches[i].key && f.items == run[n].sh.batches[i].items
    ensures !run[n].sh.Registered(i) ==>
              Times(run[n].flushed, i) + Owed(run[n], i) == if i in run[n].missed then 2 else 1
  {
    RunInv(cap, run, steps, n);
    assert FlushAt(run[n], i);
  }

  /** No Add in progress and no timer that can still act. */
  predicate Quiet(s: State) {
    s.calls == map[] && forall i :: 0 <= i < |s.sh.batches| ==> s.sh.batches[i].timer in {Stopped, Done}
  }

  /** Once things are quiet the map is empty and every added item has been flushed. */
  lemma QuietMeansFlushed(cap: int, run: seq<State>, steps: seq<Step>, n: nat)
    requires IsRun(cap, run, steps) && n < |run| && Quiet(run[n])
    ensures LeftInv(run[n]) && run[n].sh.reg == map[]
    ensures forall k :: Gone(run[n].sh.batches, run[n].left, k) == Added(run[n].log, k)
    ensures forall i :: 0 <= i < |run[n].sh.batches| ==> Times(run[n].flushed, i) == if i in run[n].missed then 2 else 1
  {
    var s := run[n];
    RunInv(cap, run, steps, n);
    assert s.sh.reg.Keys == {} by {
      forall k | k in s.sh.reg
        ensures false
      {
        assert TimerAt(s, s.sh.reg[k]) && s.sh.Registered(s.sh.reg[k]);
      }
    }
    forall k
      ensures Gone(s.sh.batches, s.left, k) == Added(s.log, k)
    {
      assert InOrder(s, k);
    }
    forall i | 0 <= i < |s.sh.batches|
      ensures Times(s.flushed, i) == if i in s.missed then 2 else 1
    {
      assert FlushAt(s, i) && CallsAt(s.calls, Flushing(i)) == {};
    }
  }

  // ---------- Without new Adds every schedule reaches quiet ----------

  function TimerWeight(t: Timer): nat {
    match t
    case Armed => 3
    case Fired => 2
    case Due => 1
    case _ => 0
  }

  function TimerSum(b: seq<Batch>): nat {
    if b == [] then 0 else TimerSum(b[..|b| - 1]) + TimerWeight(b[|b| - 1].timer)
  }

  function PcWeight(pc: Pc): nat {
    match pc
    case Entering(_, _) => 6
    case Capped(_) => 2
    case Flushing(_) => 1
  }

  function CallsWeighing(calls: map<nat, Pc>, w: nat): set<nat> {
    set c | c in calls && PcWeight(calls[c]) == w
  }

  /** An upper bound on the steps left if nobody calls Add again. */
  function StepsLeft(s: State): nat {
    WeighingAll(s.calls) + TimerSum(s.sh.batches)
  }

  lemma {:induction false} TimerSumUpdate(b: seq<Batch>, i: nat, x: Batch)
    requires i < |b|
    ensures TimerSum(b[i := x]) == TimerSum(b) - TimerWeight(b[i].timer) + TimerWeight(x.timer)
  {
    if i == |b| - 1 {
      assert b[i := x][..|b| - 1] == b[..|b| - 1];
    } else {
      TimerSumUpdate(b[..|b| - 1], i, x);
      assert b[i := x][..|b| - 1] == b[..|b| - 1][i := x];
    }
  }

  lemma WeighingUpdate(calls: map<nat, Pc>, c: nat, pc: Pc, w: nat)
    requires c in calls
    ensures |CallsWeighing(calls[c := pc], w)|
            == |CallsWeighing(calls, w)| - (if PcWeight(calls[c]) == w then 1 else 0) + if PcWeight(pc) == w then 1 else 0
    ensures |CallsWeighing(calls - {c}, w)| == |CallsWeighing(calls, w)| - if PcWeight(calls[c]) == w then 1 else 0
  {
    hide PcWeight;
    var was, rest := CallsWeighing(calls, w), CallsWeighing(calls - {c}, w);
    assert rest == was - {c};
    if PcWeight(pc) == w {
      assert CallsWeighing(calls[c := pc], w) == rest + {c};
    } else {
      assert CallsWeighing(calls[c := pc], w) == rest;
    }
  }

  lemma CallsDrop(calls: map<nat, Pc>, c: nat, pc: Pc)
    requires c in calls
    ensures WeighingAll(calls[c := pc]) == WeighingAll(calls) - PcWeight(calls[c]) + PcWeight(pc)
    ensures WeighingAll(calls - {c}) == WeighingAll(calls) - PcWeight(calls[c])
  {
    WeighingUpdate(calls, c, pc, 6);
    WeighingUpdate(calls, c, pc, 2);
    WeighingUpdate(calls, c, pc, 1);
  }

  function WeighingAll(calls: map<nat, Pc>): nat {
    6 * |CallsWeighing(calls, 6)| + 2 * |CallsWeighing(calls, 2)| + |CallsWeighing(calls, 1)|
  }

  lemma EnterDrops(cap: int, s: State, c: nat)
    requires LeftInv(s) && Enabled(s, Enter(c))
    ensures StepsLeft(Next(cap, s, Enter(c))) < StepsLeft(s)
  {
    var key, s' := s.calls[c].key, Next(cap, s, Enter(c));
    var t := Target(s.sh, key);
    CallsDrop(s.calls, c, Capped(t));
    if key in s.sh.reg {
      TimerSumUpdate(s.sh.batches, t, s'.sh.batches[t]);
    } else {
      assert s'.sh.batches[..|s'.sh.batches| - 1] == s.sh.batches;
    }
  }

  lemma ForceDrops(cap: int, s: State, c: nat)
    requires LeftInv(s) && Enabled(s, Force(c))
    ensures StepsLeft(Next(cap, s, Force(c))) < StepsLeft(s)
  {
    var i, s' := s.calls[c].id, Next(cap, s, Force(c));
    CallsDrop(s.calls, c, Flushing(i));
    TimerSumUpdate(s.sh.batches, i, s'.sh.batches[i]);
  }

  lemma StepsLeftDrops(cap: int, s: State, st: Step)
    requires LeftInv(s) && Enabled(s, st) && !st.Call?
    ensures StepsLeft(Next(cap, s, st)) < StepsLeft(s)
  {
    match st
    case Enter(c) => EnterDrops(cap, s, c);
    case Force(c) => ForceDrops(cap, s, c);
    case CallerFlush(c) => CallsDrop(s.calls, c, Flushing(0));
    case Call(_, _, _) =>
    case Fire(i) => TimerSumUpdate(s.sh.batches, i, Next(cap, s, st).sh.batches[i]);
    case TimerLock(i) => TimerSumUpdate(s.sh.batches, i, Next(cap, s, st).sh.batches[i]);
    case TimerFlush(i) => TimerSumUpdate(s.sh.batches, i, Next(cap, s, st).sh.batches[i]);
  }

  /** No deadlock: unless everything is quiet, some step other than a new Add can be taken. */
  lemma NotQuietCanStep(s: State) returns (st: Step)
    requires Typed(s) && !Quiet(s)
    ensures Enabled(s, st) && !st.Call?
  {
    if s.calls != map[] {
      var c :| c in s.calls;
      st := if s.calls[c].Entering? then Enter(c) else if s.calls[c].Capped? then Force(c) else CallerFlush(c);
    } else {
      var i :| 0 <= i < |s.sh.batches| && s.sh.batches[i].timer !in {Stopped, Done};
      st := if s.sh.batches[i].timer == Armed then Fire(i) else if s.sh.batches[i].timer == Fired then TimerLock(i) else TimerFlush(i);
    }
  }

  /** Once no Add is called any more, at most StepsLeft steps are possible in any schedule, so
      (with NotQuietCanStep and QuietMeansFlushed) every schedule ends with everything flushed. */
  lemma {:induction false} EveryScheduleDrains(cap: int, run: seq<State>, steps: seq<Step>, from: nat, to: nat)
    requires IsRun(cap, run, steps) && from <= to < |run|
    requires forall n :: from <= n < to ==> !steps[n].Call?
    ensures to - from + StepsLeft(run[to]) <= StepsLeft(run[from])
  {
    hide Next;
    if from < to {
      EveryScheduleDrains(cap, run, steps, from, to - 1);
      RunInv(cap, run, steps, to - 1);
      StepsLeftDrops(cap, run[to - 1], steps[to - 1]);
    }
  }

  // ---------- Items flushed against items added ----------

  /** Items handed to Flush, counted with repetition. */
  function Load(flushed: seq<FlushCall>): nat {
    if flushed == [] then 0 else Load(flushed[..|flushed| - 1]) + |flushed[|flushed| - 1].items|
  }

  /** Items in the first `n` batches that were flushed exactly `times` times. */
  function Held(b: seq<Batch>, flushed: seq<FlushCall>, times: nat, n: nat): nat
    requires n <= |b|
  {
    if n == 0 then 0
    else Held(b, flushed, times, n - 1) + if Times(flushed, n - 1) == times then |b[n - 1].items| else 0
  }

  function Items(b: seq<Batch>): nat {
    if b == [] then 0 else Items(b[..|b| - 1]) + |b[|b| - 1].items|
  }

  function Weighted(b: seq<Batch>, flushed: seq<FlushCall>, n: nat): nat
    requires n <= |b|
  {
    if n == 0 then 0 else Weighted(b, flushed, n - 1) + Times(flushed, n - 1) * |b[n - 1].items|
  }

  lemma {:induction false} ItemsUpdate(b: seq<Batch>, i: nat, x: Batch)
    requires i < |b|
    ensures Items(b[i := x]) == Items(b) - |b[i].items| + |x.items|
  {
    if i == |b| - 1 {
      assert b[i := x][..|b| - 1] == b[..|b| - 1];
    } else {
      ItemsUpdate(b[..|b| - 1], i, x);
      assert b[i := x][..|b| - 1] == b[..|b| - 1][i := x];
    }
  }

  lemma {:induction false} WeightedAppend(b: seq<Batch>, flushed: seq<FlushCall>, f: FlushCall, n: nat)
    requires n <= |b| && f.id < |b| && f.items == b[f.id].items
    ensures Weighted(b, flushed + [f], n) == Weighted(b, flushed, n) + if f.id < n then |f.items| else 0
  {
    hide Times;
    if n > 0 {
      WeightedAppend(b, flushed, f, n - 1);
      TimesAppend(flushed, f, n - 1);
      var times, size := Times(flushed, n - 1), |b[n - 1].items|;
      assert (times + 1) * size == times * size + size;
    }
  }

  lemma {:induction false} LoadIsWeighted(b: seq<Batch>, flushed: seq<FlushCall>)
    requires forall f :: f in flushed ==> f.id < |b| && f.items == b[f.id].items
    ensures Load(flushed) == Weighted(b, flushed, |b|)
  {
    if flushed == [] {
      WeightedZero(b, |b|);
    } else {
      var init, f := flushed[..|flushed| - 1], flushed[|flushed| - 1];
      LoadIsWeighted(b, init);
      WeightedAppend(b, init, f, |b|);
      assert init + [f] == flushed;
    }
  }

  lemma {:induction false} WeightedZero(b: seq<Batch>, n: nat)
    requires n <= |b|
    ensures Weighted(b, [], n) == 0
  {
    if n > 0 { WeightedZero(b, n - 1); }
  }

  lemma {:induction false} WeightedSplit(b: seq<Batch>, flushed: seq<FlushCall>, n: nat)
    requires n <= |b|
    requires forall i :: 0 <= i < n ==> Times(flushed, i) <= 2
    ensures Weighted(b, flushed, n) + Held(b, flushed, 0, n) == Items(b[..n]) + Held(b, flushed, 2, n)
  {
    if n > 0 {
      WeightedSplit(b, flushed, n - 1);
      assert b[..n][..n - 1] == b[..n - 1];
    }
  }

  lemma Balance(cap: int, s: State)
    requires Inv(cap, s)
    ensures var b, f := s.sh.batches, s.flushed;
            Load(f) + Held(b, f, 0, |b|) == |s.log| + Held(b, f, 2, |b|)
  {
    LoadIsWeighted(s.sh.batches, s.flushed);
    forall i | 0 <= i < |s.sh.batches|
      ensures Times(s.flushed, i) <= 2
    {
      assert FlushAt(s, i);
    }
    WeightedSplit(s.sh.batches, s.flushed, |s.sh.batches|);
    assert s.sh.batches[..|s.sh.batches|] == s.sh.batches;
  }

  /** Conservation at every moment of every run: what Flush received, plus what it has not received
      yet, is what was added plus the batches it received twice. */
  lemma FlushedPlusWaiting(cap: int, run: seq<State>, steps: seq<Step>, n: nat)
    requires IsRun(cap, run, steps) && n < |run|
    ensures var b, f := run[n].sh.batches, run[n].flushed;
            Load(f) + Held(b, f, 0, |b|) == |run[n].log| + Held(b, f, 2, |b|)
  {
    RunInv(cap, run, steps, n);
    Balance(cap, run[n]);
  }

  // ---------- Two plausible claims that do not hold ----------

  /** Two Adds that overlap make a batch of two under a cap of one. */
  lemma CapCanBeExceeded(k: Key, a: Item, b: Item) returns (run: seq<State>, steps: seq<Step>)
    ensures IsRun(1, run, steps) && |run| == 5
    ensures run[4].sh.batches == [Batch(k, [a, b], Armed)]
  {
    hide Next;
    hide Enabled;
    hide Typed;
    var s1 := Init.(calls := map[0 := Entering(k, a)]);
    var s2 := Init.(calls := map[0 := Entering(k, a), 1 := Entering(k, b)]);
    var s3 := State(Shared([Batch(k, [a], Armed)], map[k := 0]), map[0 := Capped(0), 1 := Entering(k, b)], [(k, a)], [], [], {});
    BothCalled(k, a, b, s1, s2);
    FirstEntered(k, a, b, s2, s3);
    var s4 := SecondEntered(k, a, b, s3);
    steps, run := [Call(0, k, a), Call(1, k, b), Enter(0), Enter(1)], [Init, s1, s2, s3, s4];
  }

  lemma BothCalled(k: Key, a: Item, b: Item, s: State, s': State)
    requires s == Init.(calls := map[0 := Entering(k, a)])
    requires s' == Init.(calls := map[0 := Entering(k, a), 1 := Entering(k, b)])
    ensures Typed(Init) && Enabled(Init, Call(0, k, a)) && Next(1, Init, Call(0, k, a)) == s
    ensures Typed(s) && Enabled(s, Call(1, k, b)) && Next(1, s, Call(1, k, b)) == s'
  {
  }

  lemma SecondEntered(k: Key, a: Item, b: Item, s: State) returns (s': State)
    requires s == State(Shared([Batch(k, [a], Armed)], map[k := 0]), map[0 := Capped(0), 1 := Entering(k, b)], [(k, a)], [], [], {})
    ensures Typed(s) && Enabled(s, Enter(1)) && Next(1, s, Enter(1)) == s'
    ensures s'.sh.batches == [Batch(k, [a, b], Armed)]
  {
    s' := Next(1, s, Enter(1));
    assert [a] + [b] == [a, b];
    assert s'.sh.batches[0] == Batch(k, [a, b], Armed);
  }

  lemma FirstEntered(k: Key, a: Item, b: Item, s: State, s': State)
    requires s == Init.(calls := map[0 := Entering(k, a), 1 := Entering(k, b)])
    requires s' == State(Shared([Batch(k, [a], Armed)], map[k := 0]), map[0 := Capped(0), 1 := Entering(k, b)], [(k, a)], [], [], {})
    ensures Typed(s) && Enabled(s, Enter(0)) && Next(1, s, Enter(0)) == s'
  {
    assert Next(1, s, Enter(0)).sh == s'.sh;
    assert Next(1, s, Enter(0)).calls == s'.calls;
  }

  /** From any state of any run in which an Add is about to force-flush a batch whose timer is
      still armed, the timer firing first makes the batch be flushed twice. */
  lemma BatchCanBeFlushedTwice(cap: int, s: State, c: nat) returns (steps: seq<Step>, s': State)
    requires Inv(cap, s) && c in s.calls && s.calls[c].Capped?
    requires s.sh.Registered(s.calls[c].id) && s.sh.batches[s.calls[c].id].timer == Armed
    ensures |steps| == 5 && Leads(cap, s, steps, s')
    ensures Times(s'.flushed, s.calls[c].id) == 2
  {
    hide Next;
    hide Enabled;
    hide Typed;
    hide Times;
    hide Inv;
    var i := s.calls[c].id;
    TimerAndCount(cap, s, c);
    var s1, s2 := FireFirst(cap, s, c);
    var s3, s4, s5 := BothFlush(cap, s2, c);
    s' := s5;
    LeadsOn(cap, s4, TimerFlush(i), [], s');
    LeadsOn(cap, s3, TimerLock(i), [TimerFlush(i)], s');
    LeadsOn(cap, s2, CallerFlush(c), [TimerLock(i)] + [TimerFlush(i)], s');
    steps := [CallerFlush(c)] + ([TimerLock(i)] + [TimerFlush(i)]);
    LeadsOn(cap, s1, Force(c), steps, s');
    LeadsOn(cap, s, Fire(i), [Force(c)] + steps, s');
    steps := [Fire(i)] + ([Force(c)] + steps);
  }

  lemma TimerAndCount(cap: int, s: State, c: nat)
    requires Inv(cap, s) && c in s.calls && s.calls[c].Capped? && s.sh.Registered(s.calls[c].id)
    ensures var i := s.calls[c].id;
            Typed(s) && i < |s.sh.batches| && s.sh.batches[i].items != [] && Times(s.flushed, i) == 0
  {
    var i := s.calls[c].id;
    assert FlushAt(s, i) && TimerAt(s, i);
  }

  /** The timer fires before forceFlush gets to Stop it. */
  lemma FireFirst(cap: int, s: State, c: nat) returns (s1: State, s2: State)
    requires Typed(s) && c in s.calls && s.calls[c].Capped?
    requires s.sh.Registered(s.calls[c].id) && s.sh.batches[s.calls[c].id].timer == Armed
    ensures var i := s.calls[c].id;
            && Enabled(s, Fire(i)) && s1 == Next(cap, s, Fire(i))
            && Enabled(s1, Force(c)) && s2 == Next(cap, s1, Force(c))
            && Typed(s2) && c in s2.calls && s2.calls[c] == Flushing(i) && s2.flushed == s.flushed
            && i < |s2.sh.batches| && s2.sh.batches[i] == s.sh.batches[i].(timer := Fired)
  {
    hide AddSection;
    s1 := Next(cap, s, Fire(s.calls[c].id));
    s2 := Next(cap, s1, Force(c));
  }

  /** Then the caller flushes, and so does the timer. */
  lemma BothFlush(cap: int, s: State, c: nat) returns (s1: State, s2: State, s3: State)
    requires Typed(s) && c in s.calls && s.calls[c].Flushing? && s.sh.batches[s.calls[c].id].timer == Fired
    requires s.sh.batches[s.calls[c].id].items != []
    ensures var i := s.calls[c].id;
            && Enabled(s, CallerFlush(c)) && s1 == Next(cap, s, CallerFlush(c))
            && Enabled(s1, TimerLock(i)) && s2 == Next(cap, s1, TimerLock(i))
            && Enabled(s2, TimerFlush(i)) && s3 == Next(cap, s2, TimerFlush(i))
            && Times(s3.flushed, i) == Times(s.flushed, i) + 2
  {
    hide AddSection;
    hide ForceSection;
    hide Times;
    var i := s.calls[c].id;
    var f := FlushCall(i, s.sh.batches[i].key, s.sh.batches[i].items);
    s1 := Next(cap, s, CallerFlush(c));
    s2 := Next(cap, s1, TimerLock(i));
    s3 := Next(cap, s2, TimerFlush(i));
    assert s3.flushed == s.flushed + [f] + [f];
    TimesAppend(s.flushed, f, i);
    TimesAppend(s.flushed + [f], f, i);
  }

  lemma LeadsOn(cap: int, s: State, st: Step, steps: seq<Step>, s': State)
    requires Typed(s) && Enabled(s, st) && Leads(cap, Next(cap, s, st), steps, s')
    ensures Leads(cap, s, [st] + steps, s')
  {
    hide Next;
    assert ([st] + steps)[1..] == steps;
  }

  /** `steps` can be taken from `s` and end in `s'`. */
  ghost predicate Leads(cap: int, s: State, steps: seq<Step>, s': State)
    decreases |steps|
  {
    if steps == [] then s == s'
    else Typed(s) && Enabled(s, steps[0]) && Leads(cap, Next(cap, s, steps[0]), steps[1..], s')
  }
}
