/** The whole gate: store actions, ingest, the coalescer, flushing and the egress worker, as steps that
    interleave. A handler's store calls are one step; so are a flush's. */
module Pipeline {
  import opened Coalesce
  import opened Deliveries
  import opened Tables
  import opened Dispatch
  import CoalesceRuns
  import Egress
  import Transport
  import StoreRuns

  /** The key and the item a stored event was added as. */
  datatype Route = Route(key: Key, item: Item)

  /** `routes` is history: the stored events that had a target, and what they were added as. */
  datatype State = State(db: Db, co: CoalesceRuns.State, eg: Egress.State, routes: map<string, Route>)

  /** In `Post`, `body` is the event's content under its id and `c` names the Add call it may make. */
  datatype Step =
    | Act(a: StoreRuns.Action)
    | Post(c: nat, body: Item, e: Event, allowed: bool, known: bool, drop: bool, reply: Reply)
    | Move(m: CoalesceRuns.Step)
    | Flush(f: CoalesceRuns.Step, text: string)
    | Work(w: Egress.Step)

  const Init := State(EmptyDb, CoalesceRuns.Init, Egress.Init, map[])

  datatype Sizes = Sizes(cap: int, queue: nat)

  predicate Enabled(s: State, st: Step) {
    match st
    case Act(a) => !a.Ingest?
    case Post(c, _, _, _, _, _, _) => c !in s.co.calls
    case Move(m) => CoalesceRuns.Enabled(s.co, m) && (m.Enter? || m.Force? || m.Fire? || m.TimerLock?)
    case Flush(f, _) => CoalesceRuns.Enabled(s.co, f) && (f.CallerFlush? || f.TimerFlush?)
    case Work(w) => Egress.Enabled(s.eg, w) && !w.Submit?
  }

  /** The users an event is added for. */
  function Targets(s: State, st: Step): seq<int>
    requires st.Post?
  {
    HandleEvent(s.db, st.body.eventId, st.e, st.allowed, st.known, st.drop, st.reply).2
  }

  function RouteOf(u: int, st: Step): Route
    requires st.Post?
  {
    Route(KeyFor(u, st.e), ItemFor(u, st.body))
  }

  /** The part of a step that the tables, the coalescer and the egress each see. */
  function DbPart(st: Step): Option<StoreRuns.Action> {
    match st
    case Act(a) => Some(a)
    case Post(_, body, e, allowed, known, drop, reply) => Some(StoreRuns.Ingest(body.eventId, e, allowed, known, drop, reply))
    case Move(_) => None
    case Flush(_, _) => None
    case Work(_) => None
  }

  function CoPart(s: State, st: Step): Option<CoalesceRuns.Step> {
    match st
    case Act(_) => None
    case Post(c, body, e, _, _, _, _) =>
      var us := Targets(s, st);
      if us == [] then None else Some(CoalesceRuns.Call(c, KeyFor(us[0], e), ItemFor(us[0], body)))
    case Move(m) => Some(m)
    case Flush(f, _) => Some(f)
    case Work(_) => None
  }

  function FlushedId(s: State, f: CoalesceRuns.Step): nat
    requires CoalesceRuns.Typed(s.co) && CoalesceRuns.Enabled(s.co, f) && (f.CallerFlush? || f.TimerFlush?)
    ensures FlushedId(s, f) < |s.co.sh.batches|
  {
    if f.CallerFlush? then s.co.calls[f.c].id else f.i
  }

  function EgPart(s: State, st: Step): Option<Egress.Step>
    requires CoalesceRuns.Typed(s.co) && Enabled(s, st)
  {
    match st
    case Act(_) => None
    case Post(_, _, _, _, _, _, _) => None
    case Move(_) => None
    case Flush(f, text) =>
      var b := s.co.sh.batches[FlushedId(s, f)];
      SubmissionFor(s.db, b.key, b.items, text)
    case Work(w) => Some(w)
  }

  function Next(z: Sizes, s: State, st: Step): (s': State)
    requires CoalesceRuns.Typed(s.co) && Enabled(s, st)
    ensures CoalesceRuns.Typed(s'.co)
  {
    State(
      if DbPart(st).Some? then StoreRuns.Apply(s.db, DbPart(st).value) else s.db,
      if CoPart(s, st).Some? then CoalesceRuns.Next(z.cap, s.co, CoPart(s, st).value) else s.co,
      if EgPart(s, st).Some? then Egress.Next(z.queue, s.eg, EgPart(s, st).value) else s.eg,
      if st.Post? && Targets(s, st) != [] then s.routes[st.body.eventId := RouteOf(Targets(s, st)[0], st)] else s.routes)
  }

  ghost predicate IsRun(z: Sizes, run: seq<State>, steps: seq<Step>) {
    && |run| == |steps| + 1
    && run[0] == Init
    && forall n :: 0 <= n < |steps| ==>
         CoalesceRuns.Typed(run[n].co) && Enabled(run[n], steps[n]) && run[n + 1] == Next(z, run[n], steps[n])
  }

  // ---------- Each part runs as its own model says ----------

  predicate Resets(st: Step) {
    st.Work? && st.w.RetryAll?
  }

  lemma StepParts(z: Sizes, s: State, st: Step)
    requires CoalesceRuns.Typed(s.co) && Enabled(s, st)
    ensures CoPart(s, st).Some? ==> CoalesceRuns.Enabled(s.co, CoPart(s, st).value)
    ensures EgPart(s, st).Some? ==> Egress.Enabled(s.eg, EgPart(s, st).value)
    ensures EgPart(s, st).Some? && EgPart(s, st).value.RetryAll? ==> Resets(st)
    ensures Next(z, s, st).db == if DbPart(st).Some? then StoreRuns.Apply(s.db, DbPart(st).value) else s.db
    ensures Next(z, s, st).co == if CoPart(s, st).Some? then CoalesceRuns.Next(z.cap, s.co, CoPart(s, st).value) else s.co
    ensures Next(z, s, st).eg == if EgPart(s, st).Some? then Egress.Next(z.queue, s.eg, EgPart(s, st).value) else s.eg
  {
  }

  /** The coalescer of any run of the gate has a run of its own, and likewise the egress and the tables. */
  lemma {:induction false} CoRun(z: Sizes, run: seq<State>, steps: seq<Step>, n: nat)
      returns (r: seq<CoalesceRuns.State>, cs: seq<CoalesceRuns.Step>)
    requires IsRun(z, run, steps) && n < |run|
    ensures |r| > 0 && CoalesceRuns.IsRun(z.cap, r, cs) && r[|r| - 1] == run[n].co
  {
    hide CoalesceRuns.Next;
    hide Next;
    hide CoPart;
    hide EgPart;
    hide Enabled;
    if n == 0 {
      r, cs := [CoalesceRuns.Init], [];
    } else {
      r, cs := CoRun(z, run, steps, n - 1);
      StepParts(z, run[n - 1], steps[n - 1]);
      var st := CoPart(run[n - 1], steps[n - 1]);
      if st.Some? {
        r, cs := r + [run[n].co], cs + [st.value];
      }
    }
  }

  lemma {:induction false} EgRun(z: Sizes, run: seq<State>, steps: seq<Step>, n: nat)
      returns (r: seq<Egress.State>, es: seq<Egress.Step>)
    requires IsRun(z, run, steps) && n < |run|
    ensures |r| == |es| + 1 && Egress.IsRun(z.queue, r, es) && r[|r| - 1] == run[n].eg
    ensures (forall m :: 0 <= m < n ==> !Resets(steps[m])) ==> forall i :: 0 <= i < |es| ==> !es[i].RetryAll?
  {
    hide Resets;
    hide Egress.Next;
    hide Next;
    hide CoPart;
    hide EgPart;
    hide Enabled;
    if n == 0 {
      r, es := [Egress.Init], [];
    } else {
      r, es := EgRun(z, run, steps, n - 1);
      StepParts(z, run[n - 1], steps[n - 1]);
      var st := EgPart(run[n - 1], steps[n - 1]);
      if st.Some? {
        r, es := r + [run[n].eg], es + [st.value];
      }
    }
  }

  lemma {:induction false} DbRun(z: Sizes, run: seq<State>, steps: seq<Step>, n: nat)
      returns (r: seq<Db>, acts: seq<StoreRuns.Action>)
    requires IsRun(z, run, steps) && n < |run|
    ensures |r| > 0 && StoreRuns.IsRun(r, acts) && r[|r| - 1] == run[n].db
  {
    hide StoreRuns.Apply;
    hide Next;
    hide CoPart;
    hide EgPart;
    hide Enabled;
    if n == 0 {
      r, acts := [EmptyDb], [];
    } else {
      r, acts := DbRun(z, run, steps, n - 1);
      StepParts(z, run[n - 1], steps[n - 1]);
      var a := DbPart(steps[n - 1]);
      if a.Some? {
        r, acts := r + [run[n].db], acts + [a.value];
      }
    }
  }

  lemma PartsInv(z: Sizes, run: seq<State>, steps: seq<Step>, n: nat)
    requires IsRun(z, run, steps) && n < |run|
    ensures CoalesceRuns.Inv(z.cap, run[n].co) && Egress.Inv(z.queue, run[n].eg) && StoreRuns.TopicsAtHome(run[n].db)
  {
    hide *;
    var r, cs := CoRun(z, run, steps, n);
    CoalesceRuns.RunInv(z.cap, r, cs, |r| - 1);
    var q, es := EgRun(z, run, steps, n);
    Egress.RunInv(z.queue, q, es, |q| - 1);
    var d, acts := DbRun(z, run, steps, n);
    StoreRuns.TopicsFollowTheGroup(d, acts, |d| - 1);
  }

  // ---------- Where every event is ----------

  /** The Add calls that have not taken the lock yet; those of them that carry event `id`. */
  function Entering(calls: map<nat, CoalesceRuns.Pc>): (cs: set<nat>)
    ensures forall c :: c in cs ==> c in calls && calls[c].Entering?
  {
    set c | c in calls && calls[c].Entering?
  }

  function EnteringWith(calls: map<nat, CoalesceRuns.Pc>, id: string): set<nat> {
    set c | c in calls && calls[c].Entering? && calls[c].item.eventId == id
  }

  /** An item on its way under `k` is of the user of `k`, and its event was routed there. */
  predicate EntryOk(s: State, k: Key, it: Item) {
    && it.userId == k.userId && k.userId in s.db.users
    && it.eventId in s.routes && s.routes[it.eventId] == Route(k, it)
  }

  ghost predicate EntriesOk(s: State) {
    && (forall c :: c in Entering(s.co.calls) ==> EntryOk(s, s.co.calls[c].key, s.co.calls[c].item))
    && (forall i :: 0 <= i < |s.co.log| ==> EntryOk(s, s.co.log[i].0, s.co.log[i].1))
  }

  /** Each routed event is in one place, each other event in none. */
  ghost predicate PlacedOnce(s: State, id: string) {
    CoalesceRuns.Logged(s.co.log, id) + |EnteringWith(s.co.calls, id)| == if id in s.routes then 1 else 0
  }

  ghost predicate PlacesInv(s: State) {
    && (forall id :: PlacedOnce(s, id))
    && |s.routes| == |s.co.log| + |Entering(s.co.calls)|
    && s.routes.Keys <= s.db.events.Keys
  }

  /** Row `j` and the delivery made with it are of flush `j`. */
  predicate RowIsFlush(row: Row, d: Transport.Delivery, f: CoalesceRuns.FlushCall) {
    && f.items != []
    && row.userId == f.key.userId == d.userId && row.service == f.key.service == d.service && row.typ == f.key.typ
    && row.eventId == f.items[0].eventId && row.batchSize == |f.items| && row.threadId == d.threadId
  }

  ghost predicate RowsInv(s: State) {
    && |s.eg.rows| == |s.eg.offered| == |s.co.flushed|
    && forall j :: 0 <= j < |s.co.flushed| ==> RowIsFlush(s.eg.rows[j], s.eg.offered[j], s.co.flushed[j])
  }

  ghost predicate Inv(s: State) {
    EntriesOk(s) && PlacesInv(s) && RowsInv(s)
  }

  /** What a step of the coalescer does to the log, the entering calls and the flushes. */
  lemma CoEffect(cap: int, s: CoalesceRuns.State, m: CoalesceRuns.Step)
    requires CoalesceRuns.Typed(s) && CoalesceRuns.Enabled(s, m)
    ensures var s' := CoalesceRuns.Next(cap, s, m);
            && (!m.Enter? ==> s'.log == s.log)
            && (!m.CallerFlush? && !m.TimerFlush? ==> s'.flushed == s.flushed)
            && (m.Enter? ==> s'.log == s.log + [(s.calls[m.c].key, s.calls[m.c].item)])
            && (m.Call? ==> s'.calls == s.calls[m.c := CoalesceRuns.Entering(m.key, m.item)])
            && (m.Enter? ==> s'.calls == s.calls - {m.c} || exists i: nat :: s'.calls == s.calls[m.c := CoalesceRuns.Capped(i)])
            && (m.Force? ==> s'.calls == s.calls - {m.c} || exists i: nat :: s'.calls == s.calls[m.c := CoalesceRuns.Flushing(i)])
            && (m.CallerFlush? ==> s'.calls == s.calls - {m.c})
            && (m.Fire? || m.TimerLock? || m.TimerFlush? ==> s'.calls == s.calls)
  {
    hide AddSection;
  }

  /** Call `c` leaves the entering ones (or was never one of them). */
  lemma Leaves(calls: map<nat, CoalesceRuns.Pc>, calls': map<nat, CoalesceRuns.Pc>, c: nat, id: string)
    requires calls' == calls - {c} || (c in calls' && calls' == calls[c := calls'[c]] && !calls'[c].Entering?)
    ensures Entering(calls') == Entering(calls) - {c}
    ensures EnteringWith(calls', id) == EnteringWith(calls, id) - {c}
    ensures forall x :: x in Entering(calls') ==> x in Entering(calls) && calls'[x] == calls[x]
    ensures c in calls && calls[c].Entering? <==> c in Entering(calls)
    ensures c in Entering(calls) && calls[c].item.eventId == id <==> c in EnteringWith(calls, id)
  {
  }

  lemma Joins(calls: map<nat, CoalesceRuns.Pc>, c: nat, k: Key, it: Item, id: string)
    requires c !in calls
    ensures var calls' := calls[c := CoalesceRuns.Entering(k, it)];
            && Entering(calls') == Entering(calls) + {c}
            && EnteringWith(calls', id) == EnteringWith(calls, id) + (if it.eventId == id then {c} else {})
            && (forall x :: x in Entering(calls') ==> calls'[x] == if x == c then CoalesceRuns.Entering(k, it) else calls[x])
    ensures c !in Entering(calls) && c !in EnteringWith(calls, id)
  {
  }

  lemma LoggedPush(log: seq<(Key, Item)>, x: (Key, Item), id: string)
    ensures CoalesceRuns.Logged(log + [x], id) == CoalesceRuns.Logged(log, id) + if x.1.eventId == id then 1 else 0
  {
    assert (log + [x])[..|log|] == log;
  }

  /** A step of the coalescer other than Call, seen from the events. */
  lemma MovePlaces(cap: int, s: CoalesceRuns.State, m: CoalesceRuns.Step, id: string)
    requires CoalesceRuns.Typed(s) && CoalesceRuns.Enabled(s, m) && !m.Call?
    ensures var s' := CoalesceRuns.Next(cap, s, m);
            && CoalesceRuns.Logged(s'.log, id) + |EnteringWith(s'.calls, id)|
               == CoalesceRuns.Logged(s.log, id) + |EnteringWith(s.calls, id)|
            && |s'.log| + |Entering(s'.calls)| == |s.log| + |Entering(s.calls)|
  {
    hide CoalesceRuns.Next;
    hide Entering;
    hide EnteringWith;
    hide CoalesceRuns.Logged;
    var s' := CoalesceRuns.Next(cap, s, m);
    CoEffect(cap, s, m);
    if m.Enter? || m.Force? || m.CallerFlush? {
      Leaves(s.calls, s'.calls, m.c, id);
      if m.Enter? { LoggedPush(s.log, (s.calls[m.c].key, s.calls[m.c].item), id); }
    }
  }

  lemma MoveEntries(cap: int, s: CoalesceRuns.State, m: CoalesceRuns.Step)
    requires CoalesceRuns.Typed(s) && CoalesceRuns.Enabled(s, m) && !m.Call?
    ensures var s' := CoalesceRuns.Next(cap, s, m);
            && (forall c :: c in Entering(s'.calls) ==> c in Entering(s.calls) && s'.calls[c] == s.calls[c])
            && (forall i :: 0 <= i < |s'.log| ==>
                  (i < |s.log| && s'.log[i] == s.log[i])
                  || exists c :: c in Entering(s.calls) && s'.log[i] == (s.calls[c].key, s.calls[c].item))
  {
    hide CoalesceRuns.Next;
    hide Entering;
    hide EnteringWith;
    var s' := CoalesceRuns.Next(cap, s, m);
    CoEffect(cap, s, m);
    if m.Enter? || m.Force? || m.CallerFlush? {
      Leaves(s.calls, s'.calls, m.c, "");
    }
  }

  // ---------- Posting ----------

  /** An event is added for at most one user: the active owner of its identity; its id is then new. */
  lemma PostFacts(s: State, st: Step)
    requires st.Post?
    ensures var us := Targets(s, st);
            us != [] ==>
              && |us| == 1 && st.body.eventId !in s.db.events
              && st.body.eventId in StoreRuns.Apply(s.db, DbPart(st).value).events
              && StoreRuns.Apply(s.db, DbPart(st).value).events[st.body.eventId] == st.e
              && OwnsActively(s.db, us[0], st.e) && us[0] in s.db.users
  {
    hide EnsureTopic;
    var stored := InsertEvent(s.db, st.body.eventId, st.e).0;
    if Routed(stored, st.e) {
      var u := stored.links[(st.e.service, st.e.userRef)].userId;
      StoreRuns.TopicFrame(stored, u, ChatOf(stored, u), st.e.service, st.reply);
    }
  }

  /** `u` is the owner of the event's identity, the link is active, and the subscription lets it through. */
  predicate OwnsActively(db: Db, u: int, e: Event) {
    var k := (e.service, e.userRef);
    k in db.links && db.links[k] == Link(u, true) && Admits(db, u, e.service, e.typ)
  }

  lemma PostEffect(z: Sizes, s: State, st: Step)
    requires CoalesceRuns.Typed(s.co) && Enabled(s, st) && st.Post?
    ensures var s', us := Next(z, s, st), Targets(s, st);
            && s.db.users.Keys <= s'.db.users.Keys && s.db.events.Keys <= s'.db.events.Keys
            && s'.co.log == s.co.log
            && (us == [] ==> s'.co.calls == s.co.calls && s'.routes == s.routes)
            && (us != [] ==>
                  var k, it := KeyFor(us[0], st.e), ItemFor(us[0], st.body);
                  && us[0] in s.db.users && st.body.eventId !in s.db.events && st.body.eventId in s'.db.events
                  && s'.co.calls == s.co.calls[st.c := CoalesceRuns.Entering(k, it)]
                  && s'.routes == s.routes[st.body.eventId := Route(k, it)])
  {
    hide CoalesceRuns.Next;
    hide Targets;
    hide StoreRuns.Apply;
    StepParts(z, s, st);
    StoreRuns.NothingForgotten(s.db, DbPart(st).value);
    PostFacts(s, st);
    if Targets(s, st) != [] { CoEffect(z.cap, s.co, CoPart(s, st).value); }
  }

  ghost predicate Grown(s: State, s': State) {
    && s.db.users.Keys <= s'.db.users.Keys
    && forall id :: id in s.routes ==> id in s'.routes && s'.routes[id] == s.routes[id]
  }

  lemma EntryStays(s: State, s': State, k: Key, it: Item)
    requires Grown(s, s') && EntryOk(s, k, it)
    ensures EntryOk(s', k, it)
  {
  }

  lemma EntriesPost(z: Sizes, s: State, st: Step)
    requires CoalesceRuns.Typed(s.co) && Enabled(s, st) && st.Post? && EntriesOk(s) && PlacesInv(s)
    ensures EntriesOk(Next(z, s, st))
  {
    hide Next;
    hide Targets;
    hide Entering;
    hide EntryOk;
    hide PlacedOnce;
    var s' := Next(z, s, st);
    PostEffect(z, s, st);
    assert Grown(s, s');
    forall i | 0 <= i < |s'.co.log|
      ensures EntryOk(s', s'.co.log[i].0, s'.co.log[i].1)
    {
      EntryStays(s, s', s.co.log[i].0, s.co.log[i].1);
    }
    forall c | c in Entering(s'.co.calls)
      ensures EntryOk(s', s'.co.calls[c].key, s'.co.calls[c].item)
    {
      var us := Targets(s, st);
      if us == [] {
        EntryStays(s, s', s.co.calls[c].key, s.co.calls[c].item);
      } else {
        EntriesJoin(s, s', st.c, us[0], st.e, st.body, c);
      }
    }
  }

  lemma EntriesJoin(s: State, s': State, c: nat, u: int, e: Event, body: Item, x: nat)
    requires EntriesOk(s) && Grown(s, s') && c !in s.co.calls
    requires s'.co.calls == s.co.calls[c := CoalesceRuns.Entering(KeyFor(u, e), ItemFor(u, body))]
    requires u in s'.db.users && body.eventId in s'.routes && s'.routes[body.eventId] == Route(KeyFor(u, e), ItemFor(u, body))
    requires x in Entering(s'.co.calls)
    ensures EntryOk(s', s'.co.calls[x].key, s'.co.calls[x].item)
  {
    hide Entering;
    hide EntryOk;
    hide Grown;
    Joins(s.co.calls, c, KeyFor(u, e), ItemFor(u, body), "");
    if x == c {
      NewEntry(s', u, e, body);
    } else {
      EntryStays(s, s', s.co.calls[x].key, s.co.calls[x].item);
    }
  }

  lemma NewEntry(s: State, u: int, e: Event, body: Item)
    requires u in s.db.users && body.eventId in s.routes && s.routes[body.eventId] == Route(KeyFor(u, e), ItemFor(u, body))
    ensures EntryOk(s, KeyFor(u, e), ItemFor(u, body))
  {
  }

  lemma PlacesPost(z: Sizes, s: State, st: Step)
    requires CoalesceRuns.Typed(s.co) && Enabled(s, st) && st.Post? && PlacesInv(s)
    ensures PlacesInv(Next(z, s, st))
  {
    hide Next;
    hide Targets;
    hide Entering;
    hide EnteringWith;
    hide CoalesceRuns.Logged;
    var s' := Next(z, s, st);
    PostEffect(z, s, st);
    var us := Targets(s, st);
    forall id
      ensures PlacedOnce(s', id)
    {
      assert PlacedOnce(s, id);
      if us != [] { Joins(s.co.calls, st.c, KeyFor(us[0], st.e), ItemFor(us[0], st.body), id); }
    }
    if us != [] { Joins(s.co.calls, st.c, KeyFor(us[0], st.e), ItemFor(us[0], st.body), ""); }
  }

  // ---------- Every other step ----------

  lemma EntriesOther(z: Sizes, s: State, st: Step)
    requires CoalesceRuns.Typed(s.co) && Enabled(s, st) && !st.Post? && EntriesOk(s)
    ensures EntriesOk(Next(z, s, st))
  {
    hide CoalesceRuns.Next;
    hide Egress.Next;
    hide StoreRuns.Apply;
    hide Entering;
    hide SubmissionFor;
    var s' := Next(z, s, st);
    StepParts(z, s, st);
    if st.Act? { StoreRuns.NothingForgotten(s.db, st.a); }
    if st.Move? || st.Flush? { MoveEntries(z.cap, s.co, CoPart(s, st).value); }
  }

  lemma PlacesOther(z: Sizes, s: State, st: Step)
    requires CoalesceRuns.Typed(s.co) && Enabled(s, st) && !st.Post? && PlacesInv(s)
    ensures PlacesInv(Next(z, s, st))
  {
    hide CoalesceRuns.Next;
    hide Egress.Next;
    hide StoreRuns.Apply;
    hide Entering;
    hide EnteringWith;
    hide CoalesceRuns.Logged;
    hide SubmissionFor;
    var s' := Next(z, s, st);
    StepParts(z, s, st);
    if st.Act? { StoreRuns.NothingForgotten(s.db, st.a); }
    forall id
      ensures PlacedOnce(s', id)
    {
      assert PlacedOnce(s, id);
      if st.Move? || st.Flush? { MovePlaces(z.cap, s.co, CoPart(s, st).value, id); }
    }
    if st.Move? || st.Flush? { MovePlaces(z.cap, s.co, CoPart(s, st).value, ""); }
  }

  // ---------- Rows and flushes ----------

  /** What identifies a row never changes. */
  lemma RowKeeps(q: nat, s: Egress.State, w: Egress.Step, j: nat)
    requires Egress.QueueInv(q, s) && Egress.Enabled(s, w) && !w.Submit? && j < |s.rows|
    ensures var s' := Egress.Next(q, s, w);
            && |s'.rows| == |s.rows| && s'.offered == s.offered
            && s'.rows[j].userId == s.rows[j].userId && s'.rows[j].service == s.rows[j].service && s'.rows[j].typ == s.rows[j].typ
            && s'.rows[j].eventId == s.rows[j].eventId && s'.rows[j].batchSize == s.rows[j].batchSize
            && s'.rows[j].threadId == s.rows[j].threadId
  {
    if w.Answer? || w.GiveUp? { Egress.BusyTaken(q, s); }
  }

  lemma RowsWork(z: Sizes, s: State, st: Step)
    requires CoalesceRuns.Typed(s.co) && Enabled(s, st) && st.Work? && RowsInv(s) && Egress.QueueInv(z.queue, s.eg)
    ensures RowsInv(Next(z, s, st))
  {
    hide Egress.Next;
    hide Egress.QueueInv;
    StepParts(z, s, st);
    var s' := Next(z, s, st);
    WorkKeepsCount(z.queue, s.eg, st.w);
    forall j | 0 <= j < |s.co.flushed|
      ensures RowIsFlush(s'.eg.rows[j], s'.eg.offered[j], s'.co.flushed[j])
    {
      RowKeeps(z.queue, s.eg, st.w, j);
    }
  }

  lemma WorkKeepsCount(q: nat, s: Egress.State, w: Egress.Step)
    requires Egress.Enabled(s, w) && !w.Submit?
    ensures |Egress.Next(q, s, w).rows| == |s.rows| && Egress.Next(q, s, w).offered == s.offered
  {
  }

  /** The batch being flushed is not empty and its items are of the user of its key. */
  lemma FlushedBatch(z: Sizes, s: State, i: nat)
    requires CoalesceRuns.Inv(z.cap, s.co) && EntriesOk(s) && i < |s.co.sh.batches|
    ensures var b := s.co.sh.batches[i];
            b.items != [] && b.key.userId in s.db.users && forall it :: it in b.items ==> it.userId == b.key.userId
  {
    hide Entering;
    hide CoalesceRuns.CapInv;
    hide CoalesceRuns.OrderInv;
    hide CoalesceRuns.FlushInv;
    hide CoalesceRuns.FrozenInv;
    hide CoalesceRuns.CopiesInv;
    hide CoalesceRuns.LeftInv;
    var b := s.co.sh.batches[i];
    assert CoalesceRuns.TimerAt(s.co, i);
    forall it | it in b.items
      ensures EntryOk(s, b.key, it)
    {
      assert (b.key, it) in s.co.log;
    }
    assert b.items[0] in b.items;
  }

  lemma FlushEffect(cap: int, s: CoalesceRuns.State, f: CoalesceRuns.Step)
    requires CoalesceRuns.Typed(s) && CoalesceRuns.Enabled(s, f) && (f.CallerFlush? || f.TimerFlush?)
    ensures var i := if f.CallerFlush? then s.calls[f.c].id else f.i;
            i < |s.sh.batches| && CoalesceRuns.Next(cap, s, f).flushed == CoalesceRuns.FlushBatch(s.flushed, i, s.sh.batches[i])
  {
    hide AddSection;
  }

  lemma SubmitEffect(q: nat, s: Egress.State, w: Egress.Step)
    requires w.Submit?
    ensures var s', d := Egress.Next(q, s, w), Transport.Delivery(|s.rows|, w.userId, w.chatId, w.threadId, w.text, w.service);
            && s'.offered == s.offered + [d]
            && s'.rows == s.rows + [NewRow(w.userId, w.eventId, w.service, w.typ, w.batchSize, w.threadId)]
  {
  }

  lemma RowsFlush(z: Sizes, s: State, st: Step)
    requires CoalesceRuns.Inv(z.cap, s.co) && Enabled(s, st) && st.Flush? && EntriesOk(s) && RowsInv(s)
    ensures RowsInv(Next(z, s, st))
    ensures EgPart(s, st).Some?
  {
    hide CoalesceRuns.Next;
    hide Egress.Next;
    hide EntriesOk;
    hide CoalesceRuns.Inv;
    InvIsTyped(z.cap, s.co);
    var i := FlushedId(s, st.f);
    FlushedBatch(z, s, i);
    StepParts(z, s, st);
    FlushEffect(z.cap, s.co, st.f);
    var b := s.co.sh.batches[i];
    assert b.items[0] in b.items;
    SubmitEffect(z.queue, s.eg, EgPart(s, st).value);
  }

  lemma InvIsTyped(cap: int, s: CoalesceRuns.State)
    requires CoalesceRuns.Inv(cap, s)
    ensures CoalesceRuns.Typed(s)
  {
  }

  lemma RowsSame(z: Sizes, s: State, st: Step)
    requires CoalesceRuns.Typed(s.co) && Enabled(s, st) && !st.Flush? && !st.Work? && RowsInv(s)
    ensures RowsInv(Next(z, s, st))
  {
    hide CoalesceRuns.Next;
    hide Targets;
    StepParts(z, s, st);
    if CoPart(s, st).Some? { CoEffect(z.cap, s.co, CoPart(s, st).value); }
  }

  lemma {:induction false} RunInv(z: Sizes, run: seq<State>, steps: seq<Step>, n: nat)
    requires IsRun(z, run, steps) && n < |run|
    ensures Inv(run[n]) && CoalesceRuns.Inv(z.cap, run[n].co) && Egress.Inv(z.queue, run[n].eg) && StoreRuns.TopicsAtHome(run[n].db)
  {
    hide *;
    PartsInv(z, run, steps, n);
    if n == 0 {
      RunStart(z, run, steps);
    } else {
      RunInv(z, run, steps, n - 1);
      RunNext(z, run, steps, n);
      InvStep(z, run[n - 1], steps[n - 1]);
    }
  }

  lemma RunStart(z: Sizes, run: seq<State>, steps: seq<Step>)
    requires IsRun(z, run, steps)
    ensures Inv(run[0])
  {
    hide Next;
    assert run[0] == Init;
    assert Entering(map[]) == {} && forall id :: EnteringWith(map[], id) == {};
  }

  lemma RunNext(z: Sizes, run: seq<State>, steps: seq<Step>, n: nat)
    requires IsRun(z, run, steps) && 0 < n < |run|
    ensures |run| == |steps| + 1
    ensures CoalesceRuns.Typed(run[n - 1].co) && Enabled(run[n - 1], steps[n - 1]) && run[n] == Next(z, run[n - 1], steps[n - 1])
  {
  }

  lemma InvStep(z: Sizes, s: State, st: Step)
    requires Inv(s) && CoalesceRuns.Inv(z.cap, s.co) && Egress.Inv(z.queue, s.eg) && CoalesceRuns.Typed(s.co) && Enabled(s, st)
    ensures Inv(Next(z, s, st))
  {
    hide Next;
    hide EntriesOk;
    hide PlacesInv;
    hide RowsInv;
    hide Enabled;
    hide CoalesceRuns.Inv;
    hide Egress.QueueInv;
    hide Egress.RowInv;
    match st
    case Post(_, _, _, _, _, _, _) =>
      EntriesPost(z, s, st);
      PlacesPost(z, s, st);
      RowsSame(z, s, st);
    case Act(_) =>
      EntriesOther(z, s, st);
      PlacesOther(z, s, st);
      RowsSame(z, s, st);
    case Move(_) =>
      EntriesOther(z, s, st);
      PlacesOther(z, s, st);
      RowsSame(z, s, st);
    case Flush(_, _) =>
      EntriesOther(z, s, st);
      PlacesOther(z, s, st);
      RowsFlush(z, s, st);
    case Work(_) =>
      EntriesOther(z, s, st);
      PlacesOther(z, s, st);
      RowsWork(z, s, st);
  }

  // ---------- Conservation ----------

  function SumOfSizes(rows: seq<Row>): nat {
    if rows == [] then 0 else SumOfSizes(rows[..|rows| - 1]) + rows[|rows| - 1].batchSize
  }

  lemma {:induction false} SumIsLoad(rows: seq<Row>, offered: seq<Transport.Delivery>, flushed: seq<CoalesceRuns.FlushCall>)
    requires |rows| == |offered| == |flushed|
    requires forall j :: 0 <= j < |flushed| ==> RowIsFlush(rows[j], offered[j], flushed[j])
    ensures SumOfSizes(rows) == CoalesceRuns.Load(flushed)
  {
    if rows != [] {
      var n := |rows| - 1;
      SumIsLoad(rows[..n], offered[..n], flushed[..n]);
    }
  }

  lemma {:induction false} HeldNever(b: seq<Batch>, flushed: seq<CoalesceRuns.FlushCall>, times: nat, n: nat)
    requires n <= |b| && forall i :: 0 <= i < n ==> CoalesceRuns.Times(flushed, i) != times
    ensures CoalesceRuns.Held(b, flushed, times, n) == 0
  {
    if n > 0 { HeldNever(b, flushed, times, n - 1); }
  }

  /** At every moment of every run: the batch sizes of all delivery rows, the items no flush has taken
      yet and the events about to be added make up the stored events that had a target, plus the
      batches flushed twice; and those exist only where a timer fired too early to be stopped. */
  lemma NoEventIsLost(z: Sizes, run: seq<State>, steps: seq<Step>, n: nat)
    requires IsRun(z, run, steps) && n < |run|
    ensures var s, b, f := run[n], run[n].co.sh.batches, run[n].co.flushed;
            && SumOfSizes(s.eg.rows) + CoalesceRuns.Held(b, f, 0, |b|) + |Entering(s.co.calls)|
               == |s.routes| + CoalesceRuns.Held(b, f, 2, |b|)
            && (s.co.missed == {} ==> CoalesceRuns.Held(b, f, 2, |b|) == 0)
            && s.routes.Keys <= s.db.events.Keys
  {
    hide IsRun;
    hide Entering;
    hide RowIsFlush;
    RunInv(z, run, steps, n);
    var s := run[n];
    SumIsLoad(s.eg.rows, s.eg.offered, s.co.flushed);
    CoalesceRuns.Balance(z.cap, s.co);
    if s.co.missed == {} {
      forall i | 0 <= i < |s.co.sh.batches|
        ensures CoalesceRuns.Times(s.co.flushed, i) <= 1
      {
        assert CoalesceRuns.FlushAt(s.co, i);
      }
      HeldNever(s.co.sh.batches, s.co.flushed, 2, |s.co.sh.batches|);
    }
  }

  // ---------- One batch, one delivery per event ----------

  predicate Carries(items: seq<Item>, id: string) {
    exists it :: it in items && it.eventId == id
  }

  lemma {:induction false} CarriesIff(items: seq<Item>, id: string)
    ensures Carries(items, id) <==> CoalesceRuns.CopiesIn(items, id) > 0
  {
    if items != [] {
      var init, last := items[..|items| - 1], items[|items| - 1];
      CarriesIff(init, id);
      assert items == init + [last];
    }
  }

  lemma {:induction false} CopiesOne(b: seq<Batch>, i: nat, id: string)
    requires i < |b|
    ensures CoalesceRuns.Copies(b, id) >= CoalesceRuns.CopiesIn(b[i].items, id)
  {
    if i < |b| - 1 { CopiesOne(b[..|b| - 1], i, id); }
  }

  lemma {:induction false} CopiesTwo(b: seq<Batch>, i: nat, j: nat, id: string)
    requires i < j < |b|
    ensures CoalesceRuns.Copies(b, id) >= CoalesceRuns.CopiesIn(b[i].items, id) + CoalesceRuns.CopiesIn(b[j].items, id)
  {
    if j < |b| - 1 { CopiesTwo(b[..|b| - 1], i, j, id); } else { CopiesOne(b[..|b| - 1], i, id); }
  }

  lemma {:induction false} CopiesSome(b: seq<Batch>, id: string) returns (i: nat)
    requires CoalesceRuns.Copies(b, id) > 0
    ensures i < |b| && CoalesceRuns.CopiesIn(b[i].items, id) > 0
  {
    if CoalesceRuns.CopiesIn(b[|b| - 1].items, id) > 0 { i := |b| - 1; } else { i := CopiesSome(b[..|b| - 1], id); }
  }

  lemma {:induction false} TimesOne(flushed: seq<CoalesceRuns.FlushCall>, j: nat)
    requires j < |flushed|
    ensures CoalesceRuns.Times(flushed, flushed[j].id) >= 1
  {
    if j < |flushed| - 1 { TimesOne(flushed[..|flushed| - 1], j); }
  }

  lemma {:induction false} TimesTwo(flushed: seq<CoalesceRuns.FlushCall>, j: nat, l: nat)
    requires j < l < |flushed| && flushed[j].id == flushed[l].id
    ensures CoalesceRuns.Times(flushed, flushed[j].id) >= 2
  {
    if l < |flushed| - 1 { TimesTwo(flushed[..|flushed| - 1], j, l); } else { TimesOne(flushed[..|flushed| - 1], j); }
  }

  lemma {:induction false} TimesSome(flushed: seq<CoalesceRuns.FlushCall>, i: nat) returns (j: nat)
    requires CoalesceRuns.Times(flushed, i) > 0
    ensures j < |flushed| && flushed[j].id == i
  {
    if flushed[|flushed| - 1].id == i { j := |flushed| - 1; } else { j := TimesSome(flushed[..|flushed| - 1], i); }
  }

  /** At every moment a routed event is in exactly one place: one Add call that has not taken the lock,
      or one position of one batch. Every other event is nowhere. */
  lemma EventInOnePlace(z: Sizes, run: seq<State>, steps: seq<Step>, n: nat, id: string)
    requires IsRun(z, run, steps) && n < |run|
    ensures var s := run[n];
            CoalesceRuns.Copies(s.co.sh.batches, id) + |EnteringWith(s.co.calls, id)| == if id in s.routes then 1 else 0
  {
    hide IsRun;
    hide EnteringWith;
    RunInv(z, run, steps, n);
    assert PlacedOnce(run[n], id);
  }

  /** Two deliveries that carry the same event are two flushes of one batch whose timer had fired
      before it could be stopped. */
  lemma TwoDeliveriesMeanMissedTimer(z: Sizes, run: seq<State>, steps: seq<Step>, n: nat, id: string, j: nat, l: nat)
    requires IsRun(z, run, steps) && n < |run| && j < l < |run[n].co.flushed|
    requires Carries(run[n].co.flushed[j].items, id) && Carries(run[n].co.flushed[l].items, id)
    ensures run[n].co.flushed[j].id == run[n].co.flushed[l].id && run[n].co.flushed[j].id in run[n].co.missed
  {
    hide IsRun;
    hide EnteringWith;
    hide Carries;
    EventInOnePlace(z, run, steps, n, id);
    RunInv(z, run, steps, n);
    var b, f := run[n].co.sh.batches, run[n].co.flushed;
    CarriesIff(f[j].items, id);
    CarriesIff(f[l].items, id);
    if f[j].id < f[l].id { CopiesTwo(b, f[j].id, f[l].id, id); }
    if f[l].id < f[j].id { CopiesTwo(b, f[l].id, f[j].id, id); }
    TimesTwo(f, j, l);
    assert CoalesceRuns.FlushAt(run[n].co, f[j].id);
  }

  /** Row `row` is of an event that step `st` posted in `s`: of its owner, its service and its type. */
  predicate RowOfPosted(row: Row, s: State, st: Step) {
    && st.Post? && row.service == st.e.service && row.typ == st.e.typ
    && (st.e.service, st.e.userRef) in s.db.links && s.db.links[(st.e.service, st.e.userRef)] == Link(row.userId, true)
  }

  /** When the coalescer is quiet, every routed event is in some delivery: step `m` posted it, its
      content is in the batch of flush `j`, and row `j` is of its owner, service and type. */
  lemma EveryEventIsDelivered(z: Sizes, run: seq<State>, steps: seq<Step>, n: nat, id: string) returns (j: nat, m: nat)
    requires IsRun(z, run, steps) && n < |run| && CoalesceRuns.Quiet(run[n].co) && id in run[n].routes
    ensures var s := run[n];
            && j < |s.co.flushed| == |s.eg.rows| && Carries(s.co.flushed[j].items, id)
            && s.routes[id].item in s.co.flushed[j].items
            && m < n <= |steps| && RowOfPosted(s.eg.rows[j], run[m], steps[m])
            && StoredFor(run[m], steps[m], run[m + 1], id, s.co.flushed[j].key, s.routes[id].item)
  {
    hide IsRun;
    hide Carries;
    hide Targets;
    var s := run[n];
    EventInOnePlace(z, run, steps, n, id);
    RunInv(z, run, steps, n);
    assert EnteringWith(s.co.calls, id) == {};
    var i := CopiesSome(s.co.sh.batches, id);
    assert CoalesceRuns.FlushAt(s.co, i) && CoalesceRuns.TimerAt(s.co, i);
    assert CoalesceRuns.CallsAt(s.co.calls, CoalesceRuns.Flushing(i)) == {};
    j := TimesSome(s.co.flushed, i);
    CarriesIff(s.co.flushed[j].items, id);
    BatchRoute(z, s, i, id);
    m := RouteHistory(z, run, steps, n, id);
  }

  lemma BatchRoute(z: Sizes, s: State, i: nat, id: string)
    requires CoalesceRuns.Inv(z.cap, s.co) && EntriesOk(s) && i < |s.co.sh.batches|
    requires CoalesceRuns.CopiesIn(s.co.sh.batches[i].items, id) > 0
    ensures id in s.routes && s.routes[id].key == s.co.sh.batches[i].key && s.routes[id].item in s.co.sh.batches[i].items
  {
    hide CoalesceRuns.LeftInv;
    hide CoalesceRuns.OrderInv;
    hide CoalesceRuns.CapInv;
    hide CoalesceRuns.FlushInv;
    hide CoalesceRuns.FrozenInv;
    var b := s.co.sh.batches[i];
    CarriesIff(b.items, id);
    var it :| it in b.items && it.eventId == id;
    assert (b.key, it) in s.co.log;
    assert EntryOk(s, b.key, it);
  }

  /** Unless the timer of its own batch was missed, an event is in one delivery at most, and that
      delivery has at most one successful send. */
  lemma EventSentAtMostOnce(z: Sizes, run: seq<State>, steps: seq<Step>, n: nat, id: string, j: nat, l: nat)
    requires IsRun(z, run, steps) && n < |run| && j < |run[n].co.flushed| && l < |run[n].co.flushed|
    requires Carries(run[n].co.flushed[j].items, id) && Carries(run[n].co.flushed[l].items, id)
    ensures run[n].co.flushed[j].id == run[n].co.flushed[l].id
    ensures run[n].co.flushed[j].id !in run[n].co.missed ==> j == l
    ensures Egress.Successes(run[n].eg.sent, j) <= 1
  {
    hide IsRun;
    hide Carries;
    RunInv(z, run, steps, n);
    assert Egress.RowAt(run[n].eg, j);
    if j < l { TwoDeliveriesMeanMissedTimer(z, run, steps, n, id, j, l); }
    if l < j { TwoDeliveriesMeanMissedTimer(z, run, steps, n, id, l, j); }
  }

  // ---------- Coming to rest ----------

  /** Nothing is being added, no timer is pending, the queue is empty and the worker is idle. */
  predicate AtRest(s: State) {
    CoalesceRuns.Quiet(s.co) && s.eg.queue == [] && s.eg.worker.Idle?
  }

  /** Steps still to come if no more events are posted; a flush brings at most seven steps of egress. */
  function GateWork(s: State): nat {
    8 * CoalesceRuns.StepsLeft(s.co) + Egress.WorkLeft(s.eg)
  }

  /** A step that brings the gate nearer to rest: all but store actions, 429s, resets and the halt. */
  predicate Productive(st: Step) {
    st.Move? || st.Flush? || (st.Work? && Egress.Advances(st.w))
  }

  function Progress(steps: seq<Step>): nat {
    if steps == [] then 0 else Progress(steps[..|steps| - 1]) + if Productive(steps[|steps| - 1]) then 1 else 0
  }

  lemma SubmitWork(q: nat, s: Egress.State, w: Egress.Step)
    requires w.Submit?
    ensures Egress.WorkLeft(Egress.Next(q, s, w)) <= Egress.WorkLeft(s) + 7
  {
  }

  lemma GateStep(z: Sizes, s: State, st: Step)
    requires CoalesceRuns.LeftInv(s.co) && Egress.QueueInv(z.queue, s.eg) && Enabled(s, st) && !st.Post?
    ensures GateWork(Next(z, s, st)) + (if Productive(st) then 1 else 0) <= GateWork(s)
  {
    hide CoalesceRuns.Next;
    hide CoalesceRuns.LeftInv;
    hide CoalesceRuns.StepsLeft;
    hide Egress.Next;
    hide Egress.QueueInv;
    hide Egress.WorkLeft;
    hide Egress.Advances;
    hide StoreRuns.Apply;
    StepParts(z, s, st);
    if st.Move? || st.Flush? { CoalesceRuns.StepsLeftDrops(z.cap, s.co, CoPart(s, st).value); }
    if st.Flush? && EgPart(s, st).Some? { SubmitWork(z.queue, s.eg, EgPart(s, st).value); }
    if st.Work? { Egress.WorkStep(z.queue, s.eg, st.w); }
  }

  /** Once no more events are posted, every schedule of the gate contains at most GateWork steps other
      than store actions, 429s, resets and the halt. */
  lemma {:induction false} EveryScheduleRests(z: Sizes, run: seq<State>, steps: seq<Step>, from: nat, to: nat)
    requires IsRun(z, run, steps) && from <= to < |run|
    requires forall n :: from <= n < to ==> !steps[n].Post?
    ensures Progress(steps[from..to]) + GateWork(run[to]) <= GateWork(run[from])
  {
    hide Next;
    hide GateWork;
    hide Enabled;
    hide Productive;
    if from < to {
      EveryScheduleRests(z, run, steps, from, to - 1);
      RunInv(z, run, steps, to - 1);
      GateStep(z, run[to - 1], steps[to - 1]);
      assert steps[from..to][..to - from - 1] == steps[from..to - 1];
    } else {
      assert steps[from..to] == [];
    }
  }

  /** And until the gate is at rest, such a step is possible, unless the worker has been stopped. */
  lemma NotAtRestCanStep(s: State) returns (st: Step)
    requires CoalesceRuns.Typed(s.co) && !AtRest(s) && !s.eg.worker.Halted?
    ensures Enabled(s, st) && Productive(st) && !st.Post?
  {
    if !CoalesceRuns.Quiet(s.co) {
      var m := CoalesceRuns.NotQuietCanStep(s.co);
      st := if m.CallerFlush? || m.TimerFlush? then Flush(m, "") else Move(m);
    } else if s.eg.worker.Idle? {
      st := Work(Egress.Receive);
    } else if s.eg.worker.attempt < Transport.MAX_ATTEMPTS {
      st := Work(Egress.Answer(Transport.Ok(0), 0));
    } else {
      st := Work(Egress.GiveUp);
    }
  }

  // ---------- How every event ends ----------

  /** Row `j` was reset, and no failure has been written to it since. */
  ghost predicate Forgotten(run: seq<State>, steps: seq<Step>, n: nat, j: nat)
    requires n <= |steps| && n < |run|
  {
    exists m :: 0 <= m < n && Forgets(run[m], steps[m], j) && forall l :: m < l < n ==> !Rewrites(run[l], steps[l], j)
  }

  predicate Forgets(s: State, st: Step, j: nat) {
    st.Work? && Egress.Forgets(s.eg, st.w, j)
  }

  predicate Rewrites(s: State, st: Step, j: nat) {
    st.Work? && Egress.Rewrites(s.eg, st.w, j)
  }

  lemma ForgottenStep(run: seq<State>, steps: seq<Step>, n: nat, j: nat)
    requires n < |steps| && n + 1 < |run|
    ensures Forgotten(run, steps, n + 1, j) <==>
              Forgets(run[n], steps[n], j) || (Forgotten(run, steps, n, j) && !Rewrites(run[n], steps[n], j))
  {
    hide Forgets;
    hide Rewrites;
    if Forgotten(run, steps, n + 1, j) {
      var m :| 0 <= m < n + 1 && Forgets(run[m], steps[m], j) && forall l :: m < l < n + 1 ==> !Rewrites(run[l], steps[l], j);
      assert m == n || !Rewrites(run[n], steps[n], j);
    } else {
      assert !Forgets(run[n], steps[n], j);
    }
  }

  lemma TallyGate(z: Sizes, s: State, st: Step, j: nat, forgotten: bool)
    requires CoalesceRuns.Typed(s.co) && Enabled(s, st) && Egress.Inv(z.queue, s.eg)
    requires j < |s.eg.rows| && Egress.TallyAt(s.eg, j, forgotten)
    ensures j < |Next(z, s, st).eg.rows|
    ensures Egress.TallyAt(Next(z, s, st).eg, j, Forgets(s, st, j) || (forgotten && !Rewrites(s, st, j)))
  {
    hide Egress.Next;
    hide Egress.TallyAt;
    hide Egress.Inv;
    hide CoalesceRuns.Next;
    hide Targets;
    StepParts(z, s, st);
    if EgPart(s, st).Some? { Egress.TallyStep(z.queue, s.eg, EgPart(s, st).value, j, forgotten); }
  }

  /** A new row comes with a flush; no reset can have picked it before. */
  lemma TallyNewRow(z: Sizes, s: State, st: Step, j: nat)
    requires CoalesceRuns.Typed(s.co) && Enabled(s, st) && Egress.Inv(z.queue, s.eg)
    requires |s.eg.rows| <= j < |Next(z, s, st).eg.rows|
    ensures Egress.TallyAt(Next(z, s, st).eg, j, false) && !Forgets(s, st, j)
  {
    hide Egress.Next;
    hide Egress.TallyAt;
    hide Egress.Inv;
    hide CoalesceRuns.Next;
    hide Targets;
    StepParts(z, s, st);
    var w := EgPart(s, st).value;
    if w.Submit? {
      SubmitEffect(z.queue, s.eg, w);
      Egress.TallyNew(z.queue, s.eg, w);
    } else {
      WorkKeepsCount(z.queue, s.eg, w);
    }
  }

  lemma {:induction false} TallyRun(z: Sizes, run: seq<State>, steps: seq<Step>, n: nat, j: nat)
    requires IsRun(z, run, steps) && n < |run|
    ensures if j < |run[n].eg.rows| then Egress.TallyAt(run[n].eg, j, Forgotten(run, steps, n, j)) else !Forgotten(run, steps, n, j)
  {
    hide Next;
    hide Enabled;
    hide Egress.TallyAt;
    hide Egress.Inv;
    hide CoalesceRuns.Inv;
    hide Inv;
    hide Forgotten;
    hide Rewrites;
    if n > 0 {
      TallyRun(z, run, steps, n - 1, j);
      RunInv(z, run, steps, n - 1);
      ForgottenStep(run, steps, n - 1, j);
      if j < |run[n - 1].eg.rows| {
        TallyGate(z, run[n - 1], steps[n - 1], j, Forgotten(run, steps, n - 1, j));
      } else if j < |run[n].eg.rows| {
        TallyNewRow(z, run[n - 1], steps[n - 1], j);
      }
    } else {
      NotForgottenYet(run, steps, j);
    }
  }

  lemma NotForgottenYet(run: seq<State>, steps: seq<Step>, j: nat)
    requires |run| > 0
    ensures !Forgotten(run, steps, 0, j)
  {
  }

  /** When the gate is at rest, in every run, every routed event is in a delivery of its own user that
      was sent exactly once; or has failed for good; or says pending, because the queue was full or
      because a reset picked it after its failure. Unless the timer of that batch was missed the event
      is in no other delivery. */
  lemma EveryEventSettles(z: Sizes, run: seq<State>, steps: seq<Step>, n: nat, id: string) returns (j: nat, m: nat)
    requires IsRun(z, run, steps) && n < |run| && id in run[n].routes && AtRest(run[n])
    ensures var s := run[n];
            && j < |s.co.flushed| == |s.eg.rows| == |s.eg.kept| && Carries(s.co.flushed[j].items, id)
            && m < n <= |steps| && RowOfPosted(s.eg.rows[j], run[m], steps[m])
            && StoredFor(run[m], steps[m], run[m + 1], id, s.co.flushed[j].key, s.routes[id].item)
            && Egress.EndsAs(s.eg, j, Forgotten(run, steps, n, j))
            && (s.co.flushed[j].id !in s.co.missed ==>
                  forall l :: 0 <= l < |s.co.flushed| && Carries(s.co.flushed[l].items, id) ==> l == j)
  {
    hide Next;
    hide Enabled;
    hide Carries;
    hide StoredFor;
    hide RowOfPosted;
    hide CoalesceRuns.Quiet;
    hide CoalesceRuns.Inv;
    hide Forgotten;
    hide Egress.EndsAs;
    hide Egress.TallyAt;
    hide Egress.RowInv;
    j, m := EveryEventIsDelivered(z, run, steps, n, id);
    RunInv(z, run, steps, n);
    TallyRun(z, run, steps, n, j);
    Egress.IdleEnds(z.queue, run[n].eg, j, Forgotten(run, steps, n, j));
    forall l | 0 <= l < |run[n].co.flushed| && Carries(run[n].co.flushed[l].items, id) && run[n].co.flushed[j].id !in run[n].co.missed
      ensures l == j
    {
      EventSentAtMostOnce(z, run, steps, n, id, j, l);
    }
  }

  // ---------- Isolation ----------

  /** This very step, from `s` to `s'`, stored event `id` and added it, with its own service, type and
      content, for the user of `k` alone, who actively owned the event's identity. Ids are stored once,
      so there is only one such step. */
  predicate StoredFor(s: State, st: Step, s': State, id: string, k: Key, it: Item) {
    && st.Post? && st.body.eventId == id && id !in s.db.events && id in s'.db.events && s'.db.events[id] == st.e
    && Targets(s, st) == [k.userId] && OwnsActively(s.db, k.userId, st.e)
    && k.service == st.e.service && k.typ == st.e.typ
    && it.userId == k.userId && it.eventId == id && it.severity == st.body.severity
    && it.title == st.body.title && it.text == st.body.text && it.url == st.body.url
  }

  lemma {:induction false} RouteHistory(z: Sizes, run: seq<State>, steps: seq<Step>, n: nat, id: string) returns (m: nat)
    requires IsRun(z, run, steps) && n < |run| && id in run[n].routes
    ensures m < n <= |steps| && StoredFor(run[m], steps[m], run[m + 1], id, run[n].routes[id].key, run[n].routes[id].item)
  {
    hide Targets;
    hide CoalesceRuns.Next;
    hide Egress.Next;
    hide StoreRuns.Apply;
    if n > 0 {
      var s, st := run[n - 1], steps[n - 1];
      if st.Post? && Targets(s, st) != [] && st.body.eventId == id {
        PostFacts(s, st);
        m := n - 1;
      } else {
        m := RouteHistory(z, run, steps, n - 1, id);
      }
    }
  }

  /** A flush of `s` sends `d` where the tables of `s` say. */
  predicate SentTo(s: State, st: Step, d: Transport.Delivery) {
    st.Flush? && DestinationOf(s.db, d.userId, d.service) == Destination(d.chatId, d.threadId) && d.text == st.text
  }

  /** This very step, from `s` to `s'`, made delivery `j`, which is `d`, for the tables of `s`. */
  predicate MadeBy(s: State, st: Step, s': State, j: nat, d: Transport.Delivery) {
    && SentTo(s, st, d)
    && |s.eg.offered| == j && |s'.eg.offered| == j + 1 && s'.eg.offered[j] == d
  }

  lemma {:induction false} DeliveryHistory(z: Sizes, run: seq<State>, steps: seq<Step>, n: nat, j: nat) returns (q: nat)
    requires IsRun(z, run, steps) && n < |run| && j < |run[n].eg.offered|
    ensures q < n <= |steps| && MadeBy(run[q], steps[q], run[q + 1], j, run[n].eg.offered[j])
  {
    hide CoalesceRuns.Next;
    hide Egress.Next;
    hide StoreRuns.Apply;
    hide DestinationOf;
    if n > 0 {
      var s, st := run[n - 1], steps[n - 1];
      OfferedEffect(z, s, st);
      if j < |s.eg.offered| {
        q := DeliveryHistory(z, run, steps, n - 1, j);
        assert run[n].eg.offered[..|s.eg.offered|][j] == s.eg.offered[j];
      } else {
        q := n - 1;
      }
    }
  }

  lemma OfferedEffect(z: Sizes, s: State, st: Step)
    requires CoalesceRuns.Typed(s.co) && Enabled(s, st)
    ensures var s' := Next(z, s, st);
            || s'.eg.offered == s.eg.offered
            || (|s'.eg.offered| == |s.eg.offered| + 1 && s'.eg.offered[..|s.eg.offered|] == s.eg.offered
                && SentTo(s, st, s'.eg.offered[|s.eg.offered|]))
  {
    hide CoalesceRuns.Next;
    hide Egress.Next;
    hide StoreRuns.Apply;
    hide DestinationOf;
    StepParts(z, s, st);
    if EgPart(s, st).Some? {
      var w := EgPart(s, st).value;
      if w.Submit? { SubmitEffect(z.queue, s.eg, w); } else { WorkKeepsCount(z.queue, s.eg, w); }
    }
  }

  /** The thread of `d` is the topic on record for its user and service, and was created in `chat`. */
  predicate TopicOnRecord(db: Db, d: Transport.Delivery, chat: int) {
    (d.userId, d.service) in db.topics && db.topics[(d.userId, d.service)] == TopicRow(d.threadId, chat)
  }

  lemma FlushedGrows(z: Sizes, s: State, st: Step)
    requires CoalesceRuns.Typed(s.co) && Enabled(s, st)
    ensures s.co.flushed <= Next(z, s, st).co.flushed
  {
    hide CoalesceRuns.Next;
    hide Egress.Next;
    hide Targets;
    StepParts(z, s, st);
    if CoPart(s, st).Some? {
      var m := CoPart(s, st).value;
      CoEffect(z.cap, s.co, m);
      if m.CallerFlush? || m.TimerFlush? { FlushEffect(z.cap, s.co, m); }
    }
  }

  /** Flush calls are never taken back. */
  lemma {:induction false} FlushedKept(z: Sizes, run: seq<State>, steps: seq<Step>, a: nat, b: nat)
    requires IsRun(z, run, steps) && a <= b < |run|
    ensures run[a].co.flushed <= run[b].co.flushed
  {
    hide Next;
    hide Enabled;
    if a < b {
      FlushedKept(z, run, steps, a, b - 1);
      FlushedGrows(z, run[b - 1], steps[b - 1]);
    }
  }

  /** Isolation over every run. Take any delivery and any event in it: `q` is the step that made this
      delivery, from the flush of exactly this batch, and `m` is the step that stored this event. At
      `m` the delivery's user actively owned the event's identity and the event was added for nobody
      else; at `q` the delivery's chat was the user's own or the group then bound, and its thread, if
      any, the topic then on record, which was created in that chat. */
  lemma DeliveriesAreIsolated(z: Sizes, run: seq<State>, steps: seq<Step>, n: nat, j: nat, it: Item) returns (m: nat, q: nat)
    requires IsRun(z, run, steps) && n < |run| && j < |run[n].co.flushed| && it in run[n].co.flushed[j].items
    ensures |run[n].eg.offered| == |run[n].co.flushed| && m < n <= |steps| && q < n
    ensures var d, f := run[n].eg.offered[j], run[n].co.flushed[j];
            && d.userId == f.key.userId == it.userId && d.service == f.key.service
            && steps[m].Post? && d.service == steps[m].e.service && f.key.typ == steps[m].e.typ
            && StoredFor(run[m], steps[m], run[m + 1], it.eventId, f.key, it)
            && MadeBy(run[q], steps[q], run[q + 1], j, d)
            && |run[q].co.flushed| == j && |run[q + 1].co.flushed| == j + 1 && run[q + 1].co.flushed[j] == f
            && d.chatId == ChatOf(run[q].db, d.userId)
            && (d.threadId != 0 ==> InGroup(run[q].db, d.userId) && TopicOnRecord(run[q].db, d, d.chatId))
  {
    hide IsRun;
    hide StoredFor;
    hide CoalesceRuns.Inv;
    hide Egress.Inv;
    hide EntriesOk;
    hide PlacesInv;
    RunInv(z, run, steps, n);
    var f := run[n].co.flushed[j];
    assert RowIsFlush(run[n].eg.rows[j], run[n].eg.offered[j], f);
    FlushedItem(z, run[n], j, it);
    m := RouteHistory(z, run, steps, n, it.eventId);
    StoredKey(run[m], steps[m], run[m + 1], it.eventId, f.key, it);
    q := DeliveryHistory(z, run, steps, n, j);
    RunInv(z, run, steps, q);
    RunInv(z, run, steps, q + 1);
    FlushedKept(z, run, steps, q + 1, n);
  }

  lemma StoredKey(s: State, st: Step, s': State, id: string, k: Key, it: Item)
    requires StoredFor(s, st, s', id, k, it)
    ensures st.Post? && k.service == st.e.service && k.typ == st.e.typ
  {
  }

  lemma FlushedItem(z: Sizes, s: State, j: nat, it: Item)
    requires CoalesceRuns.Inv(z.cap, s.co) && EntriesOk(s) && j < |s.co.flushed| && it in s.co.flushed[j].items
    ensures EntryOk(s, s.co.flushed[j].key, it)
  {
    hide CoalesceRuns.LeftInv;
    hide CoalesceRuns.OrderInv;
    hide CoalesceRuns.CapInv;
    hide CoalesceRuns.FlushInv;
    var f := s.co.flushed[j];
    assert (f.key, it) in s.co.log;
  }

  /** Every send made is of a delivery, with its chat, thread and text; so isolation is of the sends. */
  lemma EverySendIsADelivery(z: Sizes, run: seq<State>, steps: seq<Step>, n: nat, i: nat)
    requires IsRun(z, run, steps) && n < |run| && i < |run[n].eg.sent|
    ensures var s, d := run[n], run[n].eg.sent[i].d;
            d.rowId < |s.eg.offered| == |s.co.flushed| && s.eg.offered[d.rowId] == d
  {
    hide IsRun;
    hide CoalesceRuns.Inv;
    RunInv(z, run, steps, n);
  }
}
