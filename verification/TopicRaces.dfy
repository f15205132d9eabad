/** EnsureTopic's three store and network calls, and the two statements of a group binding, as steps
    that interleave: what stays true when handlers are not atomic. */
module TopicRaces {
  import opened Deliveries
  import opened Tables

  /** A call in progress: it has read the bound group; its SELECT missed; its topic exists; or a
      binding that has set the group and not yet cleared the topics. */
  datatype Pc = Looking(k: SubKey, chat: int) | Creating(k: SubKey, chat: int) | Inserting(k: SubKey, chat: int, threadId: int)
              | Clearing(u: int)

  /** A topic row; `chat` and `boundThen` are history: the chat the topic was created in and the group
      bound when the row was written. */
  datatype Recorded = Recorded(threadId: int, chat: int, boundThen: int)

  /** `created`, `recorded` and `orphaned` are history: for whom Telegram made topics, for whom a row
      was written, and whose row was already there. `answers` is what finished calls returned. */
  datatype State = State(groups: map<int, int>, rows: map<SubKey, Recorded>, calls: map<nat, Pc>, created: seq<SubKey>,
                         recorded: seq<SubKey>, orphaned: seq<SubKey>, answers: map<nat, int>)

  datatype Step =
    | ReadGroup(c: nat, k: SubKey)
    | Select(c: nat)
    | Create(c: nat, reply: Reply)
    | Insert(c: nat)
    | SetGroup(c: nat, u: int, chat: int)
    | Clear(c: nat)

  const Init := State(map[], map[], map[], [], [], [], map[])

  predicate Enabled(s: State, st: Step) {
    match st
    case ReadGroup(c, k) => c !in s.calls && k.0 in s.groups
    case Select(c) => c in s.calls && s.calls[c].Looking?
    case Create(c, _) => c in s.calls && s.calls[c].Creating?
    case Insert(c) => c in s.calls && s.calls[c].Inserting?
    case SetGroup(c, _, _) => c !in s.calls
    case Clear(c) => c in s.calls && s.calls[c].Clearing?
  }

  function Bound(s: State, u: int): int {
    if u in s.groups then s.groups[u] else 0
  }

  function Next(s: State, st: Step): State
    requires Enabled(s, st)
  {
    match st
    case ReadGroup(c, k) => s.(calls := s.calls[c := Looking(k, s.groups[k.0])])
    case Select(c) =>
      var k := s.calls[c].k;
      if k in s.rows then s.(calls := s.calls - {c}, answers := s.answers[c := s.rows[k].threadId])
      else s.(calls := s.calls[c := Creating(k, s.calls[c].chat)])
    case Create(c, reply) =>
      var k := s.calls[c].k;
      if reply.Refused? then s.(calls := s.calls - {c})
      else s.(calls := s.calls[c := Inserting(k, s.calls[c].chat, reply.threadId)], created := s.created + [k])
    case Insert(c) =>
      var k, chat, threadId := s.calls[c].k, s.calls[c].chat, s.calls[c].threadId;
      var done := s.(calls := s.calls - {c}, answers := s.answers[c := threadId]);
      if k in s.rows then done.(orphaned := s.orphaned + [k])
      else done.(rows := s.rows[k := Recorded(threadId, chat, Bound(s, k.0))], recorded := s.recorded + [k])
    case SetGroup(c, u, chat) => s.(groups := s.groups[u := chat], calls := s.calls[c := Clearing(u)])
    case Clear(c) =>
      s.(calls := s.calls - {c}, rows := map k | k in s.rows && k.0 != s.calls[c].u :: s.rows[k])
  }

  ghost predicate IsRun(run: seq<State>, steps: seq<Step>) {
    && |run| == |steps| + 1
    && run[0] == Init
    && forall n :: 0 <= n < |steps| ==> Enabled(run[n], steps[n]) && run[n + 1] == Next(run[n], steps[n])
  }

  /** Step `st` deletes the topic rows of `u`. */
  predicate Clears(s: State, st: Step, u: int) {
    st.Clear? && st.c in s.calls && s.calls[st.c] == Clearing(u)
  }

  function Count(ks: seq<SubKey>, k: SubKey): nat {
    if ks == [] then 0 else Count(ks[..|ks| - 1], k) + if ks[|ks| - 1] == k then 1 else 0
  }

  lemma CountPush(ks: seq<SubKey>, x: SubKey, k: SubKey)
    ensures Count(ks + [x], k) == Count(ks, k) + if x == k then 1 else 0
  {
    assert (ks + [x])[..|ks|] == ks;
  }

  // ---------- Rows ----------

  lemma RowStep(s: State, st: Step, k: SubKey)
    requires Enabled(s, st) && !Clears(s, st, k.0)
    ensures k in s.rows ==> k in Next(s, st).rows && Next(s, st).rows[k] == s.rows[k]
    ensures Count(Next(s, st).recorded, k) == Count(s.recorded, k) + if k !in s.rows && k in Next(s, st).rows then 1 else 0
  {
    if st.Insert? { CountPush(s.recorded, s.calls[st.c].k, k); }
  }

  /** However calls interleave, a topic row is fixed until a binding of its user clears it, and at
      most one row is written in between. */
  lemma {:induction false} RowFixedUntilClear(run: seq<State>, steps: seq<Step>, i: nat, j: nat, k: SubKey)
    requires IsRun(run, steps) && i <= j < |run|
    requires forall n :: i <= n < j ==> !Clears(run[n], steps[n], k.0)
    ensures k in run[i].rows ==> k in run[j].rows && run[j].rows[k] == run[i].rows[k]
    ensures Count(run[j].recorded, k) == Count(run[i].recorded, k) + if k !in run[i].rows && k in run[j].rows then 1 else 0
  {
    hide Next;
    hide Count;
    if i < j {
      RowFixedUntilClear(run, steps, i, j - 1, k);
      RowStep(run[j - 1], steps[j - 1], k);
    }
  }

  // ---------- Orphans ----------

  function InsertingFor(calls: map<nat, Pc>, k: SubKey): set<nat> {
    set c | c in calls && calls[c].Inserting? && calls[c].k == k
  }

  ghost predicate Accounted(s: State, k: SubKey) {
    Count(s.created, k) == Count(s.recorded, k) + Count(s.orphaned, k) + |InsertingFor(s.calls, k)|
  }

  /** Call `c` moves on to `now`, or ends. */
  lemma InsertingChange(calls: map<nat, Pc>, c: nat, now: Pc, k: SubKey)
    ensures InsertingFor(calls - {c}, k) == InsertingFor(calls, k) - {c}
    ensures InsertingFor(calls[c := now], k) == InsertingFor(calls, k) - {c} + if now.Inserting? && now.k == k then {c} else {}
  {
  }

  lemma AccountedCreate(s: State, c: nat, reply: Reply, k: SubKey)
    requires Accounted(s, k) && Enabled(s, Create(c, reply))
    ensures Accounted(Next(s, Create(c, reply)), k)
  {
    hide Count;
    hide InsertingFor;
    var pc := s.calls[c];
    CountPush(s.created, pc.k, k);
    InsertingChange(s.calls, c, if reply.Created? then Inserting(pc.k, pc.chat, reply.threadId) else pc, k);
    NotInserting(s.calls, c, k);
  }

  lemma AccountedInsert(s: State, c: nat, k: SubKey)
    requires Accounted(s, k) && Enabled(s, Insert(c))
    ensures Accounted(Next(s, Insert(c)), k)
  {
    hide Count;
    hide InsertingFor;
    var pc := s.calls[c];
    CountPush(s.recorded, pc.k, k);
    CountPush(s.orphaned, pc.k, k);
    InsertingChange(s.calls, c, pc, k);
    NotInserting(s.calls, c, k);
  }

  lemma NotInserting(calls: map<nat, Pc>, c: nat, k: SubKey)
    ensures c in InsertingFor(calls, k) <==> c in calls && calls[c].Inserting? && calls[c].k == k
  {
  }

  lemma AccountedOther(s: State, st: Step, k: SubKey)
    requires Accounted(s, k) && Enabled(s, st) && !st.Create? && !st.Insert?
    ensures Accounted(Next(s, st), k)
  {
    hide Count;
    hide InsertingFor;
    var s' := Next(s, st);
    InsertingChange(s.calls, st.c, if st.c in s'.calls then s'.calls[st.c] else Clearing(0), k);
    NotInserting(s.calls, st.c, k);
  }

  lemma AccountedStep(s: State, st: Step, k: SubKey)
    requires Accounted(s, k) && Enabled(s, st)
    ensures Accounted(Next(s, st), k)
  {
    hide Next;
    hide Accounted;
    if st.Create? {
      AccountedCreate(s, st.c, st.reply, k);
    } else if st.Insert? {
      AccountedInsert(s, st.c, k);
    } else {
      AccountedOther(s, st, k);
    }
  }

  /** Every topic made at Telegram is recorded, orphaned by a call that won, or about to be one. */
  lemma {:induction false} EveryTopicAccountedFor(run: seq<State>, steps: seq<Step>, n: nat, k: SubKey)
    requires IsRun(run, steps) && n < |run|
    ensures Count(run[n].created, k) == Count(run[n].recorded, k) + Count(run[n].orphaned, k) + |InsertingFor(run[n].calls, k)|
  {
    hide Next;
    if n > 0 {
      EveryTopicAccountedFor(run, steps, n - 1, k);
      AccountedStep(run[n - 1], steps[n - 1], k);
    }
  }

  // ---------- The chat a thread belongs to ----------

  /** A row's group is still the bound one, unless a binding is half done. */
  ghost predicate BoundAt(s: State, k: SubKey) {
    k in s.rows ==> k.0 in s.groups && (s.rows[k].boundThen == s.groups[k.0] || exists c :: c in s.calls && s.calls[c] == Clearing(k.0))
  }

  ghost predicate CallsBound(s: State) {
    forall c :: c in s.calls && !s.calls[c].Clearing? ==> s.calls[c].k.0 in s.groups
  }

  lemma BoundStep(s: State, st: Step, k: SubKey)
    requires CallsBound(s) && BoundAt(s, k) && Enabled(s, st)
    ensures CallsBound(Next(s, st)) && BoundAt(Next(s, st), k)
  {
    var s' := Next(s, st);
    if k in s.rows && s.rows[k].boundThen != s.groups[k.0] {
      var c :| c in s.calls && s.calls[c] == Clearing(k.0);
      assert (c in s'.calls && s'.calls[c] == Clearing(k.0)) || Clears(s, st, k.0);
    } else if st.SetGroup? {
      assert s'.calls[st.c] == Clearing(st.u);
    }
  }

  lemma {:induction false} BoundInv(run: seq<State>, steps: seq<Step>, n: nat, k: SubKey)
    requires IsRun(run, steps) && n < |run|
    ensures CallsBound(run[n]) && BoundAt(run[n], k)
  {
    hide Next;
    if n > 0 {
      BoundInv(run, steps, n - 1, k);
      BoundStep(run[n - 1], steps[n - 1], k);
    }
  }

  /** When no binding of the user is half done, a recorded thread belongs to the bound group exactly
      when the call that recorded it had read the group that was bound at the time of recording. */
  lemma ThreadAtHomeIff(run: seq<State>, steps: seq<Step>, n: nat, k: SubKey)
    requires IsRun(run, steps) && n < |run| && k in run[n].rows
    requires forall c :: c in run[n].calls ==> run[n].calls[c] != Clearing(k.0)
    ensures k.0 in run[n].groups
    ensures run[n].rows[k].chat == run[n].groups[k.0] <==> run[n].rows[k].chat == run[n].rows[k].boundThen
  {
    BoundInv(run, steps, n, k);
  }

  ghost predicate Leads(s: State, steps: seq<Step>, s': State)
    decreases |steps|
  {
    if steps == [] then s == s' else Enabled(s, steps[0]) && Leads(Next(s, steps[0]), steps[1..], s')
  }

  lemma LeadsOn(s: State, st: Step, steps: seq<Step>, s': State)
    requires Enabled(s, st) && Leads(Next(s, st), steps, s')
    ensures Leads(s, [st] + steps, s')
  {
    assert ([st] + steps)[1..] == steps;
  }

  /** And the other case occurs: a call that has read the old group can record its topic after the
      whole binding of a new one, so that later messages name a thread of another chat. */
  lemma StaleThreadCanStay(s: State, k: SubKey, a: nat, b: nat, group: int, threadId: int) returns (steps: seq<Step>, s': State)
    requires k.0 in s.groups && k !in s.rows && a != b && a !in s.calls && b !in s.calls && group != s.groups[k.0]
    ensures Leads(s, steps, s') && s'.calls == s.calls
    ensures k in s'.rows && s'.rows[k].threadId == threadId && s'.rows[k].chat == s.groups[k.0]
    ensures s'.groups == s.groups[k.0 := group]
  {
    var s1 := Next(s, ReadGroup(a, k));
    var s2 := Next(s1, Select(a));
    var s3 := Next(s2, Create(a, Created(threadId)));
    var s4 := Next(s3, SetGroup(b, k.0, group));
    var s5 := Next(s4, Clear(b));
    s' := Next(s5, Insert(a));
    assert s5.calls == s3.calls && s'.calls == s.calls;
    LeadsOn(s5, Insert(a), [], s');
    LeadsOn(s4, Clear(b), [Insert(a)], s');
    LeadsOn(s3, SetGroup(b, k.0, group), [Clear(b)] + [Insert(a)], s');
    LeadsOn(s2, Create(a, Created(threadId)), [SetGroup(b, k.0, group)] + ([Clear(b)] + [Insert(a)]), s');
    steps := [Create(a, Created(threadId))] + ([SetGroup(b, k.0, group)] + ([Clear(b)] + [Insert(a)]));
    LeadsOn(s1, Select(a), steps, s');
    LeadsOn(s, ReadGroup(a, k), [Select(a)] + steps, s');
    steps := [ReadGroup(a, k)] + ([Select(a)] + steps);
  }

  /** Of two calls that both miss the row, the second returns its own orphaned topic and not the one
      on record. */
  lemma LoserReturnsItsOwn(s: State, k: SubKey, a: nat, b: nat, chat: int, won: int, lost: int)
    requires k !in s.rows && a != b && a in s.calls && b in s.calls
    requires s.calls[a] == Inserting(k, chat, won) && s.calls[b] == Inserting(k, chat, lost)
    ensures var s' := Next(Next(s, Insert(a)), Insert(b));
            s'.answers[b] == lost && s'.rows[k].threadId == won && Count(s'.orphaned, k) == Count(s.orphaned, k) + 1
  {
    CountPush(s.orphaned, k, k);
  }

  /** This happens: two calls of one user and service, from the empty state. */
  lemma LoserRun(k: SubKey, chat: int, won: int, lost: int) returns (run: seq<State>, steps: seq<Step>)
    requires won != lost
    ensures IsRun(run, steps) && |run| == 11
    ensures k in run[10].rows && run[10].rows[k].threadId == won && 2 in run[10].answers && run[10].answers[2] == lost
  {
    hide Next;
    hide Enabled;
    var first, s6 := BothMiss(k, chat);
    var s7, s8, s9, s10 := BothInsert(s6, k, chat, won, lost);
    run := first + [s7, s8, s9, s10];
    steps := [SetGroup(0, k.0, chat), Clear(0), ReadGroup(1, k), ReadGroup(2, k), Select(1), Select(2),
              Create(1, Created(won)), Create(2, Created(lost)), Insert(1), Insert(2)];
  }

  lemma BothMiss(k: SubKey, chat: int) returns (run: seq<State>, s: State)
    ensures |run| == 7 && run[6] == s
    ensures IsRun(run, [SetGroup(0, k.0, chat), Clear(0), ReadGroup(1, k), ReadGroup(2, k), Select(1), Select(2)])
    ensures k !in s.rows && s.calls == map[1 := Creating(k, chat), 2 := Creating(k, chat)]
  {
    var s1 := Next(Init, SetGroup(0, k.0, chat));
    var s2 := Next(s1, Clear(0));
    assert s2.calls == map[] && k !in s2.rows;
    var s3 := Next(s2, ReadGroup(1, k));
    var s4 := Next(s3, ReadGroup(2, k));
    var s5 := Next(s4, Select(1));
    s := Next(s5, Select(2));
    run := [Init, s1, s2, s3, s4, s5, s];
  }

  lemma BothInsert(s: State, k: SubKey, chat: int, won: int, lost: int) returns (s1: State, s2: State, s3: State, s4: State)
    requires k !in s.rows && s.calls == map[1 := Creating(k, chat), 2 := Creating(k, chat)]
    ensures Enabled(s, Create(1, Created(won))) && s1 == Next(s, Create(1, Created(won)))
    ensures Enabled(s1, Create(2, Created(lost))) && s2 == Next(s1, Create(2, Created(lost)))
    ensures Enabled(s2, Insert(1)) && s3 == Next(s2, Insert(1))
    ensures Enabled(s3, Insert(2)) && s4 == Next(s3, Insert(2))
    ensures k in s4.rows && s4.rows[k].threadId == won && 2 in s4.answers && s4.answers[2] == lost
  {
    s1 := Next(s, Create(1, Created(won)));
    s2 := Next(s1, Create(2, Created(lost)));
    s3 := Next(s2, Insert(1));
    s4 := Next(s3, Insert(2));
  }

  // ---------- When the answer is the thread on record ----------

  /** An insert answers with the thread on record exactly if it wrote the row, or the row has the
      same thread; a select that finds the row always does. */
  lemma AnswerAtOnceIff(s: State, c: nat)
    ensures Enabled(s, Insert(c)) ==>
              var k, s' := s.calls[c].k, Next(s, Insert(c));
              && k in s'.rows && c in s'.answers
              && (s'.answers[c] == s'.rows[k].threadId <==> k !in s.rows || s.rows[k].threadId == s.calls[c].threadId)
    ensures Enabled(s, Select(c)) && s.calls[c].k in s.rows ==>
              var k, s' := s.calls[c].k, Next(s, Select(c));
              k in s'.rows && c in s'.answers && s'.answers[c] == s'.rows[k].threadId
  {
  }

  /** Step `m` writes the row of `k`, and the row is not cleared before `n`. */
  ghost predicate StandsFrom(run: seq<State>, steps: seq<Step>, m: nat, n: nat, k: SubKey)
    requires m < n <= |steps| && |run| == |steps| + 1
  {
    && steps[m].Insert? && Enabled(run[m], steps[m]) && run[m].calls[steps[m].c].k == k && k !in run[m].rows
    && forall l :: m < l < n ==> !Clears(run[l], steps[l], k.0)
  }

  lemma Stands(run: seq<State>, steps: seq<Step>, m: nat, n: nat, k: SubKey)
    requires IsRun(run, steps) && m < n < |run| && StandsFrom(run, steps, m, n, k)
    ensures k in run[n].rows && run[n].rows[k].threadId == run[m].calls[steps[m].c].threadId
  {
    RowFixedUntilClear(run, steps, m + 1, n, k);
  }

  /** A row that was not there and now is was written by some step and has stood since. */
  lemma {:induction false} RowHasOrigin(run: seq<State>, steps: seq<Step>, i: nat, n: nat, k: SubKey) returns (m: nat)
    requires IsRun(run, steps) && i <= n < |run| && k !in run[i].rows && k in run[n].rows
    ensures i <= m < n && StandsFrom(run, steps, m, n, k)
  {
    if k in run[n - 1].rows {
      m := RowHasOrigin(run, steps, i, n - 1, k);
    } else {
      m := n - 1;
    }
  }

  /** After its select a call stays with its user and service until it ends. */
  lemma {:induction false} CallStays(run: seq<State>, steps: seq<Step>, i: nat, l: nat, c: nat)
    requires IsRun(run, steps) && i < l < |run| && steps[i] == Select(c) && run[i].calls[c].k !in run[i].rows
    requires forall x :: i < x <= l ==> c in run[x].calls
    ensures var pc := run[l].calls[c];
            (pc.Creating? || pc.Inserting?) && pc.k == run[i].calls[c].k
  {
    if i + 1 < l { CallStays(run, steps, i, l - 1, c); }
  }

  /** Over every run: a call that missed the row at its select and inserts at `n` returns the thread
      then on record exactly if no other call wrote, in between, a row that still stands and has a
      different thread. */
  lemma AnswerOnRecordIff(run: seq<State>, steps: seq<Step>, i: nat, n: nat, c: nat)
    requires IsRun(run, steps) && i < n < |steps| && steps[i] == Select(c) && steps[n] == Insert(c)
    requires run[i].calls[c].k !in run[i].rows && forall x :: i < x <= n ==> c in run[x].calls
    ensures var k := run[i].calls[c].k;
            && k in run[n + 1].rows && c in run[n + 1].answers
            && (run[n + 1].answers[c] == run[n + 1].rows[k].threadId <==>
                  forall m :: i < m < n && StandsFrom(run, steps, m, n, k) ==>
                    run[m].calls[steps[m].c].threadId == run[n].calls[c].threadId)
  {
    hide Next;
    var k := run[i].calls[c].k;
    CallStays(run, steps, i, n, c);
    AnswerAtOnceIff(run[n], c);
    forall m | i < m < n && StandsFrom(run, steps, m, n, k)
      ensures k in run[n].rows && run[n].rows[k].threadId == run[m].calls[steps[m].c].threadId
    {
      Stands(run, steps, m, n, k);
    }
    if k in run[n].rows {
      var m := RowHasOrigin(run, steps, i, n, k);
      assert m != i;
    }
  }

  // ---------- One call alone ----------

  /** The columns proper. */
  function Columns(rows: map<SubKey, Recorded>): map<SubKey, TopicRow> {
    map k | k in rows :: TopicRow(rows[k].threadId, rows[k].chat)
  }

  /** With nothing in between, the three steps are the EnsureTopic of the tables. */
  lemma AloneIsEnsureTopic(s: State, c: nat, db: Db, u: int, svc: string, reply: Reply)
    requires c in s.calls && s.calls[c].Looking? && s.calls[c].k == (u, svc)
    requires db.topics == Columns(s.rows) && Refers(db, u, svc)
    ensures var (db', r) := EnsureTopic(db, u, s.calls[c].chat, svc, reply);
            var s1 := Next(s, Select(c));
            var s2 := if c in s1.calls then Next(s1, Create(c, reply)) else s1;
            var s3 := if c in s2.calls then Next(s2, Insert(c)) else s2;
            && Columns(s3.rows) == db'.topics && c !in s3.calls
            && (r.Okay? ==> c in s3.answers && s3.answers[c] == r.value.0)
  {
    if (u, svc) !in s.rows && reply.Created? {
      var row := Recorded(reply.threadId, s.calls[c].chat, Bound(s, u));
      assert Columns(s.rows[(u, svc) := row]) == db.topics[(u, svc) := TopicRow(reply.threadId, s.calls[c].chat)];
    }
  }
}
