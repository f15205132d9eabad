/** The bounded queue, its one worker and the delivery rows, as steps that interleave with flushes
    and with "retry all failed". */
module Egress {
  import opened Deliveries
  import opened Transport

  /** What a non-blocking send to the channel leaves in it: a full queue drops the delivery. */
  function Offer(ch: seq<Delivery>, capacity: nat, d: Delivery): seq<Delivery> {
    if |ch| < capacity then ch + [d] else ch
  }

  class Queue {
    const capacity: nat
    var ch: seq<Delivery>
    /** Everything ever taken out. */
    ghost var received: seq<Delivery>

    ghost predicate Valid()
      reads this
    {
      |ch| <= capacity
    }

    constructor (capacity: nat)
      ensures Valid() && this.capacity == capacity && ch == [] && received == []
    {
      this.capacity, ch, received := capacity, [], [];
    }

    method Enqueue(d: Delivery)
      requires Valid()
      modifies `ch
      ensures Valid() && ch == Offer(old(ch), capacity, d)
    {
      if |ch| < capacity {
        ch := ch + [d];
      }
    }

    /** The receive of recvBlocking, once there is something to receive. */
    method Recv() returns (d: Delivery)
      requires Valid() && ch != []
      modifies this
      ensures Valid() && received == old(received) + [d] && received + ch == old(received + ch)
    {
      d := ch[0];
      ch := ch[1..];
      received := received + [d];
    }
  }

  /** `Busy`: `attempt` failures of `d` are behind the worker. */
  datatype Worker = Idle | Busy(d: Delivery, attempt: nat) | Halted

  /** One send of a delivery and its answer. */
  datatype Sending = Sending(d: Delivery, r: Resp) {
    const rowId := d.rowId
  }

  /** `offered`, `kept`, `received` and `sent` are history: the deliveries handed to Enqueue, whether
      the queue had room, what the worker took out, and every send with its answer. */
  datatype State = State(rows: seq<Row>, queue: seq<Delivery>, worker: Worker, offered: seq<Delivery>, kept: seq<bool>,
                         received: seq<Delivery>, sent: seq<Sending>)

  datatype Step =
    | Submit(userId: int, chatId: int, threadId: int, eventId: string, service: string, typ: string, batchSize: nat, text: string)
    | Receive
    | Answer(r: Resp, retryAt: int)
    | GiveUp
    | RetryAll(max: int)
    | Halt

  const Init := State([], [], Idle, [], [], [], [])

  predicate Enabled(s: State, st: Step) {
    match st
    case Submit(_, _, _, _, _, _, _, _) => true
    case Receive => s.worker.Idle? && s.queue != []
    case Answer(_, _) => s.worker.Busy? && s.worker.attempt < MAX_ATTEMPTS
    case GiveUp => s.worker.Busy? && s.worker.attempt >= MAX_ATTEMPTS
    case RetryAll(_) => true
    case Halt => s.worker.Idle?
  }

  /** The worker after an answer: done, the same attempt again, or the next one. */
  function NextWorker(d: Delivery, attempt: nat, r: Resp): Worker {
    match r
    case Ok(_) => Idle
    case TooMany(_) => Busy(d, attempt)
    case Forbidden(_) => Idle
    case Other(_) => Busy(d, attempt + 1)
  }

  function Next(cap: nat, s: State, st: Step): State
    requires Enabled(s, st)
  {
    match st
    case Submit(userId, chatId, threadId, eventId, service, typ, batchSize, text) =>
      var d := Delivery(|s.rows|, userId, chatId, threadId, text, service);
      s.(rows := s.rows + [NewRow(userId, eventId, service, typ, batchSize, threadId)],
         queue := Offer(s.queue, cap, d), offered := s.offered + [d], kept := s.kept + [|s.queue| < cap])
    case Receive =>
      s.(queue := s.queue[1..], received := s.received + [s.queue[0]], worker := Busy(s.queue[0], 0))
    case Answer(r, retryAt) =>
      var id, attempt := s.worker.d.rowId, s.worker.attempt;
      s.(rows := UpdateRow(s.rows, id, AfterAnswer(RowOr(s.rows, id), attempt, r, retryAt)),
         worker := NextWorker(s.worker.d, attempt, r), sent := s.sent + [Sending(s.worker.d, r)])
    case GiveUp =>
      var id := s.worker.d.rowId;
      s.(rows := UpdateRow(s.rows, id, AsFailed(RowOr(s.rows, id), MAX_ATTEMPTS, None, ExhaustedError())), worker := Idle)
    case RetryAll(max) => s.(rows := ResetRows(s.rows, max))
    case Halt => s.(worker := Halted)
  }

  ghost predicate IsRun(cap: nat, run: seq<State>, steps: seq<Step>) {
    && |run| == |steps| + 1
    && run[0] == Init
    && forall n :: 0 <= n < |steps| ==> Enabled(run[n], steps[n]) && run[n + 1] == Next(cap, run[n], steps[n])
  }

  // ---------- What the history says ----------

  /** The offered deliveries the queue had room for, in order. */
  function Accepted(offered: seq<Delivery>, kept: seq<bool>): seq<Delivery>
    requires |offered| == |kept|
  {
    if offered == [] then []
    else
      var n := |offered| - 1;
      Accepted(offered[..n], kept[..n]) + if kept[n] then [offered[n]] else []
  }

  /** Sends of row `id`, successful ones, and ones that were not answered 429. */
  function Sends(sent: seq<Sending>, id: nat): nat {
    if sent == [] then 0 else Sends(sent[..|sent| - 1], id) + if sent[|sent| - 1].rowId == id then 1 else 0
  }

  function Successes(sent: seq<Sending>, id: nat): nat {
    if sent == [] then 0
    else Successes(sent[..|sent| - 1], id) + if sent[|sent| - 1].rowId == id && sent[|sent| - 1].r.Ok? then 1 else 0
  }

  function Attempts(sent: seq<Sending>, id: nat): nat {
    if sent == [] then 0
    else Attempts(sent[..|sent| - 1], id) + if sent[|sent| - 1].rowId == id && !sent[|sent| - 1].r.TooMany? then 1 else 0
  }

  /** Row `id` was taken out of the queue, and the worker is done with it. */
  ghost predicate Taken(s: State, id: nat) {
    exists i :: 0 <= i < |s.received| && s.received[i].rowId == id
  }

  ghost predicate Finished(s: State, id: nat) {
    Taken(s, id) && !(s.worker.Busy? && s.worker.d.rowId == id)
  }

  // ---------- The invariant ----------

  ghost predicate Increasing(ds: seq<Delivery>) {
    forall i, j :: 0 <= i < j < |ds| ==> ds[i].rowId < ds[j].rowId
  }

  ghost predicate Fits(ds: seq<Delivery>, n: nat) {
    forall i :: 0 <= i < |ds| ==> ds[i].rowId < n
  }

  ghost predicate AreOffered(ds: seq<Delivery>, offered: seq<Delivery>) {
    forall i :: 0 <= i < |ds| ==> ds[i].rowId < |offered| && offered[ds[i].rowId] == ds[i]
  }

  ghost predicate QueueInv(cap: nat, s: State) {
    && |s.rows| == |s.offered| == |s.kept|
    && (forall i :: 0 <= i < |s.offered| ==> s.offered[i].rowId == i)
    && Accepted(s.offered, s.kept) == s.received + s.queue
    && |s.queue| <= cap
    && Increasing(s.received + s.queue) && Fits(s.received + s.queue, |s.rows|)
    && AreOffered(s.received + s.queue, s.offered)
    && (forall i :: 0 <= i < |s.sent| ==> s.sent[i].rowId < |s.rows| && s.offered[s.sent[i].rowId] == s.sent[i].d)
    && (s.worker.Busy? ==> s.received != [] && s.received[|s.received| - 1] == s.worker.d && s.worker.attempt <= MAX_ATTEMPTS)
  }

  /** A row nobody has tried to deliver yet. */
  predicate Untouched(r: Row) {
    r == NewRow(r.userId, r.eventId, r.service, r.typ, r.batchSize, r.threadId)
  }

  ghost predicate RowAt(s: State, id: nat)
    requires id < |s.rows|
  {
    && (!Taken(s, id) ==> Untouched(s.rows[id]) && Sends(s.sent, id) == 0)
    && Successes(s.sent, id) == (if s.rows[id].status == Sent then 1 else 0)
    && (s.worker.Busy? && s.worker.d.rowId == id ==> s.rows[id].status != Sent)
  }

  ghost predicate RowInv(s: State) {
    forall id :: 0 <= id < |s.rows| ==> RowAt(s, id)
  }

  ghost predicate Inv(cap: nat, s: State) {
    QueueInv(cap, s) && RowInv(s)
  }

  // ---------- Preservation ----------

  lemma AcceptedAppend(offered: seq<Delivery>, kept: seq<bool>, d: Delivery, k: bool)
    requires |offered| == |kept|
    ensures Accepted(offered + [d], kept + [k]) == Accepted(offered, kept) + if k then [d] else []
  {
    assert (offered + [d])[..|offered|] == offered && (kept + [k])[..|kept|] == kept;
  }

  lemma IncreasingAppend(ds: seq<Delivery>, d: Delivery)
    requires Increasing(ds) && Fits(ds, d.rowId)
    ensures Increasing(ds + [d]) && Fits(ds + [d], d.rowId + 1)
  {
  }

  lemma QueueSubmit(cap: nat, s: State, st: Step)
    requires QueueInv(cap, s) && st.Submit?
    ensures QueueInv(cap, Next(cap, s, st))
  {
    hide Accepted;
    var s' := Next(cap, s, st);
    var d := s'.offered[|s.offered|];
    AcceptedAppend(s.offered, s.kept, d, |s.queue| < cap);
    IncreasingAppend(s.received + s.queue, d);
    if |s.queue| < cap {
      assert s'.received + s'.queue == (s.received + s.queue) + [d];
    }
  }

  lemma QueueStep(cap: nat, s: State, st: Step)
    requires QueueInv(cap, s) && Enabled(s, st)
    ensures QueueInv(cap, Next(cap, s, st))
  {
    match st
    case Submit(_, _, _, _, _, _, _, _) => QueueSubmit(cap, s, st);
    case Receive =>
      var s' := Next(cap, s, st);
      assert s'.received + s'.queue == s.received + s.queue;
      assert s.queue[0] == (s.received + s.queue)[|s.received|];
    case Answer(r, _) => BusyTaken(cap, s);
    case GiveUp =>
    case RetryAll(_) =>
    case Halt =>
  }

  lemma SentAppend(sent: seq<Sending>, x: Sending, id: nat)
    ensures Sends(sent + [x], id) == Sends(sent, id) + if x.rowId == id then 1 else 0
    ensures Successes(sent + [x], id) == Successes(sent, id) + if x.rowId == id && x.r.Ok? then 1 else 0
    ensures Attempts(sent + [x], id) == Attempts(sent, id) + if x.rowId == id && !x.r.TooMany? then 1 else 0
  {
    assert (sent + [x])[..|sent|] == sent;
  }

  /** The worker's delivery is the latest one taken, so no queued row is its row. */
  lemma BusyTaken(cap: nat, s: State)
    requires QueueInv(cap, s) && s.worker.Busy?
    ensures s.worker.d.rowId < |s.rows| == |s.offered| && Taken(s, s.worker.d.rowId)
    ensures s.offered[s.worker.d.rowId] == s.worker.d
  {
    var last := |s.received| - 1;
    assert s.received[last].rowId == s.worker.d.rowId;
    assert (s.received + s.queue)[last] == s.received[last];
  }

  lemma TakenSame(s: State, s': State, id: nat)
    requires s.received == s'.received
    ensures Taken(s, id) == Taken(s', id)
  {
  }

  lemma RowAnswer(cap: nat, s: State, st: Step, id: nat)
    requires QueueInv(cap, s) && RowInv(s) && Enabled(s, st) && (st.Answer? || st.GiveUp?) && id < |s.rows|
    ensures RowAt(Next(cap, s, st), id)
  {
    var s' := Next(cap, s, st);
    BusyTaken(cap, s);
    TakenSame(s, s', id);
    assert RowAt(s, id);
    if st.Answer? {
      SentAppend(s.sent, Sending(s.worker.d, st.r), id);
    }
  }

  lemma RowReceive(cap: nat, s: State, id: nat)
    requires QueueInv(cap, s) && RowInv(s) && Enabled(s, Receive) && id < |s.rows|
    ensures RowAt(Next(cap, s, Receive), id)
  {
    var s' := Next(cap, s, Receive);
    var d := s.queue[0];
    assert RowAt(s, id);
    assert Taken(s, id) ==> Taken(s', id) by {
      if Taken(s, id) {
        var i :| 0 <= i < |s.received| && s.received[i].rowId == id;
        assert s'.received[i].rowId == id;
      }
    }
    if d.rowId == id {
      forall i | 0 <= i < |s.received|
        ensures s.received[i].rowId != id
      {
        assert (s.received + s.queue)[i].rowId < (s.received + s.queue)[|s.received|].rowId;
      }
    }
  }

  lemma RowReset(cap: nat, s: State, max: int, id: nat)
    requires RowInv(s) && id < |s.rows|
    ensures RowAt(Next(cap, s, RetryAll(max)), id)
  {
    var s' := Next(cap, s, RetryAll(max));
    TakenSame(s, s', id);
    assert RowAt(s, id);
  }

  lemma {:induction false} NotSent(s: State, sent: seq<Sending>, id: nat)
    requires forall i :: 0 <= i < |sent| ==> sent[i].rowId != id
    ensures Sends(sent, id) == Successes(sent, id) == Attempts(sent, id) == 0
  {
    if sent != [] { NotSent(s, sent[..|sent| - 1], id); }
  }

  lemma RowSubmit(cap: nat, s: State, st: Step, id: nat)
    requires QueueInv(cap, s) && RowInv(s) && st.Submit? && id <= |s.rows|
    ensures RowAt(Next(cap, s, st), id)
  {
    var s' := Next(cap, s, st);
    TakenSame(s, s', id);
    if id < |s.rows| {
      assert RowAt(s, id);
    } else {
      NotSent(s, s.sent, id);
      forall i | 0 <= i < |s.received|
        ensures s.received[i].rowId < id
      {
        assert s.received[i] == (s.received + s.queue)[i];
      }
      if s.worker.Busy? { BusyTaken(cap, s); }
    }
  }

  lemma RowStep(cap: nat, s: State, st: Step)
    requires Inv(cap, s) && Enabled(s, st)
    ensures RowInv(Next(cap, s, st))
  {
    hide QueueInv;
    hide RowAt;
    forall id | 0 <= id < |Next(cap, s, st).rows|
      ensures RowAt(Next(cap, s, st), id)
    {
      match st
      case Submit(_, _, _, _, _, _, _, _) => RowSubmit(cap, s, st, id);
      case Receive => RowReceive(cap, s, id);
      case Answer(_, _) => RowAnswer(cap, s, st, id);
      case GiveUp => RowAnswer(cap, s, st, id);
      case RetryAll(max) => RowReset(cap, s, max, id);
      case Halt => RowHalt(cap, s, id);
    }
  }

  lemma RowHalt(cap: nat, s: State, id: nat)
    requires RowInv(s) && s.worker.Idle? && id < |s.rows|
    ensures RowAt(Next(cap, s, Halt), id)
  {
    TakenSame(s, Next(cap, s, Halt), id);
    assert RowAt(s, id);
  }

  lemma InvStep(cap: nat, s: State, st: Step)
    requires Inv(cap, s) && Enabled(s, st)
    ensures Inv(cap, Next(cap, s, st))
  {
    QueueStep(cap, s, st);
    RowStep(cap, s, st);
  }

  lemma {:induction false} RunInv(cap: nat, run: seq<State>, steps: seq<Step>, n: nat)
    requires IsRun(cap, run, steps) && n < |run|
    ensures Inv(cap, run[n])
  {
    hide Next;
    hide Inv;
    hide Enabled;
    if n > 0 {
      RunInv(cap, run, steps, n - 1);
      InvStep(cap, run[n - 1], steps[n - 1]);
    } else {
      InitInv(cap);
    }
  }

  lemma InitInv(cap: nat)
    ensures Inv(cap, Init)
  {
  }

  // ---------- What every run guarantees ----------

  /** The queue is first in, first out and bounded: what was taken out followed by what is still in
      it is exactly what was offered while it had room, in order. */
  lemma QueueIsFifo(cap: nat, run: seq<State>, steps: seq<Step>, n: nat)
    requires IsRun(cap, run, steps) && n < |run|
    ensures var s := run[n];
            && |s.offered| == |s.kept|
            && Accepted(s.offered, s.kept) == s.received + s.queue
            && |s.queue| <= cap
  {
    RunInv(cap, run, steps, n);
  }

  /** Only what was offered is sent: every send is of the delivery made with its row. */
  lemma EverySendWasOffered(cap: nat, run: seq<State>, steps: seq<Step>, n: nat, i: nat)
    requires IsRun(cap, run, steps) && n < |run| && i < |run[n].sent|
    ensures var d := run[n].sent[i].d;
            d.rowId < |run[n].offered| && run[n].offered[d.rowId] == d
  {
    RunInv(cap, run, steps, n);
  }

  /** A delivery dropped by the full queue leaves a row that stays pending and untouched for ever:
      it is never sent, and "retry all failed" never sees it. */
  lemma DroppedStaysPending(cap: nat, run: seq<State>, steps: seq<Step>, n: nat, id: nat)
    requires IsRun(cap, run, steps) && n < |run| && id < |run[n].rows|
    ensures |run[n].kept| == |run[n].rows|
    ensures !run[n].kept[id] ==>
              var r := run[n].rows[id];
              && r.status == Pending && r.attempts == 0 && r.tgMsgId == None && r.nextRetry == None && r.lastErr == None
              && Sends(run[n].sent, id) == 0
  {
    RunInv(cap, run, steps, n);
    DroppedNotTaken(cap, run[n], id);
    assert RowAt(run[n], id);
  }

  lemma DroppedNotTaken(cap: nat, s: State, id: nat)
    requires QueueInv(cap, s) && id < |s.rows|
    ensures !s.kept[id] ==> !Taken(s, id)
  {
    if !s.kept[id] {
      DroppedNotAccepted(s.offered, s.kept, id);
      forall i | 0 <= i < |s.received|
        ensures s.received[i].rowId != id
      {
        assert (s.received + s.queue)[i] == s.received[i];
        assert s.received[i] in Accepted(s.offered, s.kept);
      }
    }
  }

  lemma {:induction false} DroppedNotAccepted(offered: seq<Delivery>, kept: seq<bool>, id: nat)
    requires |offered| == |kept| && id < |offered| && !kept[id]
    requires forall i :: 0 <= i < |offered| ==> offered[i].rowId == i
    ensures forall d :: d in Accepted(offered, kept) ==> d.rowId != id
  {
    var n := |offered| - 1;
    if id < n {
      DroppedNotAccepted(offered[..n], kept[..n], id);
    } else {
      AcceptedBelow(offered[..n], kept[..n]);
    }
  }

  lemma {:induction false} AcceptedBelow(offered: seq<Delivery>, kept: seq<bool>)
    requires |offered| == |kept|
    requires forall i :: 0 <= i < |offered| ==> offered[i].rowId == i
    ensures forall d :: d in Accepted(offered, kept) ==> d.rowId < |offered|
  {
    if offered != [] { AcceptedBelow(offered[..|offered| - 1], kept[..|kept| - 1]); }
  }

  /** A row has at most one successful send, and shows it. */
  lemma SentAtMostOnce(cap: nat, run: seq<State>, steps: seq<Step>, n: nat, id: nat)
    requires IsRun(cap, run, steps) && n < |run| && id < |run[n].rows|
    ensures Successes(run[n].sent, id) == if run[n].rows[id].status == Sent then 1 else 0
  {
    RunInv(cap, run, steps, n);
    assert RowAt(run[n], id);
  }

  lemma SentStep(cap: nat, s: State, st: Step, id: nat)
    requires Inv(cap, s) && Enabled(s, st) && id < |s.rows| && s.rows[id].status == Sent
    ensures id < |Next(cap, s, st).rows| && Next(cap, s, st).rows[id] == s.rows[id]
  {
    assert RowAt(s, id);
    if st.Answer? || st.GiveUp? { BusyTaken(cap, s); }
  }

  /** Once sent, a row never changes again, whatever is retried or reset. */
  lemma {:induction false} SentIsFinal(cap: nat, run: seq<State>, steps: seq<Step>, n: nat, m: nat, id: nat)
    requires IsRun(cap, run, steps) && n <= m < |run| && id < |run[n].rows| && run[n].rows[id].status == Sent
    ensures id < |run[m].rows| && run[m].rows[id] == run[n].rows[id]
  {
    hide Next;
    if n < m {
      SentIsFinal(cap, run, steps, n, m - 1, id);
      RunInv(cap, run, steps, m - 1);
      SentStep(cap, run[m - 1], steps[m - 1], id);
    }
  }

  lemma FinishedStep(cap: nat, s: State, st: Step, id: nat)
    requires Inv(cap, s) && Enabled(s, st) && Finished(s, id)
    ensures Finished(Next(cap, s, st), id) && Sends(Next(cap, s, st).sent, id) == Sends(s.sent, id)
  {
    var s' := Next(cap, s, st);
    var i :| 0 <= i < |s.received| && s.received[i].rowId == id;
    assert s'.received[i].rowId == id;
    if st.Receive? {
      assert (s.received + s.queue)[i].rowId < (s.received + s.queue)[|s.received|].rowId;
    }
    if st.Answer? {
      SentAppend(s.sent, Sending(s.worker.d, st.r), id);
    }
  }

  /** Once the worker is done with a row it is never sent again; in particular "retry all failed"
      resets rows but re-sends none. */
  lemma {:induction false} NothingIsResent(cap: nat, run: seq<State>, steps: seq<Step>, n: nat, m: nat, id: nat)
    requires IsRun(cap, run, steps) && n <= m < |run| && Finished(run[n], id)
    ensures Finished(run[m], id) && Sends(run[m].sent, id) == Sends(run[n].sent, id)
  {
    hide Next;
    if n < m {
      NothingIsResent(cap, run, steps, n, m - 1, id);
      RunInv(cap, run, steps, m - 1);
      FinishedStep(cap, run[m - 1], steps[m - 1], id);
    }
  }

  // ---------- What a row shows, resets included ----------

  /** A reset picks row `id`: its number of attempts goes back to zero. */
  predicate Forgets(s: State, st: Step, id: nat) {
    st.RetryAll? && id < |s.rows| && Chosen(s.rows, st.max, id)
  }

  /** The worker writes a failure of row `id`, with the number of attempts as it knows it. */
  predicate Rewrites(s: State, st: Step, id: nat) {
    s.worker.Busy? && s.worker.d.rowId == id && (st.GiveUp? || (st.Answer? && (st.r.Forbidden? || st.r.Other?)))
  }

  /** Row `id` was reset, and no failure has been written to it since. */
  ghost predicate Forgotten(run: seq<State>, steps: seq<Step>, n: nat, id: nat)
    requires n <= |steps| && n < |run|
  {
    exists m :: 0 <= m < n && Forgets(run[m], steps[m], id) && forall l :: m < l < n ==> !Rewrites(run[l], steps[l], id)
  }

  lemma ForgottenStep(run: seq<State>, steps: seq<Step>, n: nat, id: nat)
    requires n < |steps| && n + 1 < |run|
    ensures Forgotten(run, steps, n + 1, id) <==>
              Forgets(run[n], steps[n], id) || (Forgotten(run, steps, n, id) && !Rewrites(run[n], steps[n], id))
  {
    hide Forgets;
    hide Rewrites;
    if Forgotten(run, steps, n + 1, id) {
      var m :| 0 <= m < n + 1 && Forgets(run[m], steps[m], id) && forall l :: m < l < n + 1 ==> !Rewrites(run[l], steps[l], id);
      assert m == n || !Rewrites(run[n], steps[n], id);
    } else {
      assert !Forgets(run[n], steps[n], id);
    }
  }

  /** What row `id` shows against the sends really made, `forgotten` or not. */
  ghost predicate TallyAt(s: State, id: nat, forgotten: bool)
    requires id < |s.rows|
  {
    var r, n, mine := s.rows[id], Attempts(s.sent, id), s.worker.Busy? && s.worker.d.rowId == id;
    && n <= MAX_ATTEMPTS
    && (if forgotten then n >= 1 && Shows(r, n) else r.attempts == n)
    && (mine ==> n == s.worker.attempt && (r.status == Failed ==> r.nextRetry.Some?))
    && (r.status == Failed ==> n >= 1)
    && (Finished(s, id) ==> r.nextRetry.None? && (r.status == Pending ==> forgotten))
    && (!Taken(s, id) ==> Untouched(r) && n == 0)
  }

  /** What a forgotten row shows: nothing, or one attempt once a further send has succeeded. */
  predicate Shows(r: Row, n: nat) {
    r.nextRetry.None? && ((r.status == Pending && r.attempts == 0) || (r.status == Sent && r.attempts == 1 < n))
  }

  lemma TallyWorker(cap: nat, s: State, st: Step, id: nat, forgotten: bool)
    requires Inv(cap, s) && Enabled(s, st) && (st.Answer? || st.GiveUp?) && id < |s.rows| && TallyAt(s, id, forgotten)
    ensures TallyAt(Next(cap, s, st), id, forgotten && !Rewrites(s, st, id))
  {
    hide Attempts;
    hide Successes;
    hide Sends;
    hide QueueInv;
    assert RowAt(s, id);
    BusyTaken(cap, s);
    TakenSame(s, Next(cap, s, st), id);
    if st.Answer? { SentAppend(s.sent, Sending(s.worker.d, st.r), id); }
  }

  lemma TallyReset(cap: nat, s: State, st: Step, id: nat, forgotten: bool)
    requires st.RetryAll? && id < |s.rows| && TallyAt(s, id, forgotten)
    ensures TallyAt(Next(cap, s, st), id, forgotten || Forgets(s, st, id))
  {
    TakenSame(s, Next(cap, s, st), id);
  }

  lemma TallyNew(cap: nat, s: State, st: Step)
    requires Inv(cap, s) && st.Submit?
    ensures TallyAt(Next(cap, s, st), |s.rows|, false)
  {
    var s', id := Next(cap, s, st), |s.rows|;
    RowSubmit(cap, s, st, id);
    NotSent(s, s.sent, id);
    TakenSame(s, s', id);
    forall i | 0 <= i < |s.received|
      ensures s.received[i].rowId < id
    {
      assert s.received[i] == (s.received + s.queue)[i];
    }
  }

  lemma TallyReceive(cap: nat, s: State, id: nat, forgotten: bool)
    requires Inv(cap, s) && Enabled(s, Receive) && id < |s.rows| && TallyAt(s, id, forgotten)
    ensures TallyAt(Next(cap, s, Receive), id, forgotten)
  {
    var s' := Next(cap, s, Receive);
    forall i | 0 <= i < |s.received|
      ensures s'.received[i] == s.received[i] && s.received[i].rowId != s.queue[0].rowId
    {
      assert (s.received + s.queue)[i].rowId < (s.received + s.queue)[|s.received|].rowId;
    }
    assert s'.received[|s.received|] == s.queue[0];
    assert Taken(s', id) <==> Taken(s, id) || s.queue[0].rowId == id;
  }

  lemma TallyStep(cap: nat, s: State, st: Step, id: nat, forgotten: bool)
    requires Inv(cap, s) && Enabled(s, st) && id < |s.rows| && TallyAt(s, id, forgotten)
    ensures id < |Next(cap, s, st).rows|
    ensures TallyAt(Next(cap, s, st), id, Forgets(s, st, id) || (forgotten && !Rewrites(s, st, id)))
  {
    match st
    case Submit(_, _, _, _, _, _, _, _) => TakenSame(s, Next(cap, s, st), id);
    case Receive => TallyReceive(cap, s, id, forgotten);
    case Answer(_, _) => TallyWorker(cap, s, st, id, forgotten);
    case GiveUp => TallyWorker(cap, s, st, id, forgotten);
    case RetryAll(_) => TallyReset(cap, s, st, id, forgotten);
    case Halt => TakenSame(s, Next(cap, s, st), id);
  }

  lemma {:induction false} TallyRun(cap: nat, run: seq<State>, steps: seq<Step>, n: nat, id: nat)
    requires IsRun(cap, run, steps) && n < |run| && id < |run[n].rows|
    ensures TallyAt(run[n], id, Forgotten(run, steps, n, id))
    ensures Forgotten(run, steps, n, id) ==> n > 0 && id < |run[n - 1].rows|
  {
    hide Next;
    hide TallyAt;
    hide Forgotten;
    hide Inv;
    if n > 0 {
      RunInv(cap, run, steps, n - 1);
      ForgottenStep(run, steps, n - 1, id);
      if id < |run[n - 1].rows| {
        TallyRun(cap, run, steps, n - 1, id);
        TallyStep(cap, run[n - 1], steps[n - 1], id, Forgotten(run, steps, n - 1, id));
      } else {
        RowsGrow(cap, run, steps, n - 1, id);
        TallyNew(cap, run[n - 1], steps[n - 1]);
      }
    }
  }

  /** A row that does not exist yet is not forgotten, and only a submission can bring it. */
  lemma {:induction false} RowsGrow(cap: nat, run: seq<State>, steps: seq<Step>, n: nat, id: nat)
    requires IsRun(cap, run, steps) && n < |run| && id >= |run[n].rows|
    ensures !Forgotten(run, steps, n, id)
    ensures n + 1 < |run| && id < |run[n + 1].rows| ==> steps[n].Submit? && id == |run[n].rows|
  {
    if n > 0 {
      RowsGrow(cap, run, steps, n - 1, id);
      ForgottenStep(run, steps, n - 1, id);
    }
  }

  /** In every run, resets included: a row's attempts are its sends not answered 429 exactly if no
      reset has picked it, or a failure has been written to it since the last one that did; otherwise
      the row shows no attempt, or one if it has been sent since. It is failed with no retry
      scheduled exactly when the worker has given it up and no reset has picked it since. */
  lemma AttemptsTrueIff(cap: nat, run: seq<State>, steps: seq<Step>, n: nat, id: nat)
    requires IsRun(cap, run, steps) && n < |run| && id < |run[n].rows|
    ensures var s, r := run[n], run[n].rows[id];
            && (r.attempts == Attempts(s.sent, id) <==> !Forgotten(run, steps, n, id))
            && (Forgotten(run, steps, n, id) ==> r.attempts == if r.status == Sent then 1 else 0)
            && Attempts(s.sent, id) <= 5
            && (r.status == Failed && r.nextRetry.None? <==>
                  Finished(s, id) && Successes(s.sent, id) == 0 && !Forgotten(run, steps, n, id))
  {
    hide IsRun;
    hide Forgotten;
    RunInv(cap, run, steps, n);
    TallyRun(cap, run, steps, n, id);
    assert RowAt(run[n], id);
  }

  lemma NothingForgotten(run: seq<State>, steps: seq<Step>, n: nat, id: nat)
    requires n <= |steps| && n < |run| && forall m :: 0 <= m < n ==> !steps[m].RetryAll?
    ensures !Forgotten(run, steps, n, id)
  {
  }

  /** Without resets a row's attempts are the sends that were not answered 429, at most five; it is
      failed with no retry scheduled exactly when the worker has given it up for good. */
  lemma RowsTellTheTruth(cap: nat, run: seq<State>, steps: seq<Step>, n: nat, id: nat)
    requires IsRun(cap, run, steps) && n < |run| && id < |run[n].rows|
    requires forall m :: 0 <= m < n ==> !steps[m].RetryAll?
    ensures TallyAt(run[n], id, false)
    ensures run[n].rows[id].attempts == Attempts(run[n].sent, id) <= MAX_ATTEMPTS
    ensures run[n].rows[id].status == Failed && run[n].rows[id].nextRetry.None? <==>
              Finished(run[n], id) && Successes(run[n].sent, id) == 0
  {
    hide TallyAt;
    hide Next;
    NothingForgotten(run, steps, n, id);
    TallyRun(cap, run, steps, n, id);
    AttemptsTrueIff(cap, run, steps, n, id);
  }

  /** With a reset in the middle of the retries the row forgets: whatever number of attempts has
      failed before, a row reset and then delivered claims a single attempt. */
  lemma ResetMidwayForgets(cap: nat, s: State, msgId: int)
    requires Inv(cap, s) && s.worker.Busy? && 0 < s.worker.attempt < MAX_ATTEMPTS
    requires s.worker.d.rowId < |s.rows| && s.rows[s.worker.d.rowId].status == Failed
    ensures var s' := Next(cap, Next(cap, s, RetryAll(-1)), Answer(Ok(msgId), 0));
            var id := s.worker.d.rowId;
            s'.rows[id].status == Sent && s'.rows[id].attempts == 1 && Attempts(s'.sent, id) == Attempts(s.sent, id) + 1
  {
    SentAppend(s.sent, Sending(s.worker.d, Ok(msgId)), s.worker.d.rowId);
  }

  /** A run in which a row forgets: the first send fails, a reset comes, the second send succeeds. */
  lemma RowForgets(cap: nat, d: Delivery, eventId: string, typ: string, msgId: int) returns (run: seq<State>, steps: seq<Step>)
    requires cap > 0 && d.rowId == 0
    ensures IsRun(cap, run, steps) && |run| == 6
    ensures |run[5].rows| == 1 && run[5].rows[0].attempts == 1 && Attempts(run[5].sent, 0) == 2
  {
    hide Next;
    hide Enabled;
    hide Attempts;
    var submit, s1, s2, s3 := FirstSendFails(cap, d, eventId, typ);
    var s4, s5 := ResetThenSent(cap, s3, msgId);
    run := [Init, s1, s2, s3, s4, s5];
    steps := [submit, Receive, Answer(Other(""), 0), RetryAll(-1), Answer(Ok(msgId), 0)];
  }

  lemma FirstSendFails(cap: nat, d: Delivery, eventId: string, typ: string) returns (submit: Step, s1: State, s2: State, s3: State)
    requires cap > 0 && d.rowId == 0
    ensures Enabled(Init, submit) && s1 == Next(cap, Init, submit)
    ensures Enabled(s1, Receive) && s2 == Next(cap, s1, Receive)
    ensures Enabled(s2, Answer(Other(""), 0)) && s3 == Next(cap, s2, Answer(Other(""), 0))
    ensures s3.worker == Busy(d, 1) && |s3.rows| == 1 && s3.rows[0].status == Failed && s3.sent == [Sending(d, Other(""))]
  {
    submit := Submit(d.userId, d.chatId, d.threadId, eventId, d.service, typ, 1, d.text);
    s1 := Next(cap, Init, submit);
    assert s1.queue == [d];
    s2 := Next(cap, s1, Receive);
    s3 := Next(cap, s2, Answer(Other(""), 0));
  }

  lemma ResetThenSent(cap: nat, s: State, msgId: int) returns (s1: State, s2: State)
    requires s.worker.Busy? && s.worker.d.rowId == 0 && s.worker.attempt == 1
    requires |s.rows| == 1 && s.rows[0].status == Failed && s.sent == [Sending(s.worker.d, Other(""))]
    ensures Enabled(s, RetryAll(-1)) && s1 == Next(cap, s, RetryAll(-1))
    ensures Enabled(s1, Answer(Ok(msgId), 0)) && s2 == Next(cap, s1, Answer(Ok(msgId), 0))
    ensures |s2.rows| == 1 && s2.rows[0].attempts == 1 && Attempts(s2.sent, 0) == 2
  {
    s1 := Next(cap, s, RetryAll(-1));
    s2 := Next(cap, s1, Answer(Ok(msgId), 0));
    SentAppend([], Sending(s.worker.d, Other("")), 0);
    SentAppend(s.sent, Sending(s.worker.d, Ok(msgId)), 0);
    assert s.sent == [] + [Sending(s.worker.d, Other(""))];
  }

  /** Stop does not drain: once the worker has halted, what is in the queue stays there. */
  lemma {:induction false} HaltStrandsQueue(cap: nat, run: seq<State>, steps: seq<Step>, n: nat, m: nat)
    requires IsRun(cap, run, steps) && n <= m < |run| && run[n].worker.Halted?
    ensures run[m].worker.Halted? && run[m].received == run[n].received && run[n].queue <= run[m].queue
  {
    if n < m {
      HaltStrandsQueue(cap, run, steps, n, m - 1);
    }
  }

  /** When stopping does drain: after the halt at `n`, everything kept so far has been received exactly
      if the queue was empty at the halt and has had no room for, or no offer of, anything since. */
  lemma {:induction false} HaltDrainsIff(cap: nat, run: seq<State>, steps: seq<Step>, n: nat, m: nat)
    requires IsRun(cap, run, steps) && n <= m < |run| && run[n].worker.Halted?
    ensures |run[m].offered| == |run[m].kept|
    ensures Accepted(run[m].offered, run[m].kept) == run[m].received <==>
              run[n].queue == [] && forall l :: n <= l < m ==> !Keeps(cap, run[l], steps[l])
  {
    hide Accepted;
    RunInv(cap, run, steps, m);
    assert Accepted(run[m].offered, run[m].kept) == run[m].received + run[m].queue;
    HaltStrandsQueue(cap, run, steps, n, m);
    if n < m {
      HaltDrainsIff(cap, run, steps, n, m - 1);
      RunInv(cap, run, steps, m - 1);
      assert Accepted(run[m - 1].offered, run[m - 1].kept) == run[m - 1].received + run[m - 1].queue;
      HaltStrandsQueue(cap, run, steps, n, m - 1);
    }
  }

  /** The step puts a delivery into the queue. */
  predicate Keeps(cap: nat, s: State, st: Step) {
    st.Submit? && |s.queue| < cap
  }

  /** A run that strands a delivery: it is queued, and the worker leaves before taking it. */
  lemma DeliveryStranded(cap: nat, d: Delivery, eventId: string, typ: string) returns (run: seq<State>, steps: seq<Step>)
    requires cap > 0 && d.rowId == 0
    ensures IsRun(cap, run, steps) && |run| == 3
    ensures run[2].worker.Halted? && run[2].queue == [d] && run[2].received == []
  {
    var submit := Submit(d.userId, d.chatId, d.threadId, eventId, d.service, typ, 1, d.text);
    var s1 := Next(cap, Init, submit);
    run, steps := [Init, s1, Next(cap, s1, Halt)], [submit, Halt];
  }

  // ---------- Everything the queue kept gets settled ----------

  /** Worker steps still to come, 429s not counted, if nothing more is offered. */
  function WorkLeft(s: State): nat {
    (MAX_ATTEMPTS + 2) * |s.queue| + if s.worker.Busy? && s.worker.attempt <= MAX_ATTEMPTS then MAX_ATTEMPTS + 1 - s.worker.attempt else 0
  }

  /** A step that brings a delivery nearer to its end. */
  predicate Advances(st: Step) {
    st.Receive? || st.GiveUp? || (st.Answer? && !st.r.TooMany?)
  }

  function Advanced(steps: seq<Step>): nat {
    if steps == [] then 0 else Advanced(steps[..|steps| - 1]) + if Advances(steps[|steps| - 1]) then 1 else 0
  }

  lemma WorkStep(cap: nat, s: State, st: Step)
    requires QueueInv(cap, s) && Enabled(s, st) && !st.Submit?
    ensures WorkLeft(Next(cap, s, st)) + (if Advances(st) then 1 else 0) <= WorkLeft(s)
  {
    hide Accepted;
  }

  /** Until new deliveries come, every schedule contains at most WorkLeft steps other than 429s,
      resets and the halt. */
  lemma {:induction false} EveryScheduleSettles(cap: nat, run: seq<State>, steps: seq<Step>, from: nat, to: nat)
    requires IsRun(cap, run, steps) && from <= to < |run|
    requires forall n :: from <= n < to ==> !steps[n].Submit?
    ensures Advanced(steps[from..to]) + WorkLeft(run[to]) <= WorkLeft(run[from])
  {
    hide Next;
    hide WorkLeft;
    if from < to {
      EveryScheduleSettles(cap, run, steps, from, to - 1);
      RunInv(cap, run, steps, to - 1);
      WorkStep(cap, run[to - 1], steps[to - 1]);
      assert steps[from..to][..to - from - 1] == steps[from..to - 1];
    } else {
      assert steps[from..to] == [];
    }
  }

  lemma {:induction false} KeptIsAccepted(offered: seq<Delivery>, kept: seq<bool>, i: nat) returns (j: nat)
    requires |offered| == |kept| && i < |offered| && kept[i]
    ensures j < |Accepted(offered, kept)| && Accepted(offered, kept)[j] == offered[i]
  {
    var n := |offered| - 1;
    if i == n { j := |Accepted(offered[..n], kept[..n])|; } else { j := KeptIsAccepted(offered[..n], kept[..n], i); }
  }

  /** How row `id` ends: pending if the queue dropped it, or if a reset picked it after its failure and
      nothing was sent since; sent if one send succeeded; else failed for good, telling the truth. */
  ghost predicate EndsAs(s: State, id: nat, forgotten: bool)
    requires id < |s.rows| == |s.kept|
  {
    var r := s.rows[id];
    && (r.status == Pending <==> !s.kept[id] || (forgotten && Successes(s.sent, id) == 0))
    && (r.status == Sent <==> Successes(s.sent, id) == 1)
    && (r.status == Failed <==> s.kept[id] && !forgotten && Successes(s.sent, id) == 0)
    && (r.status == Failed ==> r.nextRetry.None? && r.attempts == Attempts(s.sent, id))
  }

  lemma IdleEnds(cap: nat, s: State, id: nat, forgotten: bool)
    requires Inv(cap, s) && id < |s.rows| && TallyAt(s, id, forgotten) && s.queue == [] && s.worker.Idle?
    ensures EndsAs(s, id, forgotten)
  {
    hide Attempts;
    hide Successes;
    assert RowAt(s, id);
    DroppedNotTaken(cap, s, id);
    if s.kept[id] {
      var j := KeptIsAccepted(s.offered, s.kept, id);
      assert Accepted(s.offered, s.kept) == s.received;
      assert s.received[j].rowId == id;
      assert Finished(s, id);
    }
  }

  /** With the queue empty and the worker idle, in every run and resets included, each row has ended:
      no row is left halfway. */
  lemma IdleMeansSettled(cap: nat, run: seq<State>, steps: seq<Step>, n: nat, id: nat)
    requires IsRun(cap, run, steps) && n < |run| && id < |run[n].rows|
    requires run[n].queue == [] && run[n].worker.Idle?
    ensures |run[n].kept| == |run[n].rows| && EndsAs(run[n], id, Forgotten(run, steps, n, id))
  {
    hide Next;
    hide Enabled;
    hide Forgotten;
    hide TallyAt;
    hide EndsAs;
    RunInv(cap, run, steps, n);
    TallyRun(cap, run, steps, n, id);
    IdleEnds(cap, run[n], id, Forgotten(run, steps, n, id));
  }

  /** A row that was reset after the worker was done with it is lost: it says pending and never changes
      again, so no later reset finds it either. */
  lemma {:induction false} ResetRowIsLost(cap: nat, run: seq<State>, steps: seq<Step>, n: nat, m: nat, id: nat)
    requires IsRun(cap, run, steps) && n <= m < |run| && id < |run[n].rows|
    requires Finished(run[n], id) && run[n].rows[id].status == Pending
    ensures id < |run[m].rows| && run[m].rows[id] == run[n].rows[id]
  {
    hide Next;
    if n < m {
      ResetRowIsLost(cap, run, steps, n, m - 1, id);
      NothingIsResent(cap, run, steps, n, m - 1, id);
      RunInv(cap, run, steps, m - 1);
      LostStep(cap, run[m - 1], steps[m - 1], id);
    }
  }

  lemma LostStep(cap: nat, s: State, st: Step, id: nat)
    requires Inv(cap, s) && Enabled(s, st) && id < |s.rows| && Finished(s, id) && s.rows[id].status == Pending
    ensures id < |Next(cap, s, st).rows| && Next(cap, s, st).rows[id] == s.rows[id]
  {
    if st.Answer? || st.GiveUp? { BusyTaken(cap, s); }
  }

  /** The worker's steps on one delivery are the rounds of DeliverWithRetry: an answer either keeps
      that loop's invariant or ends in what the loop promises. */
  lemma AnswerIsARound(cap: nat, s: State, stream: Stream, p0: nat, p: nat, rows0: seq<Row>, row: Row,
                       calls0: seq<StoreCall>, calls: seq<StoreCall>, retryAt: int)
    requires s.worker.Busy? && s.worker.attempt < MAX_ATTEMPTS
    requires Underway(stream, p0, p, s.worker.d.rowId, rows0, s.rows, row, s.worker.attempt, calls0, calls)
    ensures var id, attempt, r := s.worker.d.rowId, s.worker.attempt, stream.at(p);
            var s' := Next(cap, s, Answer(r, retryAt));
            if s'.worker.Busy? then
              Underway(stream, p0, p + 1, id, rows0, s'.rows, AfterAnswer(row, attempt, r, retryAt), s'.worker.attempt,
                       calls0, calls + [CallFor(id, attempt, r)])
            else
              Delivers(stream, p0, p + 1, id, rows0, s'.rows, if r.Ok? then Delivered else Rejected(r.err))
  {
    hide Underway;
    hide Delivers;
    hide AfterAnswer;
    var id, attempt, r := s.worker.d.rowId, s.worker.attempt, stream.at(p);
    var s' := Next(cap, s, Answer(r, retryAt));
    RoundFacts(stream, p0, p, id, rows0, s.rows, row, attempt, calls0, calls, r, retryAt, s'.rows, calls + [CallFor(id, attempt, r)]);
  }

  /** And giving up is the end of that loop: the row and the outcome are what exhaustion promises. */
  lemma GiveUpIsTheEnd(cap: nat, s: State, stream: Stream, p0: nat, p: nat, rows0: seq<Row>, row: Row,
                       calls0: seq<StoreCall>, calls: seq<StoreCall>)
    requires s.worker.Busy? && s.worker.attempt >= MAX_ATTEMPTS
    requires Underway(stream, p0, p, s.worker.d.rowId, rows0, s.rows, row, s.worker.attempt, calls0, calls)
    ensures var s' := Next(cap, s, GiveUp);
            s'.worker.Idle? && Delivers(stream, p0, p, s.worker.d.rowId, rows0, s'.rows, Exhausted)
  {
    hide Underway;
    hide Delivers;
    GiveUpFacts(stream, p0, p, s.worker.d.rowId, rows0, s.rows, row, s.worker.attempt, calls0, calls);
  }
}
