/** One delivery through the retry loop: what is sent, what is written to its row, and when. */
module Transport {
  import opened Deliveries
  import opened Pacing

  /** What a send can come back with. */
  datatype Resp = Ok(msgId: int) | TooMany(retryAfter: int) | Forbidden(err: string) | Other(err: string)

  /** What deliverWithRetry returns: nil, the error that stopped it, or exhaustion. */
  datatype Outcome = Delivered | Rejected(err: string) | Exhausted

  /** The unit of a send. */
  datatype Delivery = Delivery(rowId: nat, userId: int, chatId: int, threadId: int, text: string, service: string)

  /** What a send hands to the Bot API. */
  datatype Message = Message(chatId: int, threadId: int, text: string)

  const MAX_ATTEMPTS: nat := 5

  function ExhaustedError(): string {
    "retries exhausted"
  }

  // ---------- Backoff ----------

  function Pow2(n: nat): (p: nat)
    ensures p >= 1
  {
    if n == 0 then 1 else 2 * Pow2(n - 1)
  }

  /** Two's-complement wrap-around of a 64-bit duration. */
  function Wrap64(x: int): int {
    var m := x % 0x1_0000_0000_0000_0000;
    if m < 0x8000_0000_0000_0000 then m else m - 0x1_0000_0000_0000_0000
  }

  const FIVE_MINUTES: int := 300_000_000_000

  function Backoff(n: nat): int {
    var d := Wrap64(5_000_000_000 * Pow2(n));
    if d > FIVE_MINUTES then FIVE_MINUTES else d
  }

  // ---------- Responses with the 429s taken out ----------

  /** Every answer the Bot API will ever give, in order. */
  datatype Stream = Stream(at: nat -> Resp)

  /** From position `p` on some response is not a 429. */
  ghost predicate AnsweredAfter(s: Stream, p: nat) {
    exists q: nat :: p <= q && !s.at(q).TooMany?
  }

  /** The first position from `p` on whose response is not a 429. */
  ghost function NextOther(s: Stream, p: nat): (q: nat)
    requires AnsweredAfter(s, p)
    ensures p <= q && !s.at(q).TooMany? && forall k :: p <= k < q ==> s.at(k).TooMany?
  {
    var far: nat :| p <= far && !s.at(far).TooMany?;
    Search(s, p, far)
  }

  function Search(s: Stream, p: nat, far: nat): (q: nat)
    requires p <= far && !s.at(far).TooMany?
    ensures p <= q && !s.at(q).TooMany? && forall k :: p <= k < q ==> s.at(k).TooMany?
    decreases far - p
  {
    if !s.at(p).TooMany? then p else Search(s, p + 1, far)
  }

  /** An answer after which nothing more is sent. */
  predicate Final(r: Resp) {
    r.Ok? || r.Forbidden?
  }

  /** From `p` on, a final answer or `n` answers come that are not 429s. What follows them is free. */
  ghost predicate Ends(s: Stream, p: nat, n: nat)
    decreases n
  {
    n > 0 ==>
      && AnsweredAfter(s, p)
      && var q := NextOther(s, p);
         Final(s.at(q)) || Ends(s, q + 1, n - 1)
  }

  /** The next responses that are not 429s, up to a final one and at most `n`. */
  ghost function Others(s: Stream, p: nat, n: nat): (rs: seq<Resp>)
    requires Ends(s, p, n)
    ensures Complete(rs, n)
    decreases n
  {
    if n == 0 then []
    else
      var q := NextOther(s, p);
      [s.at(q)] + if Final(s.at(q)) then [] else Others(s, q + 1, n - 1)
  }

  /** `n` answers that are not 429s and not final, or fewer and then a final one. */
  predicate Complete(rs: seq<Resp>, n: nat) {
    && |rs| <= n
    && (forall i :: 0 <= i < |rs| ==> !rs[i].TooMany?)
    && (forall i :: 0 <= i < |rs| - 1 ==> !Final(rs[i]))
    && (|rs| < n ==> rs != [] && Final(rs[|rs| - 1]))
  }

  /** How many responses in [from, to) are not 429s. */
  function CountOthers(s: Stream, from: nat, to: nat): nat
    requires from <= to
  {
    if from == to then 0 else CountOthers(s, from, to - 1) + if s.at(to - 1).TooMany? then 0 else 1
  }

  /** One step of Ends and Others. */
  lemma Unfold(s: Stream, p: nat, n: nat)
    requires n > 0
    ensures Ends(s, p, n) <==> AnsweredAfter(s, p) && (Final(s.at(NextOther(s, p))) || Ends(s, NextOther(s, p) + 1, n - 1))
    ensures Ends(s, p, n) ==>
              var q := NextOther(s, p);
              Others(s, p, n) == [s.at(q)] + if Final(s.at(q)) then [] else Others(s, q + 1, n - 1)
  {
    hide Complete;
    hide AnsweredAfter;
    hide Final;
  }

  lemma NothingAsked(s: Stream, p: nat)
    ensures Ends(s, p, 0) && Others(s, p, 0) == []
  {
  }

  /** A 429 in front changes nothing and brings the next answer closer. */
  lemma FloodIsSkipped(s: Stream, p: nat, n: nat)
    requires n > 0 && Ends(s, p, n) && s.at(p).TooMany?
    ensures AnsweredAfter(s, p + 1) && p + 1 <= NextOther(s, p + 1) == NextOther(s, p)
    ensures Ends(s, p + 1, n) && Others(s, p + 1, n) == Others(s, p, n)
    ensures CountOthers(s, p, p + 1) == 0
  {
    hide Ends;
    hide Others;
    hide Complete;
    Unfold(s, p, n);
    Unfold(s, p + 1, n);
    var a := NextOther(s, p);
    assert AnsweredAfter(s, p + 1) by { assert p + 1 <= a; }
    var b := NextOther(s, p + 1);
    assert !s.at(a).TooMany? && !s.at(b).TooMany?;
    assert !(p + 1 <= a < b) && !(p <= b < a);
  }

  lemma AnswerIsNext(s: Stream, p: nat, n: nat)
    requires n > 0 && Ends(s, p, n) && !s.at(p).TooMany?
    ensures Others(s, p, n) == [s.at(p)] + Others(s, p, n)[1..]
    ensures !Final(s.at(p)) ==> Ends(s, p + 1, n - 1) && Others(s, p, n)[1..] == Others(s, p + 1, n - 1)
  {
    hide Ends;
    hide Others;
    hide Complete;
    hide Final;
    Unfold(s, p, n);
    assert NextOther(s, p) == p;
  }

  lemma {:induction false} CountSplit(s: Stream, from: nat, mid: nat, to: nat)
    requires from <= mid <= to
    ensures CountOthers(s, from, to) == CountOthers(s, from, mid) + CountOthers(s, mid, to)
  {
    if mid < to { CountSplit(s, from, mid, to - 1); }
  }

  lemma {:induction false} NoneBetween(s: Stream, from: nat, to: nat)
    requires from <= to && forall k :: from <= k < to ==> s.at(k).TooMany?
    ensures CountOthers(s, from, to) == 0
  {
    if from < to { NoneBetween(s, from, to - 1); }
  }

  /** Is everything over after the answer at `q`? It is final, or the `n`-th that is not a 429. */
  predicate Stops(s: Stream, p: nat, q: nat, n: nat) {
    p <= q && !s.at(q).TooMany? && (Final(s.at(q)) || CountOthers(s, p, q + 1) >= n)
  }

  lemma StopsLater(s: Stream, p: nat, a: nat, q: nat, n: nat)
    requires n > 1 && p <= a && !s.at(a).TooMany? && !Final(s.at(a)) && forall k :: p <= k < a ==> s.at(k).TooMany?
    ensures Stops(s, p, q, n) <==> Stops(s, a + 1, q, n - 1)
  {
    NoneBetween(s, p, a);
    assert CountOthers(s, p, a + 1) == 1;
    if a + 1 <= q + 1 { CountSplit(s, p, a + 1, q + 1); }
  }

  ghost predicate StopsSomewhere(s: Stream, p: nat, n: nat) {
    exists q: nat :: Stops(s, p, q, n)
  }

  /** The loop can come to an end exactly if somewhere from `p` on there is a final answer, or the
      answer that uses up the last attempt. */
  lemma {:induction false} EndsIff(s: Stream, p: nat, n: nat)
    requires n > 0
    ensures Ends(s, p, n) <==> StopsSomewhere(s, p, n)
    decreases n
  {
    hide Stops;
    hide Ends;
    hide AnsweredAfter;
    Unfold(s, p, n);
    if AnsweredAfter(s, p) {
      var a := NextOther(s, p);
      if Final(s.at(a)) || n == 1 {
        NothingAsked(s, a + 1);
        StopsHere(s, p, a, n);
      } else {
        var rest := a + 1;
        EndsIff(s, rest, n - 1);
        if StopsSomewhere(s, p, n) {
          var q: nat :| Stops(s, p, q, n);
          StopsLater(s, p, a, q, n);
        }
        if StopsSomewhere(s, rest, n - 1) {
          var q: nat :| Stops(s, rest, q, n - 1);
          StopsLater(s, p, a, q, n);
        }
      }
    } else {
      StopsNever(s, p, n);
    }
  }

  lemma StopsHere(s: Stream, p: nat, a: nat, n: nat)
    requires p <= a && !s.at(a).TooMany? && (Final(s.at(a)) || n == 1)
    ensures Stops(s, p, a, n)
  {
  }

  lemma StopsNever(s: Stream, p: nat, n: nat)
    requires !AnsweredAfter(s, p)
    ensures forall q: nat :: !Stops(s, p, q, n)
  {
  }

  // ---------- What the loop comes to ----------

  /** The first answer that settles the matter: a success or a Forbidden. */
  function Settled(rs: seq<Resp>): (k: nat)
    ensures k <= |rs| && (k < |rs| ==> rs[k].Ok? || rs[k].Forbidden?)
    ensures forall i :: 0 <= i < k ==> !rs[i].Ok? && !rs[i].Forbidden?
  {
    if rs == [] || rs[0].Ok? || rs[0].Forbidden? then 0 else 1 + Settled(rs[1..])
  }

  /** Sends that use up an attempt. */
  function Used(rs: seq<Resp>): nat {
    if Settled(rs) < |rs| then Settled(rs) + 1 else |rs|
  }

  function Result(rs: seq<Resp>): Outcome {
    var k := Settled(rs);
    if k == |rs| then Exhausted else if rs[k].Forbidden? then Rejected(rs[k].err) else Delivered
  }

  /** The row when the loop is over, read off the five responses that are not 429s. A success adds
      one to the attempts the row shows, which the failures before it, if any, have set. */
  function FinalRow(row: Row, rs: seq<Resp>): Row {
    var k := Settled(rs);
    if k == |rs| then
      row.(status := Failed, attempts := |rs|, nextRetry := None, lastErr := Some(ExhaustedError()))
    else if rs[k].Forbidden? then
      row.(status := Failed, attempts := k + 1, nextRetry := None, lastErr := Some(rs[k].err))
    else if rs[k].Ok? then
      row.(status := Sent, attempts := (if k == 0 then row.attempts else k) + 1, tgMsgId := Some(rs[k].msgId),
           nextRetry := None, lastErr := None)
    else row
  }

  /** The row while `attempt` failures have been recorded. */
  predicate Midway(row: Row, now: Row, attempt: nat) {
    if attempt == 0 then now == row.(lastErr := now.lastErr)
    else now == row.(status := Failed, attempts := attempt, nextRetry := now.nextRetry, lastErr := now.lastErr)
         && now.nextRetry.Some?
  }

  predicate Terminal(c: StoreCall) {
    c.SentCall? || c.PermanentCall?
  }

  /** The row after the answer to one send; `retryAt` is when a failed send will be tried again. */
  function AfterAnswer(row: Row, attempt: nat, r: Resp, retryAt: int): Row {
    match r
    case Ok(msgId) => AsSent(row, msgId)
    case TooMany(_) => AsFlooded(row)
    case Forbidden(err) => AsFailed(row, attempt + 1, None, err)
    case Other(err) => AsFailed(row, attempt + 1, Some(retryAt), err)
  }

  /** The store call that answer leads to. */
  function CallFor(id: nat, attempt: nat, r: Resp): StoreCall {
    match r
    case Ok(_) => SentCall(id)
    case TooMany(_) => FloodCall(id)
    case Forbidden(_) => PermanentCall(id, attempt + 1)
    case Other(_) => FailedCall(id, attempt + 1)
  }

  /** The answer `r` to one send has been written to its row, with exactly one store call. */
  ghost predicate Recorded(rows: seq<Row>, calls: seq<StoreCall>, id: nat, attempt: nat, r: Resp, retryAt: int,
                           rows': seq<Row>, calls': seq<StoreCall>)
  {
    && calls' == calls + [CallFor(id, attempt, r)]
    && rows' == if id < |rows| then rows[id := AfterAnswer(rows[id], attempt, r, retryAt)] else rows
  }

  /** How long the loop waits after the answer to attempt `attempt`. */
  function WaitAfter(attempt: nat, r: Resp): int {
    match r
    case TooMany(retryAfter) => if retryAfter > 0 then retryAfter * 1_000_000_000 else Backoff(attempt)
    case Other(_) => Backoff(attempt)
    case Ok(_) => 0
    case Forbidden(_) => 0
  }

  /** Between two sends the loop has waited as the answer to the first demands. */
  ghost predicate Waits(s: Stream, p0: nat, p: nat, sentAt: seq<int>) {
    && p0 <= p <= |sentAt|
    && forall i :: p0 <= i < p - 1 ==> sentAt[i + 1] >= sentAt[i] + WaitAfter(CountOthers(s, p0, i), s.at(i))
  }

  /** The Bot API as seen from here: one answer per call, when each call was made, and with what. */
  class Sender {
    const responses: Stream
    var pos: nat
    ghost var sentAt: seq<int>
    ghost var messages: seq<Message>

    ghost predicate Valid()
      reads this
    {
      |sentAt| == |messages| == pos
    }

    constructor (responses: Stream)
      ensures Valid() && this.responses == responses && pos == 0
    {
      this.responses, pos, sentAt, messages := responses, 0, [], [];
    }

    method SendMessage(clock: Clock, chatId: int, threadId: int, text: string) returns (r: Resp)
      requires Valid()
      modifies this, clock
      ensures Valid() && r == responses.at(old(pos)) && pos == old(pos) + 1
      ensures sentAt == old(sentAt) + [clock.time] && messages == old(messages) + [Message(chatId, threadId, text)]
      ensures clock.time == old(clock.NextTime()) >= old(clock.time) && clock.calls == old(clock.calls) + 1
    {
      var at := clock.Now();
      sentAt, messages := sentAt + [at], messages + [Message(chatId, threadId, text)];
      r := responses.at(pos);
      pos := pos + 1;
    }
  }

  class TelegramTransport {
    const bot: Sender
    const store: DeliveryTable
    const pace: TokenBucket
    const clock: Clock

    ghost predicate Valid()
      reads this, bot, pace, clock
      ensures Valid() ==> bot.Valid()
    {
      && pace.Valid() && bot.Valid()
      && Paired(pace.takes, bot.sentAt)
      && pace.last <= clock.time
      && (bot.sentAt != [] ==> bot.sentAt[|bot.sentAt| - 1] <= clock.time)
    }

    constructor (bot: Sender, store: DeliveryTable, pace: TokenBucket, clock: Clock)
      requires bot.Valid() && bot.pos == 0 && pace.Valid() && pace.takes == [] && pace.last <= clock.time
      ensures Valid() && this.bot == bot && this.store == store && this.pace == pace && this.clock == clock
    {
      this.bot, this.store, this.pace, this.clock := bot, store, pace, clock;
    }

    /** Coming from `takes` and `sends`, one token was taken at `at`, when the clock was looked at for
        the `calls`-th time, and the send came when it was looked at next. */
    ghost predicate GoesAtOnce(takes: seq<int>, sends: seq<int>, at: int, calls: nat)
      reads bot, pace, clock
    {
      && pace.takes == takes + [at] && pace.last == at
      && bot.sentAt == sends + [clock.time] && clock.time == at + clock.passes(calls + 1) && clock.calls == calls + 2
    }

    /** One paced send of the delivery's text to its chat and thread; a success is recorded at once. */
    method Deliver(d: Delivery) returns (r: Resp)
      requires Valid()
      modifies bot, store, pace, clock
      ensures Valid() && clock.time >= old(clock.time)
      ensures r == bot.responses.at(old(bot.pos)) && bot.pos == old(bot.pos) + 1
      ensures bot.sentAt == old(bot.sentAt) + [clock.time]
      ensures bot.messages == old(bot.messages) + [Message(d.chatId, d.threadId, d.text)]
      ensures |pace.takes| == |old(pace.takes)| + 1
      ensures old(pace.HasToken(clock.NextTime())) ==> GoesAtOnce(old(pace.takes), old(bot.sentAt), old(clock.NextTime()), old(clock.calls))
      ensures old(pace.HasToken(clock.NextTime())) ==>
                pace.current == Refill(old(pace.current), pace.capacity, pace.last - old(pace.last)) - pace.one
      ensures store.calls == old(store.calls) + if r.Ok? then [SentCall(d.rowId)] else []
      ensures store.rows == if r.Ok? && d.rowId < |old(store.rows)| then old(store.rows)[d.rowId := AsSent(old(store.rows)[d.rowId], r.msgId)]
                            else old(store.rows)
    {
      hide Paired;
      hide TokenBucket.Valid;
      ghost var takes, sends, current, last := pace.takes, bot.sentAt, pace.current, pace.last;
      var _ := pace.Take(clock);
      PairedPush(takes, sends, pace.last, clock.NextTime());
      r := bot.SendMessage(clock, d.chatId, d.threadId, d.text);
      if r.Ok? {
        store.MarkDeliverySent(d.rowId, r.msgId);
      }
    }

    /** One round of the loop: send, write the answer to the row, wait if it is to be tried again.
        Besides the wait only the clock's own time goes by; the retry is scheduled for its end. */
    method Attempt(d: Delivery, attempt: nat) returns (r: Resp, retryAt: int)
      requires Valid()
      modifies bot, store, pace, clock
      ensures Valid()
      ensures r == bot.responses.at(old(bot.pos)) && bot.pos == old(bot.pos) + 1
      ensures Recorded(old(store.rows), old(store.calls), d.rowId, attempt, r, retryAt, store.rows, store.calls)
      ensures bot.messages == old(bot.messages) + [Message(d.chatId, d.threadId, d.text)]
      ensures |bot.sentAt| == |old(bot.sentAt)| + 1 && bot.sentAt[..|old(bot.sentAt)|] == old(bot.sentAt)
      ensures old(clock.time) <= bot.sentAt[|bot.sentAt| - 1]
      ensures r.Ok? || r.Forbidden? ==> clock.time == bot.sentAt[|bot.sentAt| - 1]
      ensures r.TooMany? ==>
                && clock.calls >= 1
                && var wait := if r.retryAfter > 0 then r.retryAfter * 1_000_000_000 else Backoff(attempt);
                   clock.time == bot.sentAt[|bot.sentAt| - 1] + clock.passes(clock.calls - 1) + if wait > 0 then wait else 0
      ensures r.Other? ==>
                && clock.calls >= 2
                && var wait, now := Backoff(attempt), bot.sentAt[|bot.sentAt| - 1] + clock.passes(clock.calls - 2);
                   retryAt == now + wait && clock.time == now + clock.passes(clock.calls - 1) + if wait > 0 then wait else 0
    {
      hide Paired;
      hide TokenBucket.Valid;
      hide Backoff;
      hide AfterAnswer;
      r := Deliver(d);
      if r.Ok? {
        RecordedSent(old(store.rows), old(store.calls), d.rowId, attempt, r.msgId, 0);
        return r, 0;
      }
      retryAt := FollowUp(d, attempt, r);
    }

    /** What the loop does after an answer other than a success: write it down, and wait. */
    method FollowUp(d: Delivery, attempt: nat, r: Resp) returns (retryAt: int)
      requires !r.Ok?
      modifies store, clock
      ensures Recorded(old(store.rows), old(store.calls), d.rowId, attempt, r, retryAt, store.rows, store.calls)
      ensures clock.time >= old(clock.time) && clock.calls >= old(clock.calls)
      ensures r.Forbidden? ==> clock.time == old(clock.time)
      ensures r.TooMany? ==>
                && clock.calls >= 1
                && var wait := if r.retryAfter > 0 then r.retryAfter * 1_000_000_000 else Backoff(attempt);
                   clock.time == old(clock.time) + clock.passes(clock.calls - 1) + if wait > 0 then wait else 0
      ensures r.Other? ==>
                && clock.calls >= 2
                && var wait, now := Backoff(attempt), old(clock.time) + clock.passes(clock.calls - 2);
                   retryAt == now + wait && clock.time == now + clock.passes(clock.calls - 1) + if wait > 0 then wait else 0
    {
      hide Backoff;
      retryAt := 0;
      match r
      case TooMany(retryAfter) =>
        store.DeliveryRetry429(d.rowId);
        var wait := retryAfter * 1_000_000_000;
        if wait <= 0 {
          wait := Backoff(attempt);
        }
        clock.Sleep(wait);
      case Forbidden(err) =>
        store.FailDeliveryPermanently(d.rowId, attempt + 1, err);
      case Other(err) =>
        retryAt := clock.Now();
        retryAt := retryAt + Backoff(attempt);
        store.MarkDeliveryFailed(d.rowId, attempt + 1, Some(retryAt), err);
        clock.Sleep(Backoff(attempt));
    }

    /** The retry loop: every send is paced and carries the delivery's text to its chat and thread, the
        waits in between are kept, and whatever the answers are it comes to Delivers. It asks for the
        least under which the loop ends at all, see EndsIff. */
    method DeliverWithRetry(d: Delivery) returns (o: Outcome)
      requires Valid() && Ends(bot.responses, bot.pos, MAX_ATTEMPTS)
      modifies bot, store, pace, clock
      ensures Valid()
      ensures Delivers(bot.responses, old(bot.pos), bot.pos, d.rowId, old(store.rows), store.rows, o)
      ensures EndsOnce(old(store.calls), store.calls)
      ensures old(bot.messages) <= bot.messages
      ensures forall i :: old(bot.pos) <= i < bot.pos ==> bot.messages[i] == Message(d.chatId, d.threadId, d.text)
      ensures Waits(bot.responses, old(bot.pos), bot.pos, bot.sentAt)
    {
      hide *;
      ghost var p0, rows0, calls0, s := bot.pos, store.rows, store.calls, bot.responses;
      ghost var row, id := RowOr(rows0, d.rowId), d.rowId;
      StartFacts(s, p0, id, rows0, calls0);
      SenderFacts(bot);
      NothingWaited(s, p0, bot.sentAt);
      var attempt: nat := 0;
      while attempt < MAX_ATTEMPTS
        invariant Valid() && |bot.sentAt| == |bot.messages| == bot.pos >= p0
        invariant Underway(s, p0, bot.pos, id, rows0, store.rows, row, attempt, calls0, store.calls)
        invariant attempt < MAX_ATTEMPTS ==> AnsweredAfter(s, bot.pos)
        invariant old(bot.messages) <= bot.messages
        invariant forall i :: p0 <= i < bot.pos ==> bot.messages[i] == Message(d.chatId, d.threadId, d.text)
        invariant Waits(s, p0, bot.pos, bot.sentAt)
        invariant p0 < bot.pos ==> clock.time >= bot.sentAt[bot.pos - 1] + WaitAfter(CountOthers(s, p0, bot.pos - 1), s.at(bot.pos - 1))
        decreases MAX_ATTEMPTS - attempt, if attempt < MAX_ATTEMPTS then NextOther(s, bot.pos) - bot.pos else 0
      {
        ghost var p, rows, calls, sentAt := bot.pos, store.rows, store.calls, bot.sentAt;
        var r, retryAt := Attempt(d, attempt);
        RoundFacts(s, p0, p, id, rows0, rows, row, attempt, calls0, calls, r, retryAt, store.rows, store.calls);
        SenderFacts(bot);
        WaitedOnce(s, p0, p, sentAt, bot.sentAt);
        WaitOf(attempt, r);
        row := AfterAnswer(row, attempt, r, retryAt);
        match r
        case Ok(_) => return Delivered;
        case TooMany(_) =>
        case Forbidden(err) => return Rejected(err);
        case Other(_) => attempt := attempt + 1;
      }
      GiveUpFacts(s, p0, bot.pos, id, rows0, store.rows, row, attempt, calls0, store.calls);
      store.FailDeliveryPermanently(d.rowId, MAX_ATTEMPTS, ExhaustedError());
      return Exhausted;
    }
  }

  lemma RecordedSent(rows: seq<Row>, calls: seq<StoreCall>, id: nat, attempt: nat, msgId: int, retryAt: int)
    ensures Recorded(rows, calls, id, attempt, Ok(msgId), retryAt,
                     if id < |rows| then rows[id := AsSent(rows[id], msgId)] else rows, calls + [SentCall(id)])
  {
  }

  lemma PairedPush(takes: seq<int>, sends: seq<int>, take: int, send: int)
    requires Paired(takes, sends) && take <= send && (sends != [] ==> sends[|sends| - 1] <= take)
    ensures Paired(takes + [take], sends + [send])
  {
  }

  lemma SenderFacts(bot: Sender)
    requires bot.Valid()
    ensures |bot.sentAt| == |bot.messages| == bot.pos
  {
  }

  lemma NothingWaited(s: Stream, p: nat, sentAt: seq<int>)
    requires p == |sentAt|
    ensures Waits(s, p, p, sentAt)
  {
  }

  /** One more send, made no earlier than the wait after the last one was over. */
  lemma WaitedOnce(s: Stream, p0: nat, p: nat, sentAt: seq<int>, sentAt': seq<int>)
    requires Waits(s, p0, p, sentAt) && |sentAt| == p && |sentAt'| == p + 1 && sentAt'[..p] == sentAt
    requires p0 < p ==> sentAt'[p] >= sentAt[p - 1] + WaitAfter(CountOthers(s, p0, p - 1), s.at(p - 1))
    ensures Waits(s, p0, p + 1, sentAt')
  {
    hide WaitAfter;
    hide CountOthers;
    assert forall i :: 0 <= i < p ==> sentAt'[i] == sentAt'[..p][i];
  }

  lemma WaitOf(attempt: nat, r: Resp)
    ensures r.TooMany? ==> WaitAfter(attempt, r) == if r.retryAfter > 0 then r.retryAfter * 1_000_000_000 else Backoff(attempt)
    ensures r.Other? ==> WaitAfter(attempt, r) == Backoff(attempt)
  {
  }

  function RowOr(rows: seq<Row>, id: nat): Row {
    if id < |rows| then rows[id] else NewRow(0, "", "", "", 0, 0)
  }

  /** From position `p0` to `p` of the answers: the outcome and the final row depend on the first
      five answers that are not 429s and on nothing else, no other row is touched, and every send
      that is not answered 429 is an attempt. */
  ghost predicate Delivers(s: Stream, p0: nat, p: nat, id: nat, rows0: seq<Row>, rows: seq<Row>, o: Outcome) {
    && Ends(s, p0, MAX_ATTEMPTS) && p0 < p
    && var rs := Others(s, p0, MAX_ATTEMPTS);
       && o == Result(rs)
       && rows == UpdateRow(rows0, id, FinalRow(RowOr(rows0, id), rs))
       && CountOthers(s, p0, p) == Used(rs)
  }

  /** The store is told of the end of the delivery exactly once, and last. */
  ghost predicate EndsOnce(calls0: seq<StoreCall>, calls: seq<StoreCall>) {
    && |calls0| < |calls| && calls0 <= calls
    && forall i :: |calls0| <= i < |calls| ==> (Terminal(calls[i]) <==> i == |calls| - 1)
  }

  /** The loop invariant. */
  ghost predicate Underway(s: Stream, p0: nat, p: nat, id: nat, rows0: seq<Row>, rows: seq<Row>, row: Row, attempt: nat,
                           calls0: seq<StoreCall>, calls: seq<StoreCall>)
  {
    && Ends(s, p0, MAX_ATTEMPTS) && p0 <= p && attempt <= |Others(s, p0, MAX_ATTEMPTS)| && (attempt > 0 ==> p0 < p)
    && Ends(s, p, MAX_ATTEMPTS - attempt)
    && Others(s, p, MAX_ATTEMPTS - attempt) == Others(s, p0, MAX_ATTEMPTS)[attempt..]
    && (forall i :: 0 <= i < attempt ==> Others(s, p0, MAX_ATTEMPTS)[i].Other?)
    && CountOthers(s, p0, p) == attempt
    && rows == UpdateRow(rows0, id, row) && Midway(RowOr(rows0, id), row, attempt)
    && calls0 <= calls && forall i :: |calls0| <= i < |calls| ==> !Terminal(calls[i])
  }

  lemma StartFacts(s: Stream, p: nat, id: nat, rows: seq<Row>, calls: seq<StoreCall>)
    requires Ends(s, p, MAX_ATTEMPTS)
    ensures Underway(s, p, p, id, rows, rows, RowOr(rows, id), 0, calls, calls) && AnsweredAfter(s, p)
  {
    assert Others(s, p, MAX_ATTEMPTS) == Others(s, p, MAX_ATTEMPTS)[0..];
  }

  /** What one more response does to the responses still to come. */
  lemma StreamFacts(s: Stream, p0: nat, p: nat, rs: seq<Resp>, attempt: nat)
    requires p0 <= p && attempt <= |rs| <= MAX_ATTEMPTS && attempt < MAX_ATTEMPTS
    requires Ends(s, p, MAX_ATTEMPTS - attempt)
    requires CountOthers(s, p0, p) == attempt && Others(s, p, MAX_ATTEMPTS - attempt) == rs[attempt..]
    ensures attempt < |rs| && AnsweredAfter(s, p)
    ensures CountOthers(s, p0, p + 1) == attempt + if s.at(p).TooMany? then 0 else 1
    ensures s.at(p).TooMany? ==>
              && Ends(s, p + 1, MAX_ATTEMPTS - attempt) && Others(s, p + 1, MAX_ATTEMPTS - attempt) == rs[attempt..]
              && AnsweredAfter(s, p + 1) && p + 1 <= NextOther(s, p + 1) == NextOther(s, p)
    ensures !s.at(p).TooMany? ==> rs[attempt] == s.at(p)
    ensures s.at(p).Other? ==>
              && Ends(s, p + 1, MAX_ATTEMPTS - attempt - 1)
              && Others(s, p + 1, MAX_ATTEMPTS - attempt - 1) == rs[attempt + 1..]
              && (attempt + 1 < MAX_ATTEMPTS ==> AnsweredAfter(s, p + 1))
  {
    hide Ends;
    hide Others;
    hide Complete;
    OthersFacts(s, p, MAX_ATTEMPTS - attempt);
    if s.at(p).TooMany? {
      FloodIsSkipped(s, p, MAX_ATTEMPTS - attempt);
    } else {
      AnswerIsNext(s, p, MAX_ATTEMPTS - attempt);
      assert rs[attempt..][1..] == rs[attempt + 1..];
      if s.at(p).Other? && attempt + 1 < MAX_ATTEMPTS { OthersFacts(s, p + 1, MAX_ATTEMPTS - attempt - 1); }
    }
  }

  lemma OthersFacts(s: Stream, p: nat, n: nat)
    requires n > 0 && Ends(s, p, n)
    ensures AnsweredAfter(s, p) && Others(s, p, n) != []
  {
  }

  /** What one more response does to the row, and what it means if it settles the matter. */
  lemma RowFacts(row0: Row, row: Row, rs: seq<Resp>, attempt: nat, r: Resp, retryAt: int)
    requires Midway(row0, row, attempt) && attempt < |rs| && forall i :: 0 <= i < attempt ==> rs[i].Other?
    ensures r.TooMany? ==> Midway(row0, AfterAnswer(row, attempt, r, retryAt), attempt)
    ensures r.Other? ==> Midway(row0, AfterAnswer(row, attempt, r, retryAt), attempt + 1)
    ensures (r.Ok? || r.Forbidden?) && r == rs[attempt] ==>
              && AfterAnswer(row, attempt, r, retryAt) == FinalRow(row0, rs) && Used(rs) == attempt + 1
              && Result(rs) == if r.Ok? then Delivered else Rejected(r.err)
  {
    if (r.Ok? || r.Forbidden?) && r == rs[attempt] {
      SettledAt(rs, attempt);
    }
  }

  lemma RoundFacts(s: Stream, p0: nat, p: nat, id: nat, rows0: seq<Row>, rows: seq<Row>, row: Row, attempt: nat,
                   calls0: seq<StoreCall>, calls: seq<StoreCall>, r: Resp, retryAt: int, rows': seq<Row>, calls': seq<StoreCall>)
    requires Underway(s, p0, p, id, rows0, rows, row, attempt, calls0, calls) && attempt < MAX_ATTEMPTS
    requires r == s.at(p) && Recorded(rows, calls, id, attempt, r, retryAt, rows', calls')
    ensures AnsweredAfter(s, p) && CountOthers(s, p0, p) == attempt
    ensures r.TooMany? ==> Underway(s, p0, p + 1, id, rows0, rows', AfterAnswer(row, attempt, r, retryAt), attempt, calls0, calls')
                           && AnsweredAfter(s, p + 1) && p + 1 <= NextOther(s, p + 1) == NextOther(s, p)
    ensures r.Other? ==> Underway(s, p0, p + 1, id, rows0, rows', AfterAnswer(row, attempt, r, retryAt), attempt + 1, calls0, calls')
                         && (attempt + 1 < MAX_ATTEMPTS ==> AnsweredAfter(s, p + 1))
    ensures r.Ok? ==> Delivers(s, p0, p + 1, id, rows0, rows', Delivered) && EndsOnce(calls0, calls')
    ensures r.Forbidden? ==> Delivers(s, p0, p + 1, id, rows0, rows', Rejected(r.err)) && EndsOnce(calls0, calls')
  {
    hide Others;
    hide NextOther;
    hide Ends;
    hide AnsweredAfter;
    hide CountOthers;
    hide Midway;
    hide FinalRow;
    hide AfterAnswer;
    hide Result;
    hide Used;
    var rs := Others(s, p0, MAX_ATTEMPTS);
    StreamFacts(s, p0, p, rs, attempt);
    RowFacts(RowOr(rows0, id), row, rs, attempt, r, retryAt);
    assert rows' == UpdateRow(rows0, id, AfterAnswer(row, attempt, r, retryAt));
  }

  lemma GiveUpFacts(s: Stream, p0: nat, p: nat, id: nat, rows0: seq<Row>, rows: seq<Row>, row: Row, attempt: nat,
                    calls0: seq<StoreCall>, calls: seq<StoreCall>)
    requires Underway(s, p0, p, id, rows0, rows, row, attempt, calls0, calls) && attempt >= MAX_ATTEMPTS
    ensures var rows' := if id < |rows| then rows[id := AsFailed(rows[id], MAX_ATTEMPTS, None, ExhaustedError())] else rows;
            Delivers(s, p0, p, id, rows0, rows', Exhausted) && EndsOnce(calls0, calls + [PermanentCall(id, MAX_ATTEMPTS)])
  {
    hide Others;
    hide Ends;
    hide CountOthers;
    SettledNever(Others(s, p0, MAX_ATTEMPTS));
  }

  lemma {:induction false} SettledAt(rs: seq<Resp>, k: nat)
    requires k < |rs| && (rs[k].Ok? || rs[k].Forbidden?) && forall i :: 0 <= i < k ==> rs[i].Other?
    ensures Settled(rs) == k
  {
    var m := Settled(rs);
    assert !(k < m) && !(m < k);
  }

  lemma SettledNever(rs: seq<Resp>)
    requires forall i :: 0 <= i < |rs| ==> rs[i].Other?
    ensures Settled(rs) == |rs|
  {
  }

  // ---------- What follows ----------

  /** `t` is `s` with `k` extra 429s in front of position `at`. */
  ghost predicate Flooded(s: Stream, t: Stream, at: nat, k: nat) {
    && (forall i: nat :: i < at ==> t.at(i) == s.at(i))
    && (forall i: nat :: at <= i < at + k ==> t.at(i).TooMany?)
    && forall i: nat :: at + k <= i ==> t.at(i) == s.at(i - k)
  }

  lemma {:induction false} FloodedOthers(s: Stream, t: Stream, at: nat, k: nat, p: nat, p': nat, n: nat)
    requires Ends(s, p, n) && Flooded(s, t, at, k)
    requires (p' == p && p <= at) || (p' == p + k && p >= at)
    ensures Ends(t, p', n) && Others(t, p', n) == Others(s, p, n)
    decreases n
  {
    hide Flooded;
    hide NextOther;
    hide AnsweredAfter;
    hide Complete;
    hide Final;
    hide Ends;
    hide Others;
    if n > 0 {
      Unfold(s, p, n);
      Unfold(t, p', n);
      var q := NextOther(s, p);
      var q' := if q < at then q else q + k;
      FloodedNext(s, t, at, k, p, p', q, q');
      if !Final(s.at(q)) {
        FloodedOthers(s, t, at, k, q + 1, q' + 1, n - 1);
      }
    } else {
      NothingAsked(s, p);
      NothingAsked(t, p');
    }
  }

  lemma FloodedNext(s: Stream, t: Stream, at: nat, k: nat, p: nat, p': nat, q: nat, q': nat)
    requires AnsweredAfter(s, p) && Flooded(s, t, at, k) && q == NextOther(s, p)
    requires (p' == p && p <= at) || (p' == p + k && p >= at)
    requires q' == if q < at then q else q + k
    ensures AnsweredAfter(t, p') && NextOther(t, p') == q' && t.at(q') == s.at(q)
  {
    assert t.at(q') == s.at(q) && p' <= q';
    assert AnsweredAfter(t, p');
    var m := NextOther(t, p');
    assert !t.at(m).TooMany?;
    forall i: nat | p' <= i < q'
      ensures t.at(i).TooMany?
    {
      if i < at { assert s.at(i).TooMany?; } else if i >= at + k { assert s.at(i - k).TooMany?; }
    }
    assert !(p' <= m < q') && !(p' <= q' < m);
  }

  /** Flood answers are invisible: however many 429s are inserted anywhere, the outcome and the
      final row of the delivery are the same. */
  lemma FloodsChangeNothing(s: Stream, t: Stream, at: nat, k: nat, p0: nat, ps: nat, pt: nat, id: nat,
                            rows0: seq<Row>, rowsS: seq<Row>, rowsT: seq<Row>, os: Outcome, ot: Outcome)
    requires Flooded(s, t, at, k) && p0 <= at
    requires Delivers(s, p0, ps, id, rows0, rowsS, os) && Delivers(t, p0, pt, id, rows0, rowsT, ot)
    ensures os == ot && rowsS == rowsT
  {
    FloodedOthers(s, t, at, k, p0, p0, MAX_ATTEMPTS);
  }

  /** A fresh row ends up sent or permanently failed, with the number of attempts really made, at
      most five, and nothing scheduled; it is given up for good after five failures or one Forbidden.
      On the way a failed row always has its retry scheduled. */
  lemma FreshRowBookkeeping(row: Row, rs: seq<Resp>, now: Row, attempt: nat)
    requires row.status == Pending && row.attempts == 0 && Complete(rs, MAX_ATTEMPTS)
    ensures var r := FinalRow(row, rs);
            && rs != [] && r.attempts == Used(rs) == |rs| <= 5
            && r == row.(status := r.status, attempts := |rs|, tgMsgId := r.tgMsgId, nextRetry := None, lastErr := r.lastErr)
            && var last := rs[|rs| - 1];
               && (Result(rs) == Exhausted <==> last.Other?) && (last.Other? ==> |rs| == 5)
               && (last.Ok? ==> Result(rs) == Delivered && r.status == Sent && r.tgMsgId == Some(last.msgId) && r.lastErr == None)
               && (last.Forbidden? ==> Result(rs) == Rejected(last.err) && r.lastErr == Some(last.err))
               && (last.Other? ==> r.lastErr == Some("retries exhausted"))
               && (!last.Ok? ==> r.status == Failed && r.tgMsgId == row.tgMsgId)
    ensures Midway(row, now, attempt) ==> now.status != Sent && now.attempts == attempt
                                          && (now.status == Failed ==> now.nextRetry.Some?)
  {
    var last := rs[|rs| - 1];
    if last.Ok? || last.Forbidden? {
      SettledAt(rs, |rs| - 1);
    } else {
      SettledNever(rs);
    }
  }

  /** What each answer writes to the row: nothing but these columns. */
  lemma AnswerWrites(row: Row, attempt: nat, r: Resp, retryAt: int)
    ensures var now := AfterAnswer(row, attempt, r, retryAt);
            && now == row.(status := now.status, attempts := now.attempts, tgMsgId := now.tgMsgId, nextRetry := now.nextRetry, lastErr := now.lastErr)
            && (r.TooMany? ==> now == row.(lastErr := Some("flood limit")))
            && (r.Ok? ==> now.status == Sent && now.attempts == row.attempts + 1 && now.tgMsgId == Some(r.msgId))
            && (r.Ok? ==> now.nextRetry == None && now.lastErr == None)
            && (r.Forbidden? || r.Other? ==> now.status == Failed && now.attempts == attempt + 1 && now.tgMsgId == row.tgMsgId)
            && (r.Forbidden? ==> now.lastErr == Some(r.err) && now.nextRetry == None)
            && (r.Other? ==> now.lastErr == Some(r.err) && now.nextRetry == Some(retryAt))
  {
  }

  /** Every send the transport ever made obeys the token bucket, up to the lateness of the first one
      after its take; with no lateness the bucket's own bound holds at the sends. */
  lemma SendsObeyBucket(t: TelegramTransport, i: nat, j: nat)
    requires t.Valid() && i <= j < |t.bot.sentAt|
    ensures |t.pace.takes| == |t.bot.sentAt| && t.pace.takes[i] <= t.bot.sentAt[i]
    ensures var one, sends, late := t.pace.one, t.bot.sentAt, t.bot.sentAt[i] - t.pace.takes[i];
            && (j - i + 1) * one <= t.pace.capacity + (sends[j] - sends[i]) + late
            && (late == 0 ==> (j - i + 1) * one <= t.pace.capacity + (sends[j] - sends[i]))
            && (j - i) * one <= t.pace.capacity + (sends[j] - sends[i])
  {
    hide Level;
    hide Feasible;
    SendsArePaced(t.pace.capacity, t.pace.one, t.pace.start, t.pace.takes, t.bot.sentAt, i, j);
    LatenessCostsOneToken(t.pace.capacity, t.pace.one, t.pace.start, t.pace.takes, t.bot.sentAt, i, j);
  }

  function Sample(): Delivery {
    Delivery(0, 7, 7, 0, "hello", "gomail")
  }

  /** While the clock stands still and there are tokens, sends follow their takes at once. */
  method SendTogether(t: TelegramTransport, n: nat, at: int)
    requires t.Valid() && t.clock.time == at
    requires forall call :: t.clock.calls <= call < t.clock.calls + 2 * n ==> t.clock.passes(call) == 0
    requires n * t.pace.one <= Refill(t.pace.current, t.pace.capacity, at - t.pace.last) <= t.pace.capacity
    modifies t.bot, t.store, t.pace, t.clock
    ensures t.Valid() && t.clock.time == at && t.clock.calls == old(t.clock.calls) + 2 * n
    ensures t.pace.takes == old(t.pace.takes) + seq(n, _ => at) && t.bot.sentAt == old(t.bot.sentAt) + seq(n, _ => at)
    ensures Refill(t.pace.current, t.pace.capacity, at - t.pace.last)
            == old(Refill(t.pace.current, t.pace.capacity, at - t.pace.last)) - n * t.pace.one
  {
    hide Paired;
    hide TokenBucket.Valid;
    ghost var takes, sends, level := t.pace.takes, t.bot.sentAt, Refill(t.pace.current, t.pace.capacity, at - t.pace.last);
    var i := 0;
    while i < n
      invariant i <= n && t.Valid() && t.clock.time == at && t.clock.calls == old(t.clock.calls) + 2 * i
      invariant t.pace.takes == takes + seq(i, _ => at) && t.bot.sentAt == sends + seq(i, _ => at)
      invariant Refill(t.pace.current, t.pace.capacity, at - t.pace.last) == level - i * t.pace.one
    {
      Share(i + 1, n, t.pace.one);
      var _ := t.Deliver(Sample());
      i := i + 1;
    }
  }

  lemma Share(i: nat, n: nat, one: int)
    requires i <= n && 0 <= one
    ensures i * one <= n * one && i * one == (i - 1) * one + one
  {
    assert (n - i) * one >= 0;
  }

  /** A transport with the production bucket whose first send came `late` after its take. The clock then
      stands still for 29 sends, and lets `rest` go by before the next take. */
  method OneLate(late: nat, rest: nat) returns (t: TelegramTransport)
    ensures t.Valid() && fresh(t.bot) && fresh(t.store) && fresh(t.pace) && fresh(t.clock)
    ensures t.pace.takes == [0] && t.bot.sentAt == [late] && t.clock.time == late && t.clock.calls == 2
    ensures t.pace.one == ONE && t.pace.capacity == 30 * ONE && t.pace.current == 29 * ONE && t.pace.last == 0
    ensures (forall call :: 2 <= call < 60 ==> t.clock.passes(call) == 0) && t.clock.passes(60) == rest && t.clock.passes(61) == 0
  {
    hide Paired;
    var clock := new Clock((call: nat) => if call == 1 then late else if call == 60 then rest else 0);
    var pace := new TokenBucket(30, ONE, 0);
    assert pace.current == 30 * ONE;
    var bot := new Sender(Stream((p: nat) => Ok(p)));
    var table := new DeliveryTable();
    t := new TelegramTransport(bot, table, pace, clock);
    hide TokenBucket.Valid;
    var _ := t.Deliver(Sample());
  }

  /** Such a transport breaks the bucket's own bound at its 31 sends: any lateness at all is enough, and
      one of a token's refill or more makes all of them coincide. */
  method LateFirstSend(late: nat) returns (t: TelegramTransport)
    requires late > 0
    ensures t.Valid() && |t.bot.sentAt| == 31 == |t.pace.takes| && t.pace.one == ONE && t.pace.capacity == 30 * ONE
    ensures t.bot.sentAt[0] - t.pace.takes[0] == late
    ensures 31 * t.pace.one > t.pace.capacity + (t.bot.sentAt[30] - t.bot.sentAt[0])
    ensures late >= ONE ==> t.bot.sentAt[30] == t.bot.sentAt[0]
  {
    hide TelegramTransport.Valid;
    t := OneLate(late, if late < ONE then ONE - late else 0);
    SendTogether(t, 29, late);
    ghost var takes, sends := t.pace.takes, t.bot.sentAt;
    assert |sends| == 30 && sends[0] == late && takes[0] == 0;
    var _ := t.Deliver(Sample());
    assert t.bot.sentAt[0] == sends[0] && t.pace.takes[0] == takes[0];
  }

  const ONE: int := 2_000_000_000

  lemma {:induction false} Pow2Doubles(m: nat, n: nat)
    requires m <= n
    ensures Pow2(m) <= Pow2(n)
  {
    if m < n { Pow2Doubles(m, n - 1); }
  }

  lemma Pow2Values()
    ensures Pow2(5) == 32 && Pow2(6) == 64 && Pow2(30) == 0x4000_0000 && Pow2(31) == 0x8000_0000
  {
    assert Pow2(10) == 1024;
    assert Pow2(20) == 1024 * 1024;
    assert Pow2(30) == 1024 * 1024 * 1024;
  }

  lemma {:induction false} Pow2Add(m: nat, n: nat)
    ensures Pow2(m + n) == Pow2(m) * Pow2(n)
  {
    if m > 0 { Pow2Add(m - 1, n); }
  }

  const FIVE_TO_TEN: nat := 9_765_625

  /** Five seconds doubled up to five minutes. */
  function CappedDoubling(n: nat): int {
    var d := 5_000_000_000 * Pow2(n);
    if d > FIVE_MINUTES then FIVE_MINUTES else d
  }

  lemma Wrapped(u: nat, r: int)
    ensures 0 <= r < 0x8000_0000_0000_0000 ==> Wrap64(u * 0x1_0000_0000_0000_0000 + r) == r
    ensures 0x8000_0000_0000_0000 <= r < 0x1_0000_0000_0000_0000 ==> Wrap64(u * 0x1_0000_0000_0000_0000 + r) < 0
  {
  }

  /** `FIVE_TO_TEN` shifted left past the 64th bit loses its upper part: with `p` and `h` the powers of
      two below and above the cut, what is left of it is the sign from `q` and the rest from `r`. */
  lemma ShiftedOut(p: nat, h: nat, q: nat, r: nat)
    requires p * h == 0x8000_0000_0000_0000 && FIVE_TO_TEN == q * p + r && r < p
    ensures r * h < 0x8000_0000_0000_0000
    ensures FIVE_TO_TEN * h == q * 0x8000_0000_0000_0000 + r * h
    ensures q % 2 == 0 ==> Wrap64(FIVE_TO_TEN * h) == r * h
    ensures q % 2 == 1 ==> Wrap64(FIVE_TO_TEN * h) < 0
  {
    assert (q * p + r) * h == q * (p * h) + r * h;
    assert (r + 1) * h <= p * h;
    assert h > 0;
    if q % 2 == 0 {
      Wrapped(q / 2, r * h);
    } else {
      Wrapped(q / 2, 0x8000_0000_0000_0000 + r * h);
    }
  }

  lemma ProductAsShift(n: nat)
    ensures 5_000_000_000 * Pow2(n) == FIVE_TO_TEN * Pow2(n + 9) && Pow2(n) >= 1
  {
    Pow2Add(n, 9);
    assert Pow2(9) == 512;
    Pow2Doubles(0, n);
  }

  lemma TooFar(n: nat)
    requires n >= 55
    ensures Backoff(n) == 0 < CappedDoubling(n) && LosesCap(n)
  {
    hide Pow2;
    ProductAsShift(n);
    Pow2Add(64, n - 55);
    Pow2Big();
    assert n + 9 == 64 + (n - 55);
    assert FIVE_TO_TEN * (0x1_0000_0000_0000_0000 * Pow2(n - 55)) == (FIVE_TO_TEN * Pow2(n - 55)) * 0x1_0000_0000_0000_0000;
    Wrapped(FIVE_TO_TEN * Pow2(n - 55), 0);
  }

  lemma Pow2Big()
    ensures Pow2(63) == 0x8000_0000_0000_0000 && Pow2(64) == 0x1_0000_0000_0000_0000
    ensures Pow2(24) == 0x100_0000 && Pow2(31) == 0x8000_0000 && Pow2(40) == 0x100_0000_0000 && Pow2(0) == 1
  {
    Pow2Values();
    Pow2Add(31, 31);
    assert Pow2(62) == 0x8000_0000 * 0x8000_0000;
    Pow2Add(6, 18);
    Pow2Add(6, 12);
    Pow2Add(6, 6);
    Pow2Add(31, 9);
    assert Pow2(9) == 512;
  }

  /** Is the bit of 5^10 that the shift by `n` moves to the sign set, or has everything gone? */
  predicate LosesCap(n: nat) {
    n > 54 || FIVE_TO_TEN / Pow2(54 - n) % 2 == 1
  }

  /** The 64-bit wait is five seconds doubled up to five minutes exactly for the attempts where the
      product does not turn negative or zero. The loop only uses 0 to 4, where nothing is cut. */
  lemma BackoffIsCappedDoublingIff(n: nat)
    ensures Backoff(n) == CappedDoubling(n) <==> !LosesCap(n)
    ensures LosesCap(n) ==> Backoff(n) <= 0 < CappedDoubling(n)
    ensures n <= 30 ==> !LosesCap(n)
    ensures n < MAX_ATTEMPTS ==> Backoff(n) == 5_000_000_000 * Pow2(n)
  {
    hide Pow2;
    hide Backoff;
    hide CappedDoubling;
    hide LosesCap;
    if n >= 55 {
      TooFar(n);
    } else if n <= 30 {
      CutsNothing(n);
    } else {
      CutsSome(n);
    }
  }

  /** The waits that occur, and where the cap sets in. */
  lemma BackoffValues()
    ensures Backoff(0) == 5_000_000_000 && Backoff(1) == 10_000_000_000 && Backoff(2) == 20_000_000_000
    ensures Backoff(3) == 40_000_000_000 && Backoff(4) == 80_000_000_000 && Backoff(5) == 160_000_000_000
    ensures forall n :: 6 <= n <= 30 ==> Backoff(n) == 300_000_000_000
  {
    hide Backoff;
    Pow2Values();
    forall n: nat | n <= 30
      ensures Backoff(n) == CappedDoubling(n)
    {
      BackoffIsCappedDoublingIff(n);
    }
    forall n: nat | 6 <= n
      ensures Pow2(n) >= 64
    {
      Pow2Doubles(6, n);
    }
  }

  lemma CutParts(n: nat, p: nat, h: nat, q: nat, r: nat)
    requires n <= 54 && p == Pow2(54 - n) && h == Pow2(n + 9) && q == FIVE_TO_TEN / p && r == FIVE_TO_TEN % p
    ensures FIVE_TO_TEN * h == 5_000_000_000 * Pow2(n) && Pow2(n) >= 1
    ensures q % 2 == 0 ==> Wrap64(5_000_000_000 * Pow2(n)) == r * h
    ensures q % 2 == 1 ==> Wrap64(5_000_000_000 * Pow2(n)) < 0
  {
    hide Pow2;
    hide Wrap64;
    ProductAsShift(n);
    Pow2Add(54 - n, n + 9);
    Pow2Big();
    ShiftedOut(p, h, q, r);
  }

  lemma CutsNothing(n: nat)
    requires n <= 30
    ensures Backoff(n) == CappedDoubling(n) && !LosesCap(n)
    ensures n < MAX_ATTEMPTS ==> Backoff(n) == 5_000_000_000 * Pow2(n)
  {
    hide Pow2;
    hide Wrap64;
    var p, h := Pow2(54 - n), Pow2(n + 9);
    var q, r := FIVE_TO_TEN / p, FIVE_TO_TEN % p;
    CutParts(n, p, h, q, r);
    Pow2Big();
    Pow2Doubles(24, 54 - n);
    NothingCut(p, q, r);
    if n < MAX_ATTEMPTS { SmallPowers(n); }
  }

  lemma CutsSome(n: nat)
    requires 31 <= n <= 54
    ensures Backoff(n) == CappedDoubling(n) <==> !LosesCap(n)
    ensures LosesCap(n) ==> Backoff(n) <= 0 < CappedDoubling(n)
  {
    hide Pow2;
    hide Wrap64;
    var p, h := Pow2(54 - n), Pow2(n + 9);
    var q, r := FIVE_TO_TEN / p, FIVE_TO_TEN % p;
    CutParts(n, p, h, q, r);
    Pow2Big();
    Pow2Doubles(31, n);
    Pow2Doubles(40, n + 9);
    if n < 54 { EvenPower(54 - n); }
    RestIsLong(p, h, q, r);
  }

  lemma NothingCut(p: nat, q: nat, r: nat)
    requires p > FIVE_TO_TEN && q == FIVE_TO_TEN / p && r == FIVE_TO_TEN % p
    ensures q == 0 && r == FIVE_TO_TEN
  {
  }

  lemma SmallPowers(n: nat)
    requires n < MAX_ATTEMPTS
    ensures Pow2(n) <= 16
  {
    assert Pow2(4) == 16;
    Pow2Doubles(n, 4);
  }

  lemma EvenPower(m: nat)
    requires m > 0
    ensures Pow2(m) % 2 == 0
  {
  }

  /** 5^10 is odd, so a rest is left over whenever the sign bit is not set. */
  lemma RestIsLong(p: nat, h: nat, q: nat, r: nat)
    requires p > 0 && q == FIVE_TO_TEN / p && r == FIVE_TO_TEN % p && (p == 1 || p % 2 == 0) && h >= 0x100_0000_0000
    ensures q % 2 == 0 ==> r * h > FIVE_MINUTES
  {
    if q % 2 == 0 {
      assert FIVE_TO_TEN == q * p + r;
      assert q * p == (q / 2 * p) * 2;
      assert r >= 1;
      assert r * h >= h;
    }
  }
}
