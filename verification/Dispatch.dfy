/** From a flushed batch to a delivery: where it goes, its row, its place in the queue; and the names
    of topics made on the way. */
module Dispatch {
  import opened Coalesce
  import opened Deliveries
  import opened Tables
  import Store
  import StoreRuns
  import Egress
  import Transport
  import Topic

  datatype Destination = Destination(chat: int, thread: int)

  /** The bound group and the topic on record there, else the chat with the user. */
  function DestinationOf(db: Db, u: int, s: string): Destination {
    if InGroup(db, u) then Destination(ChatOf(db, u), if (u, s) in db.topics then db.topics[(u, s)].threadId else 0)
    else Destination(u, 0)
  }

  /** What a flush does to rows and queue: one submission, or nothing when the batch is empty or its
      user has no row. */
  function SubmissionFor(db: Db, key: Key, items: seq<Item>, text: string): Option<Egress.Step> {
    if items == [] || items[0].userId !in db.users then None
    else
      var u := items[0].userId;
      var to := DestinationOf(db, u, key.service);
      Some(Egress.Submit(u, to.chat, to.thread, items[0].eventId, key.service, key.typ, |items|, text))
  }

  class BatchFlusher {
    const store: Store.Store
    const table: DeliveryTable
    const queue: Egress.Queue

    constructor (store: Store.Store, table: DeliveryTable, queue: Egress.Queue)
      ensures this.store == store && this.table == table && this.queue == queue
    {
      this.store, this.table, this.queue := store, table, queue;
    }

    /** `text` is the rendered message. */
    method Flush(key: Key, items: seq<Item>, text: string)
      requires queue.Valid()
      modifies table, queue
      ensures queue.Valid() && table.calls == old(table.calls) && queue.received == old(queue.received)
      ensures var st := SubmissionFor(store.View(), key, items, text);
              if st.None? then table.rows == old(table.rows) && queue.ch == old(queue.ch)
              else forall s: Egress.State :: s.rows == old(table.rows) && s.queue == old(queue.ch) ==>
                     var s' := Egress.Next(queue.capacity, s, st.value);
                     table.rows == s'.rows && queue.ch == s'.queue
    {
      if |items| == 0 {
        return;
      }
      var ev := items[0];
      var chatId, threadId := ev.userId, 0;
      if ev.userId in store.users {
        var u := store.users[ev.userId];
        if u.mode == Group && u.group.Some? {
          chatId := u.group.value;
          if (ev.userId, key.service) in store.topics {
            threadId := store.topics[(ev.userId, key.service)].threadId;
          }
        }
      }
      if ev.userId !in store.users {
        return;
      }
      var rowId := table.CreateDelivery(ev.userId, ev.eventId, key.service, key.typ, |items|, threadId);
      queue.Enqueue(Transport.Delivery(rowId, ev.userId, chatId, threadId, text, key.service));
    }
  }

  /** Routing and flushing agree: if the tables do not change in between, the batch goes to the chat
      and thread that the event was routed to, even when creating the topic failed. */
  lemma FlushGoesWhereRouted(db: Db, e: Event, reply: Reply)
    ensures var (db', targets) := ResolveRoutes(db, e, reply);
            forall t :: t in targets ==> DestinationOf(db', t.userId, e.service) == Destination(t.chatId, t.threadId)
  {
  }

  /** A thread is only ever named together with the chat it was created in. */
  lemma ThreadIsOfChat(dbs: seq<Db>, acts: seq<StoreRuns.Action>, n: nat, u: int, s: string)
    requires StoreRuns.IsRun(dbs, acts) && n < |dbs|
    ensures var to := DestinationOf(dbs[n], u, s);
            to.thread != 0 ==> (u, s) in dbs[n].topics && dbs[n].topics[(u, s)] == TopicRow(to.thread, to.chat)
  {
    StoreRuns.TopicsFollowTheGroup(dbs, acts, n);
  }

  // ---------- Topic names ----------

  /** A service's name, or its id when it has none. */
  function DisplayName(db: Db, s: string): string {
    if s in db.services && db.services[s].displayName != "" then db.services[s].displayName else s
  }

  /** What the resolver calls a new topic. When sanitising leaves nothing, the unsanitised name is
      used. */
  function TopicName(db: Db, s: string): string {
    var name := Topic.Sanitized(DisplayName(db, s));
    if name == "" then DisplayName(db, s) else name
  }

  method TopicNameFor(store: Store.Store, s: string) returns (disp: string)
    ensures disp == TopicName(store.View(), s)
  {
    disp := s;
    if s in store.services && store.services[s].displayName != "" {
      disp := store.services[s].displayName;
    }
    var name := Topic.SanitizeTopicName(disp);
    if name != "" {
      disp := name;
    }
  }

  /** For every display name, however it got there: the topic's name is trimmed, single-spaced, short
      and clean exactly when sanitising leaves something of the name, no word within its cut loses all
      its runes (unless it is alone), and the cut is not behind a space; or the name is empty. */
  lemma TopicNameSettlesIff(db: Db, s: string)
    ensures var d := DisplayName(db, s);
            Topic.Settled(TopicName(db, s)) <==>
              d == "" || (Topic.Sanitized(d) != "" && Topic.CutsWell(Topic.KeptWords(Topic.Words(d)), Topic.MAX_RUNES))
  {
    hide Topic.IsSpace;
    hide Topic.IsControl;
    hide Topic.CutsWell;
    hide Topic.KeptWords;
    hide Topic.Sanitized;
    var d := DisplayName(db, s);
    EmptySettles();
    Topic.OnePassSettlesIff(d);
    Topic.FixedIff(Topic.Sanitized(d));
    Topic.FixedIff(d);
  }

  /** A topic is named after the service's stored name, or its id if it has none; never by nothing. */
  lemma TopicNameNotEmpty(db: Db, s: string)
    ensures s != "" ==> TopicName(db, s) != ""
    ensures var d := if s in db.services && db.services[s].displayName != "" then db.services[s].displayName else s;
            Topic.Settled(d) ==> TopicName(db, s) == d
  {
    hide Topic.IsSpace;
    hide Topic.IsControl;
    Topic.FixedIff(DisplayName(db, s));
  }

  lemma EmptySettles()
    ensures Topic.Settled("") && Topic.Sanitized("") == ""
  {
    assert Topic.Settled("");
    Topic.FixedIff("");
  }

  lemma LinkRenames(db: Db, s: string, ref: string, code: string, displayName: string, now: int, reply: Reply)
    requires HandleLink(db, s, ref, code, displayName, now, reply).1.Okay? && Topic.Sanitized(displayName) != ""
    ensures DisplayName(HandleLink(db, s, ref, code, displayName, now, reply).0, s) == Topic.Sanitized(displayName)
  {
    hide Topic.Sanitized;
  }

  lemma BlankIff(t: string)
    ensures Topic.Words(t) == [] <==> forall c :: c in t ==> Topic.IsSpace(c)
  {
    hide Topic.IsSpace;
    if t != "" {
      var p, c := Topic.Butlast(t), Topic.Last(t);
      BlankIff(p);
      assert t == p + [c];
    }
  }

  /** The name a link request brings makes a settled topic name exactly when what is stored of it is
      not blank: the second pass then leaves a trimmed, single-spaced name; of a blank one it leaves
      nothing, and the blank name itself is sent to Telegram. */
  lemma StoredNameSettlesIff(db: Db, s: string, ref: string, code: string, displayName: string, now: int, reply: Reply)
    requires HandleLink(db, s, ref, code, displayName, now, reply).1.Okay? && Topic.Sanitized(displayName) != ""
    ensures var db' := HandleLink(db, s, ref, code, displayName, now, reply).0;
            Topic.Settled(TopicName(db', s)) <==> exists c :: c in Topic.Sanitized(displayName) && !Topic.IsSpace(c)
  {
    hide Topic.IsSpace;
    hide Topic.IsControl;
    var stored := Topic.Sanitized(displayName);
    LinkRenames(db, s, ref, code, displayName, now, reply);
    Topic.NameIsClean(displayName);
    Topic.SecondPass(stored);
    Topic.WordsAreWords(stored);
    Topic.JoinedIsTidy(Topic.Words(stored));
    BlankIff(stored);
    if Topic.Words(stored) == [] {
      assert stored[0] in stored;
    }
  }

  /** Blank names do get stored: two control runes with a space between them leave the space. */
  lemma BlankNameIsStored()
    ensures Topic.Sanitized("\U{0001} \U{0001}") == " "
  {
    hide Topic.IsSpace;
    hide Topic.IsControl;
    hide Topic.Words;
    hide Topic.Joined;
    hide Topic.Kept;
    var x := '\U{0001}';
    Topic.SampleRunes();
    Topic.EmptyIsTidy();
    Topic.WordsNext("", x);
    Topic.WordsNext([x], ' ');
    Topic.WordsNext([x, ' '], x);
    assert "" + [x] == [x] && [x] + [' '] == [x, ' '] && [x, ' '] + [x] == [x, ' ', x];
    Topic.JoinedPush([], [x]);
    Topic.JoinedPush([[x]], [x]);
    assert [] + [[x]] == [[x]] && [x] + " " + [x] == [x, ' ', x];
    Topic.KeptAppend([x], [' ', x]);
    Topic.KeptAppend([' '], [x]);
    Topic.SampleClasses();
    assert [x] + [' ', x] == [x, ' ', x] && [' '] + [x] == [' ', x];
    Topic.SpaceIsKept();
  }
}
