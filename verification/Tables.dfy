/** The SQLite tables as maps keyed by their primary keys, and what each store call does to them. */
module Tables {
  import opened Deliveries
  import Coalesce
  import Topic

  datatype Mode = Dm | Group

  datatype User = User(mode: Mode, group: Option<int>)

  datatype Service = Service(displayName: string, enabled: bool)

  /** A service_users row. */
  datatype Link = Link(userId: int, active: bool)

  /** A subscriptions row; an empty list of types means all of them. */
  datatype Sub = Sub(types: seq<string>, muted: bool)

  /** Expiry times are whole seconds, as stored. */
  datatype LinkCode = LinkCode(service: string, userId: int, expires: int, used: bool)
  datatype ConnectCode = ConnectCode(userId: int, expires: int, used: bool)

  datatype Event = Event(service: string, userRef: string, typ: string)

  /** A group_topics row; `chat` is history, not a column: the chat the topic was created in. */
  datatype TopicRow = TopicRow(threadId: int, chat: int)

  type LinkKey = (string, string)
  type SubKey = (int, string)

  datatype Db = Db(users: map<int, User>, services: map<string, Service>, links: map<LinkKey, Link>, subs: map<SubKey, Sub>,
                   events: map<string, Event>, topics: map<SubKey, TopicRow>, linkCodes: map<string, LinkCode>,
                   connectCodes: map<string, ConnectCode>)

  const EmptyDb := Db(map[], map[], map[], map[], map[], map[], map[], map[])

  datatype Error = CodeInvalid | CodeUsed | CodeMismatch | AlreadyLinked | Duplicate | Constraint | ServiceUnknown | TopicRefused

  datatype Result<+T> = Okay(value: T) | Fail(error: Error)

  /** What createForumTopic comes back with. */
  datatype Reply = Created(threadId: int) | Refused

  const SECOND: int := 1_000_000_000

  /** A nanosecond instant as RFC 3339 text keeps it. */
  function Secs(now: int): int {
    now / SECOND
  }

  // ---------- Users and services ----------

  function UpsertUser(db: Db, u: int): Db {
    if u in db.users then db else db.(users := db.users[u := User(Dm, None)])
  }

  function CreateService(db: Db, s: string, name: string): (Db, Result<()>) {
    if s in db.services then (db, Fail(Constraint))
    else (db.(services := db.services[s := Service(name, true)]), Okay(()))
  }

  function SetEnabled(db: Db, s: string, on: bool): Db {
    if s in db.services then db.(services := db.services[s := db.services[s].(enabled := on)]) else db
  }

  function SetDeliveryMode(db: Db, u: int, mode: Mode, group: Option<int>): Db {
    if u in db.users then db.(users := db.users[u := User(mode, group)]) else db
  }

  /** Both foreign keys of a row that names a user and a service. */
  predicate Refers(db: Db, u: int, s: string) {
    u in db.users && s in db.services
  }

  // ---------- Codes ----------

  function CreateLinkCode(db: Db, code: string, s: string, u: int, ttl: int, now: int): (Db, Result<()>) {
    if code in db.linkCodes || !Refers(db, u, s) then (db, Fail(Constraint))
    else (db.(linkCodes := db.linkCodes[code := LinkCode(s, u, Secs(now + ttl), false)]), Okay(()))
  }

  /** INSERT OR REPLACE: an old code, used or not, is replaced. */
  function CreateConnectCode(db: Db, code: string, u: int, ttl: int, now: int): (Db, Result<()>) {
    if u !in db.users then (db, Fail(Constraint))
    else (db.(connectCodes := db.connectCodes[code := ConnectCode(u, Secs(now + ttl), false)]), Okay(()))
  }

  function ConsumeConnectCode(db: Db, code: string, u: int, now: int): (Db, Result<()>) {
    if code !in db.connectCodes then (db, Fail(CodeInvalid))
    else
      var c := db.connectCodes[code];
      if c.used then (db, Fail(CodeUsed))
      else if c.expires > Secs(now) && c.userId == u then
        (db.(connectCodes := db.connectCodes[code := c.(used := true)]), Okay(()))
      else (db, Fail(CodeInvalid))
  }

  function UserIDForLinkCode(db: Db, code: string, now: int): Result<int> {
    if code !in db.linkCodes then Fail(CodeInvalid)
    else if db.linkCodes[code].used then Fail(CodeUsed)
    else if now > db.linkCodes[code].expires * SECOND then Fail(CodeInvalid)
    else Okay(db.linkCodes[code].userId)
  }

  // ---------- Identity ----------

  /** The row the single-use UPDATE of a link code finds. The code's service is not asked for. */
  predicate Redeemable(db: Db, code: string, u: int, now: int) {
    code in db.linkCodes && !db.linkCodes[code].used && db.linkCodes[code].expires > Secs(now) && db.linkCodes[code].userId == u
  }

  function WhyNotRedeemable(db: Db, code: string, s: string): Error {
    if code in db.linkCodes && db.linkCodes[code].used then CodeUsed
    else if code in db.linkCodes && db.linkCodes[code].service != s then CodeMismatch
    else CodeInvalid
  }

  predicate OwnedByOther(db: Db, k: LinkKey, u: int) {
    k in db.links && db.links[k].userId != u
  }

  /** A first link makes `u` the owner; any later one only reactivates the row. */
  function Activate(links: map<LinkKey, Link>, k: LinkKey, u: int): map<LinkKey, Link> {
    links[k := if k in links then links[k].(active := true) else Link(u, true)]
  }

  /** Subscribe to everything, or unmute what is there. */
  function Subscribe(subs: map<SubKey, Sub>, k: SubKey): map<SubKey, Sub> {
    subs[k := if k in subs then subs[k].(muted := false) else Sub([], false)]
  }

  function SubscribeOnce(subs: map<SubKey, Sub>, k: SubKey): map<SubKey, Sub> {
    if k in subs then subs else subs[k := Sub([], false)]
  }

  function Rename(services: map<string, Service>, s: string, name: string): map<string, Service> {
    if name != "" && s in services then services[s := services[s].(displayName := name)] else services
  }

  /** Redeem a link code: all of it happens or nothing does. */
  function LinkIdentity(db: Db, s: string, ref: string, code: string, codeUser: int, u: int, name: string, now: int): (Db, Result<()>) {
    if !Redeemable(db, code, codeUser, now) then (db, Fail(WhyNotRedeemable(db, code, s)))
    else if codeUser != u then (db, Fail(CodeMismatch))
    else if OwnedByOther(db, (s, ref), u) then (db, Fail(AlreadyLinked))
    else if ((s, ref) !in db.links || (u, s) !in db.subs) && !Refers(db, u, s) then (db, Fail(Constraint))
    else
      (db.(linkCodes := db.linkCodes[code := db.linkCodes[code].(used := true)],
           links := Activate(db.links, (s, ref), u),
           subs := Subscribe(db.subs, (u, s)),
           services := Rename(db.services, s, name)),
       Okay(()))
  }

  /** The administrator's override: the one call that changes an owner. */
  function AdminLink(db: Db, s: string, ref: string, u: int): (Db, Result<()>) {
    if !Refers(db, u, s) then (db, Fail(Constraint))
    else (db.(links := db.links[(s, ref) := Link(u, true)], subs := SubscribeOnce(db.subs, (u, s))), Okay(()))
  }

  function AdminUnlink(db: Db, s: string, ref: string): Db {
    if (s, ref) in db.links then db.(links := db.links[(s, ref) := db.links[(s, ref)].(active := false)]) else db
  }

  /** Two statements outside a transaction: the first can stand when the second fails. */
  function EnsureServiceUser(db: Db, s: string, ref: string, u: int): (Db, Result<()>) {
    if (s, ref) !in db.links && !Refers(db, u, s) then (db, Fail(Constraint))
    else
      var linked := db.(links := Activate(db.links, (s, ref), u));
      if (u, s) !in db.subs && !Refers(db, u, s) then (linked, Fail(Constraint))
      else (linked.(subs := SubscribeOnce(db.subs, (u, s))), Okay(()))
  }

  const ADMIN_KEY: LinkKey := ("govpn", "admin")

  /** The first user to /start owns govpn's admin identity; later ones are told nothing. */
  function ClaimGovpnAdmin(db: Db, u: int): (Db, Result<()>) {
    if ADMIN_KEY in db.links then (db, Okay(()))
    else if !Refers(db, u, "govpn") then (db, Fail(Constraint))
    else (db.(links := db.links[ADMIN_KEY := Link(u, true)]), Okay(()))
  }

  // ---------- Subscriptions ----------

  function SetMuted(db: Db, u: int, s: string, muted: bool): Db {
    if (u, s) in db.subs then db.(subs := db.subs[(u, s) := db.subs[(u, s)].(muted := muted)]) else db
  }

  function EventTypesEnabled(db: Db, u: int, s: string): seq<string> {
    if (u, s) in db.subs then db.subs[(u, s)].types else []
  }

  function SetEventTypes(db: Db, u: int, s: string, types: seq<string>): Db {
    if (u, s) in db.subs then db.(subs := db.subs[(u, s) := db.subs[(u, s)].(types := types)]) else db
  }

  /** removeStr: the list without `v`. */
  function Without(list: seq<string>, v: string): seq<string> {
    if list == [] then []
    else Without(list[..|list| - 1], v) + if list[|list| - 1] == v then [] else [list[|list| - 1]]
  }

  function Toggled(list: seq<string>, t: string): seq<string> {
    if t in list then Without(list, t) else list + [t]
  }

  /** A press on the button of an event type. */
  function ToggleType(db: Db, u: int, s: string, t: string): Db {
    SetEventTypes(db, u, s, Toggled(EventTypesEnabled(db, u, s), t))
  }

  // ---------- Topics ----------

  /** The row if there is one; else ask Telegram for a topic in `chat` and record it. */
  function EnsureTopic(db: Db, u: int, chat: int, s: string, reply: Reply): (Db, Result<(int, bool)>) {
    if (u, s) in db.topics then (db, Okay((db.topics[(u, s)].threadId, false)))
    else if reply.Refused? then (db, Fail(TopicRefused))
    else if !Refers(db, u, s) then (db, Fail(Constraint))
    else (db.(topics := db.topics[(u, s) := TopicRow(reply.threadId, chat)]), Okay((reply.threadId, true)))
  }

  function ClearUserTopics(db: Db, u: int): Db {
    db.(topics := map k | k in db.topics && k.0 != u :: db.topics[k])
  }

  // ---------- Events and routing ----------

  function InsertEvent(db: Db, id: string, e: Event): (Db, Result<()>) {
    if id in db.events then (db, Fail(Duplicate)) else (db.(events := db.events[id := e]), Okay(()))
  }

  datatype RouteTarget = RouteTarget(userId: int, chatId: int, threadId: int, mode: Mode)

  /** Does the subscription, if any, let events of this type through? */
  predicate Admits(db: Db, u: int, s: string, typ: string) {
    (u, s) in db.subs ==> !db.subs[(u, s)].muted && (db.subs[(u, s)].types == [] || typ in db.subs[(u, s)].types)
  }

  /** The event goes to the active owner of its identity, filters permitting, and to nobody else. */
  predicate Routed(db: Db, e: Event) {
    var k := (e.service, e.userRef);
    k in db.links && db.links[k].active && db.links[k].userId in db.users && Admits(db, db.links[k].userId, e.service, e.typ)
  }

  /** Where messages to `u` go: the bound group in group mode, else the chat with the user. */
  function ChatOf(db: Db, u: int): int {
    if u in db.users && db.users[u].mode == Group && db.users[u].group.Some? then db.users[u].group.value else u
  }

  predicate InGroup(db: Db, u: int) {
    u in db.users && db.users[u].mode == Group && db.users[u].group.Some?
  }

  function ResolveRoutes(db: Db, e: Event, reply: Reply): (Db, seq<RouteTarget>) {
    if !Routed(db, e) then (db, [])
    else
      var u := db.links[(e.service, e.userRef)].userId;
      if InGroup(db, u) then
        var (db', t) := EnsureTopic(db, u, ChatOf(db, u), e.service, reply);
        (db', [RouteTarget(u, ChatOf(db, u), if t.Okay? then t.value.0 else 0, Group)])
      else (db, [RouteTarget(u, u, 0, db.users[u].mode)])
  }

  // ---------- Whole requests ----------

  /** POST /v1/link once the token has been checked. The name is sanitised; an empty one keeps the old. */
  function HandleLink(db: Db, s: string, ref: string, code: string, displayName: string, now: int, reply: Reply): (Db, Result<(int, bool)>) {
    if s !in db.services then (db, Fail(ServiceUnknown))
    else
      var owner := UserIDForLinkCode(db, code, now);
      if owner.Fail? then (db, Fail(owner.error))
      else
        var u := owner.value;
        var (linked, r) := LinkIdentity(db, s, ref, code, u, u, Topic.Sanitized(displayName), now);
        if r.Fail? then (linked, Fail(r.error))
        else if InGroup(linked, u) then
          var (db', t) := EnsureTopic(linked, u, ChatOf(linked, u), s, reply);
          (db', Okay((u, t.Okay?)))
        else (linked, Okay((u, false)))
  }

  /** /connect in a group: consume the code, bind the group, forget topics of the previous one. */
  function FinishSetup(db: Db, u: int, chat: int, code: string, now: int): (Db, Result<()>) {
    var (consumed, r) := ConsumeConnectCode(db, code, u, now);
    if r.Fail? then (consumed, r)
    else (ClearUserTopics(SetDeliveryMode(consumed, u, Group, Some(chat)), u), Okay(()))
  }

  /** The batch an event joins when it is added for `u`, and the item it is added as. */
  function KeyFor(u: int, e: Event): Coalesce.Key {
    Coalesce.Key(u, e.service, e.typ)
  }

  function ItemFor(u: int, body: Coalesce.Item): Coalesce.Item {
    body.(userId := u)
  }

  datatype Answer = RateLimited | Dropped | Repeated | Accepted(queued: nat)

  /** POST /v1/events once the envelope is valid: `allowed` is the limiter's verdict, `known` and
      `drop` what the catalog says of the type. The targets are the users whose batches it joins. */
  function HandleEvent(db: Db, id: string, e: Event, allowed: bool, known: bool, drop: bool, reply: Reply): (Db, Answer, seq<int>) {
    if !allowed then (db, RateLimited, [])
    else if (known && drop) || (!known && e.typ == "job_progress") then (db, Dropped, [])
    else
      var (stored, r) := InsertEvent(db, id, e);
      if r.Fail? then (db, Repeated, [])
      else
        var (db', targets) := ResolveRoutes(stored, e, reply);
        (db', Accepted(|targets|), seq(|targets|, i requires 0 <= i < |targets| => targets[i].userId))
  }
}
