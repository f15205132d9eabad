/** Whole runs of store actions, each atomic: who owns an identity, how often a code works, how long
    a topic row lasts. */
module StoreRuns {
  import opened Deliveries
  import opened Tables
  import Topic

  datatype Action =
    | Upsert(u: int)
    | NewService(s: string, name: string)
    | Enable(s: string, on: bool)
    | IssueLinkCode(code: string, s: string, u: int, ttl: int, now: int)
    | IssueConnectCode(code: string, u: int, ttl: int, now: int)
    | LinkRequest(s: string, ref: string, code: string, name: string, now: int, reply: Reply)
    | Redeem(s: string, ref: string, code: string, codeUser: int, u: int, name: string, now: int)
    | Claim(u: int)
    | EnsureUser(s: string, ref: string, u: int)
    | AdminBind(s: string, ref: string, u: int)
    | AdminUnbind(s: string, ref: string)
    | Connect(u: int, chat: int, code: string, now: int)
    | Mute(u: int, s: string, on: bool)
    | Toggle(u: int, s: string, typ: string)
    | Ingest(id: string, e: Event, allowed: bool, known: bool, drop: bool, reply: Reply)

  function Apply(db: Db, a: Action): Db {
    match a
    case Upsert(u) => UpsertUser(db, u)
    case NewService(s, name) => CreateService(db, s, name).0
    case Enable(s, on) => SetEnabled(db, s, on)
    case IssueLinkCode(code, s, u, ttl, now) => CreateLinkCode(db, code, s, u, ttl, now).0
    case IssueConnectCode(code, u, ttl, now) => CreateConnectCode(db, code, u, ttl, now).0
    case LinkRequest(s, ref, code, name, now, reply) => HandleLink(db, s, ref, code, name, now, reply).0
    case Redeem(s, ref, code, codeUser, u, name, now) => LinkIdentity(db, s, ref, code, codeUser, u, name, now).0
    case Claim(u) => ClaimGovpnAdmin(db, u).0
    case EnsureUser(s, ref, u) => EnsureServiceUser(db, s, ref, u).0
    case AdminBind(s, ref, u) => AdminLink(db, s, ref, u).0
    case AdminUnbind(s, ref) => AdminUnlink(db, s, ref)
    case Connect(u, chat, code, now) => FinishSetup(db, u, chat, code, now).0
    case Mute(u, s, on) => SetMuted(db, u, s, on)
    case Toggle(u, s, typ) => ToggleType(db, u, s, typ)
    case Ingest(id, e, allowed, known, drop, reply) => HandleEvent(db, id, e, allowed, known, drop, reply).0
  }

  ghost predicate IsRun(dbs: seq<Db>, acts: seq<Action>) {
    && |dbs| == |acts| + 1
    && dbs[0] == EmptyDb
    && forall n :: 0 <= n < |acts| ==> dbs[n + 1] == Apply(dbs[n], acts[n])
  }

  // ---------- What the long handlers leave alone ----------

  lemma TopicFrame(db: Db, u: int, chat: int, s: string, reply: Reply)
    ensures var db' := EnsureTopic(db, u, chat, s, reply).0;
            && db' == db.(topics := db'.topics)
            && forall k :: k in db.topics ==> k in db'.topics && db'.topics[k] == db.topics[k]
  {
  }

  lemma IngestFrame(db: Db, id: string, e: Event, allowed: bool, known: bool, drop: bool, reply: Reply)
    ensures var db' := HandleEvent(db, id, e, allowed, known, drop, reply).0;
            && db' == db.(events := db'.events, topics := db'.topics)
            && forall k :: k in db.topics ==> k in db'.topics && db'.topics[k] == db.topics[k]
  {
    hide EnsureTopic;
    hide Admits;
    var stored := InsertEvent(db, id, e).0;
    if Routed(stored, e) {
      var u := stored.links[(e.service, e.userRef)].userId;
      TopicFrame(stored, u, ChatOf(stored, u), e.service, reply);
    }
  }

  /** A link request is a redemption by the code's user, then at most a topic. */
  lemma LinkFrame(db: Db, s: string, ref: string, code: string, name: string, now: int, reply: Reply)
    ensures var (db', r) := HandleLink(db, s, ref, code, name, now, reply);
            && (r.Fail? ==> db' == db)
            && (r.Okay? ==>
                  var u := r.value.0;
                  var (linked, l) := LinkIdentity(db, s, ref, code, u, u, Topic.Sanitized(name), now);
                  l.Okay? && db' == linked.(topics := db'.topics))
            && forall k :: k in db.topics ==> k in db'.topics && db'.topics[k] == db.topics[k]
  {
    var owner := UserIDForLinkCode(db, code, now);
    if s in db.services && owner.Okay? {
      var linked := LinkIdentity(db, s, ref, code, owner.value, owner.value, Topic.Sanitized(name), now).0;
      TopicFrame(linked, owner.value, ChatOf(linked, owner.value), s, reply);
    }
  }

  /** Which tables an action does not touch. */
  lemma Untouched(db: Db, a: Action)
    ensures var db' := Apply(db, a);
            && (!a.LinkRequest? && !a.Redeem? && !a.Claim? && !a.EnsureUser? && !a.AdminBind? && !a.AdminUnbind? ==> db'.links == db.links)
            && (!a.IssueLinkCode? && !a.LinkRequest? && !a.Redeem? ==> db'.linkCodes == db.linkCodes)
            && (!a.IssueConnectCode? && !a.Connect? ==> db'.connectCodes == db.connectCodes)
            && (!a.LinkRequest? && !a.Connect? && !a.Ingest? ==> db'.topics == db.topics)
            && (!a.Upsert? && !a.Connect? ==> db'.users == db.users)
  {
    hide LinkIdentity;
    hide HandleLink;
    hide HandleEvent;
    hide EnsureServiceUser;
    hide AdminLink;
    hide FinishSetup;
    hide SetEventTypes;
    hide SetMuted;
    hide CreateLinkCode;
    hide CreateConnectCode;
    if a.LinkRequest? {
      UntouchedByLink(db, a.s, a.ref, a.code, a.name, a.now, a.reply);
    } else if a.Redeem? {
      UntouchedByRedeem(db, a.s, a.ref, a.code, a.codeUser, a.u, a.name, a.now);
    } else if a.Ingest? {
      IngestFrame(db, a.id, a.e, a.allowed, a.known, a.drop, a.reply);
    } else if a.Claim? || a.EnsureUser? || a.AdminBind? || a.AdminUnbind? {
      UntouchedByBind(db, a);
    } else if a.Connect? {
      UntouchedBySetup(db, a.u, a.chat, a.code, a.now);
    } else {
      UntouchedByRest(db, a);
    }
  }

  lemma UntouchedByRedeem(db: Db, s: string, ref: string, code: string, codeUser: int, u: int, name: string, now: int)
    ensures var db' := LinkIdentity(db, s, ref, code, codeUser, u, name, now).0;
            db'.connectCodes == db.connectCodes && db'.topics == db.topics && db'.users == db.users && db'.events == db.events
  {
  }

  lemma UntouchedByBind(db: Db, a: Action)
    requires a.Claim? || a.EnsureUser? || a.AdminBind? || a.AdminUnbind?
    ensures Apply(db, a) == db.(links := Apply(db, a).links, subs := Apply(db, a).subs)
  {
    if a.Claim? {
      assert Apply(db, a) == ClaimGovpnAdmin(db, a.u).0;
    } else if a.EnsureUser? {
      EnsureFrame(db, a.s, a.ref, a.u);
    } else if a.AdminBind? {
      assert Apply(db, a) == AdminLink(db, a.s, a.ref, a.u).0;
    } else {
      assert Apply(db, a) == AdminUnlink(db, a.s, a.ref);
    }
  }

  lemma EnsureFrame(db: Db, s: string, ref: string, u: int)
    ensures var db' := EnsureServiceUser(db, s, ref, u).0;
            db' == db.(links := db'.links, subs := db'.subs)
  {
  }

  lemma UntouchedBySetup(db: Db, u: int, chat: int, code: string, now: int)
    ensures var db' := FinishSetup(db, u, chat, code, now).0;
            && db'.links == db.links && db'.linkCodes == db.linkCodes && db'.events == db.events
            && db.users.Keys <= db'.users.Keys
  {
    hide ClearUserTopics;
    hide SetDeliveryMode;
    hide ConsumeConnectCode;
    var consumed := ConsumeConnectCode(db, code, u, now).0;
    ConsumeFrame(db, code, u, now);
    ModeFrame(consumed, u, chat);
    ClearFrame(SetDeliveryMode(consumed, u, Group, Some(chat)), u);
  }

  lemma ConsumeFrame(db: Db, code: string, u: int, now: int)
    ensures var db' := ConsumeConnectCode(db, code, u, now).0; db' == db.(connectCodes := db'.connectCodes)
  {
  }

  lemma ModeFrame(db: Db, u: int, chat: int)
    ensures var db' := SetDeliveryMode(db, u, Group, Some(chat)); db' == db.(users := db'.users) && db'.users.Keys == db.users.Keys
  {
  }

  lemma ClearFrame(db: Db, u: int)
    ensures ClearUserTopics(db, u) == db.(topics := ClearUserTopics(db, u).topics)
  {
  }

  lemma UntouchedByRest(db: Db, a: Action)
    requires a.Upsert? || a.NewService? || a.Enable? || a.IssueLinkCode? || a.IssueConnectCode? || a.Mute? || a.Toggle?
    ensures var db' := Apply(db, a);
            && db'.links == db.links && db'.topics == db.topics
            && (!a.IssueLinkCode? ==> db'.linkCodes == db.linkCodes)
            && (!a.IssueConnectCode? ==> db'.connectCodes == db.connectCodes)
            && (!a.Upsert? ==> db'.users == db.users) && db'.events == db.events
  {
    hide *;
    ApplyPlain(db, a);
    match a
    case Upsert(u) => UpsertFrame(db, u);
    case NewService(s, name) => ServiceFrame(db, s, name, true);
    case Enable(s, on) => ServiceFrame(db, s, "", on);
    case IssueLinkCode(code, s, u, ttl, now) => CodeFrame(db, code, s, u, ttl, now);
    case IssueConnectCode(code, u, ttl, now) => CodeFrame(db, code, "", u, ttl, now);
    case Mute(_, _, _) => UntouchedByMenu(db, a);
    case Toggle(_, _, _) => UntouchedByMenu(db, a);
  }

  lemma ApplyPlain(db: Db, a: Action)
    ensures a.Upsert? ==> Apply(db, a) == UpsertUser(db, a.u)
    ensures a.NewService? ==> Apply(db, a) == CreateService(db, a.s, a.name).0
    ensures a.Enable? ==> Apply(db, a) == SetEnabled(db, a.s, a.on)
    ensures a.IssueLinkCode? ==> Apply(db, a) == CreateLinkCode(db, a.code, a.s, a.u, a.ttl, a.now).0
    ensures a.IssueConnectCode? ==> Apply(db, a) == CreateConnectCode(db, a.code, a.u, a.ttl, a.now).0
  {
  }

  lemma UpsertFrame(db: Db, u: int)
    ensures UpsertUser(db, u) == db.(users := UpsertUser(db, u).users)
  {
  }

  lemma ServiceFrame(db: Db, s: string, name: string, on: bool)
    ensures CreateService(db, s, name).0 == db.(services := CreateService(db, s, name).0.services)
    ensures SetEnabled(db, s, on) == db.(services := SetEnabled(db, s, on).services)
  {
  }

  lemma CodeFrame(db: Db, code: string, s: string, u: int, ttl: int, now: int)
    ensures var db' := CreateLinkCode(db, code, s, u, ttl, now).0; db' == db.(linkCodes := db'.linkCodes)
    ensures var db' := CreateConnectCode(db, code, u, ttl, now).0; db' == db.(connectCodes := db'.connectCodes)
  {
    hide Secs;
    if code in db.linkCodes || !Refers(db, u, s) {
      assert CreateLinkCode(db, code, s, u, ttl, now).0 == db;
    }
    if u !in db.users {
      assert CreateConnectCode(db, code, u, ttl, now).0 == db;
    }
  }

  lemma UntouchedByMenu(db: Db, a: Action)
    requires a.Mute? || a.Toggle?
    ensures Apply(db, a) == db.(subs := Apply(db, a).subs)
  {
    hide Toggled;
    if a.Mute? {
      assert Apply(db, a) == SetMuted(db, a.u, a.s, a.on);
    } else {
      assert Apply(db, a) == ToggleType(db, a.u, a.s, a.typ);
    }
  }

  lemma UntouchedByLink(db: Db, s: string, ref: string, code: string, name: string, now: int, reply: Reply)
    ensures var db' := HandleLink(db, s, ref, code, name, now, reply).0;
            db'.connectCodes == db.connectCodes && db'.users == db.users
  {
    LinkFrame(db, s, ref, code, name, now, reply);
  }

  /** No action forgets a user or an event. */
  lemma NothingForgotten(db: Db, a: Action)
    ensures db.users.Keys <= Apply(db, a).users.Keys && db.events.Keys <= Apply(db, a).events.Keys
  {
    hide *;
    ApplyCases(db, a);
    match a
    case Upsert(u) =>
      UpsertKeeps(db, u);
      ApplyPlain(db, a);
    case LinkRequest(s, ref, code, name, now, reply) => LinkKeeps(db, s, ref, code, name, now, reply);
    case Redeem(s, ref, code, codeUser, u, name, now) => UntouchedByRedeem(db, s, ref, code, codeUser, u, name, now);
    case Ingest(id, e, allowed, known, drop, reply) => IngestKeeps(db, id, e, allowed, known, drop, reply);
    case Connect(u, chat, code, now) => UntouchedBySetup(db, u, chat, code, now);
    case Claim(_) => UntouchedByBind(db, a);
    case EnsureUser(_, _, _) => UntouchedByBind(db, a);
    case AdminBind(_, _, _) => UntouchedByBind(db, a);
    case AdminUnbind(_, _) => UntouchedByBind(db, a);
    case NewService(_, _) => UntouchedByRest(db, a);
    case Enable(_, _) => UntouchedByRest(db, a);
    case IssueLinkCode(_, _, _, _, _) => UntouchedByRest(db, a);
    case IssueConnectCode(_, _, _, _) => UntouchedByRest(db, a);
    case Mute(_, _, _) => UntouchedByMenu(db, a);
    case Toggle(_, _, _) => UntouchedByMenu(db, a);
  }

  lemma UpsertKeeps(db: Db, u: int)
    ensures db.users.Keys <= UpsertUser(db, u).users.Keys && UpsertUser(db, u).events == db.events
  {
  }

  lemma LinkKeeps(db: Db, s: string, ref: string, code: string, name: string, now: int, reply: Reply)
    ensures var db' := HandleLink(db, s, ref, code, name, now, reply).0;
            db'.users == db.users && db'.events == db.events
  {
    hide HandleLink;
    hide LinkIdentity;
    LinkFrame(db, s, ref, code, name, now, reply);
    var r := HandleLink(db, s, ref, code, name, now, reply).1;
    if r.Okay? { UntouchedByRedeem(db, s, ref, code, r.value.0, r.value.0, Topic.Sanitized(name), now); }
  }

  lemma IngestKeeps(db: Db, id: string, e: Event, allowed: bool, known: bool, drop: bool, reply: Reply)
    ensures var db' := HandleEvent(db, id, e, allowed, known, drop, reply).0;
            db'.users == db.users && db.events.Keys <= db'.events.Keys
  {
    hide HandleEvent;
    IngestFrame(db, id, e, allowed, known, drop, reply);
    PostedEventAnswers(db, id, e, allowed, known, drop, reply);
  }

  // ---------- Redeeming a code ----------

  /** A failed redemption, or a failed link request, changes no table; in particular the code stays unused. */
  lemma FailureChangesNothing(db: Db, s: string, ref: string, code: string, codeUser: int, u: int, name: string, now: int, reply: Reply)
    ensures LinkIdentity(db, s, ref, code, codeUser, u, name, now).1.Fail? ==> LinkIdentity(db, s, ref, code, codeUser, u, name, now).0 == db
    ensures HandleLink(db, s, ref, code, name, now, reply).1.Fail? ==> HandleLink(db, s, ref, code, name, now, reply).0 == db
  {
  }

  /** Foreign keys that every action keeps. */
  ghost predicate FkOk(db: Db) {
    && (forall k :: k in db.links ==> db.links[k].userId in db.users && k.0 in db.services)
    && (forall k :: k in db.subs ==> k.0 in db.users && k.1 in db.services)
    && (forall k :: k in db.topics ==> k.0 in db.users && k.1 in db.services)
    && (forall c :: c in db.linkCodes ==> db.linkCodes[c].userId in db.users && db.linkCodes[c].service in db.services)
    && (forall c :: c in db.connectCodes ==> db.connectCodes[c].userId in db.users)
  }

  lemma FkStep(db: Db, a: Action)
    requires FkOk(db)
    ensures FkOk(Apply(db, a))
  {
    hide *;
    match a
    case LinkRequest(s, ref, code, name, now, reply) => FkLink(db, s, ref, code, name, now, reply); ApplyCases(db, a);
    case Redeem(s, ref, code, codeUser, u, name, now) => FkRedeem(db, s, ref, code, codeUser, u, name, now); ApplyCases(db, a);
    case Ingest(id, e, allowed, known, drop, reply) => FkIngest(db, id, e, allowed, known, drop, reply); ApplyCases(db, a);
    case Connect(u, chat, code, now) => FkConnect(db, u, chat, code, now); ApplyCases(db, a);
    case Upsert(_) => FkPlain(db, a);
    case NewService(_, _) => FkPlain(db, a);
    case Enable(_, _) => FkPlain(db, a);
    case IssueLinkCode(_, _, _, _, _) => FkPlain(db, a);
    case IssueConnectCode(_, _, _, _) => FkPlain(db, a);
    case Claim(_) => FkBind(db, a);
    case EnsureUser(_, _, _) => FkBind(db, a);
    case AdminBind(_, _, _) => FkBind(db, a);
    case AdminUnbind(_, _) => FkBind(db, a);
    case Mute(_, _, _) => FkPlain(db, a);
    case Toggle(_, _, _) => FkPlain(db, a);
  }

  lemma ApplyCases(db: Db, a: Action)
    ensures a.LinkRequest? ==> Apply(db, a) == HandleLink(db, a.s, a.ref, a.code, a.name, a.now, a.reply).0
    ensures a.Redeem? ==> Apply(db, a) == LinkIdentity(db, a.s, a.ref, a.code, a.codeUser, a.u, a.name, a.now).0
    ensures a.Connect? ==> Apply(db, a) == FinishSetup(db, a.u, a.chat, a.code, a.now).0
    ensures a.Ingest? ==> Apply(db, a) == HandleEvent(db, a.id, a.e, a.allowed, a.known, a.drop, a.reply).0
  {
  }

  lemma FkPlain(db: Db, a: Action)
    requires FkOk(db)
    requires a.Upsert? || a.NewService? || a.Enable? || a.IssueLinkCode? || a.IssueConnectCode? || a.Mute? || a.Toggle?
    ensures FkOk(Apply(db, a))
  {
  }

  lemma FkClaim(db: Db, u: int)
    requires FkOk(db)
    ensures FkOk(ClaimGovpnAdmin(db, u).0)
  {
  }

  lemma FkActivate(db: Db, s: string, ref: string, u: int)
    requires FkOk(db) && ((s, ref) in db.links || Refers(db, u, s))
    ensures FkOk(db.(links := Activate(db.links, (s, ref), u)))
  {
  }

  lemma FkSubscribeOnce(db: Db, u: int, s: string)
    requires FkOk(db) && ((u, s) in db.subs || Refers(db, u, s))
    ensures FkOk(db.(subs := SubscribeOnce(db.subs, (u, s))))
  {
  }

  lemma FkEnsure(db: Db, s: string, ref: string, u: int)
    requires FkOk(db)
    ensures FkOk(EnsureServiceUser(db, s, ref, u).0)
  {
    hide FkOk;
    hide Activate;
    hide SubscribeOnce;
    if (s, ref) in db.links || Refers(db, u, s) {
      FkActivate(db, s, ref, u);
      var linked := db.(links := Activate(db.links, (s, ref), u));
      if (u, s) in linked.subs || Refers(linked, u, s) {
        FkSubscribeOnce(linked, u, s);
      }
    }
  }

  lemma FkAdmin(db: Db, s: string, ref: string, u: int)
    requires FkOk(db)
    ensures FkOk(AdminLink(db, s, ref, u).0)
  {
  }

  lemma FkBind(db: Db, a: Action)
    requires FkOk(db) && (a.Claim? || a.EnsureUser? || a.AdminBind? || a.AdminUnbind?)
    ensures FkOk(Apply(db, a))
  {
    hide ClaimGovpnAdmin;
    hide EnsureServiceUser;
    hide AdminLink;
    if a.Claim? {
      FkClaim(db, a.u);
    } else if a.EnsureUser? {
      FkEnsure(db, a.s, a.ref, a.u);
    } else if a.AdminBind? {
      FkAdmin(db, a.s, a.ref, a.u);
    }
  }

  lemma FkConnect(db: Db, u: int, chat: int, code: string, now: int)
    requires FkOk(db)
    ensures FkOk(FinishSetup(db, u, chat, code, now).0)
  {
  }

  lemma FkRedeem(db: Db, s: string, ref: string, code: string, codeUser: int, u: int, name: string, now: int)
    requires FkOk(db)
    ensures FkOk(LinkIdentity(db, s, ref, code, codeUser, u, name, now).0)
  {
  }

  lemma FkTopic(db: Db, u: int, chat: int, s: string, reply: Reply)
    requires FkOk(db)
    ensures FkOk(EnsureTopic(db, u, chat, s, reply).0)
  {
  }

  lemma FkLink(db: Db, s: string, ref: string, code: string, name: string, now: int, reply: Reply)
    requires FkOk(db)
    ensures FkOk(HandleLink(db, s, ref, code, name, now, reply).0)
  {
    hide FkOk;
    var owner := UserIDForLinkCode(db, code, now);
    if s in db.services && owner.Okay? {
      FkRedeem(db, s, ref, code, owner.value, owner.value, Topic.Sanitized(name), now);
      var linked := LinkIdentity(db, s, ref, code, owner.value, owner.value, Topic.Sanitized(name), now).0;
      FkTopic(linked, owner.value, ChatOf(linked, owner.value), s, reply);
    }
  }

  lemma FkIngest(db: Db, id: string, e: Event, allowed: bool, known: bool, drop: bool, reply: Reply)
    requires FkOk(db)
    ensures FkOk(HandleEvent(db, id, e, allowed, known, drop, reply).0)
  {
    var stored := InsertEvent(db, id, e).0;
    assert FkOk(stored);
    if Routed(stored, e) {
      var u := stored.links[(e.service, e.userRef)].userId;
      FkTopic(stored, u, ChatOf(stored, u), e.service, reply);
    }
  }

  lemma {:induction false} FkRun(dbs: seq<Db>, acts: seq<Action>, n: nat)
    requires IsRun(dbs, acts) && n < |dbs|
    ensures FkOk(dbs[n])
  {
    hide Apply;
    if n > 0 {
      FkRun(dbs, acts, n - 1);
      FkStep(dbs[n - 1], acts[n - 1]);
    }
  }

  /** When a redemption succeeds, for all inputs: the code was issued to this user, is unused and
      unexpired, the service exists and the identity is not another user's. The service the code
      was issued for plays no part. */
  lemma LinkSucceedsIff(db: Db, s: string, ref: string, code: string, codeUser: int, u: int, name: string, now: int)
    requires FkOk(db)
    ensures LinkIdentity(db, s, ref, code, codeUser, u, name, now).1.Okay? <==>
              && code in db.linkCodes && db.linkCodes[code].userId == codeUser == u && !db.linkCodes[code].used
              && now < db.linkCodes[code].expires * SECOND
              && s in db.services
              && ((s, ref) in db.links ==> db.links[(s, ref)].userId == u)
  {
    if code in db.linkCodes {
      SecsBelow(now, db.linkCodes[code].expires);
    }
  }

  lemma SecsBelow(now: int, e: int)
    ensures e > Secs(now) <==> now < e * SECOND
  {
    assert Secs(now) * SECOND <= now < (Secs(now) + 1) * SECOND;
  }

  /** All that a successful redemption changes: this code is used up, this identity is the user's and
      active, the user's subscription to the service is unmuted with its types kept, and the
      service may have a new name. */
  lemma LinkEffect(db: Db, s: string, ref: string, code: string, codeUser: int, u: int, name: string, now: int)
    requires LinkIdentity(db, s, ref, code, codeUser, u, name, now).1.Okay?
    ensures var db' := LinkIdentity(db, s, ref, code, codeUser, u, name, now).0;
            && db' == db.(linkCodes := db'.linkCodes, links := db'.links, subs := db'.subs, services := db'.services)
            && code in db.linkCodes && db'.linkCodes == db.linkCodes[code := db.linkCodes[code].(used := true)]
            && db'.links == db.links[(s, ref) := Link(u, true)]
            && db'.subs == db.subs[(u, s) := Sub(EventTypesEnabled(db, u, s), false)]
            && db'.services.Keys == db.services.Keys
            && (forall x :: x in db.services && (x != s || name == "") ==> db'.services[x] == db.services[x])
            && (name != "" && s in db.services ==> db'.services[s] == Service(name, db.services[s].enabled))
  {
  }

  /** From a successful link request on, exactly the events of that identity whose type the user's
      list admits are routed, to that user and nobody else. */
  lemma LinkedEventsAreRouted(db: Db, s: string, ref: string, code: string, name: string, now: int, reply: Reply, typ: string, later: Reply)
    requires FkOk(db) && HandleLink(db, s, ref, code, name, now, reply).1.Okay?
    ensures var (db', r) := HandleLink(db, s, ref, code, name, now, reply);
            var u, types := r.value.0, EventTypesEnabled(db, r.value.0, s);
            var targets := ResolveRoutes(db', Event(s, ref, typ), later).1;
            if types == [] || typ in types then |targets| == 1 && targets[0].userId == u && targets[0].chatId == ChatOf(db, u)
            else targets == []
  {
    hide HandleLink;
    hide LinkIdentity;
    hide EnsureTopic;
    hide Topic.Sanitized;
    LinkFrame(db, s, ref, code, name, now, reply);
    var u := HandleLink(db, s, ref, code, name, now, reply).1.value.0;
    LinkEffect(db, s, ref, code, u, u, Topic.Sanitized(name), now);
    LinkSucceedsIff(db, s, ref, code, u, u, Topic.Sanitized(name), now);
  }

  /** An unlinked identity's events go nowhere. A mute silences the user's events from the service
      exactly when there is a subscription row to mute; other identities, users and services are
      routed as before. */
  lemma SilencedThenNotRouted(db: Db, s: string, ref: string, u: int, e: Event)
    ensures Routed(AdminUnlink(db, s, ref), e) <==> Routed(db, e) && (e.service, e.userRef) != (s, ref)
    ensures Routed(SetMuted(db, u, s, true), e) <==>
              Routed(db, e) && ((e.service, db.links[(e.service, e.userRef)].userId) != (s, u) || (u, s) !in db.subs)
  {
  }

  /** Every link but govpn's admin one comes with a subscription of its owner. */
  ghost predicate Subscribed(db: Db) {
    forall k :: k in db.links && k != ADMIN_KEY ==> (db.links[k].userId, k.0) in db.subs
  }

  lemma SubscribedStep(db: Db, a: Action)
    requires Subscribed(db) && FkOk(db)
    ensures Subscribed(Apply(db, a))
  {
    hide *;
    ApplyCases(db, a);
    match a
    case LinkRequest(s, ref, code, name, now, reply) => SubscribedLink(db, s, ref, code, name, now, reply);
    case Redeem(s, ref, code, codeUser, u, name, now) => SubscribedRedeem(db, s, ref, code, codeUser, u, name, now);
    case EnsureUser(s, ref, u) => SubscribedEnsure(db, s, ref, u); ApplyBind(db, a);
    case AdminBind(s, ref, u) => SubscribedAdmin(db, s, ref, u); ApplyBind(db, a);
    case Claim(u) => SubscribedClaim(db, u, "", ""); ApplyBind(db, a);
    case AdminUnbind(s, ref) => SubscribedClaim(db, 0, s, ref); ApplyBind(db, a);
    case Mute(u, s, on) => SubscribedMenu(db, u, s, on, ""); ApplyBind(db, a);
    case Toggle(u, s, typ) => SubscribedMenu(db, u, s, false, typ); ApplyBind(db, a);
    case Ingest(id, e, allowed, known, drop, reply) => SubscribedIngest(db, id, e, allowed, known, drop, reply);
    case Connect(u, chat, code, now) => SubscribedSetup(db, u, chat, code, now);
    case Upsert(u) => UpsertFrame(db, u); ApplyPlain(db, a); SubscribedSame(db, Apply(db, a));
    case NewService(s, name) => ServiceFrame(db, s, name, true); ApplyPlain(db, a); SubscribedSame(db, Apply(db, a));
    case Enable(s, on) => ServiceFrame(db, s, "", on); ApplyPlain(db, a); SubscribedSame(db, Apply(db, a));
    case IssueLinkCode(code, s, u, ttl, now) => CodeFrame(db, code, s, u, ttl, now); ApplyPlain(db, a); SubscribedSame(db, Apply(db, a));
    case IssueConnectCode(code, u, ttl, now) => CodeFrame(db, code, "", u, ttl, now); ApplyPlain(db, a); SubscribedSame(db, Apply(db, a));
  }

  lemma ApplyBind(db: Db, a: Action)
    ensures a.EnsureUser? ==> Apply(db, a) == EnsureServiceUser(db, a.s, a.ref, a.u).0
    ensures a.AdminBind? ==> Apply(db, a) == AdminLink(db, a.s, a.ref, a.u).0
    ensures a.Claim? ==> Apply(db, a) == ClaimGovpnAdmin(db, a.u).0
    ensures a.AdminUnbind? ==> Apply(db, a) == AdminUnlink(db, a.s, a.ref)
    ensures a.Mute? ==> Apply(db, a) == SetMuted(db, a.u, a.s, a.on)
    ensures a.Toggle? ==> Apply(db, a) == ToggleType(db, a.u, a.s, a.typ)
  {
  }

  lemma SubscribedSame(db: Db, db': Db)
    requires Subscribed(db) && db'.links == db.links && db.subs.Keys <= db'.subs.Keys
    ensures Subscribed(db')
  {
  }

  lemma SubscribedRedeem(db: Db, s: string, ref: string, code: string, codeUser: int, u: int, name: string, now: int)
    requires Subscribed(db)
    ensures Subscribed(LinkIdentity(db, s, ref, code, codeUser, u, name, now).0)
  {
    hide LinkIdentity;
    if LinkIdentity(db, s, ref, code, codeUser, u, name, now).1.Okay? {
      LinkEffect(db, s, ref, code, codeUser, u, name, now);
    } else {
      FailureChangesNothing(db, s, ref, code, codeUser, u, name, now, Refused);
    }
  }

  lemma SubscribedLink(db: Db, s: string, ref: string, code: string, name: string, now: int, reply: Reply)
    requires Subscribed(db)
    ensures Subscribed(HandleLink(db, s, ref, code, name, now, reply).0)
  {
    hide HandleLink;
    hide LinkIdentity;
    LinkFrame(db, s, ref, code, name, now, reply);
    var r := HandleLink(db, s, ref, code, name, now, reply).1;
    if r.Okay? { SubscribedRedeem(db, s, ref, code, r.value.0, r.value.0, Topic.Sanitized(name), now); }
  }

  lemma SubscribedEnsure(db: Db, s: string, ref: string, u: int)
    requires Subscribed(db) && FkOk(db)
    ensures Subscribed(EnsureServiceUser(db, s, ref, u).0)
  {
    EnsureFailsHalfwayIff(db, s, ref, u);
    hide FkOk;
    if Refers(db, u, s) {
      EnsureEffect(db, s, ref, u);
      hide EnsureServiceUser;
    } else {
      hide EnsureServiceUser;
    }
  }

  /** For a known user and service the identity is active, with its owner if it has one, and there is a
      subscription; an existing one keeps its mute and types. */
  lemma EnsureEffect(db: Db, s: string, ref: string, u: int)
    requires Refers(db, u, s)
    ensures var db', k := EnsureServiceUser(db, s, ref, u).0, (s, ref);
            && EnsureServiceUser(db, s, ref, u).1.Okay? && db' == db.(links := db'.links, subs := db'.subs)
            && db'.subs == (if (u, s) in db.subs then db.subs else db.subs[(u, s) := Sub([], false)])
            && db'.links == db.links[k := Link(if k in db.links then db.links[k].userId else u, true)]
  {
  }

  lemma SubscribedAdmin(db: Db, s: string, ref: string, u: int)
    requires Subscribed(db)
    ensures Subscribed(AdminLink(db, s, ref, u).0)
  {
  }

  lemma SubscribedClaim(db: Db, u: int, s: string, ref: string)
    requires Subscribed(db)
    ensures Subscribed(ClaimGovpnAdmin(db, u).0) && Subscribed(AdminUnlink(db, s, ref))
  {
  }

  lemma SubscribedMenu(db: Db, u: int, s: string, on: bool, typ: string)
    requires Subscribed(db)
    ensures Subscribed(SetMuted(db, u, s, on)) && Subscribed(ToggleType(db, u, s, typ))
  {
    hide Toggled;
  }

  lemma SubscribedIngest(db: Db, id: string, e: Event, allowed: bool, known: bool, drop: bool, reply: Reply)
    requires Subscribed(db)
    ensures Subscribed(HandleEvent(db, id, e, allowed, known, drop, reply).0)
  {
    hide HandleEvent;
    IngestFrame(db, id, e, allowed, known, drop, reply);
  }

  lemma SubscribedSetup(db: Db, u: int, chat: int, code: string, now: int)
    requires Subscribed(db)
    ensures Subscribed(FinishSetup(db, u, chat, code, now).0)
  {
  }

  /** In any run, only govpn's admin identity can be linked without a subscription: for every other
      event the owner's mute works at once. */
  lemma {:induction false} OnlyAdminUnsubscribed(dbs: seq<Db>, acts: seq<Action>, n: nat)
    requires IsRun(dbs, acts) && n < |dbs|
    ensures Subscribed(dbs[n])
  {
    hide Apply;
    if n > 0 {
      OnlyAdminUnsubscribed(dbs, acts, n - 1);
      FkRun(dbs, acts, n - 1);
      SubscribedStep(dbs[n - 1], acts[n - 1]);
    }
  }

  lemma MuteWorksBut(dbs: seq<Db>, acts: seq<Action>, n: nat, e: Event)
    requires IsRun(dbs, acts) && n < |dbs| && Routed(dbs[n], e)
    ensures var u := dbs[n].links[(e.service, e.userRef)].userId;
            Routed(SetMuted(dbs[n], u, e.service, true), e) <==> (e.service, e.userRef) == ADMIN_KEY && (u, "govpn") !in dbs[n].subs
  {
    OnlyAdminUnsubscribed(dbs, acts, n);
    SilencedThenNotRouted(dbs[n], e.service, e.userRef, dbs[n].links[(e.service, e.userRef)].userId, e);
  }

  /** There it is lost: claiming makes no subscription, so the claimer's mute and type presses change
      nothing and the events keep coming. */
  lemma ClaimerCannotMute(u: int, typ: string, e: string) returns (dbs: seq<Db>, acts: seq<Action>)
    ensures IsRun(dbs, acts) && |acts| == 5
    ensures acts[2] == Claim(u) && acts[3] == Mute(u, "govpn", true) && acts[4] == Toggle(u, "govpn", typ)
    ensures dbs[5] == dbs[3] && Routed(dbs[5], Event("govpn", "admin", e))
  {
    acts := [Upsert(u), NewService("govpn", "goVPN"), Claim(u), Mute(u, "govpn", true), Toggle(u, "govpn", typ)];
    var d1 := EmptyDb.(users := map[u := User(Dm, None)]);
    var d2 := d1.(services := map["govpn" := Service("goVPN", true)]);
    var d3 := d2.(links := map[ADMIN_KEY := Link(u, true)]);
    Claimed(u, d1, d2, d3);
    hide Apply;
    ApplyBind(d3, acts[3]);
    ApplyBind(d3, acts[4]);
    dbs := [EmptyDb, d1, d2, d3, d3, d3];
  }

  lemma Claimed(u: int, d1: Db, d2: Db, d3: Db)
    requires d1 == EmptyDb.(users := map[u := User(Dm, None)]) && d2 == d1.(services := map["govpn" := Service("goVPN", true)])
    requires d3 == d2.(links := map[ADMIN_KEY := Link(u, true)])
    ensures Apply(EmptyDb, Upsert(u)) == d1 && Apply(d1, NewService("govpn", "goVPN")) == d2 && Apply(d2, Claim(u)) == d3
  {
  }

  /** The administrator's link hands the identity over; unlike a redeemed code it leaves the new
      owner's mute and types as they are, and they decide what gets through. */
  lemma AdminLinkTakesOver(db: Db, s: string, ref: string, u: int, typ: string)
    requires Refers(db, u, s)
    ensures var (db', r) := AdminLink(db, s, ref, u);
            && r.Okay? && db' == db.(links := db'.links, subs := db'.subs)
            && db'.links == db.links[(s, ref) := Link(u, true)]
            && (Routed(db', Event(s, ref, typ)) <==> Admits(db, u, s, typ))
            && forall k :: k != (u, s) ==> (k in db'.subs <==> k in db.subs) && (k in db.subs ==> db'.subs[k] == db.subs[k])
  {
  }

  /** EnsureServiceUser fails exactly for an unknown user or service; and it leaves half of its work
      behind exactly when, besides, somebody's unlinked identity was there to be reactivated. */
  lemma EnsureFailsHalfwayIff(db: Db, s: string, ref: string, u: int)
    requires FkOk(db)
    ensures var (db', r) := EnsureServiceUser(db, s, ref, u);
            && (r.Fail? <==> !Refers(db, u, s))
            && (r.Fail? && db' != db <==> !Refers(db, u, s) && (s, ref) in db.links && !db.links[(s, ref)].active)
            && (r.Fail? && db' != db ==> db' == db.(links := db.links[(s, ref) := db.links[(s, ref)].(active := true)]))
  {
    var db' := EnsureServiceUser(db, s, ref, u).0;
    if (s, ref) in db.links && !Refers(db, u, s) {
      assert (u, s) !in db.subs;
      if db.links[(s, ref)].active {
        assert db.links[(s, ref) := db.links[(s, ref)]] == db.links;
        assert db'.links == db.links;
      } else {
        assert db'.links[(s, ref)] != db.links[(s, ref)];
      }
    }
  }

  /** /connect succeeds exactly with an unused, unexpired code of the same user; then the user's
      messages go to the group the command came from, and the topics of earlier groups are
      forgotten, while other users' are kept. A failing one changes nothing. */
  lemma SetupSucceedsIff(db: Db, u: int, chat: int, code: string, now: int)
    requires FkOk(db)
    ensures var (db', r) := FinishSetup(db, u, chat, code, now);
            && (r.Okay? <==>
                  && code in db.connectCodes && db.connectCodes[code].userId == u && !db.connectCodes[code].used
                  && now < db.connectCodes[code].expires * SECOND)
            && (r.Fail? ==> db' == db && r.error == if code in db.connectCodes && db.connectCodes[code].used then CodeUsed else CodeInvalid)
            && (r.Okay? ==> InGroup(db', u) && ChatOf(db', u) == chat)
            && (r.Okay? ==> forall k :: k in db'.topics <==> k in db.topics && k.0 != u)
            && (r.Okay? ==> forall x :: x != u ==> ChatOf(db', x) == ChatOf(db, x))
  {
    if code in db.connectCodes {
      SecsBelow(now, db.connectCodes[code].expires);
    }
  }

  lemma {:induction false} EventsRemembered(dbs: seq<Db>, acts: seq<Action>, i: nat, j: nat, id: string)
    requires IsRun(dbs, acts) && i <= j < |dbs| && id in dbs[i].events
    ensures id in dbs[j].events
  {
    hide Apply;
    if i < j {
      EventsRemembered(dbs, acts, i, j - 1, id);
      NothingForgotten(dbs[j - 1], acts[j - 1]);
    }
  }

  /** What a posted event comes to, for all inputs: it is accepted exactly when the limiter lets it
      pass, no drop rule hits and its id is new; only then is anything stored, and it is added for its
      one routed user or for nobody. So an event that was limited or dropped can be posted again. */
  lemma PostedEventAnswers(db: Db, id: string, e: Event, allowed: bool, known: bool, drop: bool, reply: Reply)
    ensures var (db', answer, us) := HandleEvent(db, id, e, allowed, known, drop, reply);
            && (answer.Accepted? <==>
                  allowed && (if known then !drop else e.typ != "job_progress") && id !in db.events)
            && (answer.Accepted? ==> db'.events == db.events[id := e] && answer.queued == |us|)
            && (!answer.Accepted? ==> db' == db && us == [])
            && (answer.Repeated? <==> allowed && (if known then !drop else e.typ != "job_progress") && id in db.events)
            && (us == if answer.Accepted? && Routed(db, e) then [db.links[(e.service, e.userRef)].userId] else [])
  {
    hide EnsureTopic;
    hide Admits;
    AdmitsSame(db, db.(events := db.events[id := e]), e);
    var stored := InsertEvent(db, id, e).0;
    if Routed(stored, e) {
      var u := stored.links[(e.service, e.userRef)].userId;
      TopicFrame(stored, u, ChatOf(stored, u), e.service, reply);
    }
  }

  lemma AdmitsSame(db: Db, db': Db, e: Event)
    requires db' == db.(events := db'.events)
    ensures Routed(db', e) == Routed(db, e)
  {
  }

  predicate Accepts(db: Db, a: Action, id: string) {
    a.Ingest? && a.id == id && HandleEvent(db, a.id, a.e, a.allowed, a.known, a.drop, a.reply).1.Accepted?
  }

  /** An event id is accepted once and for ever: no later request with it is accepted, whatever its
      other fields and however much time has passed, and a repeated one changes no table. */
  lemma EventAcceptedOnce(dbs: seq<Db>, acts: seq<Action>, i: nat, j: nat, id: string)
    requires IsRun(dbs, acts) && i < j < |acts| && Accepts(dbs[i], acts[i], id)
    ensures !Accepts(dbs[j], acts[j], id)
    ensures acts[j].Ingest? && acts[j].id == id ==> dbs[j + 1] == dbs[j]
  {
    AcceptedIsStored(dbs[i], acts[i], id);
    EventsRemembered(dbs, acts, i + 1, j, id);
    if acts[j].Ingest? { ApplyCases(dbs[j], acts[j]); }
  }

  lemma AcceptedIsStored(db: Db, a: Action, id: string)
    requires Accepts(db, a, id)
    ensures id in Apply(db, a).events
  {
    hide EnsureTopic;
    ApplyCases(db, a);
    var stored := InsertEvent(db, a.id, a.e).0;
    if Routed(stored, a.e) {
      var u := stored.links[(a.e.service, a.e.userRef)].userId;
      TopicFrame(stored, u, ChatOf(stored, u), a.e.service, a.reply);
    }
  }

  /** When a link request succeeds, for all inputs, and for whom: the user its code was issued to. */
  lemma LinkRequestSucceedsIff(db: Db, s: string, ref: string, code: string, name: string, now: int, reply: Reply)
    requires FkOk(db)
    ensures var r := HandleLink(db, s, ref, code, name, now, reply).1;
            && (r.Okay? <==>
                  && s in db.services && code in db.linkCodes && !db.linkCodes[code].used
                  && now < db.linkCodes[code].expires * SECOND
                  && !OwnedByOther(db, (s, ref), db.linkCodes[code].userId))
            && (r.Okay? ==> r.value.0 == db.linkCodes[code].userId)
  {
    hide LinkIdentity;
    hide EnsureTopic;
    hide Topic.Sanitized;
    if code in db.linkCodes {
      var u := db.linkCodes[code].userId;
      LinkSucceedsIff(db, s, ref, code, u, u, Topic.Sanitized(name), now);
    }
  }

  /** A code issued for one service links an identity of another, although the source has an error
      for "code bound to a different service". */
  lemma CodeLinksAnotherService() returns (dbs: seq<Db>, acts: seq<Action>)
    ensures IsRun(dbs, acts) && |acts| == 5
    ensures acts[3] == IssueLinkCode("123456", "goyoutube", 7, 600 * SECOND, 0)
    ensures acts[4] == LinkRequest("gomail", "17", "123456", "", SECOND, Refused)
    ensures dbs[5].links == map[("gomail", "17") := Link(7, true)]
  {
    acts := [Upsert(7), NewService("goyoutube", "goYouTube"), NewService("gomail", "goMail"),
             IssueLinkCode("123456", "goyoutube", 7, 600 * SECOND, 0), LinkRequest("gomail", "17", "123456", "", SECOND, Refused)];
    var d1 := Apply(EmptyDb, acts[0]);
    var d2 := Apply(d1, acts[1]);
    var d3 := Apply(d2, acts[2]);
    var d4 := Apply(d3, acts[3]);
    assert d4.linkCodes["123456"] == LinkCode("goyoutube", 7, 600, false);
    var d5 := Apply(d4, acts[4]);
    dbs := [EmptyDb, d1, d2, d3, d4, d5];
  }

  /** From the moment it is issued a link code works for at most its ttl and at least its ttl less
      one second, because expiry is kept in whole seconds. */
  lemma CodeLifetime(db: Db, code: string, s: string, u: int, ttl: int, issued: int, now: int, ref: string, name: string, reply: Reply)
    requires FkOk(db) && Refers(db, u, s) && code !in db.linkCodes && (s, ref) !in db.links
    ensures var (db', r) := CreateLinkCode(db, code, s, u, ttl, issued);
            && (HandleLink(db', s, ref, code, name, now, reply).1.Okay? ==> now < issued + ttl)
            && (now <= issued + ttl - 1_000_000_000 ==> HandleLink(db', s, ref, code, name, now, reply).1.Okay?)
            && (HandleLink(db', s, ref, code, name, now, reply).1.Okay? ==> HandleLink(db', s, ref, code, name, now, reply).1.value.0 == u)
  {
    var db' := CreateLinkCode(db, code, s, u, ttl, issued).0;
    assert FkOk(db');
    LinkSucceedsIff(db', s, ref, code, u, u, Topic.Sanitized(name), now);
    LinkRequestSucceedsIff(db', s, ref, code, name, now, reply);
    assert Secs(issued + ttl) * SECOND <= issued + ttl < (Secs(issued + ttl) + 1) * SECOND;
  }

  /** A connect code likewise, also one that was used before: issuing it anew opens it. */
  lemma ConnectCodeLifetime(db: Db, code: string, u: int, ttl: int, issued: int, now: int, chat: int)
    requires FkOk(db) && u in db.users
    ensures var (db', r) := CreateConnectCode(db, code, u, ttl, issued);
            && r.Okay?
            && (FinishSetup(db', u, chat, code, now).1.Okay? ==> now < issued + ttl)
            && (now <= issued + ttl - 1_000_000_000 ==> FinishSetup(db', u, chat, code, now).1.Okay?)
            && forall x :: x != u ==> FinishSetup(db', x, chat, code, now).1 == Fail(CodeInvalid)
  {
    var db' := CreateConnectCode(db, code, u, ttl, issued).0;
    assert FkOk(db');
    SetupSucceedsIff(db', u, chat, code, now);
    assert Secs(issued + ttl) * SECOND <= issued + ttl < (Secs(issued + ttl) + 1) * SECOND;
  }

  /** Every answer to a link request, for all inputs. "Bound to a different service" is only ever said
      in the very second of expiry, of a code that no longer works. */
  lemma LinkRequestAnswers(db: Db, s: string, ref: string, code: string, name: string, now: int, reply: Reply)
    requires FkOk(db)
    ensures var r := HandleLink(db, s, ref, code, name, now, reply).1;
            if s !in db.services then r == Fail(ServiceUnknown)
            else if code !in db.linkCodes then r == Fail(CodeInvalid)
            else
              var c := db.linkCodes[code];
              if c.used then r == Fail(CodeUsed)
              else if now > c.expires * SECOND then r == Fail(CodeInvalid)
              else if now == c.expires * SECOND then r == Fail(if c.service != s then CodeMismatch else CodeInvalid)
              else if OwnedByOther(db, (s, ref), c.userId) then r == Fail(AlreadyLinked)
              else r.Okay? && r.value.0 == c.userId
  {
    hide EnsureTopic;
    hide Topic.Sanitized;
    LinkRequestSucceedsIff(db, s, ref, code, name, now, reply);
    if code in db.linkCodes { SecsBelow(now, db.linkCodes[code].expires); }
  }

  // ---------- Topics get made ----------

  /** Asking for a topic leaves one on record whenever there was one or Telegram makes one, and answers
      with it; a new one is the one made, in the chat asked for. */
  lemma EnsureMakesTopic(db: Db, u: int, chat: int, s: string, reply: Reply)
    ensures var (db', r) := EnsureTopic(db, u, chat, s, reply);
            var k := (u, s);
            && (r.Okay? <==> k in db.topics || (reply.Created? && Refers(db, u, s)))
            && (r.Fail? ==> db' == db && r.error == if reply.Refused? then TopicRefused else Constraint)
            && (r.Okay? ==> k in db'.topics && r.value == (db'.topics[k].threadId, k !in db.topics))
            && (r.Okay? && k !in db.topics ==> db' == db.(topics := db.topics[k := TopicRow(reply.threadId, chat)]))
            && (k in db.topics ==> db' == db)
  {
  }

  /** Where an event goes, for all inputs: to nobody unless it is routed; else to its owner alone, in
      the chat and mode of the owner's row, and in the topic on record afterwards. */
  lemma RoutedTo(db: Db, e: Event, reply: Reply)
    requires FkOk(db)
    ensures var (db', targets) := ResolveRoutes(db, e, reply);
            if !Routed(db, e) then db' == db && targets == []
            else
              var u := db.links[(e.service, e.userRef)].userId;
              var k := (u, e.service);
              && targets == [RouteTarget(u, ChatOf(db, u), if InGroup(db, u) && k in db'.topics then db'.topics[k].threadId else 0,
                                         db.users[u].mode)]
              && (InGroup(db, u) && reply.Created? ==> k in db'.topics)
              && (InGroup(db, u) && reply.Created? && k !in db.topics ==> db'.topics[k] == TopicRow(reply.threadId, ChatOf(db, u)))
              && (!InGroup(db, u) ==> db' == db)
  {
    if Routed(db, e) {
      var u := db.links[(e.service, e.userRef)].userId;
      EnsureMakesTopic(db, u, ChatOf(db, u), e.service, reply);
      hide EnsureTopic;
    }
  }

  /** So an accepted event whose owner is in a group leaves a topic on record, as soon as Telegram makes
      one; and a link request does so at once. */
  lemma PostingMakesTopic(db: Db, id: string, e: Event, allowed: bool, known: bool, drop: bool, reply: Reply)
    requires FkOk(db) && Routed(db, e) && reply.Created?
    ensures var (db', answer, us) := HandleEvent(db, id, e, allowed, known, drop, reply);
            var u := db.links[(e.service, e.userRef)].userId;
            var k := (u, e.service);
            answer.Accepted? && InGroup(db, u) ==>
              k in db'.topics && db'.topics[k] == if k in db.topics then db.topics[k] else TopicRow(reply.threadId, ChatOf(db, u))
  {
    hide ResolveRoutes;
    hide Admits;
    IngestFrame(db, id, e, allowed, known, drop, reply);
    var stored := InsertEvent(db, id, e).0;
    AdmitsSame(db, stored, e);
    RoutedTo(stored, e, reply);
    assert stored.users == db.users && stored.links == db.links && stored.topics == db.topics;
  }

  lemma LinkingMakesTopic(db: Db, s: string, ref: string, code: string, name: string, now: int, reply: Reply)
    requires FkOk(db) && reply.Created? && HandleLink(db, s, ref, code, name, now, reply).1.Okay?
    ensures var (db', r) := HandleLink(db, s, ref, code, name, now, reply);
            var u := r.value.0;
            var k := (u, s);
            InGroup(db, u) ==>
              k in db'.topics && db'.topics[k] == if k in db.topics then db.topics[k] else TopicRow(reply.threadId, ChatOf(db, u))
  {
    hide LinkIdentity;
    hide EnsureTopic;
    hide Topic.Sanitized;
    var u := UserIDForLinkCode(db, code, now).value;
    UntouchedByRedeem(db, s, ref, code, u, u, Topic.Sanitized(name), now);
    LinkSucceedsIff(db, s, ref, code, u, u, Topic.Sanitized(name), now);
    LinkEffect(db, s, ref, code, u, u, Topic.Sanitized(name), now);
    var linked := LinkIdentity(db, s, ref, code, u, u, Topic.Sanitized(name), now).0;
    EnsureMakesTopic(linked, u, ChatOf(linked, u), s, reply);
  }

  // ---------- Services and groups ----------

  /** A service is registered once, under the name given, and enabling or disabling it changes that
      flag alone. */
  lemma ServiceEffect(db: Db, s: string, name: string, on: bool)
    ensures var (db', r) := CreateService(db, s, name);
            && (r.Okay? <==> s !in db.services) && (r.Fail? ==> db' == db)
            && (r.Okay? ==> db' == db.(services := db.services[s := Service(name, true)]))
    ensures var db' := SetEnabled(db, s, on);
            && db' == db.(services := db'.services) && db'.services.Keys == db.services.Keys
            && (s in db.services ==> db'.services[s] == Service(db.services[s].displayName, on))
            && forall x :: x in db.services && x != s ==> db'.services[x] == db.services[x]
  {
    if s !in db.services { assert SetEnabled(db, s, on) == db; }
  }

  lemma GroupStep(db: Db, a: Action, u: int)
    requires FkOk(db)
    ensures var db' := Apply(db, a);
            && (u in db.users && !Rebinds(db, a, u) ==> u in db'.users && db'.users[u] == db.users[u])
            && (u !in db.users && u in db'.users ==> db'.users[u] == User(Dm, None))
            && (Rebinds(db, a, u) ==> u in db'.users && db'.users[u] == User(Group, Some(a.chat)))
  {
    hide *;
    if a.Upsert? {
      ApplyPlain(db, a);
      UpsertEffect(db, a.u, u);
    } else if a.Connect? {
      ApplyCases(db, a);
      ConnectEffect(db, a, u);
    } else {
      Untouched(db, a);
    }
    OnlyConnectRebinds(db, a, u);
  }

  lemma OnlyConnectRebinds(db: Db, a: Action, u: int)
    ensures Rebinds(db, a, u) ==> a.Connect?
  {
    hide FinishSetup;
  }

  lemma UpsertEffect(db: Db, x: int, u: int)
    ensures var db' := UpsertUser(db, x);
            && (u in db.users ==> u in db'.users && db'.users[u] == db.users[u])
            && (u !in db.users && u in db'.users ==> db'.users[u] == User(Dm, None))
  {
  }

  lemma ConnectEffect(db: Db, a: Action, u: int)
    requires FkOk(db) && a.Connect?
    ensures var db' := FinishSetup(db, a.u, a.chat, a.code, a.now).0;
            && (u in db.users && !Rebinds(db, a, u) ==> u in db'.users && db'.users[u] == db.users[u])
            && (u in db'.users ==> u in db.users)
            && (Rebinds(db, a, u) ==> u in db'.users && db'.users[u] == User(Group, Some(a.chat)))
  {
  }

  /** In every run a user has the group of that user's own last successful /connect, and none before
      the first. */
  lemma {:induction false} GroupIsLastConnect(dbs: seq<Db>, acts: seq<Action>, n: nat, u: int)
    requires IsRun(dbs, acts) && n < |dbs| && u in dbs[n].users
    ensures (dbs[n].users[u] == User(Dm, None) && forall m :: 0 <= m < n ==> !Rebinds(dbs[m], acts[m], u))
            || LastConnect(dbs, acts, n, u)
  {
    hide Apply;
    hide Rebinds;
    if n > 0 {
      FkRun(dbs, acts, n - 1);
      GroupStep(dbs[n - 1], acts[n - 1], u);
      if Rebinds(dbs[n - 1], acts[n - 1], u) {
        assert dbs[n].users[u] == User(Group, Some(acts[n - 1].chat)) by { OnlyConnectRebinds(dbs[n - 1], acts[n - 1], u); }
      } else if u in dbs[n - 1].users {
        GroupIsLastConnect(dbs, acts, n - 1, u);
      } else {
        NeverBound(dbs, acts, n - 1, u);
      }
    }
  }

  ghost predicate LastConnect(dbs: seq<Db>, acts: seq<Action>, n: nat, u: int)
    requires |dbs| == |acts| + 1 && n < |dbs|
  {
    exists m :: 0 <= m < n && Rebinds(dbs[m], acts[m], u) && u in dbs[n].users
                && dbs[n].users[u] == User(Group, Some(acts[m].chat)) && forall l :: m < l < n ==> !Rebinds(dbs[l], acts[l], u)
  }

  /** Users do not vanish, so one who is not there was never bound. */
  lemma {:induction false} NeverBound(dbs: seq<Db>, acts: seq<Action>, n: nat, u: int)
    requires IsRun(dbs, acts) && n < |dbs| && u !in dbs[n].users
    ensures forall m :: 0 <= m < n ==> !Rebinds(dbs[m], acts[m], u)
  {
    hide Apply;
    hide Rebinds;
    if n > 0 {
      FkRun(dbs, acts, n - 1);
      GroupStep(dbs[n - 1], acts[n - 1], u);
      NothingForgotten(dbs[n - 1], acts[n - 1]);
      NeverBound(dbs, acts, n - 1, u);
    }
  }

  // ---------- Ownership over whole runs ----------

  lemma OwnerStep(db: Db, a: Action, k: LinkKey)
    requires k in db.links && !(a.AdminBind? && (a.s, a.ref) == k)
    ensures k in Apply(db, a).links && Apply(db, a).links[k].userId == db.links[k].userId
  {
    if a.LinkRequest? {
      OwnerLink(db, a, k);
    } else if a.Redeem? {
      OwnerRedeem(db, a.s, a.ref, a.code, a.codeUser, a.u, a.name, a.now, k);
    } else if a.Claim? || a.EnsureUser? || a.AdminBind? || a.AdminUnbind? {
      OwnerBind(db, a, k);
    } else {
      hide Apply;
      Untouched(db, a);
    }
  }

  lemma OwnerRedeem(db: Db, s: string, ref: string, code: string, codeUser: int, u: int, name: string, now: int, k: LinkKey)
    requires k in db.links
    ensures var db' := LinkIdentity(db, s, ref, code, codeUser, u, name, now).0;
            k in db'.links && db'.links[k].userId == db.links[k].userId
  {
  }

  lemma OwnerLink(db: Db, a: Action, k: LinkKey)
    requires k in db.links && a.LinkRequest?
    ensures k in Apply(db, a).links && Apply(db, a).links[k].userId == db.links[k].userId
  {
    hide HandleLink;
    hide LinkIdentity;
    LinkFrame(db, a.s, a.ref, a.code, a.name, a.now, a.reply);
    var r := HandleLink(db, a.s, a.ref, a.code, a.name, a.now, a.reply).1;
    if r.Okay? { OwnerRedeem(db, a.s, a.ref, a.code, r.value.0, r.value.0, Topic.Sanitized(a.name), a.now, k); }
  }

  lemma OwnerBind(db: Db, a: Action, k: LinkKey)
    requires k in db.links && !(a.AdminBind? && (a.s, a.ref) == k)
    requires a.Claim? || a.EnsureUser? || a.AdminBind? || a.AdminUnbind?
    ensures k in Apply(db, a).links && Apply(db, a).links[k].userId == db.links[k].userId
  {
  }

  /** Once an identity has an owner it keeps it in any run in which no administrator rebinds it:
      through unlinking, relinking by the owner, attempts by others and every other action. */
  lemma {:induction false} OwnerNeverChanges(dbs: seq<Db>, acts: seq<Action>, i: nat, j: nat, k: LinkKey)
    requires IsRun(dbs, acts) && i <= j < |dbs| && k in dbs[i].links
    requires forall n :: i <= n < j ==> !(acts[n].AdminBind? && (acts[n].s, acts[n].ref) == k)
    ensures k in dbs[j].links && dbs[j].links[k].userId == dbs[i].links[k].userId
  {
    hide Apply;
    if i < j {
      OwnerNeverChanges(dbs, acts, i, j - 1, k);
      OwnerStep(dbs[j - 1], acts[j - 1], k);
    }
  }

  lemma ClaimSucceedsIff(db: Db, u: int)
    ensures var (db', r) := ClaimGovpnAdmin(db, u);
            && (r.Okay? <==> ADMIN_KEY in db.links || Refers(db, u, "govpn"))
            && (db' == db || (r.Okay? && db' == db.(links := db.links[("govpn", "admin") := Link(u, true)])))
  {
  }

  /** The first user to claim govpn's admin identity keeps it, unless an administrator rebinds it:
      every later claim succeeds without effect. */
  lemma FirstClaimerKeepsAdmin(dbs: seq<Db>, acts: seq<Action>, i: nat, j: nat, u: int)
    requires IsRun(dbs, acts) && i < j < |acts| && acts[i] == Claim(u)
    requires ADMIN_KEY !in dbs[i].links && Refers(dbs[i], u, "govpn")
    requires forall n :: i < n < j ==> !(acts[n].AdminBind? && (acts[n].s, acts[n].ref) == ADMIN_KEY)
    ensures ADMIN_KEY in dbs[j].links && dbs[j].links[ADMIN_KEY].userId == u
    ensures acts[j].Claim? ==> dbs[j + 1] == dbs[j] && ClaimGovpnAdmin(dbs[j], acts[j].u).1.Okay?
  {
    assert dbs[i + 1] == Apply(dbs[i], acts[i]) == ClaimGovpnAdmin(dbs[i], u).0;
    OwnerNeverChanges(dbs, acts, i + 1, j, ADMIN_KEY);
    if acts[j].Claim? { assert dbs[j + 1] == ClaimGovpnAdmin(dbs[j], acts[j].u).0; }
  }

  /** Action `a` redeems link code `code` successfully. */
  predicate Redeems(db: Db, a: Action, code: string) {
    || (a.LinkRequest? && a.code == code && HandleLink(db, a.s, a.ref, a.code, a.name, a.now, a.reply).1.Okay?)
    || (a.Redeem? && a.code == code && LinkIdentity(db, a.s, a.ref, a.code, a.codeUser, a.u, a.name, a.now).1.Okay?)
  }

  predicate UsedUp(db: Db, code: string) {
    code in db.linkCodes && db.linkCodes[code].used
  }

  lemma UsedStep(db: Db, a: Action, code: string)
    ensures Redeems(db, a, code) ==> !UsedUp(db, code) && UsedUp(Apply(db, a), code)
    ensures UsedUp(db, code) ==> UsedUp(Apply(db, a), code)
  {
    if a.LinkRequest? {
      hide HandleLink;
      LinkFrame(db, a.s, a.ref, a.code, a.name, a.now, a.reply);
    } else if !a.Redeem? && !a.IssueLinkCode? {
      hide Apply;
      Untouched(db, a);
    }
  }

  lemma {:induction false} UsedForEver(dbs: seq<Db>, acts: seq<Action>, i: nat, j: nat, code: string)
    requires IsRun(dbs, acts) && i <= j < |dbs| && UsedUp(dbs[i], code)
    ensures UsedUp(dbs[j], code)
  {
    hide Apply;
    if i < j {
      UsedForEver(dbs, acts, i, j - 1, code);
      UsedStep(dbs[j - 1], acts[j - 1], code);
    }
  }

  /** A link code is redeemed at most once in any run, for whatever service, identity or user; a used
      code cannot even be issued again. */
  lemma LinkCodeWorksOnce(dbs: seq<Db>, acts: seq<Action>, i: nat, j: nat, code: string)
    requires IsRun(dbs, acts) && i < j < |acts| && Redeems(dbs[i], acts[i], code)
    ensures !Redeems(dbs[j], acts[j], code)
    ensures acts[j].IssueLinkCode? && acts[j].code == code ==> dbs[j + 1] == dbs[j]
  {
    UsedStep(dbs[i], acts[i], code);
    UsedForEver(dbs, acts, i + 1, j, code);
    UsedStep(dbs[j], acts[j], code);
  }

  predicate Binds(db: Db, a: Action, code: string) {
    a.Connect? && a.code == code && FinishSetup(db, a.u, a.chat, a.code, a.now).1.Okay?
  }

  predicate ConnectUsed(db: Db, code: string) {
    code in db.connectCodes && db.connectCodes[code].used
  }

  lemma ConnectStep(db: Db, a: Action, code: string)
    ensures Binds(db, a, code) ==> !ConnectUsed(db, code) && ConnectUsed(Apply(db, a), code)
    ensures ConnectUsed(db, code) && !(a.IssueConnectCode? && a.code == code) ==> ConnectUsed(Apply(db, a), code)
  {
    hide Apply;
    hide FinishSetup;
    hide CreateConnectCode;
    if a.Connect? {
      ApplyCases(db, a);
      ConsumeOnce(db, a.u, a.chat, a.code, a.now, code);
    } else if a.IssueConnectCode? {
      ApplyPlain(db, a);
      if ConnectUsed(db, code) && a.code != code { IssueKeepsUsed(db, a.code, a.u, a.ttl, a.now, code); }
    } else {
      Untouched(db, a);
    }
  }

  lemma ConsumeOnce(db: Db, u: int, chat: int, code: string, now: int, other: string)
    ensures var (db', r) := FinishSetup(db, u, chat, code, now);
            && (r.Okay? ==> !ConnectUsed(db, code) && ConnectUsed(db', code))
            && (ConnectUsed(db, other) ==> ConnectUsed(db', other))
  {
  }

  lemma IssueKeepsUsed(db: Db, code: string, u: int, ttl: int, now: int, other: string)
    requires ConnectUsed(db, other) && other != code
    ensures ConnectUsed(CreateConnectCode(db, code, u, ttl, now).0, other)
  {
  }

  lemma {:induction false} ConnectUsedUntilReissued(dbs: seq<Db>, acts: seq<Action>, i: nat, j: nat, code: string)
    requires IsRun(dbs, acts) && i <= j < |dbs| && ConnectUsed(dbs[i], code)
    requires forall n :: i <= n < j ==> !(acts[n].IssueConnectCode? && acts[n].code == code)
    ensures ConnectUsed(dbs[j], code)
  {
    hide Apply;
    if i < j {
      ConnectUsedUntilReissued(dbs, acts, i, j - 1, code);
      ConnectStep(dbs[j - 1], acts[j - 1], code);
    }
  }

  /** A connect code binds a group at most once per issue: between two uses it was issued again. */
  lemma ConnectCodeWorksOncePerIssue(dbs: seq<Db>, acts: seq<Action>, i: nat, j: nat, code: string)
    requires IsRun(dbs, acts) && i < j < |acts| && Binds(dbs[i], acts[i], code) && Binds(dbs[j], acts[j], code)
    ensures exists n :: i < n < j && acts[n].IssueConnectCode? && acts[n].code == code
  {
    ConnectStep(dbs[i], acts[i], code);
    ConnectStep(dbs[j], acts[j], code);
    if forall n :: i + 1 <= n < j ==> !(acts[n].IssueConnectCode? && acts[n].code == code) {
      ConnectUsedUntilReissued(dbs, acts, i + 1, j, code);
    }
  }

  // ---------- Topics, with every handler atomic ----------

  /** Action `a` makes Telegram create a topic for (u, s). */
  predicate CreatesTopic(db: Db, a: Action, k: SubKey) {
    k !in db.topics && k in Apply(db, a).topics
  }

  predicate Rebinds(db: Db, a: Action, u: int) {
    a.Connect? && a.u == u && FinishSetup(db, a.u, a.chat, a.code, a.now).1.Okay?
  }

  lemma TopicStep(db: Db, a: Action, k: SubKey)
    requires k in db.topics && !Rebinds(db, a, k.0)
    ensures k in Apply(db, a).topics && Apply(db, a).topics[k] == db.topics[k]
  {
    hide Apply;
    hide HandleLink;
    hide HandleEvent;
    ApplyCases(db, a);
    if a.LinkRequest? {
      LinkFrame(db, a.s, a.ref, a.code, a.name, a.now, a.reply);
    } else if a.Ingest? {
      IngestFrame(db, a.id, a.e, a.allowed, a.known, a.drop, a.reply);
    } else if !a.Connect? {
      Untouched(db, a);
    }
  }

  /** A topic row is fixed until its user binds a group again. */
  lemma {:induction false} TopicFixedUntilRebind(dbs: seq<Db>, acts: seq<Action>, i: nat, j: nat, k: SubKey)
    requires IsRun(dbs, acts) && i <= j < |dbs| && k in dbs[i].topics
    requires forall n :: i <= n < j ==> !Rebinds(dbs[n], acts[n], k.0)
    ensures k in dbs[j].topics && dbs[j].topics[k] == dbs[i].topics[k]
  {
    hide Apply;
    hide Rebinds;
    if i < j {
      TopicFixedUntilRebind(dbs, acts, i, j - 1, k);
      TopicStep(dbs[j - 1], acts[j - 1], k);
    }
  }

  /** Between two creations of a topic for one user and service the user bound a group. */
  lemma OneTopicPerBinding(dbs: seq<Db>, acts: seq<Action>, i: nat, j: nat, k: SubKey)
    requires IsRun(dbs, acts) && i < j < |acts| && CreatesTopic(dbs[i], acts[i], k) && CreatesTopic(dbs[j], acts[j], k)
    ensures exists n :: i < n < j && Rebinds(dbs[n], acts[n], k.0)
  {
    hide Apply;
    hide Rebinds;
    if forall n :: i + 1 <= n < j ==> !Rebinds(dbs[n], acts[n], k.0) {
      TopicFixedUntilRebind(dbs, acts, i + 1, j, k);
    }
  }

  /** Every topic row belongs to a user in group mode and was created in the group bound now. */
  ghost predicate TopicsAtHome(db: Db) {
    forall k :: k in db.topics ==> InGroup(db, k.0) && db.topics[k].chat == ChatOf(db, k.0)
  }

  lemma HomeTopic(db: Db, u: int, s: string, reply: Reply)
    requires TopicsAtHome(db) && InGroup(db, u)
    ensures TopicsAtHome(EnsureTopic(db, u, ChatOf(db, u), s, reply).0)
  {
  }

  lemma HomeIngest(db: Db, id: string, e: Event, allowed: bool, known: bool, drop: bool, reply: Reply)
    requires TopicsAtHome(db)
    ensures TopicsAtHome(HandleEvent(db, id, e, allowed, known, drop, reply).0)
  {
    hide EnsureTopic;
    var stored := InsertEvent(db, id, e).0;
    assert TopicsAtHome(stored);
    if Routed(stored, e) {
      var u := stored.links[(e.service, e.userRef)].userId;
      if InGroup(stored, u) { HomeTopic(stored, u, e.service, reply); }
    }
  }

  lemma HomeLink(db: Db, s: string, ref: string, code: string, name: string, now: int, reply: Reply)
    requires TopicsAtHome(db)
    ensures TopicsAtHome(HandleLink(db, s, ref, code, name, now, reply).0)
  {
    hide LinkIdentity;
    hide EnsureTopic;
    var owner := UserIDForLinkCode(db, code, now);
    if s in db.services && owner.Okay? {
      var u := owner.value;
      UntouchedByRedeem(db, s, ref, code, u, u, Topic.Sanitized(name), now);
      var linked := LinkIdentity(db, s, ref, code, u, u, Topic.Sanitized(name), now).0;
      if InGroup(linked, u) { HomeTopic(linked, u, s, reply); }
    }
  }

  /** A successful link request reports a topic exactly when one is on record afterwards, made now or
      earlier; a refused creation is reported as none. */
  lemma LinkReportsTopicIff(db: Db, s: string, ref: string, code: string, name: string, now: int, reply: Reply)
    requires TopicsAtHome(db) && HandleLink(db, s, ref, code, name, now, reply).1.Okay?
    ensures var (db', r) := HandleLink(db, s, ref, code, name, now, reply);
            r.value.1 <==> (r.value.0, s) in db'.topics
  {
    hide LinkIdentity;
    hide Topic.Sanitized;
    var u := UserIDForLinkCode(db, code, now).value;
    UntouchedByRedeem(db, s, ref, code, u, u, Topic.Sanitized(name), now);
  }

  lemma HomeConnect(db: Db, u: int, chat: int, code: string, now: int)
    requires TopicsAtHome(db)
    ensures TopicsAtHome(FinishSetup(db, u, chat, code, now).0)
  {
  }

  lemma HomeStep(db: Db, a: Action)
    requires TopicsAtHome(db)
    ensures TopicsAtHome(Apply(db, a))
  {
    match a
    case LinkRequest(s, ref, code, name, now, reply) => HomeLink(db, s, ref, code, name, now, reply);
    case Ingest(id, e, allowed, known, drop, reply) => HomeIngest(db, id, e, allowed, known, drop, reply);
    case Connect(u, chat, code, now) => HomeConnect(db, u, chat, code, now);
    case Upsert(u) =>
    case _ => HomeRest(db, a);
  }

  lemma HomeRest(db: Db, a: Action)
    requires TopicsAtHome(db) && !a.LinkRequest? && !a.Ingest? && !a.Connect? && !a.Upsert?
    ensures TopicsAtHome(Apply(db, a))
  {
    hide Apply;
    Untouched(db, a);
  }

  /** Across any number of rebinds, every topic row names a thread of the chat its user's messages
      go to now. */
  lemma {:induction false} TopicsFollowTheGroup(dbs: seq<Db>, acts: seq<Action>, n: nat)
    requires IsRun(dbs, acts) && n < |dbs|
    ensures TopicsAtHome(dbs[n])
  {
    hide Apply;
    if n > 0 {
      TopicsFollowTheGroup(dbs, acts, n - 1);
      HomeStep(dbs[n - 1], acts[n - 1]);
    }
  }
}
