/** The store and the request handlers as they run: statements that update the tables one after the
    other, each call proved to do what Tables says of it. */
module Store {
  import opened Deliveries
  import opened Tables
  import Coalesce
  import Topic

  class Store {
    var users: map<int, User>
    var services: map<string, Service>
    var links: map<LinkKey, Link>
    var subs: map<SubKey, Sub>
    var events: map<string, Event>
    var topics: map<SubKey, TopicRow>
    var linkCodes: map<string, LinkCode>
    var connectCodes: map<string, ConnectCode>

    ghost function View(): Db
      reads this
    {
      Db(users, services, links, subs, events, topics, linkCodes, connectCodes)
    }

    constructor ()
      ensures View() == EmptyDb
    {
      users, services, links, subs := map[], map[], map[], map[];
      events, topics, linkCodes, connectCodes := map[], map[], map[], map[];
    }

    // ---------- Codes ----------

    method CreateLinkCode(code: string, s: string, u: int, ttl: int, now: int) returns (r: Result<()>)
      modifies this
      ensures (View(), r) == Tables.CreateLinkCode(old(View()), code, s, u, ttl, now)
    {
      if code in linkCodes || u !in users || s !in services {
        return Fail(Constraint);
      }
      linkCodes := linkCodes[code := LinkCode(s, u, Secs(now + ttl), false)];
      r := Okay(());
    }

    method CreateConnectCode(code: string, u: int, ttl: int, now: int) returns (r: Result<()>)
      modifies this
      ensures (View(), r) == Tables.CreateConnectCode(old(View()), code, u, ttl, now)
    {
      if u !in users {
        return Fail(Constraint);
      }
      connectCodes := connectCodes[code := ConnectCode(u, Secs(now + ttl), false)];
      r := Okay(());
    }

    method ConsumeConnectCode(code: string, u: int, now: int) returns (r: Result<()>)
      modifies this
      ensures (View(), r) == Tables.ConsumeConnectCode(old(View()), code, u, now)
    {
      var affected := 0;
      if code in connectCodes && !connectCodes[code].used && connectCodes[code].expires > Secs(now) && connectCodes[code].userId == u {
        connectCodes := connectCodes[code := connectCodes[code].(used := true)];
        affected := 1;
      }
      if affected == 0 {
        if code in connectCodes && connectCodes[code].used {
          return Fail(CodeUsed);
        }
        return Fail(CodeInvalid);
      }
      r := Okay(());
    }

    method UserIDForLinkCode(code: string, now: int) returns (r: Result<int>)
      ensures r == Tables.UserIDForLinkCode(View(), code, now)
    {
      if code !in linkCodes {
        return Fail(CodeInvalid);
      }
      var c := linkCodes[code];
      if c.used {
        return Fail(CodeUsed);
      }
      if now > c.expires * SECOND {
        return Fail(CodeInvalid);
      }
      r := Okay(c.userId);
    }

    // ---------- Identity ----------

    /** The code is consumed first; every later failure rolls the transaction back. */
    method LinkIdentity(s: string, ref: string, code: string, codeUser: int, u: int, name: string, now: int) returns (r: Result<()>)
      modifies this
      ensures (View(), r) == Tables.LinkIdentity(old(View()), s, ref, code, codeUser, u, name, now)
    {
      var codes0, links0 := linkCodes, links;
      var affected := 0;
      if code in linkCodes && !linkCodes[code].used && linkCodes[code].expires > Secs(now) && linkCodes[code].userId == codeUser {
        linkCodes := linkCodes[code := linkCodes[code].(used := true)];
        affected := 1;
      }
      if affected == 0 {
        if code in linkCodes {
          if linkCodes[code].used {
            return Fail(CodeUsed);
          }
          if linkCodes[code].service != s {
            return Fail(CodeMismatch);
          }
        }
        return Fail(CodeInvalid);
      }
      if codeUser != u {
        linkCodes := codes0;
        return Fail(CodeMismatch);
      }
      if (s, ref) in links {
        if links[(s, ref)].userId != u {
          linkCodes := codes0;
          return Fail(AlreadyLinked);
        }
        links := links[(s, ref) := links[(s, ref)].(active := true)];
      } else if u !in users || s !in services {
        linkCodes := codes0;
        return Fail(Constraint);
      } else {
        links := links[(s, ref) := Link(u, true)];
      }
      if (u, s) in subs {
        subs := subs[(u, s) := subs[(u, s)].(muted := false)];
      } else if u !in users || s !in services {
        linkCodes, links := codes0, links0;
        return Fail(Constraint);
      } else {
        subs := subs[(u, s) := Sub([], false)];
      }
      if name != "" && s in services {
        services := services[s := services[s].(displayName := name)];
      }
      r := Okay(());
    }

    method EnsureServiceUser(s: string, ref: string, u: int) returns (r: Result<()>)
      modifies this
      ensures (View(), r) == Tables.EnsureServiceUser(old(View()), s, ref, u)
    {
      if (s, ref) in links {
        links := links[(s, ref) := links[(s, ref)].(active := true)];
      } else if u !in users || s !in services {
        return Fail(Constraint);
      } else {
        links := links[(s, ref) := Link(u, true)];
      }
      if (u, s) !in subs {
        if u !in users || s !in services {
          return Fail(Constraint);
        }
        subs := subs[(u, s) := Sub([], false)];
      }
      r := Okay(());
    }

    method AdminLink(s: string, ref: string, u: int) returns (r: Result<()>)
      modifies this
      ensures (View(), r) == Tables.AdminLink(old(View()), s, ref, u)
    {
      if u !in users || s !in services {
        return Fail(Constraint);
      }
      links := links[(s, ref) := Link(u, true)];
      if (u, s) !in subs {
        subs := subs[(u, s) := Sub([], false)];
      }
      r := Okay(());
    }

    method AdminUnlink(s: string, ref: string)
      modifies this
      ensures View() == Tables.AdminUnlink(old(View()), s, ref)
    {
      if (s, ref) in links {
        links := links[(s, ref) := links[(s, ref)].(active := false)];
      }
    }

    method ClaimGovpnAdmin(u: int) returns (r: Result<()>)
      modifies this
      ensures (View(), r) == Tables.ClaimGovpnAdmin(old(View()), u)
    {
      if ADMIN_KEY in links {
        return Okay(());
      }
      if u !in users || "govpn" !in services {
        return Fail(Constraint);
      }
      links := links[ADMIN_KEY := Link(u, true)];
      r := Okay(());
    }

    // ---------- Users, subscriptions, topics ----------

    method SetDeliveryMode(u: int, mode: Mode, group: Option<int>)
      modifies this
      ensures View() == Tables.SetDeliveryMode(old(View()), u, mode, group)
    {
      if u in users {
        users := users[u := User(mode, group)];
      }
    }

    method EventTypesEnabled(u: int, s: string) returns (types: seq<string>)
      ensures types == Tables.EventTypesEnabled(View(), u, s)
    {
      types := [];
      if (u, s) in subs {
        types := subs[(u, s)].types;
      }
    }

    method SetEventTypes(u: int, s: string, types: seq<string>)
      modifies this
      ensures View() == Tables.SetEventTypes(old(View()), u, s, types)
    {
      if (u, s) in subs {
        subs := subs[(u, s) := subs[(u, s)].(types := types)];
      }
    }

    method SetMuted(u: int, s: string, muted: bool)
      modifies this
      ensures View() == Tables.SetMuted(old(View()), u, s, muted)
    {
      if (u, s) in subs {
        subs := subs[(u, s) := subs[(u, s)].(muted := muted)];
      }
    }

    /** `reply` is what the creator callback would come back with if it were called. */
    method EnsureTopic(u: int, chat: int, s: string, reply: Reply) returns (r: Result<(int, bool)>)
      modifies this
      ensures (View(), r) == Tables.EnsureTopic(old(View()), u, chat, s, reply)
    {
      if (u, s) in topics {
        return Okay((topics[(u, s)].threadId, false));
      }
      if reply.Refused? {
        return Fail(TopicRefused);
      }
      if u !in users || s !in services {
        return Fail(Constraint);
      }
      topics := topics[(u, s) := TopicRow(reply.threadId, chat)];
      r := Okay((reply.threadId, true));
    }

    method ClearUserTopics(u: int)
      modifies this
      ensures View() == Tables.ClearUserTopics(old(View()), u)
    {
      topics := map k | k in topics && k.0 != u :: topics[k];
    }

    // ---------- Events and routing ----------

    method InsertEvent(id: string, e: Event) returns (r: Result<()>)
      modifies this
      ensures (View(), r) == Tables.InsertEvent(old(View()), id, e)
    {
      if id in events {
        return Fail(Duplicate);
      }
      events := events[id := e];
      r := Okay(());
    }

    /** The join of service_users, users and subscriptions for one event; service_users has one row
        per (service, user_ref), so the result has at most one. */
    method QueryTargets(e: Event) returns (rows: seq<(int, User)>)
      ensures rows == if Routed(View(), e) then
                        var u := links[(e.service, e.userRef)].userId;
                        [(u, users[u])]
                      else []
    {
      rows := [];
      var k := (e.service, e.userRef);
      if k in links && links[k].active && links[k].userId in users {
        var u := links[k].userId;
        if (u, e.service) !in subs {
          rows := [(u, users[u])];
        } else {
          var sub := subs[(u, e.service)];
          if !sub.muted && (sub.types == [] || e.typ in sub.types) {
            rows := [(u, users[u])];
          }
        }
      }
    }

    method ResolveRoutes(e: Event, reply: Reply) returns (out: seq<RouteTarget>)
      modifies this
      ensures (View(), out) == Tables.ResolveRoutes(old(View()), e, reply)
    {
      var rows := QueryTargets(e);
      out := [];
      var i := 0;
      while i < |rows|
        invariant i <= |rows| <= 1
        invariant (View(), out) == if i == 0 then (old(View()), []) else Tables.ResolveRoutes(old(View()), e, reply)
      {
        var u, row := rows[i].0, rows[i].1;
        assert i == 0 && out == [] && (u, row) == rows[0];
        assert Routed(old(View()), e) && u == old(links)[(e.service, e.userRef)].userId && row == old(users)[u];
        if row.mode == Group && row.group.Some? {
          var t := EnsureTopic(u, row.group.value, e.service, reply);
          if t.Fail? {
            out := out + [RouteTarget(u, row.group.value, 0, row.mode)];
          } else {
            out := out + [RouteTarget(u, row.group.value, t.value.0, row.mode)];
          }
        } else {
          out := out + [RouteTarget(u, u, 0, row.mode)];
        }
        assert out == [out[0]];
        i := i + 1;
      }
    }

    // ---------- Whole requests ----------

    method HandleLink(s: string, ref: string, code: string, displayName: string, now: int, reply: Reply) returns (r: Result<(int, bool)>)
      modifies this
      ensures (View(), r) == Tables.HandleLink(old(View()), s, ref, code, displayName, now, reply)
    {
      if s !in services {
        return Fail(ServiceUnknown);
      }
      var owner := UserIDForLinkCode(code, now);
      if owner.Fail? {
        return Fail(owner.error);
      }
      var u := owner.value;
      var name := Topic.SanitizeTopicName(displayName);
      var linked := LinkIdentity(s, ref, code, u, u, name, now);
      if linked.Fail? {
        return Fail(linked.error);
      }
      var topicCreated := false;
      if u in users && users[u].mode == Group && users[u].group.Some? {
        var t := EnsureTopic(u, users[u].group.value, s, reply);
        topicCreated := t.Okay?;
      }
      r := Okay((u, topicCreated));
    }

    method FinishSetup(u: int, chat: int, code: string, now: int) returns (r: Result<()>)
      modifies this
      ensures (View(), r) == Tables.FinishSetup(old(View()), u, chat, code, now)
    {
      r := ConsumeConnectCode(code, u, now);
      if r.Fail? {
        return r;
      }
      SetDeliveryMode(u, Group, Some(chat));
      ClearUserTopics(u);
    }

    /** `body` is the event's content under its id; `adds` are the calls of Add it leads to. */
    method HandleEvent(body: Coalesce.Item, e: Event, allowed: bool, known: bool, drop: bool, reply: Reply)
        returns (a: Answer, adds: seq<(Coalesce.Key, Coalesce.Item)>)
      modifies this
      ensures var (db', answer, us) := Tables.HandleEvent(old(View()), body.eventId, e, allowed, known, drop, reply);
              && View() == db' && a == answer
              && adds == seq(|us|, i requires 0 <= i < |us| => (KeyFor(us[i], e), ItemFor(us[i], body)))
    {
      adds := [];
      if !allowed {
        return RateLimited, [];
      }
      if (known && drop) || (!known && e.typ == "job_progress") {
        return Dropped, [];
      }
      var stored := InsertEvent(body.eventId, e);
      if stored.Fail? {
        return Repeated, [];
      }
      var targets := ResolveRoutes(e, reply);
      var i := 0;
      while i < |targets|
        invariant i <= |targets|
        invariant adds == seq(i, j requires 0 <= j < i => (KeyFor(targets[j].userId, e), ItemFor(targets[j].userId, body)))
      {
        var u := targets[i].userId;
        adds := adds + [(Coalesce.Key(u, e.service, e.typ),
                         Coalesce.Item(u, body.eventId, body.severity, body.title, body.text, body.url))];
        i := i + 1;
      }
      a := Accepted(|targets|);
    }
  }
}
