/** The inline menu: callback data, the type toggle and what it means for routing. */
module Menu {
  import opened Tables
  import Store
  import StoreRuns

  // ---------- The callback ----------

  function Split(s: string): (parts: seq<string>)
    ensures parts != []
  {
    if s == "" then [""]
    else
      var rest := Split(s[1..]);
      if s[0] == ':' then [""] + rest else [[s[0]] + rest[0]] + rest[1..]
  }

  function TrimPrefix(s: string, prefix: string): string {
    if prefix <= s then s[|prefix|..] else s
  }

  /** What a press does to the tables: mute (there is no unmute), a toggle, or nothing. */
  function Callback(db: Db, u: int, data: string): Db {
    var parts := Split(TrimPrefix(data, "menu:"));
    if |parts| < 2 then db
    else if parts[0] == "mute" then SetMuted(db, u, parts[1], true)
    else if parts[0] == "type" && |parts| >= 3 then ToggleType(db, u, parts[1], parts[2])
    else db
  }

  method Contains(list: seq<string>, v: string) returns (found: bool)
    ensures found <==> v in list
  {
    for i := 0 to |list|
      invariant v !in list[..i]
    {
      if list[i] == v {
        return true;
      }
      assert list[..i + 1] == list[..i] + [list[i]];
    }
    assert list[..|list|] == list;
    found := false;
  }

  /** Filters in place: the first `n` cells are the list without `v`, the others are left over. */
  method RemoveStr(list: array<string>, v: string) returns (n: nat)
    modifies list
    ensures n <= list.Length && list[..n] == Without(old(list[..]), v)
    ensures list[n..] == old(list[..])[n..]
  {
    n := 0;
    var i := 0;
    ghost var was := list[..];
    while i < list.Length
      invariant n <= i <= list.Length
      invariant list[..n] == Without(was[..i], v)
      invariant forall k :: n <= k < list.Length ==> list[k] == was[k]
    {
      var x := list[i];
      assert was[..i + 1][..i] == was[..i];
      if x != v {
        list[n] := x;
        n := n + 1;
        assert list[..n] == list[..n - 1] + [x];
      }
      i := i + 1;
    }
    assert was[..i] == was;
    assert list[n..] == was[n..];
  }

  method HandleMenuCallback(store: Store.Store, u: int, data: string)
    modifies store
    ensures store.View() == Callback(old(store.View()), u, data)
  {
    var parts := Split(TrimPrefix(data, "menu:"));
    if |parts| < 2 {
      return;
    }
    var action, svc := parts[0], parts[1];
    if action == "mute" {
      store.SetMuted(u, svc, true);
    } else if action == "type" {
      if |parts| < 3 {
        return;
      }
      var typ := parts[2];
      var cur := store.EventTypesEnabled(u, svc);
      var found := Contains(cur, typ);
      if found {
        var list := new string[|cur|](i requires 0 <= i < |cur| => cur[i]);
        assert list[..] == cur;
        var n := RemoveStr(list, typ);
        cur := list[..n];
      } else {
        cur := cur + [typ];
      }
      store.SetEventTypes(u, svc, cur);
    }
  }

  predicate ColonFree(s: string) {
    ':' !in s
  }

  lemma {:induction false} SplitJoined(a: string, b: string)
    requires ColonFree(a)
    ensures Split(a + ":" + b) == [a] + Split(b)
  {
    if a == "" {
      assert (a + ":" + b)[1..] == b;
    } else {
      assert (a + ":" + b)[1..] == a[1..] + ":" + b;
      SplitJoined(a[1..], b);
      assert a == [a[0]] + a[1..];
      assert ([a[1..]] + Split(b))[1..] == Split(b);
    }
  }

  lemma {:induction false} PartsAreColonFree(s: string)
    ensures forall p :: p in Split(s) ==> ColonFree(p)
    ensures ColonFree(s) ==> Split(s) == [s]
  {
    if s != "" {
      PartsAreColonFree(s[1..]);
      assert Split(s[1..])[0] in Split(s[1..]);
      assert s == [s[0]] + s[1..];
    }
  }

  /** The callback data of the button for one event type. */
  function Button(svc: string, typ: string): string {
    "menu:type:" + svc + ":" + typ
  }

  /** The button toggles the service and type it was made for exactly when neither name has a colon. */
  lemma ButtonMeansItsTypeIff(svc: string, typ: string)
    ensures var parts := Split(TrimPrefix(Button(svc, typ), "menu:"));
            parts[0] == "type" && (|parts| >= 3 && parts[1] == svc && parts[2] == typ <==> ColonFree(svc) && ColonFree(typ))
  {
    var rest := svc + ":" + typ;
    assert Button(svc, typ) == "menu:" + ("type" + ":" + rest);
    assert TrimPrefix(Button(svc, typ), "menu:") == "type" + ":" + rest;
    SplitJoined("type", rest);
    PartsAreColonFree(rest);
    if ColonFree(svc) && ColonFree(typ) {
      SplitJoined(svc, typ);
      PartsAreColonFree(typ);
    }
    var parts := Split(TrimPrefix(Button(svc, typ), "menu:"));
    if |parts| >= 3 {
      assert parts[1] == Split(rest)[0] && parts[2] == Split(rest)[1];
    }
  }

  /** What the buttons of the menu do: a type's toggles it, the mute button mutes (also when it says
      "Unmute"), and the two for moving around change nothing. */
  lemma ButtonEffects(db: Db, u: int, svc: string, typ: string)
    requires ColonFree(svc) && ColonFree(typ)
    ensures Callback(db, u, "menu:" + ("type" + ":" + (svc + ":" + typ))) == ToggleType(db, u, svc, typ)
    ensures Callback(db, u, "menu:" + ("mute" + ":" + svc)) == SetMuted(db, u, svc, true)
    ensures Callback(db, u, "menu:" + ("svc" + ":" + svc)) == db && Callback(db, u, "menu:" + ("back" + ":" + "")) == db
  {
    hide Split;
    hide TrimPrefix;
    hide ToggleType;
    hide SetMuted;
    PartsAreColonFree(typ);
    PartsAreColonFree(svc);
    PartsAreColonFree("");
    SplitJoined(svc, typ);
    TwoParts("type", svc + ":" + typ);
    TwoParts("mute", svc);
    TwoParts("svc", svc);
    TwoParts("back", "");
  }

  lemma TwoParts(action: string, rest: string)
    requires ColonFree(action)
    ensures Split(TrimPrefix("menu:" + (action + ":" + rest), "menu:")) == [action] + Split(rest)
  {
    var s := "menu:" + (action + ":" + rest);
    assert s[|"menu:"|..] == action + ":" + rest;
    SplitJoined(action, rest);
  }

  // ---------- The list as a set ----------

  predicate NoDuplicates(list: seq<string>) {
    forall i, j :: 0 <= i < j < |list| ==> list[i] != list[j]
  }

  lemma {:induction false} WithoutFacts(list: seq<string>, v: string)
    ensures forall x :: x in Without(list, v) <==> x in list && x != v
    ensures NoDuplicates(list) ==> NoDuplicates(Without(list, v))
  {
    if list != [] {
      var init, last := list[..|list| - 1], list[|list| - 1];
      WithoutFacts(init, v);
      assert list == init + [last];
      if NoDuplicates(list) {
        assert last !in init;
        Pushed(Without(init, v), last);
      }
    }
  }

  lemma Pushed(list: seq<string>, x: string)
    requires NoDuplicates(list) && x !in list
    ensures NoDuplicates(list + [x])
  {
  }

  lemma ToggledFacts(list: seq<string>, t: string)
    ensures forall x :: x in Toggled(list, t) <==> if x == t then t !in list else x in list
    ensures NoDuplicates(list) ==> NoDuplicates(Toggled(list, t))
    ensures t !in list ==> Toggled(list, t) == list + [t]
    ensures t in list ==> InOrderWithin(Toggled(list, t), list)
  {
    WithoutFacts(list, t);
    WithoutKeepsOrder(list, t);
  }

  /** `part` can be read off `whole` from left to right. */
  ghost predicate InOrderWithin(part: seq<string>, whole: seq<string>) {
    if part == [] then true
    else whole != [] &&
         if part[|part| - 1] == whole[|whole| - 1] then InOrderWithin(part[..|part| - 1], whole[..|whole| - 1])
         else InOrderWithin(part, whole[..|whole| - 1])
  }

  lemma {:induction false} WithoutKeepsOrder(list: seq<string>, v: string)
    ensures InOrderWithin(Without(list, v), list)
  {
    if list != [] {
      var init, last := list[..|list| - 1], list[|list| - 1];
      WithoutKeepsOrder(init, v);
      WithoutFacts(init, v);
      if last != v {
        assert Without(list, v)[..|Without(init, v)|] == Without(init, v);
      } else if Without(init, v) != [] {
        assert Without(list, v) == Without(init, v);
        assert Without(init, v)[|Without(init, v)| - 1] in Without(init, v);
      }
    }
  }

  // ---------- Runs ----------

  /** How often type `t` of subscription `k` is toggled by `acts`. */
  function Presses(acts: seq<StoreRuns.Action>, k: SubKey, t: string): nat {
    if acts == [] then 0
    else
      var a := acts[|acts| - 1];
      Presses(acts[..|acts| - 1], k, t) + if a.Toggle? && (a.u, a.s) == k && a.typ == t then 1 else 0
  }

  ghost predicate ListsAreSets(db: Db) {
    forall k :: k in db.subs ==> NoDuplicates(db.subs[k].types)
  }

  function AfterPress(list: seq<string>, a: StoreRuns.Action, k: SubKey): seq<string> {
    if a.Toggle? && (a.u, a.s) == k then Toggled(list, a.typ) else list
  }

  /** No action but a toggle changes a list of types; new subscriptions start with the empty list. */
  lemma TypesStep(db: Db, a: StoreRuns.Action, k: SubKey)
    ensures var db' := StoreRuns.Apply(db, a);
            && (k in db.subs ==> k in db'.subs && db'.subs[k].types == AfterPress(db.subs[k].types, a, k))
            && (k in db'.subs && k !in db.subs ==> db'.subs[k].types == [])
  {
    hide Without;
    hide Toggled;
    if a.LinkRequest? {
      TypesLink(db, a, k);
    } else if a.Redeem? {
      TypesRedeem(db, a.s, a.ref, a.code, a.codeUser, a.u, a.name, a.now, k);
    } else if a.Ingest? {
      StoreRuns.IngestFrame(db, a.id, a.e, a.allowed, a.known, a.drop, a.reply);
      StoreRuns.ApplyCases(db, a);
    } else if a.EnsureUser? || a.AdminBind? || a.Toggle? || a.Mute? {
      TypesBind(db, a, k);
    } else {
      TypesRest(db, a);
    }
  }

  lemma TypesRedeem(db: Db, s: string, ref: string, code: string, codeUser: int, u: int, name: string, now: int, k: SubKey)
    ensures var db' := LinkIdentity(db, s, ref, code, codeUser, u, name, now).0;
            && (k in db.subs ==> k in db'.subs && db'.subs[k].types == db.subs[k].types)
            && (k in db'.subs && k !in db.subs ==> db'.subs[k].types == [])
  {
  }

  lemma TypesLink(db: Db, a: StoreRuns.Action, k: SubKey)
    requires a.LinkRequest?
    ensures var db' := StoreRuns.Apply(db, a);
            && (k in db.subs ==> k in db'.subs && db'.subs[k].types == db.subs[k].types)
            && (k in db'.subs && k !in db.subs ==> db'.subs[k].types == [])
  {
    hide HandleLink;
    hide LinkIdentity;
    hide Topic.Sanitized;
    StoreRuns.LinkFrame(db, a.s, a.ref, a.code, a.name, a.now, a.reply);
    var r := HandleLink(db, a.s, a.ref, a.code, a.name, a.now, a.reply).1;
    if r.Okay? {
      TypesRedeem(db, a.s, a.ref, a.code, r.value.0, r.value.0, Topic.Sanitized(a.name), a.now, k);
    }
  }

  lemma TypesBind(db: Db, a: StoreRuns.Action, k: SubKey)
    requires a.EnsureUser? || a.AdminBind? || a.Toggle? || a.Mute?
    ensures var db' := StoreRuns.Apply(db, a);
            && (k in db.subs ==> k in db'.subs && db'.subs[k].types == AfterPress(db.subs[k].types, a, k))
            && (k in db'.subs && k !in db.subs ==> db'.subs[k].types == [])
  {
    hide *;
    StoreRuns.ApplyBind(db, a);
    NoPress(db, a, k);
    if a.EnsureUser? {
      TypesEnsure(db, a.s, a.ref, a.u, k);
    } else if a.AdminBind? {
      TypesAdmin(db, a.s, a.ref, a.u, k);
    } else if a.Mute? {
      TypesMute(db, a.u, a.s, a.on, k);
    } else {
      TypesToggle(db, a, k);
    }
  }

  lemma NoPress(db: Db, a: StoreRuns.Action, k: SubKey)
    ensures !a.Toggle? && k in db.subs ==> AfterPress(db.subs[k].types, a, k) == db.subs[k].types
  {
  }

  lemma TypesEnsure(db: Db, s: string, ref: string, u: int, k: SubKey)
    ensures var db' := EnsureServiceUser(db, s, ref, u).0;
            && (k in db.subs ==> k in db'.subs && db'.subs[k].types == db.subs[k].types)
            && (k in db'.subs && k !in db.subs ==> db'.subs[k].types == [])
  {
  }

  lemma TypesAdmin(db: Db, s: string, ref: string, u: int, k: SubKey)
    ensures var db' := AdminLink(db, s, ref, u).0;
            && (k in db.subs ==> k in db'.subs && db'.subs[k].types == db.subs[k].types)
            && (k in db'.subs && k !in db.subs ==> db'.subs[k].types == [])
  {
  }

  lemma TypesMute(db: Db, u: int, s: string, on: bool, k: SubKey)
    ensures var db' := SetMuted(db, u, s, on);
            && (k in db.subs ==> k in db'.subs && db'.subs[k].types == db.subs[k].types)
            && (k in db'.subs ==> k in db.subs)
  {
  }

  lemma TypesToggle(db: Db, a: StoreRuns.Action, k: SubKey)
    requires a.Toggle?
    ensures var db' := ToggleType(db, a.u, a.s, a.typ);
            && (k in db.subs ==> k in db'.subs && db'.subs[k].types == AfterPress(db.subs[k].types, a, k))
            && (k in db'.subs ==> k in db.subs)
  {
    hide Toggled;
  }

  lemma TypesRest(db: Db, a: StoreRuns.Action)
    requires !a.LinkRequest? && !a.Redeem? && !a.Ingest? && !a.EnsureUser? && !a.AdminBind? && !a.Toggle? && !a.Mute?
    ensures StoreRuns.Apply(db, a).subs == db.subs
  {
    hide *;
    if a.Claim? || a.AdminUnbind? {
      TypesClaim(db, a);
    } else if a.Connect? {
      StoreRuns.ApplyCases(db, a);
      TypesSetup(db, a.u, a.chat, a.code, a.now);
    } else {
      StoreRuns.ApplyPlain(db, a);
      match a
      case Upsert(u) => StoreRuns.UpsertFrame(db, u);
      case NewService(s, name) => StoreRuns.ServiceFrame(db, s, name, true);
      case Enable(s, on) => StoreRuns.ServiceFrame(db, s, "", on);
      case IssueLinkCode(code, s, u, ttl, now) => StoreRuns.CodeFrame(db, code, s, u, ttl, now);
      case IssueConnectCode(code, u, ttl, now) => StoreRuns.CodeFrame(db, code, "", u, ttl, now);
    }
  }

  lemma TypesSetup(db: Db, u: int, chat: int, code: string, now: int)
    ensures FinishSetup(db, u, chat, code, now).0.subs == db.subs
  {
  }

  lemma TypesClaim(db: Db, a: StoreRuns.Action)
    requires a.Claim? || a.AdminUnbind?
    ensures StoreRuns.Apply(db, a).subs == db.subs
  {
  }

  /** In any run, whatever else happens: every stored list stays free of duplicates, and as a set it
      is the earlier one with exactly the types flipped that were pressed an odd number of times. */
  lemma {:induction false} ListIsXorOfPresses(dbs: seq<Db>, acts: seq<StoreRuns.Action>, i: nat, j: nat, k: SubKey, t: string)
    requires StoreRuns.IsRun(dbs, acts) && i <= j < |dbs| && k in dbs[i].subs
    ensures k in dbs[j].subs && NoDuplicates(dbs[j].subs[k].types)
    ensures t in dbs[j].subs[k].types <==> (t in dbs[i].subs[k].types) != (Presses(acts[i..j], k, t) % 2 == 1)
  {
    hide StoreRuns.Apply;
    hide AfterPress;
    hide Presses;
    if i == j {
      assert acts[i..j] == [];
      NoPresses(k, t);
      ListsStaySets(dbs, acts, i);
    } else {
      ListIsXorOfPresses(dbs, acts, i, j - 1, k, t);
      TypesStep(dbs[j - 1], acts[j - 1], k);
      assert acts[i..j] == acts[i..j - 1] + [acts[j - 1]];
      PressXor(dbs[j - 1].subs[k].types, acts[i..j - 1], acts[j - 1], k, t);
    }
  }

  lemma NoPresses(k: SubKey, t: string)
    ensures Presses([], k, t) == 0
  {
  }

  lemma PressXor(list: seq<string>, acts: seq<StoreRuns.Action>, a: StoreRuns.Action, k: SubKey, t: string)
    ensures NoDuplicates(list) ==> NoDuplicates(AfterPress(list, a, k))
    ensures (t in AfterPress(list, a, k)) != (t in list) <==> Presses(acts + [a], k, t) % 2 != Presses(acts, k, t) % 2
  {
    hide Toggled;
    assert (acts + [a])[..|acts|] == acts;
    if a.Toggle? { ToggledFacts(list, a.typ); }
  }

  lemma {:induction false} ListsStaySets(dbs: seq<Db>, acts: seq<StoreRuns.Action>, n: nat)
    requires StoreRuns.IsRun(dbs, acts) && n < |dbs|
    ensures ListsAreSets(dbs[n])
  {
    hide StoreRuns.Apply;
    if n > 0 {
      ListsStaySets(dbs, acts, n - 1);
      forall k | k in dbs[n].subs
        ensures NoDuplicates(dbs[n].subs[k].types)
      {
        TypesStep(dbs[n - 1], acts[n - 1], k);
        if k in dbs[n - 1].subs && acts[n - 1].Toggle? { ToggledFacts(dbs[n - 1].subs[k].types, acts[n - 1].typ); }
      }
    }
  }

  // ---------- What a press means for routing ----------

  predicate Flipped(db: Db, db': Db, u: int, s: string, x: string) {
    Admits(db', u, s, x) != Admits(db, u, s, x)
  }

  /** Between `db` and `db'`, exactly type `t` changes between let through and held back. */
  ghost predicate FlipsOnly(db: Db, db': Db, u: int, s: string, t: string) {
    forall x :: Flipped(db, db', u, s, x) <==> x == t
  }

  /** The subscription exists and its list names no type but, perhaps, `t`. */
  ghost predicate Alone(db: Db, u: int, s: string, t: string) {
    (u, s) in db.subs && forall x :: x in db.subs[(u, s)].types ==> x == t
  }

  /** What a press does to every type, for all inputs. Without a subscription it is lost; while muted
      nothing gets through before or after. Otherwise it flips its own type alone; or, if the list
      names no other type, it is or becomes empty, which means "all", and the press flips every type
      but its own. */
  lemma PressFlips(db: Db, u: int, s: string, t: string, x: string)
    ensures var db' := ToggleType(db, u, s, t);
            && ((u, s) !in db.subs ==> db' == db)
            && (Flipped(db, db', u, s, x) <==>
                  (u, s) in db.subs && !db.subs[(u, s)].muted && (x == t <==> !Alone(db, u, s, t)))
  {
    if (u, s) in db.subs {
      hide Toggled;
      var list := db.subs[(u, s)].types;
      ToggledFacts(list, t);
      NonEmptyHas(list);
      NonEmptyHas(Toggled(list, t));
    }
  }

  /** For all inputs: a press does what its button says, flipping its own type and keeping every other,
      exactly when there is a subscription, it is not muted, and its list names another type. */
  lemma PressFlipsOnlyItsTypeIff(db: Db, u: int, s: string, t: string)
    ensures FlipsOnly(db, ToggleType(db, u, s, t), u, s, t) <==>
              (u, s) in db.subs && !db.subs[(u, s)].muted && exists x :: x in db.subs[(u, s)].types && x != t
  {
    hide ToggleType;
    hide Flipped;
    forall x
      ensures Flipped(db, ToggleType(db, u, s, t), u, s, x) <==>
                (u, s) in db.subs && !db.subs[(u, s)].muted && (x == t <==> !Alone(db, u, s, t))
    {
      PressFlips(db, u, s, t, x);
    }
    assert Flipped(db, ToggleType(db, u, s, t), u, s, t) <==> (u, s) in db.subs && !db.subs[(u, s)].muted && !Alone(db, u, s, t);
  }

  lemma NonEmptyHas(list: seq<string>)
    ensures list != [] <==> exists x :: x in list
  {
    if list != [] { assert list[0] in list; }
  }
}
