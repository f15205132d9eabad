/** The per-key coalescing window: pending batches, the three critical sections that touch them,
    and the class whose methods are those sections. Interleavings are in CoalesceRuns. */
module Coalesce {

  /** A coalescing group. */
  datatype Key = Key(userId: int, service: string, typ: string)

  /** One event waiting in a batch. */
  datatype Item = Item(userId: int, eventId: string, severity: string, title: string, text: string, url: string)

  /** The window timer of a batch. `Fired`: its goroutine exists but has not taken the lock yet.
      `Due`: it left its critical section and is about to call Flush. */
  datatype Timer = Armed | Stopped | Fired | Due | Done

  /** The observable fields of one pending batch. */
  datatype Batch = Batch(key: Key, items: seq<Item>, timer: Timer)

  /** Everything the mutex protects: every batch ever allocated, in allocation order, and the map
      from keys to the batch that is registered for them. */
  datatype Shared = Shared(batches: seq<Batch>, reg: map<Key, nat>) {

    ghost predicate WellFormed() {
      forall k :: k in reg ==> reg[k] < |batches| && batches[reg[k]].key == k
    }

    predicate Registered(i: nat)
      requires i < |batches|
    {
      batches[i].key in reg && reg[batches[i].key] == i
    }
  }

  /** The batch an Add under `k` joins: the registered one, else a new one. */
  function Target(sh: Shared, k: Key): nat {
    if k in sh.reg then sh.reg[k] else |sh.batches|
  }

  /** The locked part of Add: join the registered batch or open one with an armed timer. */
  function AddSection(sh: Shared, k: Key, item: Item): Shared
    requires sh.WellFormed()
  {
    if k in sh.reg then
      var i := sh.reg[k];
      sh.(batches := sh.batches[i := sh.batches[i].(items := sh.batches[i].items + [item])])
    else
      Shared(sh.batches + [Batch(k, [item], Armed)], sh.reg[k := |sh.batches|])
  }

  function Opened(sh: Shared, k: Key): Shared {
    Shared(sh.batches + [Batch(k, [], Armed)], sh.reg[k := |sh.batches|])
  }

  function Appended(sh: Shared, i: nat, item: Item): Shared
    requires i < |sh.batches|
  {
    sh.(batches := sh.batches[i := sh.batches[i].(items := sh.batches[i].items + [item])])
  }

  lemma AddInTwo(sh: Shared, k: Key, item: Item)
    requires sh.WellFormed()
    ensures AddSection(sh, k, item) == if k in sh.reg then Appended(sh, sh.reg[k], item) else Appended(Opened(sh, k), |sh.batches|, item)
  {
    var sh' := Opened(sh, k);
    assert [] + [item] == [item];
    assert sh'.batches[|sh.batches| := Batch(k, [item], Armed)] == sh.batches + [Batch(k, [item], Armed)];
  }

  /** time.Timer.Stop: no effect once the timer has fired. */
  function Stop(t: Timer): Timer {
    if t == Armed then Stopped else t
  }

  /** The locked part of forceFlush for batch `i`. */
  function ForceSection(sh: Shared, i: nat): Shared
    requires i < |sh.batches|
  {
    if sh.Registered(i) then
      Shared(sh.batches[i := sh.batches[i].(timer := Stop(sh.batches[i].timer))], sh.reg - {sh.batches[i].key})
    else sh
  }

  /** The locked part of the timer callback of batch `i`, which has fired. */
  function TimerSection(sh: Shared, i: nat): Shared
    requires i < |sh.batches|
  {
    Shared(sh.batches[i := sh.batches[i].(timer := Due)],
           if sh.Registered(i) then sh.reg - {sh.batches[i].key} else sh.reg)
  }

  /** The size at which an Add asks for a forced flush; a non-positive cap acts like 1. */
  function EffectiveCap(cap: int): nat {
    if cap < 1 then 1 else cap
  }

  /** A batch as the source allocates it: identity is the object reference. */
  class Pending {
    const key: Key
    var items: seq<Item>
    var timer: Timer
    ghost const id: nat

    constructor (key: Key, ghost id: nat)
      ensures this.key == key && this.id == id && items == [] && timer == Armed
    {
      this.key, this.items, this.timer, this.id := key, [], Armed, id;
    }
  }

  class Coalescer {
    const cap: int
    var b: map<Key, Pending>
    ghost var all: seq<Pending>
    /** The abstract value: what every batch holds and which ones are registered. */
    ghost var view: Shared

    ghost predicate Valid()
      reads this, all
    {
      && view.WellFormed()
      && |view.batches| == |all|
      && (forall i :: 0 <= i < |all| ==>
            all[i].id == i && view.batches[i] == Batch(all[i].key, all[i].items, all[i].timer))
      && view.reg.Keys == b.Keys
      && (forall k :: k in b ==> Known(b[k]) && view.reg[k] == b[k].id)
    }

    ghost predicate Known(p: Pending)
      reads this`all
    {
      p.id < |all| && all[p.id] == p
    }

    constructor (cap: int)
      ensures Valid() && this.cap == cap && view == Shared([], map[])
    {
      this.cap, b, all, view := cap, map[], [], Shared([], map[]);
    }

    /** First half of Add: append under the lock, report whether the cap is reached. */
    method AddLocked(key: Key, item: Item) returns (p: Pending, hitCap: bool)
      requires Valid()
      modifies this, all
      ensures Valid() && Known(p) && (p in old(all) || fresh(p))
      ensures p.id == Target(old(view), key) && p.key == key
      ensures view == AddSection(old(view), key, item)
      ensures p.items == Open(view, key) && (hitCap <==> |p.items| >= cap)
    {
      hide AddSection;
      AddInTwo(view, key, item);
      p := Fetch(key);
      Append(p, item);
      hitCap := |p.items| >= cap;
    }

    method Append(p: Pending, item: Item)
      requires Valid() && Known(p)
      modifies this`view, p`items
      ensures Valid() && p.items == old(p.items) + [item]
      ensures view == Appended(old(view), p.id, item)
    {
      p.items := p.items + [item];
      view := Appended(view, p.id, item);
    }

    /** The batch registered for `key`, or a new empty one with its timer armed. */
    method Fetch(key: Key) returns (p: Pending)
      requires Valid()
      modifies this`b, this`all, this`view
      ensures Valid() && Known(p) && p.key == key && key in b && b[key] == p
      ensures if key in old(b) then p in old(all) && all == old(all) && view == old(view)
              else fresh(p) && all == old(all) + [p] && view == Opened(old(view), key)
    {
      if key in b {
        p := b[key];
      } else {
        p := new Pending(key, |all|);
        all := all + [p];
        b := b[key := p];
        view := Opened(view, key);
      }
    }

    /** First half of forceFlush: unregister `p` if it is still registered and stop its timer. */
    method ForceFlushLocked(key: Key, p: Pending) returns (flush: bool)
      requires Valid() && Known(p) && p.key == key
      modifies this`b, this`view, p
      ensures Valid() && Known(p) && p.items == old(p.items)
      ensures flush <==> old(view.Registered(p.id))
      ensures view == ForceSection(old(view), p.id)
    {
      if key !in b || b[key] != p {
        return false;
      }
      b := b - {key};
      if p.timer == Armed {
        p.timer := Stopped;
      }
      flush := true;
      view := ForceSection(view, p.id);
    }

    /** First half of the timer callback. It goes on to flush whether or not it unregistered `p`. */
    method TimerLocked(key: Key, p: Pending)
      requires Valid() && Known(p) && p.key == key && p.timer == Fired
      modifies this`b, this`view, p
      ensures Valid() && Known(p) && p.items == old(p.items)
      ensures view == TimerSection(old(view), p.id)
    {
      if key in b && b[key] == p {
        b := b - {key};
      }
      p.timer := Due;
      view := TimerSection(view, p.id);
    }

    /** What Add hands to Flush when nothing comes between its two halves, on whatever overlapping
        calls have left behind. */
    method Add(key: Key, item: Item) returns (flushed: seq<seq<Item>>)
      requires Valid()
      modifies this, all
      ensures Valid()
      ensures old(Below(view, EffectiveCap(cap))) ==> Below(view, EffectiveCap(cap))
      ensures (view, flushed) == AddAlone(old(view), EffectiveCap(cap), key, item)
      ensures flushed == if |old(Open(view, key))| + 1 >= cap then [old(Open(view, key)) + [item]] else []
    {
      var p, hitCap := AddLocked(key, item);
      Joined(old(view), key, item);
      hide Below;
      hide AddSection;
      if old(Below(view, EffectiveCap(cap))) { AloneStaysBelow(old(view), EffectiveCap(cap), key, item); }
      assert p.items == view.batches[p.id].items;
      flushed := [];
      if hitCap {
        var go := ForceFlushLocked(key, p);
        if go && |p.items| != 0 {
          flushed := [p.items];
        }
      }
    }
  }

  /** The items waiting under `k`. */
  function Open(sh: Shared, k: Key): seq<Item>
    requires sh.WellFormed()
  {
    if k in sh.reg then sh.batches[sh.reg[k]].items else []
  }

  /** Every registered batch is non-empty and smaller than `cap`. */
  ghost predicate Below(sh: Shared, cap: nat) {
    sh.WellFormed() && forall k :: k in sh.reg ==> 0 < |Open(sh, k)| < cap
  }

  /** Both halves of Add in one go: the item either waits, or brings its batch to `cap` items, which is
      then flushed whole and unregistered. */
  function AddAlone(sh: Shared, cap: nat, k: Key, item: Item): (Shared, seq<seq<Item>>)
    requires sh.WellFormed()
  {
    var after := AddSection(sh, k, item);
    if |Open(sh, k)| + 1 >= cap
    then (ForceSection(after, Target(sh, k)), [Open(sh, k) + [item]])
    else (after, [])
  }

  lemma Joined(sh: Shared, k: Key, item: Item)
    requires sh.WellFormed()
    ensures var after, i := AddSection(sh, k, item), Target(sh, k);
            && after.WellFormed() && i < |after.batches| && after.Registered(i) && after.batches[i].key == k
            && after.batches[i].items == Open(after, k) == Open(sh, k) + [item]
            && forall k' :: k' != k ==> Open(after, k') == Open(sh, k')
  {
  }

  lemma AloneStaysBelow(sh: Shared, cap: nat, k: Key, item: Item)
    requires Below(sh, cap) && cap >= 1
    ensures Below(AddAlone(sh, cap, k, item).0, cap)
  {
    Joined(sh, k, item);
  }
}
